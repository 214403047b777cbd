/** The `send-verification-code` edge function: check the address, apply the per-email
    and per-IP hourly limits, store a fresh 6-digit code valid for 10 minutes, then hand
    it to the email service. The row is stored before the send, so it stays even when the
    send fails. */
module SendVerificationCode {
  import opened Wrappers
  import opened Text
  import opened CodeStore

  const CodeLifetime := 10
  const InvalidEmail := "Invalid email address"
  const TooManyCodes := "Too many verification codes requested. Please try again later."
  const TooManyFromIp := "Too many requests from your location. Please try again later."
  const StoreFailed := "Failed to store verification code"
  const SendFailed := "Failed to send verification email"
  const NotConfigured := "Email service not configured. Administrator needs to verify a domain at resend.com/domains to enable email sending to all users."

  /** `{success: true}` with status 200, or `{error}` with a status code. */
  datatype IssueReply = Sent | Failed(status: nat, error: string)

  /** The message handed to the email service. */
  datatype Mail = Mail(to: string, code: string)

  /** The negation of `!email || !email.includes("@")`. */
  function ValidEmail(email: Option<string>): (ok: bool)
    ensures ok <==> email.Some? && exists i :: 0 <= i < |email.value| && email.value[i] == '@'
    ensures ok ==> email.value != ""
  {
    email.Some? && email.value != "" && '@' in email.value
  }

  /** `x-forwarded-for?.split(",")[0] || x-real-ip || "unknown"`. */
  function ClientIp(forwardedFor: Option<string>, realIp: Option<string>): (ip: string)
    ensures ip != ""
    ensures forwardedFor.Some? && FirstField(forwardedFor.value) != "" ==>
      ip == FirstField(forwardedFor.value) && forwardedFor.value[..|ip|] == ip && ',' !in ip
    ensures (forwardedFor.None? || FirstField(forwardedFor.value) == "") && realIp.Some? && realIp.value != "" ==>
      ip == realIp.value
    ensures (forwardedFor.None? || FirstField(forwardedFor.value) == "") && (realIp.None? || realIp.value == "") ==>
      ip == "unknown"
  {
    var first := if forwardedFor.Some? then FirstField(forwardedFor.value) else "";
    if first != "" then first
    else if realIp.Some? && realIp.value != "" then realIp.value
    else "unknown"
  }

  /** `Math.floor(100000 + Math.random() * 900000).toString()`: always six digits, never a
      leading zero, and it denotes a number in [100000, 999999]. */
  function GenerateCode(draw: real): (code: string)
    requires 0.0 <= draw < 1.0
    ensures |code| == 6 && AllDigits(code) && code[0] != '0'
    ensures 100000 <= DecimalValue(code) <= 999999
  {
    var n := (100000.0 + draw * 900000.0).Floor;
    assert 100000 <= n <= 999999;
    assert Pow10(5) == 100000 && Pow10(6) == 1000000;
    DecimalLength(n, 6);
    DecimalRoundTrip(n);
    DecimalString(n)
  }

  /** The answer once the row is stored, given the email service's error, if any. */
  function SendOutcome(sendError: Option<string>): (reply: IssueReply)
    ensures reply == Sent <==> sendError.None?
    ensures reply.Failed? ==> reply.status == 500
  {
    match sendError
    case None => Sent
    case Some(message) => if Contains(message, "verify a domain") then Failed(500, NotConfigured) else Failed(500, SendFailed)
  }

  /** The request handler. `email` is the JSON field, `forwardedFor` and `realIp` the two
      headers, `now` the time in minutes, `draw` the `Math.random()` value, `insertError`
      the error of the insert, if any, and `sendError` the error of the email service, if
      any. `mail` is what was handed to the email service, if it was called at all. */
  method Handle(table: CodeTable, email: Option<string>, forwardedFor: Option<string>,
                realIp: Option<string>, now: int, draw: real,
                insertError: Option<string>, sendError: Option<string>)
    returns (reply: IssueReply, mail: Option<Mail>)
    requires table.Valid()
    requires 0.0 <= draw < 1.0
    modifies table
    ensures table.Valid()
    ensures !ValidEmail(email) ==> reply == Failed(400, InvalidEmail) && mail.None?
    ensures ValidEmail(email) && CountSince(old(table.rows), ByEmail(email.value), now - Hour) >= EmailHourlyLimit ==>
      reply == Failed(429, TooManyCodes) && mail.None?
    ensures ValidEmail(email) && CountSince(old(table.rows), ByEmail(email.value), now - Hour) < EmailHourlyLimit ==>
      var ip := ClientIp(forwardedFor, realIp);
      var row := CodeRow(email.value, GenerateCode(draw), ip, now, now + CodeLifetime, false);
      if CountSince(old(table.rows), ByIp(ip), now - Hour) >= IpHourlyLimit then
        reply == Failed(429, TooManyFromIp) && mail.None?
      else if insertError.Some? then
        reply == Failed(500, StoreFailed) && mail.None?
      else
        table.rows == old(table.rows) + [row] &&
        mail == Some(Mail(email.value, row.code)) &&
        reply == SendOutcome(sendError)
    ensures mail.None? ==> table.rows == old(table.rows)
    ensures mail.Some? ==> |table.rows| == |old(table.rows)| + 1 && table.rows[..|old(table.rows)|] == old(table.rows)
    ensures reply == Sent ==> mail.Some?
  {
    mail := None;
    if !ValidEmail(email) {
      return Failed(400, InvalidEmail), None;
    }
    var e := email.value;
    if CountSince(table.rows, ByEmail(e), now - Hour) >= EmailHourlyLimit {
      return Failed(429, TooManyCodes), None;
    }
    var ip := ClientIp(forwardedFor, realIp);
    if CountSince(table.rows, ByIp(ip), now - Hour) >= IpHourlyLimit {
      return Failed(429, TooManyFromIp), None;
    }
    var code := GenerateCode(draw);
    var row := CodeRow(e, code, ip, now, now + CodeLifetime, false);
    if insertError.Some? {
      return Failed(500, StoreFailed), None;
    }
    ghost var before := table.rows;
    table.rows := table.rows + [row];
    AppendKeepsCapped(before, row);
    mail := Some(Mail(e, code));
    reply := SendOutcome(sendError);
  }

  /** Appending a row that both limits admit keeps the table capped. */
  lemma AppendKeepsCapped(rows: seq<CodeRow>, row: CodeRow)
    requires Capped(rows)
    requires CountSince(rows, ByEmail(row.email), row.createdAt - Hour) < EmailHourlyLimit
    requires CountSince(rows, ByIp(row.ip), row.createdAt - Hour) < IpHourlyLimit
    ensures Capped(rows + [row])
  {
    var rows' := rows + [row];
    forall j | 0 <= j < |rows'| ensures Admitted(rows', j) {
      if j < |rows| {
        assert rows[..j + 1] == rows'[..j + 1];
        AdmittedSamePrefix(rows, rows', j);
      } else {
        assert rows'[..j] == rows && rows'[j] == row;
      }
    }
  }
}
