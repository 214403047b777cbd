/** The `verify-code` edge function: after a rate guard, find the newest unused,
    unexpired row for the email and code, and mark it used. */
module VerifyCode {
  import opened Wrappers
  import opened CodeStore

  const AttemptWindow := 5
  const AttemptLimit := 5
  const Required := "Email and code are required"
  const TooManyAttempts := "Too many attempts. Please try again later."
  const InvalidOrExpired := "Invalid or expired code"
  const InternalError := "Internal server error"

  /** `{valid: true}` with status 200, or `{valid: false, error}` with a status code. */
  datatype VerifyReply = Valid | Invalid(status: nat, error: string)

  /** The negation of `!email || !code`. */
  predicate Present(email: Option<string>, code: Option<string>) {
    email.Some? && email.value != "" && code.Some? && code.value != ""
  }

  /** The row filter of the lookup: same email, same code, not used, `expires_at > now`. */
  predicate Live(r: CodeRow, email: string, code: string, now: int) {
    r.email == email && r.code == code && !r.used && r.expiresAt > now
  }

  /** The lookup `order by created_at desc limit 1`: the id of a live row with the latest
      creation time (among rows created at the same time, the one inserted last), or none
      when no row is live. */
  function NewestMatch(rows: seq<CodeRow>, email: string, code: string, now: int): (k: Option<nat>)
    ensures k.Some? ==> k.value < |rows| && Live(rows[k.value], email, code, now)
    ensures k.Some? ==> forall j :: 0 <= j < |rows| && Live(rows[j], email, code, now) ==>
      rows[j].createdAt <= rows[k.value].createdAt
    ensures k.None? <==> forall j :: 0 <= j < |rows| ==> !Live(rows[j], email, code, now)
    decreases |rows|
  {
    if rows == [] then None
    else
      var n := |rows| - 1;
      var k := NewestMatch(rows[..n], email, code, now);
      if Live(rows[n], email, code, now) && (k.None? || rows[k.value].createdAt <= rows[n].createdAt)
      then Some(n)
      else k
  }

  /** `update verification_codes set used = true where id = k`. */
  function MarkUsed(rows: seq<CodeRow>, k: nat): (rows': seq<CodeRow>)
    requires k < |rows|
    ensures |rows'| == |rows| && rows'[k].used
    ensures rows'[k] == rows[k].(used := true)
    ensures forall i :: 0 <= i < |rows| && i != k ==> rows'[i] == rows[i]
  {
    rows[k := rows[k].(used := true)]
  }

  /** A code that has been accepted once is never accepted again. */
  lemma UsedRowNeverMatches(rows: seq<CodeRow>, k: nat, email: string, code: string, now: int)
    requires k < |rows|
    ensures NewestMatch(MarkUsed(rows, k), email, code, now) != Some(k)
  {
  }

  /** A second validation with the same email and code fails once the accepted row was
      the only live one: whenever it happens, nothing is left to match. */
  lemma SecondVerifyFails(rows: seq<CodeRow>, email: string, code: string, now: int, later: int)
    requires NewestMatch(rows, email, code, now).Some?
    requires forall j :: 0 <= j < |rows| && Live(rows[j], email, code, now) ==> j == NewestMatch(rows, email, code, now).value
    requires now <= later
    ensures NewestMatch(MarkUsed(rows, NewestMatch(rows, email, code, now).value), email, code, later).None?
  {
  }

  /** A row whose expiry time has been reached is never matched, even if it was never
      used; when every row has expired, nothing matches. */
  lemma ExpiredNeverMatches(rows: seq<CodeRow>, k: nat, email: string, code: string, now: int)
    requires k < |rows| && rows[k].expiresAt <= now
    ensures NewestMatch(rows, email, code, now) != Some(k)
    ensures (forall i :: 0 <= i < |rows| ==> rows[i].expiresAt <= now) ==>
      NewestMatch(rows, email, code, now).None?
  {
  }

  /** Marking a row used keeps the table capped: no limit counts the `used` column. */
  lemma MarkUsedKeepsCapped(rows: seq<CodeRow>, k: nat)
    requires Capped(rows) && k < |rows|
    ensures Capped(MarkUsed(rows, k))
  {
    var rows' := MarkUsed(rows, k);
    forall j | 0 <= j < |rows'| ensures Admitted(rows', j) {
      forall key | HasKey(rows'[j], key)
        ensures CountSince(rows'[..j], key, rows'[j].createdAt - Hour) < Limit(key)
      {
        MarkUsedKeepsRowCapped(rows, k, j, key);
      }
    }
  }

  lemma MarkUsedKeepsRowCapped(rows: seq<CodeRow>, k: nat, j: nat, key: Key)
    requires Capped(rows) && k < |rows| && j < |rows|
    requires HasKey(MarkUsed(rows, k)[j], key)
    ensures CountSince(MarkUsed(rows, k)[..j], key, MarkUsed(rows, k)[j].createdAt - Hour) < Limit(key)
  {
    var a, b := MarkUsed(rows, k)[..j], rows[..j];
    assert SameKeys(a, b) by {
      forall i | 0 <= i < |a| ensures a[i].email == b[i].email && a[i].ip == b[i].ip && a[i].createdAt == b[i].createdAt {
        assert a[i] == MarkUsed(rows, k)[i];
      }
    }
    CountSinceSameKeys(a, b, key, rows[j].createdAt - Hour);
    assert HasKey(rows[j], key) && Admitted(rows, j);
  }

  /** The rate guard counts rows created for the email in the last five minutes, that is,
      codes issued, not failed attempts. Issuance admits at most three codes per email per
      hour, so whenever every row was created no later than `now` the count is at most
      three and the guard (more than five) cannot trip. */
  lemma RateGuardNeverTrips(rows: seq<CodeRow>, email: string, now: int)
    requires Capped(rows)
    requires forall i :: 0 <= i < |rows| ==> rows[i].createdAt <= now
    ensures CountSince(rows, ByEmail(email), now - AttemptWindow) <= EmailHourlyLimit
    ensures !(CountSince(rows, ByEmail(email), now - AttemptWindow) > AttemptLimit)
  {
    CapBoundsRecentCount(rows, ByEmail(email), now - AttemptWindow);
  }

  /** The request handler. `email` and `code` are the JSON fields, `now` the time in
      minutes and `updateFails` whether the update of the `used` flag reports an error. */
  method Handle(table: CodeTable, email: Option<string>, code: Option<string>, now: int, updateFails: bool)
    returns (reply: VerifyReply)
    requires table.Valid()
    modifies table
    ensures table.Valid()
    ensures !Present(email, code) ==> reply == Invalid(400, Required)
    ensures Present(email, code) && CountSince(old(table.rows), ByEmail(email.value), now - AttemptWindow) > AttemptLimit ==>
      reply == Invalid(429, TooManyAttempts)
    ensures Present(email, code) && CountSince(old(table.rows), ByEmail(email.value), now - AttemptWindow) <= AttemptLimit ==>
      match NewestMatch(old(table.rows), email.value, code.value, now)
      case None => reply == Invalid(400, InvalidOrExpired)
      case Some(k) =>
        if updateFails then reply == Invalid(500, InternalError)
        else reply == Valid && table.rows == MarkUsed(old(table.rows), k)
    ensures reply != Valid ==> table.rows == old(table.rows)
    ensures |table.rows| == |old(table.rows)|
    ensures forall i :: 0 <= i < |table.rows| && old(table.rows)[i].used ==> table.rows[i].used
    ensures (forall i :: 0 <= i < |old(table.rows)| ==> old(table.rows)[i].createdAt <= now) ==>
      reply != Invalid(429, TooManyAttempts)
  {
    ghost var before := table.rows;
    if !Present(email, code) {
      return Invalid(400, Required);
    }
    if CountSince(table.rows, ByEmail(email.value), now - AttemptWindow) > AttemptLimit {
      RateGuardOnlyWhenFutureRows(before, email.value, now);
      return Invalid(429, TooManyAttempts);
    }
    var found := NewestMatch(table.rows, email.value, code.value, now);
    if found.None? {
      return Invalid(400, InvalidOrExpired);
    }
    if updateFails {
      return Invalid(500, InternalError);
    }
    MarkUsedKeepsCapped(table.rows, found.value);
    table.rows := MarkUsed(table.rows, found.value);
    return Valid;
  }

  /** The contrapositive of `RateGuardNeverTrips`, in the form the handler uses. */
  lemma RateGuardOnlyWhenFutureRows(rows: seq<CodeRow>, email: string, now: int)
    requires Capped(rows)
    requires CountSince(rows, ByEmail(email), now - AttemptWindow) > AttemptLimit
    ensures exists i :: 0 <= i < |rows| && rows[i].createdAt > now
  {
    if forall i :: 0 <= i < |rows| ==> rows[i].createdAt <= now {
      RateGuardNeverTrips(rows, email, now);
    }
  }
}
