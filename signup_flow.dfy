/** How the pieces of the email-verification flow fit together: the sign-in page, the
    issuing function and the validating function. */
module SignupFlow {
  import opened Wrappers
  import opened Text
  import opened CodeStore
  import SendVerificationCode
  import VerifyCode
  import AuthForms

  /** An issued code, typed as received, survives the page's input filter and passes the
      length guard, so the page sends it to the validating function unchanged. */
  lemma IssuedCodeSurvivesInput(draw: real, pending: AuthForms.PendingSignup)
    requires 0.0 <= draw < 1.0
    ensures var code := SendVerificationCode.GenerateCode(draw);
      && AuthForms.CodeInput(code) == code
      && AuthForms.BeginVerify(Some(pending), AuthForms.CodeInput(code)) == AuthForms.CallVerify(pending.email, code)
  {
    AuthForms.CodeInputKeepsCodes(SendVerificationCode.GenerateCode(draw));
  }

  /** A freshly issued code is accepted, and it is the new row that gets used: if every
      earlier row was created no later than the new one, a validation of the same email and
      code within its ten minutes picks the new row. */
  lemma IssuedCodeVerifies(rows: seq<CodeRow>, email: string, ip: string, draw: real, issuedAt: int, now: int)
    requires 0.0 <= draw < 1.0
    requires forall i :: 0 <= i < |rows| ==> rows[i].createdAt <= issuedAt
    requires issuedAt <= now < issuedAt + SendVerificationCode.CodeLifetime
    ensures var code := SendVerificationCode.GenerateCode(draw);
      var row := CodeRow(email, code, ip, issuedAt, issuedAt + SendVerificationCode.CodeLifetime, false);
      VerifyCode.NewestMatch(rows + [row], email, code, now) == Some(|rows|)
  {
    var code := SendVerificationCode.GenerateCode(draw);
    var row := CodeRow(email, code, ip, issuedAt, issuedAt + SendVerificationCode.CodeLifetime, false);
    assert (rows + [row])[..|rows|] == rows;
  }
}
