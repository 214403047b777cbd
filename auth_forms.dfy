/** The client-side checks of the sign-in page: the login and signup schemas, the filter
    on the verification-code input, and the guards before a code is verified and an account
    created. The address syntax check of the schema library is a parameter, `isEmail`. */
module AuthForms {
  import opened Wrappers
  import opened Text

  // ---------------------------------------------------------------- trimming

  /** The characters `String.prototype.trim` removes: ECMAScript white space and line
      terminators. */
  predicate IsWhitespace(c: char) {
    c == '\t' || c == '\n' || c == '\U{B}' || c == '\U{C}' || c == '\r' || c == ' ' ||
    c == '\U{A0}' || c == '\U{1680}' || ('\U{2000}' <= c <= '\U{200A}') ||
    c == '\U{2028}' || c == '\U{2029}' || c == '\U{202F}' || c == '\U{205F}' ||
    c == '\U{3000}' || c == '\U{FEFF}'
  }

  function TrimStart(s: string): (t: string)
    ensures |t| <= |s| && t == s[|s| - |t|..]
    ensures forall i :: 0 <= i < |s| - |t| ==> IsWhitespace(s[i])
    ensures t != [] ==> !IsWhitespace(t[0])
  {
    if s != [] && IsWhitespace(s[0]) then
      var t := TrimStart(s[1..]);
      WhiteFrontShift(s, |s| - |t|);
      assert s[1..][|s| - 1 - |t|..] == s[|s| - |t|..];
      t
    else s
  }

  /** White space at the front of `s[1..]`, after a white first character, is white space
      at the front of `s`. */
  lemma WhiteFrontShift(s: string, m: nat)
    requires s != [] && IsWhitespace(s[0]) && 1 <= m <= |s|
    requires forall i :: 0 <= i < m - 1 ==> IsWhitespace(s[1..][i])
    ensures forall i :: 0 <= i < m ==> IsWhitespace(s[i])
  {
    forall i | 1 <= i < m ensures IsWhitespace(s[i]) {
      assert s[i] == s[1..][i - 1];
    }
  }

  function TrimEnd(s: string): (t: string)
    ensures |t| <= |s| && t == s[..|t|]
    ensures forall i :: |t| <= i < |s| ==> IsWhitespace(s[i])
    ensures t != [] ==> !IsWhitespace(t[|t| - 1])
  {
    if s != [] && IsWhitespace(s[|s| - 1]) then TrimEnd(s[..|s| - 1]) else s
  }

  predicate Trimmed(t: string) {
    t == [] || (!IsWhitespace(t[0]) && !IsWhitespace(t[|t| - 1]))
  }

  /** `s.trim()`: `s` without its leading and trailing white space. */
  function Trim(s: string): (t: string)
    ensures Trimmed(t)
    ensures exists i :: StrippedAt(s, t, i)
  {
    var a := TrimStart(s);
    var t := TrimEnd(a);
    StrippedAround(s, a, t);
    TrimmedAround(a, t);
    t
  }

  /** A prefix of a string that does not start with white space, itself not ending with
      white space, is trimmed. */
  lemma TrimmedAround(a: string, t: string)
    requires a != [] ==> !IsWhitespace(a[0])
    requires |t| <= |a| && t == a[..|t|]
    requires t != [] ==> !IsWhitespace(t[|t| - 1])
    ensures Trimmed(t)
  {
    if t != [] {
      assert t[0] == a[0];
    }
  }

  /** Cutting white space from the front and then from the back leaves `t` stripped at the
      length of the front cut. */
  lemma StrippedAround(s: string, a: string, t: string)
    requires |a| <= |s| && a == s[|s| - |a|..]
    requires forall j :: 0 <= j < |s| - |a| ==> IsWhitespace(s[j])
    requires |t| <= |a| && t == a[..|t|]
    requires forall j :: |t| <= j < |a| ==> IsWhitespace(a[j])
    ensures StrippedAt(s, t, |s| - |a|)
  {
    forall j | |s| - |a| + |t| <= j < |s| ensures IsWhitespace(s[j]) {
      assert s[j] == a[j - (|s| - |a|)];
    }
  }

  /** `t` is `s` with the white space before position `i` and after `t` removed. */
  predicate StrippedAt(s: string, t: string, i: nat) {
    && i + |t| <= |s| && t == s[i..i + |t|]
    && (forall j :: 0 <= j < i ==> IsWhitespace(s[j]))
    && (forall j :: i + |t| <= j < |s| ==> IsWhitespace(s[j]))
  }

  /** A trimmed string is left alone, so trimming twice is trimming once. */
  lemma TrimFixpoint(t: string)
    requires Trimmed(t)
    ensures Trim(t) == t
  {
    assert TrimStart(t) == t;
  }

  lemma TrimIdempotent(s: string)
    ensures Trim(Trim(s)) == Trim(s)
  {
    TrimFixpoint(Trim(s));
  }

  // ---------------------------------------------------------------- schemas

  /** The result of `safeParse`: the parsed data, or the message of the first issue, the
      one the page shows. */
  datatype Parsed<+T> = Parsed(data: T) | Rejected(message: string)

  datatype LoginData = LoginData(email: string, password: string)
  datatype SignupData = SignupData(username: string, email: string, password: string)

  const EmailMaxLength := 255
  const LoginPasswordMin := 6
  const UsernameMin := 3
  const UsernameMax := 20
  const SignupPasswordMin := 12

  const InvalidEmail := "Invalid email address"
  const EmailTooLong := "Email must be less than 255 characters"
  const LoginPasswordShort := "Password must be at least 6 characters"
  const UsernameShort := "Username must be at least 3 characters"
  const UsernameLong := "Username must be less than 20 characters"
  const UsernameCharset := "Username can only contain letters, numbers, and underscores"
  const SignupPasswordShort := "Password must be at least 12 characters"
  const NoUppercase := "Password must contain an uppercase letter"
  const NoLowercase := "Password must contain a lowercase letter"
  const NoDigit := "Password must contain a number"
  const NoSpecial := "Password must contain a special character"

  predicate IsUpper(c: char) { 'A' <= c <= 'Z' }
  predicate IsLower(c: char) { 'a' <= c <= 'z' }

  /** The class `[a-zA-Z0-9_]`. */
  predicate IsUsernameChar(c: char) {
    IsUpper(c) || IsLower(c) || IsDigit(c) || c == '_'
  }

  /** `/^[a-zA-Z0-9_]+$/`. */
  predicate UsernameShape(u: string) {
    u != [] && forall i :: 0 <= i < |u| ==> IsUsernameChar(u[i])
  }

  /** The password regexes `/[A-Z]/`, `/[a-z]/`, `/[0-9]/` and `/[^A-Za-z0-9]/`. */
  predicate HasUpper(p: string) { exists i :: 0 <= i < |p| && IsUpper(p[i]) }
  predicate HasLower(p: string) { exists i :: 0 <= i < |p| && IsLower(p[i]) }
  predicate HasDigit(p: string) { exists i :: 0 <= i < |p| && IsDigit(p[i]) }
  predicate HasSpecial(p: string) { exists i :: 0 <= i < |p| && !(IsUpper(p[i]) || IsLower(p[i]) || IsDigit(p[i])) }

  /** The issues of `z.string().trim().email().max(255)` on `email`, in check order. */
  function EmailIssues(email: string, isEmail: string -> bool): seq<string> {
    var e := Trim(email);
    (if isEmail(e) then [] else [InvalidEmail]) +
    (if |e| <= EmailMaxLength then [] else [EmailTooLong])
  }

  /** The issues of `loginSchema`, field by field in declaration order. */
  function LoginIssues(email: string, password: string, isEmail: string -> bool): seq<string> {
    EmailIssues(email, isEmail) +
    (if |password| >= LoginPasswordMin then [] else [LoginPasswordShort])
  }

  /** `loginSchema.safeParse({email, password})`. */
  function ParseLogin(email: string, password: string, isEmail: string -> bool): (r: Parsed<LoginData>)
    ensures r.Parsed? <==>
      isEmail(Trim(email)) && |Trim(email)| <= EmailMaxLength && |password| >= LoginPasswordMin
    ensures r.Parsed? ==> r.data == LoginData(Trim(email), password) && Trimmed(r.data.email)
  {
    var issues := LoginIssues(email, password, isEmail);
    if issues == [] then Parsed(LoginData(Trim(email), password)) else Rejected(issues[0])
  }

  /** The message shown for a rejected login is that of the first failing check: the address
      syntax, then its length, then the password length. */
  lemma LoginMessages(email: string, password: string, isEmail: string -> bool)
    ensures !isEmail(Trim(email)) ==> ParseLogin(email, password, isEmail) == Rejected(InvalidEmail)
    ensures isEmail(Trim(email)) && |Trim(email)| > EmailMaxLength ==>
      ParseLogin(email, password, isEmail) == Rejected(EmailTooLong)
    ensures EmailIssues(email, isEmail) == [] && |password| < LoginPasswordMin ==>
      ParseLogin(email, password, isEmail) == Rejected(LoginPasswordShort)
  {
  }

  /** The issues of the username field: trim, at least 3, at most 20, the charset. */
  function UsernameIssues(username: string): seq<string> {
    var u := Trim(username);
    (if |u| >= UsernameMin then [] else [UsernameShort]) +
    (if |u| <= UsernameMax then [] else [UsernameLong]) +
    (if UsernameShape(u) then [] else [UsernameCharset])
  }

  /** The issues of the signup password field: at least 12, then the four classes. */
  function PasswordIssues(password: string): seq<string> {
    (if |password| >= SignupPasswordMin then [] else [SignupPasswordShort]) +
    (if HasUpper(password) then [] else [NoUppercase]) +
    (if HasLower(password) then [] else [NoLowercase]) +
    (if HasDigit(password) then [] else [NoDigit]) +
    (if HasSpecial(password) then [] else [NoSpecial])
  }

  predicate StrongPassword(p: string) {
    |p| >= SignupPasswordMin && HasUpper(p) && HasLower(p) && HasDigit(p) && HasSpecial(p)
  }

  /** `signupSchema.safeParse({username, email, password})`. */
  function ParseSignup(username: string, email: string, password: string, isEmail: string -> bool)
    : (r: Parsed<SignupData>)
    ensures r.Parsed? <==>
      && UsernameMin <= |Trim(username)| <= UsernameMax
      && (forall i :: 0 <= i < |Trim(username)| ==> IsUsernameChar(Trim(username)[i]))
      && isEmail(Trim(email)) && |Trim(email)| <= EmailMaxLength
      && StrongPassword(password)
    ensures r.Parsed? ==> r.data == SignupData(Trim(username), Trim(email), password)
    ensures |Trim(username)| < UsernameMin ==> r == Rejected(UsernameShort)
    ensures UsernameIssues(username) == [] && !isEmail(Trim(email)) ==> r == Rejected(InvalidEmail)
    ensures UsernameIssues(username) == [] && EmailIssues(email, isEmail) == [] && |password| < SignupPasswordMin ==>
      r == Rejected(SignupPasswordShort)
  {
    var issues := UsernameIssues(username) + EmailIssues(email, isEmail) + PasswordIssues(password);
    if issues == [] then Parsed(SignupData(Trim(username), Trim(email), password))
    else Rejected(issues[0])
  }

  /** An accepted username holds no white space, so it is its own trim. */
  lemma AcceptedUsernameIsTrimmed(username: string, email: string, password: string, isEmail: string -> bool)
    ensures var r := ParseSignup(username, email, password, isEmail);
      r.Parsed? ==>
        && Trim(r.data.username) == r.data.username
        && forall i :: 0 <= i < |r.data.username| ==> !IsWhitespace(r.data.username[i])
  {
    var r := ParseSignup(username, email, password, isEmail);
    if r.Parsed? {
      var u := Trim(username);
      assert r.data.username == u;
      UsernameCharsAreNotWhitespace(u);
      TrimIdempotent(username);
    }
  }

  lemma UsernameCharsAreNotWhitespace(u: string)
    requires forall i :: 0 <= i < |u| ==> IsUsernameChar(u[i])
    ensures forall i :: 0 <= i < |u| ==> !IsWhitespace(u[i])
  {
  }

  /** Whatever signup accepts, login accepts too, both with the address as typed and
      with the trimmed address that signup hands on. */
  lemma SignupPassesLogin(username: string, email: string, password: string, isEmail: string -> bool)
    ensures ParseSignup(username, email, password, isEmail).Parsed? ==>
      && ParseLogin(email, password, isEmail) == Parsed(LoginData(Trim(email), password))
      && ParseLogin(Trim(email), password, isEmail) == Parsed(LoginData(Trim(email), password))
  {
    TrimIdempotent(email);
  }

  // ---------------------------------------------------------------- code input

  /** `value.replace(/\D/g, "")`: the digits of `s`, in order. */
  function DigitsOnly(s: string): (d: string)
    ensures |d| <= |s| && AllDigits(d)
  {
    if s == [] then [] else (if IsDigit(s[0]) then [s[0]] else []) + DigitsOnly(s[1..])
  }

  /** Removing non-digits distributes over concatenation. */
  lemma {:induction false} DigitsOnlyConcat(a: string, b: string)
    ensures DigitsOnly(a + b) == DigitsOnly(a) + DigitsOnly(b)
  {
    if a != [] {
      var head := if IsDigit(a[0]) then [a[0]] else [];
      assert (a + b)[0] == a[0];
      assert (a + b)[1..] == a[1..] + b;
      assert DigitsOnly(a + b) == head + DigitsOnly(a[1..] + b);
      DigitsOnlyConcat(a[1..], b);
      assert DigitsOnly(a) == head + DigitsOnly(a[1..]);
    } else {
      assert a + b == b;
    }
  }

  /** A string of digits passes the filter unchanged. */
  lemma {:induction false} DigitsOnlyOfDigits(s: string)
    requires AllDigits(s)
    ensures DigitsOnly(s) == s
  {
    if s != [] {
      DigitsOnlyOfDigits(s[1..]);
    }
  }

  /** A string keeps all its characters through the filter exactly when they are all digits. */
  lemma {:induction false} DigitsOnlyKeepsAll(s: string)
    ensures |DigitsOnly(s)| == |s| <==> AllDigits(s)
  {
    if s != [] {
      DigitsOnlyKeepsAll(s[1..]);
      assert AllDigits(s) <==> IsDigit(s[0]) && AllDigits(s[1..]);
    }
  }

  const CodeMaxLength := 6

  /** The field's value once the browser applies `maxLength={6}`: of what the keystroke or
      paste would make the value, the first six characters. */
  function FieldValue(raw: string): (v: string)
    ensures |v| == (if |raw| < CodeMaxLength then |raw| else CodeMaxLength)
    ensures v == raw[..|v|]
  {
    if |raw| <= CodeMaxLength then raw else raw[..CodeMaxLength]
  }

  /** One `onChange` event of the code input: `value.replace(/\D/g, "").slice(0, 6)` on the
      value the browser lets through, where `raw` is what a single edit at the end of the
      field (a keystroke, or a paste into the empty field) would make the value. The slice
      never cuts anything, and the field is full (six digits) exactly when the first six
      characters of `raw` are all digits. */
  function CodeInput(raw: string): (c: string)
    ensures AllDigits(c) && |c| <= CodeMaxLength
    ensures c == DigitsOnly(FieldValue(raw))
    ensures |c| == CodeMaxLength <==> |raw| >= CodeMaxLength && AllDigits(raw[..CodeMaxLength])
  {
    var d := DigitsOnly(FieldValue(raw));
    DigitsOnlyKeepsAll(FieldValue(raw));
    d[..if |d| < CodeMaxLength then |d| else CodeMaxLength]
  }

  /** A code with a separator pasted into the empty field loses its last digit to the
      length limit: "123-456" leaves "123-45" in the field, which filters to "12345". */
  lemma PastedSeparatorLosesDigit()
    ensures CodeInput("123-456") == "12345"
  {
    assert FieldValue("123-456") == "123-45";
    assert DigitsOnly("123-45") == "12345";
  }

  /** Filtering twice is filtering once. */
  lemma CodeInputIdempotent(raw: string)
    ensures CodeInput(CodeInput(raw)) == CodeInput(raw)
  {
    DigitsOnlyOfDigits(CodeInput(raw));
  }

  /** Up to six digits are kept exactly as typed. */
  lemma CodeInputKeepsCodes(s: string)
    requires AllDigits(s) && |s| <= 6
    ensures CodeInput(s) == s
  {
    DigitsOnlyOfDigits(s);
  }

  /** Typing `keys` one at a time at the end of a field that holds `field`: every keystroke
      is one `onChange` event on the old value with the key appended. */
  function TypeKeys(field: string, keys: string): string
    decreases |keys|
  {
    if keys == [] then field else TypeKeys(CodeInput(field + [keys[0]]), keys[1..])
  }

  /** One keystroke at the end of a field of at most six digits adds the key when it is a
      digit and the field has room, and otherwise leaves the field alone. */
  lemma TypeKeyStep(field: string, k: char)
    requires AllDigits(field) && |field| <= CodeMaxLength
    ensures CodeInput(field + [k]) == FieldValue(field + DigitsOnly([k]))
  {
    DigitsOnlyOfDigits(field);
    if |field| < CodeMaxLength {
      assert FieldValue(field + [k]) == field + [k];
      DigitsOnlyConcat(field, [k]);
    } else {
      assert FieldValue(field + [k]) == field;
      assert (field + DigitsOnly([k]))[..CodeMaxLength] == field;
    }
  }

  /** Cutting to six characters before appending changes nothing once the result is cut. */
  lemma FieldValueAppend(x: string, y: string)
    ensures FieldValue(FieldValue(x) + y) == FieldValue(x + y)
  {
    if |x| > CodeMaxLength {
      assert (FieldValue(x) + y)[..CodeMaxLength] == (x + y)[..CodeMaxLength];
    }
  }

  /** Typing keys into a field of at most six digits leaves the first six characters of the
      field followed by the digits typed: a typed separator is removed at once and takes up
      no room. */
  lemma {:induction false} TypedKeys(field: string, keys: string)
    requires AllDigits(field) && |field| <= CodeMaxLength
    ensures TypeKeys(field, keys) == FieldValue(field + DigitsOnly(keys))
    decreases |keys|
  {
    if keys == [] {
      assert field + DigitsOnly(keys) == field;
    } else {
      var k, rest := keys[0], keys[1..];
      var field' := CodeInput(field + [k]);
      assert TypeKeys(field, keys) == TypeKeys(field', rest);
      TypeKeyStep(field, k);
      TypedKeys(field', rest);
      var d, e := DigitsOnly([k]), DigitsOnly(rest);
      FieldValueAppend(field + d, e);
      assert keys == [k] + rest;
      DigitsOnlyConcat([k], rest);
      assert DigitsOnly(keys) == d + e;
      AppendAssoc(field, d, e);
    }
  }

  lemma AppendAssoc(a: string, b: string, c: string)
    ensures (a + b) + c == a + (b + c)
  {
  }

  /** Typing into the empty field leaves the first six digits typed, and the field is full
      exactly when at least six digits were typed. */
  lemma TypedIntoEmptyField(keys: string)
    ensures TypeKeys("", keys) == FieldValue(DigitsOnly(keys))
    ensures |TypeKeys("", keys)| == CodeMaxLength <==> |DigitsOnly(keys)| >= CodeMaxLength
  {
    TypedKeys("", keys);
    assert "" + DigitsOnly(keys) == DigitsOnly(keys);
  }

  /** Typed key by key, "123-456" fills the field with "123456"; pasted at once, it leaves
      "12345". */
  lemma TypedSeparatorLosesNothing(keys: string)
    requires keys == "123-456"
    ensures TypeKeys("", keys) == "123456"
    ensures CodeInput(keys) == "12345"
  {
    assert DigitsOnly(keys) == "123456";
    TypedIntoEmptyField(keys);
    PastedSeparatorLosesDigit();
  }

  // ---------------------------------------------------------------- verifying

  datatype PendingSignup = PendingSignup(email: string, password: string, username: string)

  /** What the page does when the code form is submitted: refuse with a message, or call
      the validating function with the pending address and the typed code. */
  datatype VerifyStep = Refuse(message: string) | CallVerify(email: string, code: string)

  const NoPendingData := "No pending signup data"
  const NeedSixDigits := "Please enter a 6-digit code"
  const VerifyFailed := "Invalid or expired verification code"

  /** The two guards at the top of `handleVerifyCode`. */
  function BeginVerify(pending: Option<PendingSignup>, code: string): (s: VerifyStep)
    ensures s.CallVerify? <==> pending.Some? && |code| == 6
    ensures pending.None? ==> s == Refuse(NoPendingData)
    ensures pending.Some? && |code| != 6 ==> s == Refuse(NeedSixDigits)
    ensures s.CallVerify? ==> s.email == pending.value.email && s.code == code
  {
    if pending.None? then Refuse(NoPendingData)
    else if |code| != 6 then Refuse(NeedSixDigits)
    else CallVerify(pending.value.email, code)
  }

  /** After one edit, the filtered code passes the length guard exactly when the first six
      characters of the edited value are all digits; "123-456" pasted into the empty field is
      refused. */
  lemma LengthGuardAfterFilter(pending: PendingSignup, raw: string)
    ensures BeginVerify(Some(pending), CodeInput(raw)).CallVerify? <==>
      |raw| >= CodeMaxLength && AllDigits(raw[..CodeMaxLength])
    ensures BeginVerify(Some(pending), CodeInput("123-456")) == Refuse(NeedSixDigits)
  {
    PastedSeparatorLosesDigit();
  }

  /** Typed key by key into the empty field, the code passes the length guard exactly when
      at least six digits were typed; typed "123-456" is sent for validation as "123456". */
  lemma LengthGuardAfterTyping(pending: PendingSignup, keys: string)
    ensures BeginVerify(Some(pending), TypeKeys("", keys)).CallVerify? <==>
      |DigitsOnly(keys)| >= CodeMaxLength
    ensures BeginVerify(Some(pending), TypeKeys("", "123-456")) == CallVerify(pending.email, "123456")
  {
    TypedIntoEmptyField(keys);
    TypedSeparatorLosesNothing("123-456");
  }

  /** The body the validating function answered with, as the page sees it. */
  datatype VerifyResult = VerifyResult(valid: bool, error: Option<string>)

  datatype Decision = ShowError(message: string) | CreateAccount(email: string, password: string, username: string)

  /** What the page does with the answer: `verifyError || !verifyResult?.valid` shows
      `verifyResult?.error || "Invalid or expired verification code"`; otherwise the account
      is created from the pending data. */
  function FinishVerify(pending: PendingSignup, invokeFailed: bool, result: Option<VerifyResult>): (d: Decision)
    ensures d.CreateAccount? <==> !invokeFailed && result.Some? && result.value.valid
    ensures d.CreateAccount? ==> d == CreateAccount(pending.email, pending.password, pending.username)
    ensures d.ShowError? ==> d.message != ""
    ensures d.ShowError? && result.Some? && result.value.error.Some? && result.value.error.value != "" ==>
      d.message == result.value.error.value
  {
    if invokeFailed || result.None? || !result.value.valid then
      var shown := if result.Some? && result.value.error.Some? && result.value.error.value != ""
                   then result.value.error.value else VerifyFailed;
      ShowError(shown)
    else
      CreateAccount(pending.email, pending.password, pending.username)
  }
}
