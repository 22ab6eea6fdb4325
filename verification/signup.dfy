/** static/js/registration.js: the client-side sign-up form. A nickname must
    be checked (and not edited since), the two passwords must agree, and the
    password must satisfy the form's policy before the form data is sent. */
module Signup {

  /** The characters `String.prototype.trim` removes: ECMAScript white space
      and line terminators. */
  predicate IsJsWhitespace(c: char) {
    c == '\t' || c == '\n' || c == '\U{000B}' || c == '\U{000C}' || c == '\r' || c == ' '
    || c == '\U{00A0}' || c == '\U{1680}' || ('\U{2000}' <= c <= '\U{200A}')
    || c == '\U{2028}' || c == '\U{2029}' || c == '\U{202F}' || c == '\U{205F}'
    || c == '\U{3000}' || c == '\U{FEFF}'
  }

  /** Drop leading white space. */
  function TrimStart(s: string): (r: string)
    ensures |r| <= |s| && r == s[|s| - |r|..]
    ensures |r| > 0 ==> !IsJsWhitespace(r[0])
    ensures forall i :: 0 <= i < |s| - |r| ==> IsJsWhitespace(s[i])
  {
    if |s| > 0 && IsJsWhitespace(s[0]) then TrimStart(s[1..]) else s
  }

  /** Drop trailing white space. */
  function TrimEnd(s: string): (r: string)
    ensures |r| <= |s| && r == s[..|r|]
    ensures |r| > 0 ==> !IsJsWhitespace(r[|r| - 1])
    ensures forall i :: |r| <= i < |s| ==> IsJsWhitespace(s[i])
  {
    if |s| > 0 && IsJsWhitespace(s[|s| - 1]) then TrimEnd(s[..|s| - 1]) else s
  }

  /** `String.prototype.trim`. */
  function Trim(s: string): string {
    TrimEnd(TrimStart(s))
  }

  /** A trimmed text is empty exactly when every character of the input is
      white space: a nickname of blanks alone counts as not entered. */
  lemma {:induction false} TrimEmptyIff(s: string)
    ensures Trim(s) == "" <==> forall i :: 0 <= i < |s| ==> IsJsWhitespace(s[i])
  {
    var t := TrimStart(s);
    if Trim(s) == "" {
      // a non-empty TrimStart result starts with a character TrimEnd keeps
      assert |t| == 0;
    } else {
      var r := Trim(s);
      assert r[0] == t[0];
      assert s[|s| - |t|] == t[0];
      if |t| == |r| {
        assert !IsJsWhitespace(t[0]);
      } else {
        assert !IsJsWhitespace(r[|r| - 1]);
        assert !IsJsWhitespace(s[|s| - |t| + |r| - 1]);
      }
    }
  }

  /** Trimming keeps a text with no white space at either end as it is. */
  lemma TrimKeepsInner(s: string)
    requires |s| > 0 && !IsJsWhitespace(s[0]) && !IsJsWhitespace(s[|s| - 1])
    ensures Trim(s) == s
  {
  }

  // ---------------------------------------------------------------
  // The password policy:  ^(?=.*[A-Za-z])(?=.*\d)(?=.*[@$!%*#?&])[A-Za-z\d@$!%*#?&]{8,}$
  // ---------------------------------------------------------------

  predicate IsLetter(c: char) { ('A' <= c <= 'Z') || ('a' <= c <= 'z') }

  /** `\d` of a regular expression without the `u` flag: ASCII digits only. */
  predicate IsDigit(c: char) { '0' <= c <= '9' }

  predicate IsSpecial(c: char) {
    c == '@' || c == '$' || c == '!' || c == '%' || c == '*' || c == '#' || c == '?' || c == '&'
  }

  /** The class every character must belong to. */
  predicate IsAllowed(c: char) { IsLetter(c) || IsDigit(c) || IsSpecial(c) }

  /** What the expression accepts: eight or more characters, all from the
      allowed class, among them at least one letter, one digit and one of
      `@$!%*#?&`. The whole input must match because of `^` and `$`; since
      every character is then in the class, the `.*` of the look-aheads never
      meets a line terminator. */
  predicate PasswordPolicy(p: string) {
    |p| >= 8
    && (forall i :: 0 <= i < |p| ==> IsAllowed(p[i]))
    && (exists i :: 0 <= i < |p| && IsLetter(p[i]))
    && (exists i :: 0 <= i < |p| && IsDigit(p[i]))
    && (exists i :: 0 <= i < |p| && IsSpecial(p[i]))
  }

  /** `passwordRegex.test(password)`, as one left-to-right scan. */
  method MatchesPasswordPolicy(p: string) returns (ok: bool)
    ensures ok <==> PasswordPolicy(p)
  {
    var letter, digit, special, allowed := false, false, false, true;
    var i := 0;
    while i < |p|
      invariant 0 <= i <= |p|
      invariant letter <==> exists j :: 0 <= j < i && IsLetter(p[j])
      invariant digit <==> exists j :: 0 <= j < i && IsDigit(p[j])
      invariant special <==> exists j :: 0 <= j < i && IsSpecial(p[j])
      invariant allowed <==> forall j :: 0 <= j < i ==> IsAllowed(p[j])
    {
      var c := p[i];
      letter := letter || IsLetter(c);
      digit := digit || IsDigit(c);
      special := special || IsSpecial(c);
      allowed := allowed && IsAllowed(c);
      i := i + 1;
    }
    ok := |p| >= 8 && allowed && letter && digit && special;
  }

  /** Passwords on either side of each of the policy's rules. */
  lemma PolicyExamples()
    ensures PasswordPolicy("abcd123!")
    ensures !PasswordPolicy("abc123!")      // seven characters
    ensures !PasswordPolicy("abcdefgh1")    // no special character
    ensures !PasswordPolicy("12345678!")    // no letter
    ensures !PasswordPolicy("abcdefg!!")    // no digit
    ensures !PasswordPolicy("abcd 123!")    // a space is outside the class
  {
    assert IsLetter("abcd123!"[0]) && IsDigit("abcd123!"[4]) && IsSpecial("abcd123!"[7]);
    assert !IsAllowed("abcd 123!"[4]);
  }

  // ---------------------------------------------------------------
  // The form's state and its event handlers
  // ---------------------------------------------------------------

  /** `nicknameChecked` and the two status lines the handlers write. */
  datatype FormState = FormState(nicknameChecked: bool, nicknameStatus: string, passwordMatch: string)

  /** The page as loaded. */
  const Initial := FormState(false, "", "")

  const EnterNicknameStatus := "별명을 입력해주세요."
  const NicknameAvailableStatus := "✓ 사용 가능한 별명입니다."
  const NicknameTakenStatus := "✗ 이미 사용 중인 별명입니다."
  const CheckFailedStatus := "확인 중 오류가 발생했습니다."

  /** The answer of the availability check. The page draws it at random, so
      it is an input here; `CheckFailed` stands for the `catch` branch. */
  datatype Availability = Available | Taken | CheckFailed

  /** `checkNickname`: a blank nickname only asks for one; otherwise the
      availability answer decides whether the nickname counts as checked. */
  function CheckNickname(st: FormState, nickname: string, answer: Availability): (r: FormState)
    ensures r.passwordMatch == st.passwordMatch
    ensures r.nicknameChecked <==> (Trim(nickname) == "" && st.nicknameChecked) || (Trim(nickname) != "" && answer == Available)
  {
    if Trim(nickname) == "" then st.(nicknameStatus := EnterNicknameStatus)
    else match answer
      case Available => st.(nicknameStatus := NicknameAvailableStatus, nicknameChecked := true)
      case Taken => st.(nicknameStatus := NicknameTakenStatus, nicknameChecked := false)
      case CheckFailed => st.(nicknameStatus := CheckFailedStatus, nicknameChecked := false)
  }

  /** The nickname field's `input` listener: any edit withdraws the check. */
  function NicknameEdited(st: FormState): (r: FormState)
    ensures !r.nicknameChecked && r.nicknameStatus == ""
    ensures r.passwordMatch == st.passwordMatch
  {
    st.(nicknameChecked := false, nicknameStatus := "")
  }

  const PasswordsMatchStatus := "✓ 비밀번호가 일치합니다."
  const PasswordsDifferStatus := "✗ 비밀번호가 일치하지 않습니다."

  /** The confirmation field's `input` listener. */
  function ConfirmEdited(st: FormState, password: string, confirm: string): (r: FormState)
    ensures r.nicknameChecked == st.nicknameChecked && r.nicknameStatus == st.nicknameStatus
    ensures r.passwordMatch == "" <==> confirm == ""
    ensures confirm != "" ==> (r.passwordMatch == PasswordsMatchStatus <==> password == confirm)
    ensures confirm != "" && password != confirm ==> r.passwordMatch == PasswordsDifferStatus
  {
    if confirm == "" then st.(passwordMatch := "")
    else if password == confirm then st.(passwordMatch := PasswordsMatchStatus)
    else st.(passwordMatch := PasswordsDifferStatus)
  }

  /** The fields of the sign-up form. */
  datatype SignupForm = SignupForm(email: string, name: string, nickname: string, password: string, confirm: string)

  /** The data `handleSignup` assembles; the confirmation is not part of it. */
  datatype FormData = FormData(email: string, name: string, nickname: string, password: string)

  /** How a submission ends: blocked by an alert, or completed with the data
      (the request itself is commented out in the page; it announces success
      and closes the window). */
  datatype SignupOutcome = Blocked(alert: string) | Completed(data: FormData)

  const NicknameNotCheckedAlert := "별명 중복 확인을 해주세요."
  const PasswordMismatchAlert := "비밀번호가 일치하지 않습니다."
  const WeakPasswordAlert := "비밀번호는 최소 8자 이상이며, 영문, 숫자, 특수문자를 포함해야 합니다."

  /** `handleSignup`: three gates in a fixed order, then the form data. */
  method HandleSignup(st: FormState, form: SignupForm) returns (out: SignupOutcome)
    ensures out.Completed? <==> st.nicknameChecked && form.password == form.confirm && PasswordPolicy(form.password)
    ensures out.Completed? ==> out.data == FormData(form.email, form.name, form.nickname, form.password)
    ensures !st.nicknameChecked ==> out == Blocked(NicknameNotCheckedAlert)
    ensures st.nicknameChecked && form.password != form.confirm ==> out == Blocked(PasswordMismatchAlert)
    ensures st.nicknameChecked && form.password == form.confirm && !PasswordPolicy(form.password) ==>
              out == Blocked(WeakPasswordAlert)
  {
    if !st.nicknameChecked {
      return Blocked(NicknameNotCheckedAlert);
    }
    if form.password != form.confirm {
      return Blocked(PasswordMismatchAlert);
    }
    var strong := MatchesPasswordPolicy(form.password);
    if !strong {
      return Blocked(WeakPasswordAlert);
    }
    out := Completed(FormData(form.email, form.name, form.nickname, form.password));
  }

  /** A nickname edited after its check must be checked again: whatever the
      rest of the form holds, the next submission is blocked on the nickname. */
  lemma EditAfterCheckBlocks(st: FormState, nickname: string, answer: Availability)
    ensures !NicknameEdited(CheckNickname(st, nickname, answer)).nicknameChecked
    ensures CheckNickname(Initial, nickname, answer).nicknameChecked <==> Trim(nickname) != "" && answer == Available
  {
  }

  /** A blank nickname never becomes checked from the initial page, whatever
      the availability answer would have been. */
  lemma BlankNicknameNeverChecked(nickname: string, answer: Availability)
    requires forall i :: 0 <= i < |nickname| ==> IsJsWhitespace(nickname[i])
    ensures !CheckNickname(Initial, nickname, answer).nicknameChecked
    ensures CheckNickname(Initial, nickname, answer).nicknameStatus == EnterNicknameStatus
  {
    TrimEmptyIff(nickname);
  }
}
