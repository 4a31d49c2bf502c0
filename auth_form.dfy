/** The `Auth` page's form: field validation, the error map built at sign-up
    submit, and what a submit sends.  The form is a record of four strings;
    the page's mode, form and errors are its state. */
module AuthForm {
  import opened JsText

  datatype Form = Form(name: string, email: string, password: string, confirmPassword: string)

  /** What a submit does: show the errors, or send a login or a registration. */
  datatype SubmitOutcome =
    | ShowErrors(errors: map<string, string>)
    | SendLogin(email: string, password: string)
    | SendRegister(name: string, email: string, password: string)

  /** The fields checked at sign-up submit, in order. */
  const SignupFields: seq<string> := ["name", "email", "password", "confirmPassword"]

  /** `form[field]`; a name outside the form reads as "". */
  function FieldValue(form: Form, field: string): string {
    if field == "name" then form.name
    else if field == "email" then form.email
    else if field == "password" then form.password
    else if field == "confirmPassword" then form.confirmPassword
    else ""
  }

  // ---------------------------------------------------------------------
  // The patterns

  /** `/^[A-Za-z\s]+$/`. */
  predicate NameMatches(s: string) {
    |s| > 0 && forall i :: 0 <= i < |s| ==> IsAsciiLetter(s[i]) || IsSpace(s[i])
  }

  /** `[^\s@]+` without the length: no white space and no `@`. */
  predicate Plain(s: string) {
    forall i :: 0 <= i < |s| ==> !IsSpace(s[i]) && s[i] != '@'
  }

  /** `/^[^\s@]+@[^\s@]+\.[^\s@]+$/` as the pattern reads: some `@` at `i`
      and some `.` at `j` cut the string into three non-empty plain parts. */
  ghost predicate EmailPattern(s: string) {
    exists i, j :: 0 < i && i + 1 < j && j + 1 < |s| && s[i] == '@' && s[j] == '.'
      && Plain(s[..i]) && Plain(s[i + 1..j]) && Plain(s[j + 1..])
  }

  /** A `.` strictly inside `t`. */
  predicate HasInnerDot(t: string) {
    exists k :: 0 < k < |t| - 1 && t[k] == '.'
  }

  /** The email check as it can be computed: no white space, exactly one
      `@` with text before it, and a `.` that is neither first nor last after
      it (see `EmailOkIsPattern`). */
  predicate EmailOk(s: string) {
    var parts := SplitOn(s, '@');
    NoSpace(s) && |parts| == 2 && parts[0] != "" && HasInnerDot(parts[1])
  }

  /** `value.length`: UTF-16 code units, two for a character outside the
      Basic Multilingual Plane. */
  function Utf16Length(s: string): (n: nat)
    ensures |s| <= n <= 2 * |s|
  {
    if s == [] then 0 else (if s[0] as int > 0xFFFF then 2 else 1) + Utf16Length(s[1..])
  }

  predicate IsPasswordSymbol(c: char) {
    c == '!' || c == '@' || c == '#' || c == '$' || c == '%' || c == '^' || c == '&' || c == '*'
  }

  /** At least 8 code units, with an upper-case letter, a lower-case letter,
      a digit and one of `!@#$%^&*`. */
  predicate PasswordOk(s: string) {
    Utf16Length(s) >= 8
    && (exists i :: 0 <= i < |s| && IsAsciiUpper(s[i]))
    && (exists i :: 0 <= i < |s| && IsAsciiLower(s[i]))
    && (exists i :: 0 <= i < |s| && IsDigit(s[i]))
    && (exists i :: 0 <= i < |s| && IsPasswordSymbol(s[i]))
  }

  // ---------------------------------------------------------------------
  // The validator

  /** `validateField(name, value)`: the message for one field, "" when it is
      acceptable.  Password and confirmation are checked only at sign-up. */
  function ValidateField(isLogin: bool, form: Form, field: string, value: string): (message: string)
    ensures field == "name" ==>
      (message == "Name is required" <==> value == "")
      && (message == "" <==> NameMatches(value))
      && (value != "" && !NameMatches(value) ==> message == "Enter a valid name (letters only)")
    ensures field == "email" ==>
      (message == "Email is required" <==> value == "")
      && (message == "" <==> EmailPattern(value))
      && (value != "" && !EmailPattern(value) ==> message == "Enter a valid email address")
    ensures field == "password" ==>
      (isLogin ==> message == "")
      && (!isLogin ==> (message == "Password is required" <==> value == "")
                       && (message == "" <==> PasswordOk(value))
                       && (value != "" && !PasswordOk(value) ==> message == "Password does not meet requirements"))
    ensures field == "confirmPassword" ==>
      (isLogin ==> message == "")
      && (!isLogin ==> (message == "Please confirm your password" <==> value == "")
                       && (message == "" <==> value != "" && value == form.password)
                       && (value != "" && value != form.password ==> message == "Passwords do not match"))
    ensures field !in SignupFields ==> message == ""
  {
    EmailOkIsPattern(value);
    if field == "name" then
      if value == "" then "Name is required"
      else if !NameMatches(value) then "Enter a valid name (letters only)"
      else ""
    else if field == "email" then
      if value == "" then "Email is required"
      else if !EmailOk(value) then "Enter a valid email address"
      else ""
    else if field == "password" && !isLogin then
      if value == "" then "Password is required"
      else if !PasswordOk(value) then "Password does not meet requirements"
      else ""
    else if field == "confirmPassword" && !isLogin then
      if value == "" then "Please confirm your password"
      else if value != form.password then "Passwords do not match"
      else ""
    else ""
  }

  /** A name of white space only is accepted. */
  lemma BlankNameAccepted(isLogin: bool, form: Form, value: string)
    requires |value| > 0 && AllSpace(value)
    ensures ValidateField(isLogin, form, "name", value) == ""
  {
  }

  // ---------------------------------------------------------------------
  // The email pattern, computed

  /** The computed email check agrees with the pattern on every string. */
  lemma EmailOkIsPattern(s: string)
    ensures EmailOk(s) <==> EmailPattern(s)
  {
    if EmailOk(s) {
      EmailOkGivesPattern(s);
    }
    if EmailPattern(s) {
      var i, j :| 0 < i && i + 1 < j && j + 1 < |s| && s[i] == '@' && s[j] == '.'
        && Plain(s[..i]) && Plain(s[i + 1..j]) && Plain(s[j + 1..]);
      PatternGivesEmailOk(s, i, j);
    }
  }

  lemma EmailOkGivesPattern(s: string)
    requires EmailOk(s)
    ensures EmailPattern(s)
  {
    var parts := SplitOn(s, '@');
    var a, t := parts[0], parts[1];
    JoinSplitOn(s, '@');
    assert parts[1..] == [t];
    assert s == a + "@" + t;
    var k :| 0 < k < |t| - 1 && t[k] == '.';
    var i, j := |a|, |a| + 1 + k;
    assert s[..i] == a;
    assert s[i + 1..j] == t[..k];
    assert s[j + 1..] == t[k + 1..];
    assert s[i] == '@' && s[j] == '.';
    forall x | 0 <= x < |s| ensures !IsSpace(s[x]) { }
    var u, v := t[..k], t[k + 1..];
    assert Plain(a) by {
      forall x | 0 <= x < |a| ensures a[x] != '@' { assert a[x] in a; }
    }
    assert Plain(u) by {
      forall x | 0 <= x < |u| ensures u[x] != '@' { assert u[x] == t[x]; assert t[x] in t; }
    }
    assert Plain(v) by {
      forall x | 0 <= x < |v| ensures v[x] != '@' { assert v[x] == t[k + 1 + x]; assert t[k + 1 + x] in t; }
    }
  }

  lemma PatternGivesEmailOk(s: string, i: int, j: int)
    requires 0 < i && i + 1 < j && j + 1 < |s| && s[i] == '@' && s[j] == '.'
    requires Plain(s[..i]) && Plain(s[i + 1..j]) && Plain(s[j + 1..])
    ensures EmailOk(s)
  {
    var a, t := s[..i], s[i + 1..];
    assert s == a + ['@'] + t;
    assert '@' !in a by {
      forall x | 0 <= x < |a| ensures a[x] != '@' { }
    }
    assert '@' !in t by {
      forall x | 0 <= x < |t| ensures t[x] != '@' {
        if x < j - i - 1 {
          assert t[x] == s[i + 1..j][x];
        } else if x > j - i - 1 {
          assert t[x] == s[j + 1..][x - (j - i)];
        }
      }
    }
    SplitOnAt(a, t, '@');
    SplitOnWithout(t, '@');
    var k := j - i - 1;
    assert t[k] == '.';
    forall x | 0 <= x < |s| ensures !IsSpace(s[x]) {
      if x < i {
        assert s[x] == s[..i][x];
      } else if i < x < j {
        assert s[x] == s[i + 1..j][x - i - 1];
      } else if x > j {
        assert s[x] == s[j + 1..][x - j - 1];
      }
    }
  }

  // ---------------------------------------------------------------------
  // Submit

  /** The message `handleSubmit` computes for field `f` at sign-up. */
  function SignupMessage(form: Form, f: string): string {
    ValidateField(false, form, f, FieldValue(form, f))
  }

  /** The error map after the `forEach` has visited `fields`: each field
      visited whose message is not empty, with that message. */
  function ErrorsOver(form: Form, fields: seq<string>): (errors: map<string, string>)
    ensures forall f :: f in errors <==> f in fields && SignupMessage(form, f) != ""
    ensures forall f :: f in errors ==> errors[f] == SignupMessage(form, f)
  {
    if fields == [] then map[]
    else
      var before := ErrorsOver(form, fields[..|fields| - 1]);
      var field := fields[|fields| - 1];
      var message := SignupMessage(form, field);
      if message != "" then before[field := message] else before
  }

  /** The sign-up error map: each of the four fields whose message is not
      empty, with that message. */
  function SignupErrors(form: Form): (errors: map<string, string>)
    ensures forall f :: f in errors <==> f in SignupFields && SignupMessage(form, f) != ""
    ensures forall f :: f in errors ==> errors[f] == SignupMessage(form, f)
  {
    ErrorsOver(form, SignupFields)
  }

  /** The sign-up error map is empty exactly when the name matches its
      pattern, the email matches its pattern, the password meets the
      requirements and the confirmation repeats it. */
  lemma SignupErrorsEmpty(form: Form)
    ensures SignupErrors(form) == map[] <==>
      NameMatches(form.name) && EmailPattern(form.email) && PasswordOk(form.password)
      && form.confirmPassword != "" && form.confirmPassword == form.password
  {
    NameMessage(form);
    EmailMessage(form);
    PasswordMessage(form);
    ConfirmMessage(form);
    var e := SignupErrors(form);
    if e == map[] {
      assert "name" !in e && "email" !in e && "password" !in e && "confirmPassword" !in e;
    } else {
      var f :| f in e;
      assert f == "name" || f == "email" || f == "password" || f == "confirmPassword";
    }
  }

  lemma NameMessage(form: Form)
    ensures SignupMessage(form, "name") == "" <==> NameMatches(form.name)
  {
  }

  lemma EmailMessage(form: Form)
    ensures SignupMessage(form, "email") == "" <==> EmailPattern(form.email)
  {
  }

  lemma PasswordMessage(form: Form)
    ensures SignupMessage(form, "password") == "" <==> PasswordOk(form.password)
  {
  }

  lemma ConfirmMessage(form: Form)
    ensures SignupMessage(form, "confirmPassword") == ""
      <==> form.confirmPassword != "" && form.confirmPassword == form.password
  {
  }

  class Auth {
    var isLogin: bool
    var form: Form
    var errors: map<string, string>

    /** The page opens in login mode with an empty form and no errors. */
    constructor ()
      ensures isLogin && form == Form("", "", "", "") && errors == map[]
    {
      isLogin := true;
      form := Form("", "", "", "");
      errors := map[];
    }

    /** `handleChange`: the named field takes the value. */
    method HandleChange(field: string, value: string)
      modifies this
      ensures field == "name" ==> form == old(form).(name := value)
      ensures field == "email" ==> form == old(form).(email := value)
      ensures field == "password" ==> form == old(form).(password := value)
      ensures field == "confirmPassword" ==> form == old(form).(confirmPassword := value)
      ensures field !in SignupFields ==> form == old(form)
      ensures isLogin == old(isLogin) && errors == old(errors)
    {
      if field == "name" {
        form := form.(name := value);
      } else if field == "email" {
        form := form.(email := value);
      } else if field == "password" {
        form := form.(password := value);
      } else if field == "confirmPassword" {
        form := form.(confirmPassword := value);
      }
    }

    /** `handleBlur`: the field's message is recorded, "" included. */
    method HandleBlur(field: string, value: string)
      modifies this
      ensures errors == old(errors)[field := ValidateField(isLogin, form, field, value)]
      ensures isLogin == old(isLogin) && form == old(form)
    {
      var message := ValidateField(isLogin, form, field, value);
      errors := errors[field := message];
    }

    /** The forEach of `handleSubmit` over the four sign-up fields. */
    method CollectSignupErrors() returns (newErrors: map<string, string>)
      requires !isLogin
      ensures newErrors == SignupErrors(form)
    {
      newErrors := map[];
      var n := 0;
      while n < |SignupFields|
        invariant 0 <= n <= |SignupFields|
        invariant newErrors == ErrorsOver(form, SignupFields[..n])
      {
        var field := SignupFields[n];
        var message := ValidateField(isLogin, form, field, FieldValue(form, field));
        assert message == SignupMessage(form, field);
        if message != "" {
          newErrors := newErrors[field := message];
        }
        assert SignupFields[..n + 1][..n] == SignupFields[..n];
        n := n + 1;
      }
      assert SignupFields[..n] == SignupFields;
    }

    /** `handleSubmit`: at sign-up a non-empty error map is shown and nothing
        is sent; otherwise login sends the trimmed email and the password,
        and sign-up sends the trimmed name and email and the password. */
    method HandleSubmit() returns (outcome: SubmitOutcome)
      modifies this
      ensures !isLogin && SignupErrors(form) != map[] ==>
        outcome == ShowErrors(SignupErrors(form)) && errors == SignupErrors(form)
      ensures isLogin ==> outcome == SendLogin(Trim(form.email), form.password) && errors == map[]
      ensures !isLogin && SignupErrors(form) == map[] ==>
        outcome == SendRegister(Trim(form.name), Trim(form.email), form.password) && errors == map[]
      ensures isLogin == old(isLogin) && form == old(form)
    {
      errors := map[];
      if !isLogin {
        var newErrors := CollectSignupErrors();
        if newErrors != map[] {
          errors := newErrors;
          return ShowErrors(newErrors);
        }
      }
      if isLogin {
        outcome := SendLogin(Trim(form.email), form.password);
      } else {
        outcome := SendRegister(Trim(form.name), Trim(form.email), form.password);
      }
    }

    /** The "Create your account" / "Sign-In" link: the mode flips and the
        errors are cleared; the form is kept. */
    method ToggleMode()
      modifies this
      ensures isLogin == !old(isLogin) && errors == map[] && form == old(form)
    {
      isLogin := !isLogin;
      errors := map[];
    }

    /** A successful registration switches the page to login mode. */
    method OnRegistered()
      modifies this
      ensures isLogin && form == old(form) && errors == old(errors)
    {
      isLogin := true;
    }
  }
}
