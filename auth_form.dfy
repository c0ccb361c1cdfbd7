/** The sign-in and registration form (src/pages/AuthPage.jsx): which errors
    the form reports before it is submitted, how the phone field reformats
    what is typed into it, and how typing clears a field's error. */
module AuthForm {
  import opened Common

  datatype Field = Name | Email | Password | Phone

  datatype FormData = FormData(name: string, email: string, password: string, phone: string)

  /** The `errors` state: a message per field. An empty message shows nothing. */
  type Errors = map<Field, string>

  const EmailRequired: string := "Email is required"
  const EmailInvalid: string := "Email is invalid"
  const PasswordRequired: string := "Password is required"
  const PasswordTooShort: string := "Password must be at least 6 characters"
  const NameRequired: string := "Name is required"
  const PhoneFormat: string := "Phone number format: (123) 456-7890"

  const MinPasswordLength := 6
  const MaxPhoneDigits := 10

  function FieldValue(form: FormData, f: Field): string {
    match f
    case Name => form.name
    case Email => form.email
    case Password => form.password
    case Phone => form.phone
  }

  function WithField(form: FormData, f: Field, v: string): FormData {
    match f
    case Name => form.(name := v)
    case Email => form.(email := v)
    case Password => form.(password := v)
    case Phone => form.(phone := v)
  }

  // ------------------------------------------------ the two regular expressions

  /** JavaScript's `\s`: the whitespace and line-terminator characters. */
  predicate IsWhitespace(c: char) {
    || c == ' ' || c == '\t' || c == '\n' || c == '\r' || c == '\U{000B}' || c == '\U{000C}'
    || c == '\U{00A0}' || c == '\U{1680}' || ('\U{2000}' <= c <= '\U{200A}')
    || c == '\U{2028}' || c == '\U{2029}' || c == '\U{202F}' || c == '\U{205F}'
    || c == '\U{3000}' || c == '\U{FEFF}'
  }

  /** JavaScript's `\d`: an ASCII digit. */
  predicate IsDigit(c: char) {
    '0' <= c <= '9'
  }

  predicate AllDigits(s: string) {
    forall k :: 0 <= k < |s| ==> IsDigit(s[k])
  }

  /** The email pattern matched with its `@` at position at and its `.` at
      position dot: a non-space before the `@`, a non-empty run of non-spaces
      between the two, and a non-space after the `.`. */
  predicate EmailAt(s: string, at: int, dot: int) {
    && 0 < at && at + 1 < dot < |s| - 1
    && s[at] == '@' && !IsWhitespace(s[at - 1])
    && s[dot] == '.' && !IsWhitespace(s[dot + 1])
    && forall k :: at + 1 <= k < dot ==> !IsWhitespace(s[k])
  }

  /** `/\S+@\S+\.\S+/.test(s)`, which is not anchored: the pattern matches
      somewhere in s. */
  predicate EmailPattern(s: string) {
    exists at, dot | 0 < at < dot < |s| :: EmailAt(s, at, dot)
  }

  /** `/^\(\d{3}\) \d{3}-\d{4}$/.test(s)`. */
  predicate PhonePattern(s: string) {
    && |s| == 14
    && s[0] == '(' && AllDigits(s[1..4]) && s[4] == ')' && s[5] == ' '
    && AllDigits(s[6..9]) && s[9] == '-' && AllDigits(s[10..])
  }

  /** A match stays a match, moved along, when text is put in front. */
  lemma EmailAtShift(s: string, before: string, at: int, dot: int)
    requires EmailAt(s, at, dot)
    ensures EmailAt(before + s, |before| + at, |before| + dot)
  {
    var t, n := before + s, |before|;
    assert t[n + at] == s[at] && t[n + at - 1] == s[at - 1];
    assert t[n + dot] == s[dot] && t[n + dot + 1] == s[dot + 1];
    forall k | n + at + 1 <= k < n + dot ensures !IsWhitespace(t[k]) {
      assert t[k] == s[k - n];
    }
  }

  /** A match stays a match, in place, when text is put behind. */
  lemma EmailAtExtend(s: string, after: string, at: int, dot: int)
    requires EmailAt(s, at, dot)
    ensures EmailAt(s + after, at, dot)
  {
    var t := s + after;
    assert t[at] == s[at] && t[at - 1] == s[at - 1];
    assert t[dot] == s[dot] && t[dot + 1] == s[dot + 1];
    forall k | at + 1 <= k < dot ensures !IsWhitespace(t[k]) {
      assert t[k] == s[k];
    }
  }

  /** Text in front of a matching address does not make it fail. */
  lemma EmailAfterPrefix(s: string, before: string)
    requires EmailPattern(s)
    ensures EmailPattern(before + s)
  {
    var at, dot :| 0 < at < dot < |s| && EmailAt(s, at, dot);
    EmailAtShift(s, before, at, dot);
  }

  /** Text behind a matching address does not make it fail. */
  lemma EmailBeforeSuffix(s: string, after: string)
    requires EmailPattern(s)
    ensures EmailPattern(s + after)
  {
    var at, dot :| 0 < at < dot < |s| && EmailAt(s, at, dot);
    EmailAtExtend(s, after, at, dot);
  }

  /** Because the email pattern is not anchored, text around a matching
      address does not make it fail. */
  lemma EmailUnanchored(s: string, before: string, after: string)
    requires EmailPattern(s)
    ensures EmailPattern(before + s + after)
  {
    EmailAfterPrefix(s, before);
    EmailBeforeSuffix(before + s, after);
  }

  /** The shortest accepted address, and one the pattern refuses. */
  lemma EmailExamples()
    ensures EmailPattern("a@b.c")
    ensures !EmailPattern("a@b")
    ensures !EmailPattern("")
  {
    var s := "a@b.c";
    assert s[1] == '@' && s[3] == '.' && !IsWhitespace(s[0]) && !IsWhitespace(s[4]) && !IsWhitespace(s[2]);
    assert EmailAt(s, 1, 3);
  }

  // ---------------------------------------------------------- validateForm

  /** What the form accepts, stated field by field. */
  predicate Acceptable(form: FormData, isLogin: bool) {
    && EmailPattern(form.email)
    && |form.password| >= MinPasswordLength
    && (!isLogin ==> form.name != "" && (form.phone == "" || PhonePattern(form.phone)))
  }

  /** `validateForm`: the errors it records and whether the form may be sent.
      Name and phone are checked only when registering; the phone may be left
      empty. */
  method ValidateForm(form: FormData, isLogin: bool) returns (errors: Errors, valid: bool)
    ensures valid <==> errors == map[]
    ensures valid <==> Acceptable(form, isLogin)
    ensures Email in errors <==> !EmailPattern(form.email)
    ensures Email in errors ==> errors[Email] == if form.email == "" then EmailRequired else EmailInvalid
    ensures Password in errors <==> |form.password| < MinPasswordLength
    ensures Password in errors ==> errors[Password] == if form.password == "" then PasswordRequired else PasswordTooShort
    ensures Name in errors <==> !isLogin && form.name == ""
    ensures Name in errors ==> errors[Name] == NameRequired
    ensures Phone in errors <==> !isLogin && form.phone != "" && !PhonePattern(form.phone)
    ensures Phone in errors ==> errors[Phone] == PhoneFormat
  {
    var newErrors: Errors := map[];

    if form.email == "" {
      newErrors := newErrors[Email := EmailRequired];
    } else if !EmailPattern(form.email) {
      newErrors := newErrors[Email := EmailInvalid];
    }

    if form.password == "" {
      newErrors := newErrors[Password := PasswordRequired];
    } else if |form.password| < MinPasswordLength {
      newErrors := newErrors[Password := PasswordTooShort];
    }

    if !isLogin {
      if form.name == "" {
        newErrors := newErrors[Name := NameRequired];
      }
      if form.phone != "" && !PhonePattern(form.phone) {
        newErrors := newErrors[Phone := PhoneFormat];
      }
    }

    errors := newErrors;
    valid := |newErrors.Keys| == 0;
    assert valid <==> newErrors.Keys == {};
  }

  // ------------------------------------------------------ the phone formatter

  /** `value.replace(/\D/g, '')`: the digits of the value, in order. */
  function DigitsOnly(s: string): (r: string)
    ensures AllDigits(r) && |r| <= |s|
  {
    if |s| == 0 then ""
    else (if IsDigit(s[0]) then [s[0]] else "") + DigitsOnly(s[1..])
  }

  lemma {:induction false} DigitsOnlyAppend(a: string, b: string)
    ensures DigitsOnly(a + b) == DigitsOnly(a) + DigitsOnly(b)
  {
    if |a| > 0 {
      assert (a + b)[1..] == a[1..] + b;
      DigitsOnlyAppend(a[1..], b);
    } else {
      assert a + b == b;
    }
  }

  lemma {:induction false} DigitsOnlyOfDigits(s: string)
    requires AllDigits(s)
    ensures DigitsOnly(s) == s
  {
    if |s| > 0 {
      DigitsOnlyOfDigits(s[1..]);
      assert s == [s[0]] + s[1..];
    }
  }

  /** A value without digits cleans to nothing: every non-digit is removed. */
  lemma {:induction false} DigitsOnlyOfNonDigits(s: string)
    requires forall k :: 0 <= k < |s| ==> !IsDigit(s[k])
    ensures DigitsOnly(s) == ""
  {
    if |s| > 0 {
      DigitsOnlyOfNonDigits(s[1..]);
    }
  }

  /** Keeping the digits twice is keeping them once. */
  lemma DigitsOnlyIdempotent(s: string)
    ensures DigitsOnly(DigitsOnly(s)) == DigitsOnly(s)
  {
    DigitsOnlyOfDigits(DigitsOnly(s));
  }

  /** The three capture groups of a phone match. */
  datatype PhoneMatch = PhoneMatch(g1: string, g2: string, g3: string)

  /** `cleaned.match(/^(\d{0,3})(\d{0,3})(\d{0,4})$/)` on a digit string: the
      match exists exactly when there are at most ten digits; its groups then
      split the digits in order, greedily (a group is non-empty only when the
      groups before it are full). */
  function PhoneGroups(d: string): (g: Option<PhoneMatch>)
    requires AllDigits(d)
    ensures g.Some? <==> |d| <= MaxPhoneDigits
    ensures g.Some? ==>
      && g.value.g1 + g.value.g2 + g.value.g3 == d
      && |g.value.g1| <= 3 && |g.value.g2| <= 3 && |g.value.g3| <= 4
      && (g.value.g2 != "" ==> |g.value.g1| == 3) && (g.value.g3 != "" ==> |g.value.g2| == 3)
  {
    if |d| > MaxPhoneDigits then None
    else
      var a := if |d| < 3 then |d| else 3;
      var b := if |d| < 6 then |d| else 6;
      assert d[..a] + d[a..b] + d[b..] == d;
      Some(PhoneMatch(d[..a], d[a..b], d[b..]))
  }

  /** The groups with their punctuation, empty groups left out
      (`[...].filter(Boolean).join('')`). */
  function JoinGroups(g1: string, g2: string, g3: string): string {
    (if g1 != "" then "(" + g1 else "")
    + (if g2 != "" then ") " + g2 else "")
    + (if g3 != "" then "-" + g3 else "")
  }

  /** The phone field's new value, or None when more than ten digits were
      typed (the match fails and the field keeps its previous value). */
  function FormatPhone(value: string): (r: Option<string>)
    ensures r.Some? <==> |DigitsOnly(value)| <= MaxPhoneDigits
  {
    match PhoneGroups(DigitsOnly(value))
    case None => None
    case Some(m) => Some(JoinGroups(m.g1, m.g2, m.g3))
  }

  lemma AllDigitsParts(a: string, b: string, c: string)
    requires AllDigits(a + b + c)
    ensures AllDigits(a) && AllDigits(b) && AllDigits(c)
  {
    var d := a + b + c;
    assert forall k :: 0 <= k < |a| ==> a[k] == d[k];
    assert forall k :: 0 <= k < |b| ==> b[k] == d[|a| + k];
    assert forall k :: 0 <= k < |c| ==> c[k] == d[|a| + |b| + k];
  }

  /** A group behind its punctuation contributes exactly its digits. */
  lemma PieceDigits(punctuation: string, g: string)
    requires AllDigits(g) && DigitsOnly(punctuation) == ""
    ensures DigitsOnly(if g != "" then punctuation + g else "") == g
  {
    DigitsOnlyAppend(punctuation, g);
    DigitsOnlyOfDigits(g);
  }

  lemma PunctuationHasNoDigits()
    ensures DigitsOnly("(") == "" && DigitsOnly(") ") == "" && DigitsOnly("-") == ""
  {
    DigitsOnlyOfNonDigits("(");
    DigitsOnlyOfNonDigits(") ");
    DigitsOnlyOfNonDigits("-");
  }

  /** The digits of the joined groups are the groups' digits. */
  lemma JoinGroupsDigits(g1: string, g2: string, g3: string)
    requires AllDigits(g1) && AllDigits(g2) && AllDigits(g3)
    ensures DigitsOnly(JoinGroups(g1, g2, g3)) == g1 + g2 + g3
  {
    PunctuationHasNoDigits();
    var p1 := if g1 != "" then "(" + g1 else "";
    var p2 := if g2 != "" then ") " + g2 else "";
    var p3 := if g3 != "" then "-" + g3 else "";
    PieceDigits("(", g1);
    PieceDigits(") ", g2);
    PieceDigits("-", g3);
    DigitsOnlyAppend(p1, p2);
    DigitsOnlyAppend(p1 + p2, p3);
  }

  /** The formatted phone by the number of digits typed: an opening
      parenthesis before the first three, `) ` before the next three and `-`
      before the last four, each only once its group has begun. */
  lemma FormatPhoneShape(value: string)
    requires |DigitsOnly(value)| <= MaxPhoneDigits
    ensures var d, r := DigitsOnly(value), FormatPhone(value).value;
      && (|d| == 0 ==> r == "")
      && (1 <= |d| <= 3 ==> r == "(" + d)
      && (4 <= |d| <= 6 ==> r == "(" + d[..3] + ") " + d[3..])
      && (7 <= |d| ==> r == "(" + d[..3] + ") " + d[3..6] + "-" + d[6..])
  {
  }

  /** Formatting adds only punctuation: the digits of the result are the
      digits typed. */
  lemma FormatKeepsDigits(value: string)
    requires FormatPhone(value).Some?
    ensures DigitsOnly(FormatPhone(value).value) == DigitsOnly(value)
  {
    var m := PhoneGroups(DigitsOnly(value)).value;
    AllDigitsParts(m.g1, m.g2, m.g3);
    JoinGroupsDigits(m.g1, m.g2, m.g3);
  }

  /** Formatting an already formatted value changes nothing. */
  lemma FormatIdempotent(value: string)
    requires FormatPhone(value).Some?
    ensures FormatPhone(FormatPhone(value).value) == FormatPhone(value)
  {
    FormatKeepsDigits(value);
  }

  /** A formatted value passes the register check on the phone exactly when
      ten digits were typed. */
  lemma FormattedPassesCheckIffTenDigits(value: string)
    requires FormatPhone(value).Some?
    ensures PhonePattern(FormatPhone(value).value) <==> |DigitsOnly(value)| == MaxPhoneDigits
  {
    var d := DigitsOnly(value);
    var p := FormatPhone(value).value;
    if |d| == MaxPhoneDigits {
      assert p == "(" + d[..3] + ") " + d[3..6] + "-" + d[6..];
      assert p[1..4] == d[..3] && p[6..9] == d[3..6] && p[10..] == d[6..];
    } else {
      assert |p| < 14;
    }
  }

  /** A phone already in the checked format is left as it is by the formatter. */
  lemma FormatFixesValidPhone(s: string)
    requires PhonePattern(s)
    ensures FormatPhone(s) == Some(s)
  {
    var a, b, c := s[1..4], s[6..9], s[10..];
    assert s == JoinGroups(a, b, c);
    JoinGroupsDigits(a, b, c);
    var d := a + b + c;
    assert d[..3] == a && d[3..6] == b && d[6..] == c;
  }

  // ----------------------------------------------------------- handleChange

  /** The field shows an error (a non-empty message). */
  predicate HasError(errors: Errors, f: Field) {
    f in errors && errors[f] != ""
  }

  /** `handleChange`: the form and errors after typing `value` into `field`.
      The phone is reformatted (and kept as it was when over ten digits);
      a field showing an error has its message emptied. */
  function HandleChange(form: FormData, errors: Errors, field: Field, value: string): (r: (FormData, Errors))
    ensures field != Phone ==> FieldValue(r.0, field) == value
    ensures field == Phone ==> r.0.phone == if FormatPhone(value).Some? then FormatPhone(value).value else form.phone
    ensures forall f :: f != field ==> FieldValue(r.0, f) == FieldValue(form, f)
    ensures !HasError(r.1, field)
    ensures forall f :: f != field ==> (f in r.1 <==> f in errors) && (f in errors ==> r.1[f] == errors[f])
    ensures !HasError(errors, field) ==> r.1 == errors
  {
    var newForm :=
      if field == Phone then
        match FormatPhone(value)
        case Some(formatted) => form.(phone := formatted)
        case None => form
      else WithField(form, field, value);
    var newErrors := if HasError(errors, field) then errors[field := ""] else errors;
    (newForm, newErrors)
  }
}
