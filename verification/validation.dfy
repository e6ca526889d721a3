/** The form rules of the storefront, written as predicates on characters
    (src/lib/validations/forgotPassword.schema.ts,
    src/lib/validations/register.schema.ts, the address schema of
    src/components/AddressManager.tsx and the contact schema of
    src/app/contact/page.tsx). Lengths count characters. Email syntax is
    decided by the validation library and is passed in as a predicate. */
module Validation {
  import opened Wrappers
  import Text

  predicate IsLower(c: char) { 'a' <= c <= 'z' }
  predicate IsUpper(c: char) { 'A' <= c <= 'Z' }

  /** The password symbols `@$!%*?&`. */
  predicate IsSymbol(c: char) { c in "@$!%*?&" }

  /** A character the password regex's final class admits. */
  predicate PasswordChar(c: char) {
    IsLower(c) || IsUpper(c) || Text.IsDigit(c) || IsSymbol(c)
  }

  predicate Has(s: string, p: char -> bool) {
    exists i :: 0 <= i < |s| && p(s[i])
  }

  /** `^(?=.*[a-z])(?=.*[A-Z])(?=.*\d)(?=.*[@$!%*?&])[A-Za-z\d@$!%*?&]{8,}$`:
      at least eight characters, all from the admitted set, with at least
      one lowercase letter, one uppercase letter, one digit and one symbol. */
  predicate StrongPassword(s: string) {
    && |s| >= 8
    && (forall i :: 0 <= i < |s| ==> PasswordChar(s[i]))
    && Has(s, IsLower) && Has(s, IsUpper) && Has(s, Text.IsDigit) && Has(s, IsSymbol)
  }

  /** The password check as one left-to-right scan with four flags. */
  method CheckStrongPassword(s: string) returns (ok: bool)
    ensures ok <==> StrongPassword(s)
  {
    var lower, upper, digit, symbol := false, false, false, false;
    var allowed := true;
    var i := 0;
    while i < |s|
      invariant 0 <= i <= |s|
      invariant allowed <==> forall j :: 0 <= j < i ==> PasswordChar(s[j])
      invariant lower <==> exists j :: 0 <= j < i && IsLower(s[j])
      invariant upper <==> exists j :: 0 <= j < i && IsUpper(s[j])
      invariant digit <==> exists j :: 0 <= j < i && Text.IsDigit(s[j])
      invariant symbol <==> exists j :: 0 <= j < i && IsSymbol(s[j])
    {
      var c := s[i];
      lower := lower || IsLower(c);
      upper := upper || IsUpper(c);
      digit := digit || Text.IsDigit(c);
      symbol := symbol || IsSymbol(c);
      allowed := allowed && PasswordChar(c);
      i := i + 1;
    }
    ok := |s| >= 8 && allowed && lower && upper && digit && symbol;
  }

  /** `.length(6)` and `^\d{6}$`: exactly six decimal digits. */
  predicate ResetCode(s: string) {
    |s| == 6 && Text.AllDigits(s)
  }

  /** `^01[0-9]{9}$`: an Egyptian mobile number, eleven digits starting "01". */
  predicate EgyptPhone(s: string) {
    |s| == 11 && s[0] == '0' && s[1] == '1' && Text.AllDigits(s)
  }

  /** `\s` in a JavaScript regular expression: the white-space and
      line-terminator characters of ECMAScript. */
  predicate JsSpace(c: char) {
    || c == '\t' || c == '\n' || c == '\U{B}' || c == '\U{C}' || c == '\r' || c == ' '
    || c == '\U{A0}' || c == '\U{1680}' || ('\U{2000}' <= c <= '\U{200A}')
    || c == '\U{2028}' || c == '\U{2029}' || c == '\U{202F}' || c == '\U{205F}'
    || c == '\U{3000}' || c == '\U{FEFF}'
  }

  /** `^[+\d][\d\s()-]{5,}$`: a plus sign or digit, then at least five
      digits, spaces, parentheses or hyphens. */
  predicate ContactPhonePattern(s: string) {
    && |s| >= 6
    && (s[0] == '+' || Text.IsDigit(s[0]))
    && forall i :: 1 <= i < |s| ==> Text.IsDigit(s[i]) || JsSpace(s[i]) || s[i] in "()-"
  }

  /** One failed rule: the field it is reported on, and its message. */
  datatype Issue = Issue(field: string, message: string)

  /** The issue for `field` when `ok` fails. */
  function Check(ok: bool, field: string, message: string): seq<Issue> {
    if ok then [] else [Issue(field, message)]
  }

  const MismatchMessage := "Passwords do not match"

  // ---- Forgot-password flow ----

  /** The email step: one rule, decided by the email predicate. */
  function EmailIssues(email: string, isEmail: string -> bool): (r: seq<Issue>)
    ensures r == [] <==> isEmail(email)
    ensures r != [] ==> r == [Issue("email", "Invalid email address")]
  {
    Check(isEmail(email), "email", "Invalid email address")
  }

  /** The code step: the length rule and the pattern are both checked, so a
      short non-numeric code draws two issues. */
  function ResetCodeIssues(code: string): (r: seq<Issue>)
    ensures r == [] <==> ResetCode(code)
    ensures |code| != 6 ==> |r| == 2
    ensures |code| == 6 && !Text.AllDigits(code) ==> r == [Issue("resetCode", "Code must be numeric")]
  {
    Check(|code| == 6, "resetCode", "Code must be 6 digits")
    + Check(ResetCode(code), "resetCode", "Code must be numeric")
  }

  datatype NewPasswordForm = NewPasswordForm(newPassword: string, confirmPassword: string)

  /** The field rules of the new-password step, then the match refinement
      (reported on `confirmPassword`) once the field rules pass. */
  function NewPasswordIssues(f: NewPasswordForm): (r: seq<Issue>)
    ensures StrongPassword(f.newPassword) && |f.confirmPassword| >= 8 ==>
      r == if f.newPassword == f.confirmPassword then [] else [Issue("confirmPassword", MismatchMessage)]
  {
    var fields :=
      Check(StrongPassword(f.newPassword), "newPassword",
            "Password must include uppercase, lowercase, number, symbol and be at least 8 characters.")
      + Check(|f.confirmPassword| >= 8, "confirmPassword", "Confirm password is required");
    if fields != [] then fields
    else Check(f.newPassword == f.confirmPassword, "confirmPassword", MismatchMessage)
  }

  /** The step accepts exactly a strong password typed twice; the length
      rule on the confirmation adds nothing. */
  lemma NewPasswordAccepted(f: NewPasswordForm)
    ensures NewPasswordIssues(f) == [] <==>
      StrongPassword(f.newPassword) && f.confirmPassword == f.newPassword
  {
  }

  // ---- Registration ----

  datatype RegisterForm = RegisterForm(
    firstName: string, lastName: string, email: string,
    password: string, rePassword: string, phone: string)

  function RegisterIssues(f: RegisterForm, isEmail: string -> bool): (r: seq<Issue>)
    ensures |f.firstName| >= 3 && |f.lastName| >= 3 && isEmail(f.email) && StrongPassword(f.password)
            && |f.rePassword| >= 6 && EgyptPhone(f.phone) ==>
      r == if f.password == f.rePassword then [] else [Issue("rePassword", MismatchMessage)]
  {
    var fields :=
      Check(|f.firstName| >= 3, "firstName", "Name must be at least 3 characters long")
      + Check(|f.lastName| >= 3, "lastName", "Name must be at least 3 characters long")
      + Check(isEmail(f.email), "email", "Invalid email address")
      + Check(StrongPassword(f.password), "password",
              "Password must include uppercase, lowercase, number, symbol and be at least 8 characters.")
      + Check(|f.rePassword| >= 6, "rePassword", "Re-entered password must be as password")
      + Check(EgyptPhone(f.phone), "phone", "Invalid Egyptian phone number");
    if fields != [] then fields
    else Check(f.password == f.rePassword, "rePassword", MismatchMessage)
  }

  /** Registration accepts exactly: names of three or more characters, a
      valid email, a strong password typed twice, and an Egyptian mobile
      number; the re-entry length rule adds nothing. */
  lemma RegisterAccepted(f: RegisterForm, isEmail: string -> bool)
    ensures RegisterIssues(f, isEmail) == [] <==>
      && |f.firstName| >= 3 && |f.lastName| >= 3 && isEmail(f.email)
      && StrongPassword(f.password) && f.rePassword == f.password && EgyptPhone(f.phone)
  {
  }

  // ---- Address ----

  datatype AddressForm = AddressForm(name: string, details: string, phone: string, city: string)

  predicate AddressValid(f: AddressForm) {
    |f.name| >= 2 && |f.details| >= 5 && EgyptPhone(f.phone) && |f.city| >= 2
  }

  function AddressIssues(f: AddressForm): (r: seq<Issue>)
    ensures r == [] <==> AddressValid(f)
    ensures forall i :: 0 <= i < |r| ==> r[i].field in {"name", "details", "phone", "city"}
  {
    Check(|f.name| >= 2, "name", "Name is required")
    + Check(|f.details| >= 5, "details", "Address details are required")
    + Check(EgyptPhone(f.phone), "phone", "Invalid Egyptian phone number")
    + Check(|f.city| >= 2, "city", "City is required")
  }

  // ---- Contact ----

  datatype ContactForm = ContactForm(name: string, email: string, phone: string, message: string)

  function ContactIssues(f: ContactForm, isEmail: string -> bool): (r: seq<Issue>)
    ensures r == [] <==>
      && |f.name| >= 2 && isEmail(f.email) && ContactPhonePattern(f.phone)
      && 10 <= |f.message| <= 1000
  {
    Check(|f.name| >= 2, "name", "Name must be at least 2 characters")
    + Check(isEmail(f.email), "email", "Please enter a valid email")
    + Check(|f.phone| >= 6, "phone", "Phone must be at least 6 digits")
    + Check(ContactPhonePattern(f.phone), "phone", "Please enter a valid phone number")
    + Check(|f.message| >= 10, "message", "Message must be at least 10 characters")
    + Check(|f.message| <= 1000, "message", "Message is too long")
  }

  /** The phone's length rule is implied by its pattern: a phone that fails
      the length rule also fails the pattern. */
  lemma ContactPhoneLengthImplied(phone: string)
    requires |phone| < 6
    ensures !ContactPhonePattern(phone)
  {
  }

  /** The subject of the contact email. */
  function ContactSubject(name: string): string {
    "New contact from " + name
  }

  /** `head`, a line break, then `rest`. */
  function Line(head: string, rest: string): string {
    head + "\n" + rest
  }

  /** Splitting a line whose head has no line break peels the head off. */
  lemma SplitLine(head: string, rest: string)
    requires '\n' !in head
    ensures Text.Split(Line(head, rest), '\n') == [head] + Text.Split(rest, '\n')
  {
    assert Line(head, rest) == head + ['\n'] + rest;
    Text.SplitAfterHead(head, '\n', rest);
  }

  /** Five single lines followed by free text split into those lines and
      the text's own lines. */
  lemma {:induction false} SplitFiveLines(a: string, b: string, c: string, d: string, e: string, text: string)
    requires '\n' !in a && '\n' !in b && '\n' !in c && '\n' !in d && '\n' !in e
    ensures Text.Split(Line(a, Line(b, Line(c, Line(d, Line(e, text))))), '\n')
         == [a, b, c, d, e] + Text.Split(text, '\n')
  {
    var t4 := Line(e, text);
    var t3 := Line(d, t4);
    var t2 := Line(c, t3);
    var t1 := Line(b, t2);
    var rest := Text.Split(text, '\n');
    SplitLine(e, text);
    SplitLine(d, t4);
    var r3 := Text.Split(t3, '\n');
    assert r3 == [d, e] + rest;
    SplitLine(c, t3);
    SplitLine(b, t2);
    var r1 := Text.Split(t1, '\n');
    assert r1 == [b, c] + r3;
    SplitLine(a, t1);
  }

  /** The body of the contact email: name, email and phone lines, a blank
      line, a "Message:" line, then the message. */
  function ContactBody(f: ContactForm): string {
    Line("Name: " + f.name, Line("Email: " + f.email, Line("Phone: " + f.phone,
      Line("", Line("Message:", f.message)))))
  }

  /** The body's lines: name, email and phone lines, a blank line, the
      "Message:" line, then the message's own lines; so the fields can be
      read back whenever name, email and phone are single lines. */
  lemma ContactBodyLines(f: ContactForm)
    requires '\n' !in f.name && '\n' !in f.email && '\n' !in f.phone
    ensures Text.Split(ContactBody(f), '\n')
         == ["Name: " + f.name, "Email: " + f.email, "Phone: " + f.phone, "", "Message:"]
            + Text.Split(f.message, '\n')
  {
    var name, email, phone := "Name: " + f.name, "Email: " + f.email, "Phone: " + f.phone;
    assert '\n' !in name by { assert name == "Name: " + f.name; }
    assert '\n' !in email by { assert email == "Email: " + f.email; }
    assert '\n' !in phone by { assert phone == "Phone: " + f.phone; }
    SplitFiveLines(name, email, phone, "", "Message:", f.message);
  }

  /** `process.env.NEXT_PUBLIC_CONTACT_TO || "you@example.com"`. */
  function ContactTo(configured: Option<string>): (r: string)
    ensures Truthy(configured) ==> r == configured.value
    ensures !Truthy(configured) ==> r == "you@example.com"
  {
    if Truthy(configured) then configured.value else "you@example.com"
  }

  /** The `mailto:` link: recipient, then the subject and body encoded by
      the given URI-component encoder. */
  function MailtoUrl(configured: Option<string>, f: ContactForm, encode: string -> string): string {
    "mailto:" + ContactTo(configured) + "?subject=" + encode(ContactSubject(f.name))
      + "&body=" + encode(ContactBody(f))
  }
}
