/**
 * The single-page lead form: its field record, the validator that fills
 * an error object field by field, and the two handlers that update the
 * form's state.
 */
module InitialForm {
  import opened Text
  import opened Numbers
  import opened Wrappers

  const MinLoan: nat := 10000
  const MaxLoan: nat := 5000000

  /** The names of the form's inputs, which are also the keys of its error object. */
  datatype Key =
    | FirstName | SecondName | LastName | NetTakeHomeSalary | Dob
    | ContactNumber | Email | LoanAmount | LoanType | TermsAccepted

  datatype FormData = FormData(
    firstName: string, secondName: string, lastName: string, netTakeHomeSalary: string,
    dob: string, contactNumber: string, email: string, loanAmount: string, loanType: string,
    termsAccepted: bool)

  /** What an input holds: text, or the tick of the one checkbox. */
  datatype Value = Text(text: string) | Flag(flag: bool)

  /** The consent checkbox is the only input whose value is a tick. */
  predicate Fits(k: Key, v: Value)
  {
    v.Flag? <==> k == TermsAccepted
  }

  function Get(d: FormData, k: Key): (v: Value)
    ensures Fits(k, v)
  {
    match k
    case FirstName => Text(d.firstName)
    case SecondName => Text(d.secondName)
    case LastName => Text(d.lastName)
    case NetTakeHomeSalary => Text(d.netTakeHomeSalary)
    case Dob => Text(d.dob)
    case ContactNumber => Text(d.contactNumber)
    case Email => Text(d.email)
    case LoanAmount => Text(d.loanAmount)
    case LoanType => Text(d.loanType)
    case TermsAccepted => Flag(d.termsAccepted)
  }

  /** `{ ...d, [k]: v }` */
  function Set(d: FormData, k: Key, v: Value): (r: FormData)
    requires Fits(k, v)
    ensures forall j :: Get(r, j) == if j == k then v else Get(d, j)
  {
    match k
    case FirstName => d.(firstName := v.text)
    case SecondName => d.(secondName := v.text)
    case LastName => d.(lastName := v.text)
    case NetTakeHomeSalary => d.(netTakeHomeSalary := v.text)
    case Dob => d.(dob := v.text)
    case ContactNumber => d.(contactNumber := v.text)
    case Email => d.(email := v.text)
    case LoanAmount => d.(loanAmount := v.text)
    case LoanType => d.(loanType := v.text)
    case TermsAccepted => d.(termsAccepted := v.flag)
  }

  // ---------------------------------------------------------------
  // Messages
  // ---------------------------------------------------------------

  /** Why a rule refuses a value. */
  datatype Problem =
    | Required | TooShort | NotANumber | OutOfRange | NotThousands | Underage
    | NotTenDigits | BadFormat | DomainRefused | Negative

  /** The text shown for problem `p` of input `k`. */
  function MessageText(k: Key, p: Problem): string
    requires k != SecondName
  {
    match k
    case FirstName => if p == Required then "First name is required" else "First name must be at least 4 characters"
    case LastName => if p == Required then "Last name is required" else "Last name must be at least 4 characters"
    case LoanAmount =>
      if p == Required then "Loan amount is required"
      else if p == NotANumber then "Loan amount must be a valid number"
      else if p == OutOfRange then "Loan amount must be between 10000 and 5000000"
      else "Amount must be in multiples of \U{20B9}1,000"
    case Dob => if p == Required then "Date of birth is required" else "You must be at least 18 years old"
    case ContactNumber => if p == Required then "Contact number is required" else "Contact must be 10 digits"
    case Email =>
      if p == Required then "Email is required"
      else if p == BadFormat then "Enter valid email format"
      else "Email domain not allowed"
    case NetTakeHomeSalary =>
      if p == Required then "Net salary is required"
      else if p == NotANumber then "Salary must be a number"
      else "Salary cannot be negative"
    case LoanType => "Please select loan type"
    case TermsAccepted => "You must accept the Terms and Conditions and Privacy Policy"
  }

  // ---------------------------------------------------------------
  // Field rules
  // ---------------------------------------------------------------

  /** A name: required once trimmed, then at least 4 characters long. */
  function NameProblem(v: string): (r: Option<Problem>)
    ensures r.None? <==> Utf16Length(Trim(v)) >= 4
    ensures r == Some(Required) <==> Trim(v) == []
    ensures r.Some? ==> r == Some(Required) || r == Some(TooShort)
  {
    if Trim(v) == [] then Some(Required)
    else if Utf16Length(Trim(v)) < 4 then Some(TooShort)
    else None
  }

  /** `n % 1000 === 0` for a number `n`: a whole multiple of 1000. */
  predicate IsThousands(n: real)
  {
    n == n.Floor as real && n.Floor % 1000 == 0
  }

  /** Required, a number, inside [MinLoan, MaxLoan], a multiple of 1000, checked in that order. */
  function LoanAmountProblem(v: string): (r: Option<Problem>)
    ensures r.None? <==>
      (v != "" && ParseNumber(v).Some? &&
       MinLoan as real <= ParseNumber(v).value <= MaxLoan as real && IsThousands(ParseNumber(v).value))
    ensures r == Some(Required) <==> v == ""
    ensures r == Some(NotANumber) <==> v != "" && ParseNumber(v).None?
    ensures r == Some(OutOfRange) <==>
      (v != "" && ParseNumber(v).Some? && !(MinLoan as real <= ParseNumber(v).value <= MaxLoan as real))
  {
    if v == "" then Some(Required)
    else
      match ParseNumber(v)
      case None => Some(NotANumber)
      case Some(n) =>
        if n < MinLoan as real || n > MaxLoan as real then Some(OutOfRange)
        else if !IsThousands(n) then Some(NotThousands)
        else None
  }

  /** Required; after that the age rule, whose outcome `tooYoung` is decided from the clock. */
  function DobProblem(v: string, tooYoung: bool): (r: Option<Problem>)
    ensures r.None? <==> v != "" && !tooYoung
    ensures r == Some(Required) <==> v == ""
  {
    if v == "" then Some(Required)
    else if tooYoung then Some(Underage)
    else None
  }

  /** `^\d{10}$` */
  predicate IsTenDigits(v: string) { |v| == 10 && AllDigits(v) }

  function ContactProblem(v: string): (r: Option<Problem>)
    ensures r.None? <==> IsTenDigits(v)
    ensures r == Some(Required) <==> v == ""
  {
    if v == "" then Some(Required)
    else if !IsTenDigits(v) then Some(NotTenDigits)
    else None
  }

  /** `[^\s@]` */
  predicate IsLocalChar(c: char) { !IsSpace(c) && c != '@' }

  /** `[a-zA-Z0-9-]` */
  predicate IsLabelChar(c: char) { IsAsciiLetter(c) || IsDigit(c) || c == '-' }

  predicate AllLocal(s: string) { forall i | 0 <= i < |s| :: IsLocalChar(s[i]) }

  predicate AllLabel(s: string) { forall i | 0 <= i < |s| :: IsLabelChar(s[i]) }

  /** `^[^\s@]+@[a-zA-Z0-9-]+\.[a-zA-Z]{2,}$`: the local part ends at `a`, the label at `b`. */
  predicate IsEmailFormat(s: string)
  {
    exists a, b | 0 < a && a + 1 < b && b + 2 < |s| ::
      s[a] == '@' && s[b] == '.' &&
      AllLocal(s[..a]) && AllLabel(s[a + 1..b]) && AllLetters(s[b + 1..])
  }

  /** `s.split('@')[1]`: the text between the first `@` and the next one. */
  function SecondPart(s: string): string
    requires IndexOf(s, '@') < |s|
  {
    var rest := s[IndexOf(s, '@') + 1..];
    rest[..IndexOf(rest, '@')]
  }

  const AllowedDomains: seq<string> :=
    ["gmail.com", "outlook.com", "yahoo.com", "hotmail.com", "icloud.com", "live.com", "msn.com"]

  /** No `@` is a local-part character. */
  lemma LocalHasNoAt(p: string)
    requires AllLocal(p)
    ensures forall j | 0 <= j < |p| :: p[j] != '@'
  {
  }

  /** Label characters and letters are never `@`, nor is the dot between them. */
  lemma DomainHasNoAt(p: string, b: nat)
    requires b < |p| && p[b] == '.'
    requires AllLabel(p[..b]) && AllLetters(p[b + 1..])
    ensures forall j | 0 <= j < |p| :: p[j] != '@'
  {
    forall j | 0 <= j < |p| ensures p[j] != '@' {
      if j < b { assert IsLabelChar(p[..b][j]); }
      else if j > b { assert IsAsciiLetter(p[b + 1..][j - b - 1]); }
    }
  }

  /** The local part ends at the first `@`. */
  lemma FirstAtEndsLocal(s: string, a: nat)
    requires a < |s| && s[a] == '@' && AllLocal(s[..a])
    ensures IndexOf(s, '@') == a
  {
    LocalHasNoAt(s[..a]);
    assert forall j | 0 <= j < a :: s[j] == s[..a][j];
    IndexOfAt(s, '@', a);
  }

  /** After the `@` of a well-formed address there is no other `@`. */
  lemma NoSecondAt(s: string, a: nat, b: nat)
    requires a < b < |s| && s[b] == '.'
    requires AllLabel(s[a + 1..b]) && AllLetters(s[b + 1..])
    ensures IndexOf(s[a + 1..], '@') == |s[a + 1..]|
  {
    var rest := s[a + 1..];
    assert rest[..b - a - 1] == s[a + 1..b] && rest[b - a..] == s[b + 1..];
    DomainHasNoAt(rest, b - a - 1);
    IndexOfAbsent(rest, '@');
  }

  /** With the only `@` at `a`, the second part is everything after it. */
  lemma SecondPartAfter(s: string, a: nat)
    requires a < |s| && IndexOf(s, '@') == a
    requires IndexOf(s[a + 1..], '@') == |s[a + 1..]|
    ensures SecondPart(s) == s[a + 1..]
  {
    assert s[a + 1..][..|s[a + 1..]|] == s[a + 1..];
  }

  /** A well-formed address holds exactly one `@`, so its second part is everything after it. */
  lemma DomainOfWellFormed(s: string)
    requires IsEmailFormat(s)
    ensures IndexOf(s, '@') < |s|
    ensures SecondPart(s) == s[IndexOf(s, '@') + 1..]
  {
    var a, b :| 0 < a && a + 1 < b && b + 2 < |s| &&
      s[a] == '@' && s[b] == '.' &&
      AllLocal(s[..a]) && AllLabel(s[a + 1..b]) && AllLetters(s[b + 1..]);
    FirstAtEndsLocal(s, a);
    NoSecondAt(s, a, b);
    SecondPartAfter(s, a);
  }

  /** Required, then the address format, then the domain allow-list: a malformed address
      is reported as such whatever its domain. */
  function EmailProblem(v: string): (r: Option<Problem>)
    ensures r.None? <==> IsEmailFormat(v) && Lower(SecondPart(v)) in AllowedDomains
    ensures r == Some(Required) <==> v == ""
    ensures r == Some(BadFormat) <==> v != "" && !IsEmailFormat(v)
    ensures r == Some(DomainRefused) <==> IsEmailFormat(v) && Lower(SecondPart(v)) !in AllowedDomains
  {
    if v == "" then Some(Required)
    else if !IsEmailFormat(v) then Some(BadFormat)
    else
      DomainOfWellFormed(v);
      if Lower(SecondPart(v)) !in AllowedDomains then Some(DomainRefused)
      else None
  }

  /** Required, a number, not negative. */
  function SalaryProblem(v: string): (r: Option<Problem>)
    ensures r.None? <==> v != "" && ParseNumber(v).Some? && ParseNumber(v).value >= 0.0
    ensures r == Some(Required) <==> v == ""
    ensures r == Some(NotANumber) <==> v != "" && ParseNumber(v).None?
  {
    if v == "" then Some(Required)
    else
      match ParseNumber(v)
      case None => Some(NotANumber)
      case Some(n) => if n < 0.0 then Some(Negative) else None
  }

  /** The problem validation finds with input `k` of `d`, if any. */
  function FieldProblem(k: Key, d: FormData, tooYoung: bool): Option<Problem>
  {
    match k
    case FirstName => NameProblem(d.firstName)
    case SecondName => None
    case LastName => NameProblem(d.lastName)
    case NetTakeHomeSalary => SalaryProblem(d.netTakeHomeSalary)
    case Dob => DobProblem(d.dob, tooYoung)
    case ContactNumber => ContactProblem(d.contactNumber)
    case Email => EmailProblem(d.email)
    case LoanAmount => LoanAmountProblem(d.loanAmount)
    case LoanType => if d.loanType == "" then Some(Required) else None
    case TermsAccepted => if !d.termsAccepted then Some(Required) else None
  }

  /** The message for problem `p` of input `k`, if there is a problem. */
  function Say(k: Key, p: Option<Problem>): (m: Option<string>)
    requires k != SecondName
    ensures m.Some? <==> p.Some?
  {
    match p
    case Some(q) => Some(MessageText(k, q))
    case None => None
  }

  /** The message validation gives input `k` of `d`, if any. */
  function FieldError(k: Key, d: FormData, tooYoung: bool): Option<string>
  {
    if k == SecondName then None else Say(k, FieldProblem(k, d, tooYoung))
  }

  /** The form's error object: at most one message per input, `None` where the object has no key. */
  datatype Errors = Errors(
    firstName: Option<string>, secondName: Option<string>, lastName: Option<string>,
    netTakeHomeSalary: Option<string>, dob: Option<string>, contactNumber: Option<string>,
    email: Option<string>, loanAmount: Option<string>, loanType: Option<string>,
    termsAccepted: Option<string>)

  /** `{}` */
  const NoErrors := Errors(None, None, None, None, None, None, None, None, None, None)

  /** `e[k]`, or `None` when `k` is not a key of `e`. */
  function Message(e: Errors, k: Key): Option<string>
  {
    match k
    case FirstName => e.firstName
    case SecondName => e.secondName
    case LastName => e.lastName
    case NetTakeHomeSalary => e.netTakeHomeSalary
    case Dob => e.dob
    case ContactNumber => e.contactNumber
    case Email => e.email
    case LoanAmount => e.loanAmount
    case LoanType => e.loanType
    case TermsAccepted => e.termsAccepted
  }

  /** `e[k] = m` for a message `m`, `delete e[k]` for `None`. */
  function Put(e: Errors, k: Key, m: Option<string>): (r: Errors)
    ensures forall j :: Message(r, j) == if j == k then m else Message(e, j)
  {
    match k
    case FirstName => e.(firstName := m)
    case SecondName => e.(secondName := m)
    case LastName => e.(lastName := m)
    case NetTakeHomeSalary => e.(netTakeHomeSalary := m)
    case Dob => e.(dob := m)
    case ContactNumber => e.(contactNumber := m)
    case Email => e.(email := m)
    case LoanAmount => e.(loanAmount := m)
    case LoanType => e.(loanType := m)
    case TermsAccepted => e.(termsAccepted := m)
  }

  /** `Object.keys(e).length === 0` holds exactly when no input has a message. */
  lemma EmptyIffNoMessage(e: Errors)
    ensures e == NoErrors <==> forall k :: Message(e, k).None?
  {
    if forall k :: Message(e, k).None? {
      assert Message(e, FirstName).None? && Message(e, SecondName).None? && Message(e, LastName).None?;
      assert Message(e, NetTakeHomeSalary).None? && Message(e, Dob).None? && Message(e, ContactNumber).None?;
      assert Message(e, Email).None? && Message(e, LoanAmount).None? && Message(e, LoanType).None?;
      assert Message(e, TermsAccepted).None?;
    }
  }

  /** What validation says of each input: a message, or `None` when the input passes. */
  type Check = Key -> Option<string>

  /** The rules applied to form data `d`. */
  function Checker(d: FormData, tooYoung: bool): Check
  {
    (k: Key) => FieldError(k, d, tooYoung)
  }

  /** Starting from `{}`, each rule in the form's order records its message, if any;
      the middle name has no rule. */
  method FillErrors(check: Check) returns (e: Errors)
    ensures forall k :: Message(e, k) == if k == SecondName then None else check(k)
  {
    e := NoErrors;
    e := e.(firstName := check(FirstName));
    e := e.(lastName := check(LastName));
    e := e.(loanAmount := check(LoanAmount));
    e := e.(dob := check(Dob));
    e := e.(contactNumber := check(ContactNumber));
    e := e.(email := check(Email));
    e := e.(netTakeHomeSalary := check(NetTakeHomeSalary));
    e := e.(loanType := check(LoanType));
    e := e.(termsAccepted := check(TermsAccepted));
  }

  /** `validateFormData(d)`: every input that fails its rule, with that rule's message.
      `tooYoung` is the outcome of the date-of-birth age comparison. */
  method ValidateFormData(d: FormData, tooYoung: bool) returns (e: Errors)
    ensures forall k :: Message(e, k) == FieldError(k, d, tooYoung)
  {
    e := FillErrors(Checker(d, tooYoung));
  }

  /** The form with all its inputs blank, the loan slider at its minimum and the box unticked. */
  function InitialData(): FormData
  {
    FormData("", "", "", "", "", "", "", Numeral(MinLoan), "", false)
  }

  // ---------------------------------------------------------------
  // Properties of the rules
  // ---------------------------------------------------------------

  /** A whole amount is refused as out of range outside [MinLoan, MaxLoan], as not a
      multiple of 1000 inside it unless it is one, and accepted otherwise. */
  lemma LoanWholeAmount(n: nat)
    ensures LoanAmountProblem(Numeral(n)) ==
      if n < MinLoan || n > MaxLoan then Some(OutOfRange)
      else if n % 1000 != 0 then Some(NotThousands)
      else None
  {
    ParseNumberOfNumeral(n);
    assert (n as real).Floor == n;
  }

  /** Both ends of the loan range are accepted. */
  lemma LoanBoundsAccepted(n: nat)
    requires n == MinLoan || n == MaxLoan
    ensures LoanAmountProblem(Numeral(n)) == None
  {
    assert MinLoan <= n <= MaxLoan && n % 1000 == 0;
    LoanWholeAmount(n);
  }

  /** One rupee outside either end of the loan range is refused as out of range. */
  lemma LoanJustOutsideRefused(n: nat)
    requires n == MinLoan - 1 || n == MaxLoan + 1
    ensures LoanAmountProblem(Numeral(n)) == Some(OutOfRange)
  {
    LoanWholeAmount(n);
  }

  /** Blank but non-empty text reads as the number 0, so it is out of range rather than missing. */
  lemma LoanBlankIsZero(v: string)
    requires v != "" && Trim(v) == []
    ensures LoanAmountProblem(v) == Some(OutOfRange)
  {
  }

  /** A salary of zero or more is accepted. */
  lemma SalaryNonNegative(n: nat)
    ensures SalaryProblem(Numeral(n)) == None
  {
    ParseNumberOfNumeral(n);
  }

  /** A negative salary is refused as negative, not as a non-number. */
  lemma SalaryNegativeRefused(n: nat)
    requires n > 0
    ensures SalaryProblem("-" + Numeral(n)) == Some(Negative)
  {
    ParseNumberOfNegatedNumeral(n);
  }

  /** Blank but non-empty text reads as the number 0, which passes the salary rule. */
  lemma SalaryBlankIsZero(v: string)
    requires v != "" && Trim(v) == []
    ensures SalaryProblem(v) == None
  {
  }

  /** An address built from a local part, one host label and letters after the dot is well formed,
      its domain is everything after the `@`, and it passes exactly when that domain,
      lower-cased, is on the allow-list. */
  lemma EmailOfParts(local: string, host: string, tld: string)
    requires |local| > 0 && AllLocal(local)
    requires |host| > 0 && AllLabel(host)
    requires |tld| >= 2 && AllLetters(tld)
    ensures var v := local + "@" + host + "." + tld;
      IsEmailFormat(v) && SecondPart(v) == host + "." + tld &&
      EmailProblem(v) == if Lower(host + "." + tld) in AllowedDomains then None else Some(DomainRefused)
  {
    var v, domain := local + "@" + host + "." + tld, host + "." + tld;
    FormatOfParts(local, host, tld);
    assert SecondPart(v) == domain by {
      DomainOfWellFormed(v);
      FirstAtEndsLocal(v, |local|);
      assert v[|local| + 1..] == domain;
    }
    assert v != "";
  }

  /** Text without capital letters is its own lower-case form. */
  lemma LowerOfNoCapitals(d: string)
    requires forall i | 0 <= i < |d| :: !('A' <= d[i] <= 'Z')
    ensures Lower(d) == d
  {
  }

  /** The allow-list holds seven domains, each already in lower case, so comparing the
      lower-cased domain against it accepts any capitalisation of a listed domain. */
  lemma AllowedDomainsLowerCase()
    ensures |AllowedDomains| == 7 && "gmail.com" in AllowedDomains && "msn.com" in AllowedDomains
    ensures forall k | 0 <= k < |AllowedDomains| :: Lower(AllowedDomains[k]) == AllowedDomains[k]
  {
    forall k | 0 <= k < |AllowedDomains| ensures Lower(AllowedDomains[k]) == AllowedDomains[k] {
      var d := AllowedDomains[k];
      assert forall i | 0 <= i < |d| :: 'a' <= d[i] <= 'z' || d[i] == '.';
      LowerOfNoCapitals(d);
    }
  }

  /** Lower-casing `GMAIL.com` gives the first allow-listed domain. */
  lemma LowerGmail()
    ensures Lower("GMAIL" + "." + "com") == AllowedDomains[0]
  {
    var s := "GMAIL" + "." + "com";
    assert s == "GMAIL.com";
    assert forall i | 0 <= i < |s| :: LowerChar(s[i]) == "gmail.com"[i];
  }

  /** A listed domain typed in capitals is accepted, whatever the well-formed local part. */
  lemma CapitalisedDomainAccepted(local: string)
    requires |local| > 0 && AllLocal(local)
    ensures EmailProblem(local + "@" + "GMAIL" + "." + "com") == None
  {
    EmailOfParts(local, "GMAIL", "com");
    LowerGmail();
  }

  /** The three parts joined by `@` and `.` meet the address format. */
  lemma FormatOfParts(local: string, host: string, tld: string)
    requires |local| > 0 && AllLocal(local)
    requires |host| > 0 && AllLabel(host)
    requires |tld| >= 2 && AllLetters(tld)
    ensures var v := local + "@" + host + "." + tld;
      IsEmailFormat(v) && v[..|local|] == local && v[|local|] == '@'
  {
    var v := local + "@" + host + "." + tld;
    var a, b := |local|, |local| + 1 + |host|;
    assert v[..a] == local && v[a + 1..b] == host && v[b + 1..] == tld;
    assert v[a] == '@' && v[b] == '.';
  }

  /** Text with no dot at all is malformed whatever it holds. */
  lemma EmailWithoutDot(v: string)
    requires v != "" && forall i | 0 <= i < |v| :: v[i] != '.'
    ensures EmailProblem(v) == Some(BadFormat)
  {
  }

  /** The loan type fails exactly when nothing is selected, the consent box exactly when
      it is unticked. */
  lemma ChoiceAndConsent(d: FormData, tooYoung: bool)
    ensures FieldError(LoanType, d, tooYoung) == if d.loanType == "" then Some("Please select loan type") else None
    ensures FieldError(TermsAccepted, d, tooYoung) ==
      if d.termsAccepted then None else Some("You must accept the Terms and Conditions and Privacy Policy")
  {
    assert FieldProblem(LoanType, d, tooYoung) == if d.loanType == "" then Some(Required) else None;
    assert FieldProblem(TermsAccepted, d, tooYoung) == if d.termsAccepted then None else Some(Required);
  }

  /** Name lengths are counted in UTF-16 code units: two characters beyond U+FFFF make four,
      enough for a name. */
  lemma AstralNameLongEnough()
    ensures NameProblem("\U{20000}\U{20000}") == None
  {
    AstralPair();
    TrimOfTrimmed("\U{20000}\U{20000}");
  }

  /** The opening state of the form fails validation on the names and the consent box. */
  lemma InitialDataFails(tooYoung: bool)
    ensures FieldProblem(FirstName, InitialData(), tooYoung) == Some(Required)
    ensures FieldProblem(LastName, InitialData(), tooYoung) == Some(Required)
    ensures FieldProblem(TermsAccepted, InitialData(), tooYoung) == Some(Required)
  {
    var d := InitialData();
    assert d.firstName == "" && d.lastName == "" && !d.termsAccepted;
    assert Trim("") == [];
  }

  // ---------------------------------------------------------------
  // The component
  // ---------------------------------------------------------------

  class InitialApplicationForm {
    var formData: FormData
    var errors: Errors
    var isSubmitting: bool

    /** No submit is in progress between handlers. */
    ghost predicate Valid()
      reads this
    {
      !isSubmitting
    }

    constructor ()
      ensures Valid()
      ensures formData == InitialData() && errors == NoErrors
    {
      formData := InitialData();
      errors := NoErrors;
      isSubmitting := false;
    }

    /** An edit of input `name`: the checkbox stores its tick, every other input its text;
        the input's own error message, if any, is dropped. */
    method HandleChange(name: Key, value: string, checked: bool)
      requires Valid()
      modifies this
      ensures Valid()
      ensures formData == Set(old(formData), name, if name == TermsAccepted then Flag(checked) else Text(value))
      ensures errors == if Message(old(errors), name).Some? && Message(old(errors), name).value != ""
                        then Put(old(errors), name, None) else old(errors)
    {
      var finalValue := if name == TermsAccepted then Flag(checked) else Text(value);
      formData := Set(formData, name, finalValue);
      var current := Message(errors, name);
      if current.Some? && current.value != "" {
        errors := Put(errors, name, None);
      }
    }

    /** The submit: replace the errors by a fresh validation and, when it finds nothing,
        hand the data to the success callback (the value returned in `submitted`). */
    method HandleSubmit(tooYoung: bool) returns (submitted: Option<FormData>)
      requires Valid()
      modifies this
      ensures Valid()
      ensures formData == old(formData)
      ensures forall k :: Message(errors, k) == FieldError(k, formData, tooYoung)
      ensures submitted == if errors == NoErrors then Some(formData) else None
    {
      isSubmitting := true;
      var validationErrors := ValidateFormData(formData, tooYoung);
      errors := validationErrors;
      submitted := None;
      if validationErrors == NoErrors {
        submitted := Some(formData);
      }
      isSubmitting := false;
    }
  }

  /** A submit goes through exactly when every rule passes. */
  lemma SubmitPassesIffAllValid(e: Errors, d: FormData, tooYoung: bool)
    requires forall k :: Message(e, k) == FieldError(k, d, tooYoung)
    ensures e == NoErrors <==> forall k :: FieldError(k, d, tooYoung).None?
  {
    EmptyIffNoMessage(e);
  }
}
