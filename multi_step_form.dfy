/**
 * The four-section loan application form: its field record, the
 * per-field validation rules of each section, the error object that
 * validation builds, and the component state machine (field edits,
 * next/previous, the section navigation bar and the final submit).
 */
module MultiStep {
  import opened Text
  import opened Wrappers

  /** The fields of the form record, in declaration order. */
  datatype Field =
    | FatherNameWithInitial | SpouseName | MotherName | MaritalStatus | CallerName
    | PermanentName | PermanentContactNumber
    | OfficialMailId | PresentAddress | RentOrOwnHouse | PresentAddressLandmark
    | PresentAddressStayDuration | PermanentAddress | PresentContactNumber
    | Designation | CompanyNameAsPerPaySlip | OfficeAddress | OfficeAddressLandmark
    | OfficeContactNumber | TotalWorkExperience | PresentCompanyWorkExperience
    | NetTakeHomeSalary | SalaryAccount | ExistingLoanDetails | LoanAmount | BankName
    | ReferenceRelative1 | ReferenceRelative2 | DocumentsMail | DocumentsWhatsapp

  /** The form record; every field starts out as the empty string. */
  type FormData = map<Field, string>

  function Value(d: FormData, f: Field): string
  {
    if f in d then d[f] else ""
  }

  /** The number of sections; section indices are 0 .. SectionCount - 1. */
  const SectionCount: int := 4

  // ---------------------------------------------------------------
  // Validation helpers
  // ---------------------------------------------------------------

  predicate RequireText(v: string) { Trim(v) != [] }

  predicate MinLen(v: string, n: nat) { Utf16Length(Trim(v)) >= n }

  predicate IsLocalChar(c: char) { IsWordChar(c) || c == '.' || c == '-' }

  predicate IsHostChar(c: char) { IsAsciiLetter(c) || IsDigit(c) || c == '.' || c == '-' }

  predicate AllLocalChars(s: string) { forall i | 0 <= i < |s| :: IsLocalChar(s[i]) }

  predicate AllHostChars(s: string) { forall i | 0 <= i < |s| :: IsHostChar(s[i]) }

  /** `^[\w.-]+@[a-zA-Z\d.-]+\.[a-zA-Z]{2,}$` */
  predicate IsEmail(s: string)
  {
    exists a, b | 0 < a < |s| && a + 1 < b <= |s| - 3 ::
      s[a] == '@' && s[b] == '.' &&
      AllLocalChars(s[..a]) && AllHostChars(s[a + 1..b]) && AllLetters(s[b + 1..])
  }

  /** `^[0-9]{10}$` */
  predicate IsPhone10(s: string) { |s| == 10 && AllDigits(s) }

  /** `^[0-9]+(\.[0-9]{1,2})?$` */
  predicate IsDecimalOrInt(s: string)
  {
    (|s| > 0 && AllDigits(s)) ||
    exists i | 0 < i < |s| ::
      s[i] == '.' && AllDigits(s[..i]) && 1 <= |s| - i - 1 <= 2 && AllDigits(s[i + 1..])
  }

  /** `^[0-9]{9,18}$` */
  predicate IsAccountNumber(s: string) { 9 <= |s| <= 18 && AllDigits(s) }

  /** `\d+(\.\d+)?` */
  predicate IsDurationNumber(s: string)
  {
    (|s| > 0 && AllDigits(s)) ||
    exists i | 0 < i < |s| - 1 :: s[i] == '.' && AllDigits(s[..i]) && AllDigits(s[i + 1..])
  }

  /** `year|years|yr|yrs`, ignoring case. */
  predicate IsDurationUnit(w: string)
  {
    Lower(w) in ["year", "years", "yr", "yrs"]
  }

  /** `^\d+(\.\d+)?(\s+(year|years|yr|yrs))?$` with the `i` flag. */
  predicate IsDuration(s: string)
  {
    IsDurationNumber(s) ||
    exists i, j | 0 < i < j < |s| ::
      IsDurationNumber(s[..i]) && AllSpace(s[i..j]) && IsDurationUnit(s[j..])
  }

  // ---------------------------------------------------------------
  // The rule table
  // ---------------------------------------------------------------

  /** What a field's value must look like once it is known to be non-blank. */
  datatype Format =
    | AnyText              // only required
    | MinLength(n: nat)    // trimmed length at least n
    | Phone10
    | Email
    | DecimalOrInt
    | Duration             // tested on the trimmed value
    | AccountNumber

  predicate Satisfies(fmt: Format, v: string)
  {
    match fmt
    case AnyText => true
    case MinLength(n) => MinLen(v, n)
    case Phone10 => IsPhone10(v)
    case Email => IsEmail(v)
    case DecimalOrInt => IsDecimalOrInt(v)
    case Duration => IsDuration(Trim(v))
    case AccountNumber => IsAccountNumber(v)
  }

  /** The format rule of a field, or `None` for the fields no section validates. */
  function FormatOf(f: Field): Option<Format>
  {
    match f
    case FatherNameWithInitial => Some(MinLength(4))
    case MotherName => Some(MinLength(4))
    case MaritalStatus => Some(AnyText)
    case SpouseName => Some(MinLength(4))
    case PermanentContactNumber => Some(Phone10)
    case PermanentName => Some(MinLength(4))
    case OfficialMailId => Some(Email)
    case RentOrOwnHouse => Some(AnyText)
    case PresentAddress => Some(MinLength(15))
    case PresentAddressLandmark => Some(MinLength(4))
    case PermanentAddress => Some(MinLength(15))
    case PresentAddressStayDuration => Some(Duration)
    case PresentContactNumber => Some(Phone10)
    case Designation => Some(MinLength(4))
    case CompanyNameAsPerPaySlip => Some(MinLength(4))
    case OfficeAddress => Some(MinLength(15))
    case OfficeAddressLandmark => Some(MinLength(4))
    case OfficeContactNumber => Some(Phone10)
    case TotalWorkExperience => Some(DecimalOrInt)
    case PresentCompanyWorkExperience => Some(DecimalOrInt)
    case SalaryAccount => Some(AccountNumber)
    case BankName => Some(MinLength(4))
    case ReferenceRelative1 => Some(MinLength(4))
    case ReferenceRelative2 => Some(MinLength(4))
    case DocumentsMail => Some(Email)
    case DocumentsWhatsapp => Some(Phone10)
    case CallerName => None
    case NetTakeHomeSalary => None
    case ExistingLoanDetails => None
    case LoanAmount => None
  }

  /** The message for a blank value of a validated field. */
  const FatherNameWithInitialRequired := "Father Name is required"
  const MotherNameRequired := "Mother's name is required"
  const MaritalStatusRequired := "Please select marital status"
  const SpouseNameRequired := "Spouse name is required"
  const PermanentContactNumberRequired := "Contact number is required"
  const PermanentNameRequired := "Permanent name is required"
  const OfficialMailIdRequired := "Official email is required"
  const RentOrOwnHouseRequired := "Choose an option"
  const PresentAddressRequired := "Present address is required"
  const PresentAddressLandmarkRequired := "Address landmark is required"
  const PermanentAddressRequired := "Permanent address is required"
  const PresentAddressStayDurationRequired := "Duration is required"
  const PresentContactNumberRequired := "Present contact number is required"
  const DesignationRequired := "Designation is required"
  const CompanyNameAsPerPaySlipRequired := "Company Name As Per Pay Slip is required"
  const OfficeAddressRequired := "Office address is required"
  const OfficeAddressLandmarkRequired := "Office Address landmark is required"
  const OfficeContactNumberRequired := "Office contact number is required"
  const TotalWorkExperienceRequired := "Total work experience is required"
  const PresentCompanyWorkExperienceRequired := "Present company experience is required"
  const SalaryAccountRequired := "Salary account number is required"
  const BankNameRequired := "Bank name is required"
  const ReferenceRelative1Required := "Reference Relative 1 is required"
  const ReferenceRelative2Required := "Reference Relative 2 is required"
  const DocumentsMailRequired := "Documents email is required"
  const DocumentsWhatsappRequired := "WhatsApp number is required"

  function RequiredMessage(f: Field): string
  {
    match f
    case FatherNameWithInitial => FatherNameWithInitialRequired
    case MotherName => MotherNameRequired
    case MaritalStatus => MaritalStatusRequired
    case SpouseName => SpouseNameRequired
    case PermanentContactNumber => PermanentContactNumberRequired
    case PermanentName => PermanentNameRequired
    case OfficialMailId => OfficialMailIdRequired
    case RentOrOwnHouse => RentOrOwnHouseRequired
    case PresentAddress => PresentAddressRequired
    case PresentAddressLandmark => PresentAddressLandmarkRequired
    case PermanentAddress => PermanentAddressRequired
    case PresentAddressStayDuration => PresentAddressStayDurationRequired
    case PresentContactNumber => PresentContactNumberRequired
    case Designation => DesignationRequired
    case CompanyNameAsPerPaySlip => CompanyNameAsPerPaySlipRequired
    case OfficeAddress => OfficeAddressRequired
    case OfficeAddressLandmark => OfficeAddressLandmarkRequired
    case OfficeContactNumber => OfficeContactNumberRequired
    case TotalWorkExperience => TotalWorkExperienceRequired
    case PresentCompanyWorkExperience => PresentCompanyWorkExperienceRequired
    case SalaryAccount => SalaryAccountRequired
    case BankName => BankNameRequired
    case ReferenceRelative1 => ReferenceRelative1Required
    case ReferenceRelative2 => ReferenceRelative2Required
    case DocumentsMail => DocumentsMailRequired
    case DocumentsWhatsapp => DocumentsWhatsappRequired
    case CallerName => ""
    case NetTakeHomeSalary => ""
    case ExistingLoanDetails => ""
    case LoanAmount => ""
  }

  const MinFour := "Minimum 4 characters required"
  const MinFifteen := "Minimum 15 characters required"
  const TenDigits := "Enter valid 10-digit number"

  /** The message for a non-blank value that breaks the field's format. */
  function InvalidMessage(f: Field): string
  {
    match FormatOf(f)
    case Some(MinLength(n)) => if n == 15 then MinFifteen else MinFour
    case Some(Phone10) => TenDigits
    case Some(Email) => if f == DocumentsMail then "Enter valid email address" else "Enter a valid email address"
    case Some(DecimalOrInt) => "Enter a valid number"
    case Some(Duration) => "Enter duration like \"2\" or \"2 years\""
    case Some(AccountNumber) => "Enter 9\U{2013}18 digit number"
    case _ => ""
  }

  /** The fields each section validates, in the order it validates them. */
  function SectionFields(s: int): seq<Field>
  {
    if s == 0 then
      [FatherNameWithInitial, MotherName, MaritalStatus, SpouseName, PermanentContactNumber, PermanentName]
    else if s == 1 then
      [OfficialMailId, RentOrOwnHouse, PresentAddress, PresentAddressLandmark, PermanentAddress,
       PresentAddressStayDuration, PresentContactNumber]
    else if s == 2 then
      [Designation, CompanyNameAsPerPaySlip, OfficeAddress, OfficeAddressLandmark, OfficeContactNumber,
       TotalWorkExperience, PresentCompanyWorkExperience, SalaryAccount, BankName]
    else if s == 3 then
      [ReferenceRelative1, ReferenceRelative2, DocumentsMail, DocumentsWhatsapp]
    else []
  }

  /** The field-to-section table used to decide where a failed submit jumps. */
  function SectionOf(f: Field): Option<int>
  {
    match f
    case FatherNameWithInitial => Some(0)
    case SpouseName => Some(0)
    case MotherName => Some(0)
    case MaritalStatus => Some(0)
    case PermanentContactNumber => Some(0)
    case PermanentName => Some(0)
    case OfficialMailId => Some(1)
    case RentOrOwnHouse => Some(1)
    case PresentAddress => Some(1)
    case PresentAddressLandmark => Some(1)
    case PresentAddressStayDuration => Some(1)
    case PermanentAddress => Some(1)
    case PresentContactNumber => Some(1)
    case Designation => Some(2)
    case OfficeAddress => Some(2)
    case CompanyNameAsPerPaySlip => Some(2)
    case OfficeAddressLandmark => Some(2)
    case OfficeContactNumber => Some(2)
    case TotalWorkExperience => Some(2)
    case PresentCompanyWorkExperience => Some(2)
    case SalaryAccount => Some(2)
    case BankName => Some(2)
    case ReferenceRelative1 => Some(3)
    case ReferenceRelative2 => Some(3)
    case DocumentsMail => Some(3)
    case DocumentsWhatsapp => Some(3)
    case CallerName => None
    case NetTakeHomeSalary => None
    case ExistingLoanDetails => None
    case LoanAmount => None
  }

  /** The spouse name is validated only for married applicants. */
  predicate Applies(f: Field, d: FormData)
  {
    f != SpouseName || Value(d, MaritalStatus) == "Married"
  }

  /** The message validation gives field `f` of `d`, if any: "required" first, then the format. */
  function FieldError(f: Field, d: FormData): Option<string>
  {
    if !Applies(f, d) || FormatOf(f).None? then None
    else if !RequireText(Value(d, f)) then Some(RequiredMessage(f))
    else if !Satisfies(FormatOf(f).value, Value(d, f)) then Some(InvalidMessage(f))
    else None
  }

  // ---------------------------------------------------------------
  // Error objects: string-keyed objects that remember insertion order
  // ---------------------------------------------------------------

  datatype Entry = Entry(key: Field, message: string)

  /** An error object, its entries in insertion order (the order `Object.keys` reports). */
  type Errors = seq<Entry>

  function Keys(o: Errors): (ks: seq<Field>)
    ensures |ks| == |o|
    ensures forall i | 0 <= i < |o| :: ks[i] == o[i].key
  {
    seq(|o|, i requires 0 <= i < |o| => o[i].key)
  }

  predicate Distinct(ks: seq<Field>)
  {
    forall i, j | 0 <= i < j < |ks| :: ks[i] != ks[j]
  }

  /** `o[k] = m`: an existing key keeps its place, a new key goes last. */
  function Put(o: Errors, k: Field, m: string): (r: Errors)
    ensures k !in Keys(o) ==> r == o + [Entry(k, m)]
  {
    if o == [] then [Entry(k, m)]
    else if o[0].key == k then [Entry(k, m)] + o[1..]
    else
      assert k !in Keys(o) ==> k !in Keys(o[1..]) by {
        forall i | 0 <= i < |o| - 1 ensures Keys(o[1..])[i] == Keys(o)[i + 1] { }
      }
      [o[0]] + Put(o[1..], k, m)
  }

  /** `{...a, ...b}`: the entries of `b`, in order, assigned into a copy of `a`. */
  function Spread(a: Errors, b: Errors): Errors
    decreases |b|
  {
    if b == [] then a else Spread(Put(a, b[0].key, b[0].message), b[1..])
  }

  lemma {:induction false} KeysAppend(o: Errors, e: Entry)
    ensures Keys(o + [e]) == Keys(o) + [e.key]
  {
  }

  /** The error object read as a map from field to message (a later entry for a key wins). */
  function ToMap(o: Errors): (m: map<Field, string>)
    ensures forall k :: k in m <==> k in Keys(o)
  {
    if o == [] then map[]
    else
      var init := o[..|o| - 1];
      assert o == init + [o[|o| - 1]];
      KeysAppend(init, o[|o| - 1]);
      ToMap(init)[o[|o| - 1].key := o[|o| - 1].message]
  }

  // ---------------------------------------------------------------
  // Section validation
  // ---------------------------------------------------------------

  /** The sequence of conditional assignments `if (...) errs.f = ...` over `fs`, in order;
      `check` gives the message for a failing field. */
  function Run(fs: seq<Field>, check: Check, errs: Errors): Errors
    decreases |fs|
  {
    if fs == [] then errs
    else
      var errs' := match check(fs[0])
        case Some(m) => Put(errs, fs[0], m)
        case None => errs;
      Run(fs[1..], check, errs')
  }

  /** The entries for the fields of `fs` that fail, in the order of `fs`. */
  function Failing(fs: seq<Field>, check: Check): (r: Errors)
    ensures forall i | 0 <= i < |r| :: r[i].key in fs && check(r[i].key) == Some(r[i].message)
  {
    if fs == [] then []
    else
      var rest := Failing(fs[1..], check);
      match check(fs[0])
      case Some(m) => [Entry(fs[0], m)] + rest
      case None => rest
  }

  lemma {:induction false} FailingKeys(fs: seq<Field>, check: Check, f: Field)
    ensures f in Keys(Failing(fs, check)) <==> f in fs && check(f).Some?
  {
    if fs != [] {
      FailingKeys(fs[1..], check, f);
      var rest := Failing(fs[1..], check);
      assert fs == [fs[0]] + fs[1..];
      InConcat([fs[0]], fs[1..], f);
      match check(fs[0])
      case Some(m) =>
        assert Failing(fs, check) == [Entry(fs[0], m)] + rest;
        KeysIn([Entry(fs[0], m)], rest, f);
        assert Keys([Entry(fs[0], m)]) == [fs[0]];
      case None =>
        assert Failing(fs, check) == rest;
    }
  }



  lemma {:induction false} FailingDistinct(fs: seq<Field>, check: Check)
    requires Distinct(fs)
    ensures Distinct(Keys(Failing(fs, check)))
  {
    if fs != [] {
      DistinctTail(fs);
      FailingDistinct(fs[1..], check);
      var rest := Failing(fs[1..], check);
      match check(fs[0])
      case Some(m) =>
        FailingKeys(fs[1..], check, fs[0]);
        var r := [Entry(fs[0], m)] + rest;
        assert Failing(fs, check) == r;
        KeysConcat([Entry(fs[0], m)], rest);
        DistinctConcat([fs[0]], Keys(rest));
      case None =>
        assert Failing(fs, check) == rest;
    }
  }

  lemma ConcatAssoc<T>(a: seq<T>, b: seq<T>, c: seq<T>)
    ensures (a + b) + c == a + (b + c)
  {
  }

  /** Running the assignments over fresh, distinct fields appends exactly the failing entries. */
  lemma {:induction false} RunAppends(fs: seq<Field>, check: Check, errs: Errors)
    requires Distinct(fs)
    requires forall f | f in fs :: f !in Keys(errs)
    ensures Run(fs, check, errs) == errs + Failing(fs, check)
  {
    if fs != [] {
      var f, rest := fs[0], fs[1..];
      assert Distinct(rest) by {
        forall i, j | 0 <= i < j < |rest| ensures rest[i] != rest[j] { assert rest[i] == fs[i + 1] && rest[j] == fs[j + 1]; }
      }
      assert f !in rest by {
        forall j | 0 <= j < |rest| ensures rest[j] != f { assert rest[j] == fs[j + 1]; }
      }
      assert f !in Keys(errs);
      match check(f)
      case Some(m) =>
        var errs' := errs + [Entry(f, m)];
        assert Put(errs, f, m) == errs';
        KeysAppend(errs, Entry(f, m));
        assert forall g | g in rest :: g !in Keys(errs');
        RunAppends(rest, check, errs');
        assert Failing(fs, check) == [Entry(f, m)] + Failing(rest, check);
        ConcatAssoc(errs, [Entry(f, m)], Failing(rest, check));
      case None =>
        RunAppends(rest, check, errs);
    }
  }

  // The list of each section and the field-to-section table agree, section by section.

  lemma Section0Table(f: Field)
    ensures f in SectionFields(0) <==> SectionOf(f) == Some(0)
  {
  }

  lemma Section1Table(f: Field)
    ensures f in SectionFields(1) <==> SectionOf(f) == Some(1)
  {
  }

  lemma Section2Table(f: Field)
    ensures f in SectionFields(2) <==> SectionOf(f) == Some(2)
  {
    var fs := SectionFields(2);
    assert forall i | 0 <= i < |fs| :: SectionOf(fs[i]) == Some(2);
    match f
    case Designation => assert fs[0] == f;
    case CompanyNameAsPerPaySlip => assert fs[1] == f;
    case OfficeAddress => assert fs[2] == f;
    case OfficeAddressLandmark => assert fs[3] == f;
    case OfficeContactNumber => assert fs[4] == f;
    case TotalWorkExperience => assert fs[5] == f;
    case PresentCompanyWorkExperience => assert fs[6] == f;
    case SalaryAccount => assert fs[7] == f;
    case BankName => assert fs[8] == f;
    case _ =>
  }

  lemma Section3Table(f: Field)
    ensures f in SectionFields(3) <==> SectionOf(f) == Some(3)
  {
  }

  /** The fields the table places in a section are exactly the fields that have a rule. */
  lemma TableFieldsChecked(f: Field)
    ensures SectionOf(f).Some? <==> FormatOf(f).Some?
    ensures SectionOf(f).Some? ==> 0 <= SectionOf(f).value < SectionCount
  {
  }

  /** No section validates a field twice. */
  lemma SectionFieldsDistinct(s: int)
    ensures Distinct(SectionFields(s))
  {
    if s == 0 { assert Distinct(SectionFields(0)); }
    else if s == 1 { assert Distinct(SectionFields(1)); }
    else if s == 2 { assert Distinct(SectionFields(2)); }
  }

  /** The fields a section validates are exactly the fields the field-to-section table gives it. */
  lemma SectionFieldsAgreeWithTable(s: int, f: Field)
    ensures f in SectionFields(s) <==> SectionOf(f) == Some(s)
  {
    if s == 0 { Section0Table(f); }
    else if s == 1 { Section1Table(f); }
    else if s == 2 { Section2Table(f); }
    else if s == 3 { Section3Table(f); }
    else { TableFieldsChecked(f); }
  }

  /** What validation says of each field: a message for a failing field, `None` otherwise. */
  type Check = Field -> Option<string>

  /** The checks validation applies to form data `d`. */
  function Checker(d: FormData): Check
  {
    (f: Field) => FieldError(f, d)
  }

  /** Section `s`'s conditional assignments run against `check`: one entry per failing
      field, in validation order, each key a field the table gives section `s`. */
  function SectionErrors(s: int, check: Check): (errs: Errors)
    ensures Distinct(Keys(errs))
    ensures forall i | 0 <= i < |errs| :: SectionOf(errs[i].key) == Some(s)
  {
    var fs := SectionFields(s);
    SectionFieldsDistinct(s);
    RunAppends(fs, check, []);
    FailingDistinct(fs, check);
    var errs := Run(fs, check, []);
    assert errs == Failing(fs, check);
    forall i | 0 <= i < |errs| ensures SectionOf(errs[i].key) == Some(s) {
      SectionFieldsAgreeWithTable(s, errs[i].key);
    }
    errs
  }

  /** The assignments append exactly the failing fields of the section, in validation order. */
  lemma SectionErrorsAreFailing(s: int, check: Check)
    ensures SectionErrors(s, check) == Failing(SectionFields(s), check)
  {
    SectionFieldsDistinct(s);
    RunAppends(SectionFields(s), check, []);
  }

  /** Every entry of a section's errors carries the message `check` gives its field. */
  lemma SoundSection(s: int, check: Check)
    ensures Sound(SectionErrors(s, check), check)
  {
    SectionErrorsAreFailing(s, check);
  }

  /** `validateSection(s, d)` */
  function ValidateSection(s: int, d: FormData): Errors
  {
    SectionErrors(s, Checker(d))
  }

  /** A field has an entry in section `s`'s errors exactly when the section validates it and it fails. */
  lemma SectionErrorKeys(s: int, check: Check, f: Field)
    ensures f in Keys(SectionErrors(s, check)) <==> SectionOf(f) == Some(s) && check(f).Some?
  {
    SectionErrorsAreFailing(s, check);
    FailingKeys(SectionFields(s), check, f);
    SectionFieldsAgreeWithTable(s, f);
  }

  /** A map built from entries with distinct keys gives each key its own message. */
  lemma {:induction false} ToMapDistinct(o: Errors)
    requires Distinct(Keys(o))
    ensures forall i | 0 <= i < |o| :: ToMap(o)[o[i].key] == o[i].message
  {
    if o != [] {
      var init := o[..|o| - 1];
      assert Distinct(Keys(init)) by {
        forall i, j | 0 <= i < j < |init| ensures Keys(init)[i] != Keys(init)[j] {
          assert Keys(init)[i] == Keys(o)[i] && Keys(init)[j] == Keys(o)[j];
        }
      }
      ToMapDistinct(init);
      forall i | 0 <= i < |o| ensures ToMap(o)[o[i].key] == o[i].message {
        if i < |o| - 1 {
          assert Keys(o)[i] != Keys(o)[|o| - 1];
          assert o[i] == init[i];
        }
      }
    }
  }

  lemma {:induction false} KeysConcat(a: Errors, b: Errors)
    ensures Keys(a + b) == Keys(a) + Keys(b)
  {
    assert |Keys(a + b)| == |Keys(a) + Keys(b)|;
    forall i | 0 <= i < |a + b| ensures Keys(a + b)[i] == (Keys(a) + Keys(b))[i] {
      if i < |a| { assert (a + b)[i] == a[i]; } else { assert (a + b)[i] == b[i - |a|]; }
    }
  }

  lemma KeysIn(a: Errors, b: Errors, f: Field)
    ensures f in Keys(a + b) <==> f in Keys(a) || f in Keys(b)
  {
    KeysConcat(a, b);
    InConcat(Keys(a), Keys(b), f);
  }

  lemma InConcat<T>(a: seq<T>, b: seq<T>, x: T)
    ensures x in a + b <==> x in a || x in b
  {
    if x in a + b {
      var i :| 0 <= i < |a + b| && (a + b)[i] == x;
      if i >= |a| { assert b[i - |a|] == x; }
    }
    if x in b {
      var j :| 0 <= j < |b| && b[j] == x;
      assert (a + b)[|a| + j] == x;
    }
  }

  lemma DistinctConcat(a: seq<Field>, b: seq<Field>)
    requires Distinct(a) && Distinct(b)
    requires forall k | k in b :: k !in a
    ensures Distinct(a + b)
  {
    forall i, j | 0 <= i < j < |a + b| ensures (a + b)[i] != (a + b)[j] {
      if j < |a| {
        assert (a + b)[i] == a[i] && (a + b)[j] == a[j];
      } else if i < |a| {
        assert (a + b)[i] == a[i] && (a + b)[j] == b[j - |a|];
        assert b[j - |a|] in b;
      } else {
        assert (a + b)[i] == b[i - |a|] && (a + b)[j] == b[j - |a|];
      }
    }
  }

  lemma DistinctTail(ks: seq<Field>)
    requires Distinct(ks) && ks != []
    ensures Distinct(ks[1..]) && ks[0] !in ks[1..]
  {
    var rest := ks[1..];
    forall i, j | 0 <= i < j < |rest| ensures rest[i] != rest[j] {
      assert rest[i] == ks[i + 1] && rest[j] == ks[j + 1];
    }
    forall j | 0 <= j < |rest| ensures rest[j] != ks[0] { assert rest[j] == ks[j + 1]; }
  }

  /** Spreading an object whose keys are new into another appends its entries. */
  lemma {:induction false} SpreadFresh(a: Errors, b: Errors)
    requires Distinct(Keys(b))
    requires forall k | k in Keys(b) :: k !in Keys(a)
    ensures Spread(a, b) == a + b
    decreases |b|
  {
    if b != [] {
      var e, rest := b[0], b[1..];
      assert Keys(b) == [e.key] + Keys(rest);
      DistinctTail(Keys(b));
      assert Keys(b)[1..] == Keys(rest);
      assert Put(a, e.key, e.message) == a + [e];
      KeysAppend(a, e);
      SpreadFresh(a + [e], rest);
      ConcatAssoc(a, [e], rest);
      assert b == [e] + rest;
    }
  }

  /** Reading an object with distinct keys whose entries all carry `check`'s messages as a map:
      its keys, each with the message `check` gives it. */
  lemma MapOfSound(o: Errors, check: Check, f: Field)
    requires Distinct(Keys(o)) && Sound(o, check)
    ensures f in ToMap(o) <==> f in Keys(o)
    ensures f in ToMap(o) ==> Some(ToMap(o)[f]) == check(f)
  {
    if f in ToMap(o) {
      ToMapDistinct(o);
      var i :| 0 <= i < |o| && Keys(o)[i] == f;
      assert check(o[i].key) == Some(o[i].message);
    }
  }

  /** Field `f` in the map of section `s`'s errors: present exactly when it fails, with its message. */
  lemma SectionErrorAt(s: int, check: Check, f: Field)
    ensures var m := ToMap(SectionErrors(s, check));
      (f in m <==> SectionOf(f) == Some(s) && check(f).Some?) &&
      (f in m ==> Some(m[f]) == check(f))
  {
    SoundSection(s, check);
    MapOfSound(SectionErrors(s, check), check, f);
    SectionErrorKeys(s, check, f);
  }

  /** The messages of section `s` as the map the component stores. */
  lemma SectionErrorMap(s: int, d: FormData)
    ensures var m := ToMap(ValidateSection(s, d));
      forall f :: (f in m <==> SectionOf(f) == Some(s) && FieldError(f, d).Some?) &&
                  (f in m ==> Some(m[f]) == FieldError(f, d))
  {
    forall f { SectionErrorAt(s, Checker(d), f); }
  }

  /** A blank value always gets the field's "required" message, whatever its format rule. */
  lemma RequiredMessageFirst(d: FormData, f: Field)
    requires FormatOf(f).Some? && Applies(f, d)
    requires Trim(Value(d, f)) == []
    ensures FieldError(f, d) == Some(RequiredMessage(f))
  {
    assert !RequireText(Value(d, f));
  }

  /** A non-blank value that breaks the format gets the field's format message. */
  lemma FormatMessageSecond(d: FormData, f: Field, fmt: Format)
    requires Applies(f, d) && FormatOf(f) == Some(fmt)
    requires Trim(Value(d, f)) != [] && !Satisfies(fmt, Value(d, f))
    ensures FieldError(f, d) == Some(InvalidMessage(f))
  {
  }

  /** A field whose non-blank value passes its format has no message. */
  lemma NoMessageWhenValid(d: FormData, f: Field, fmt: Format)
    requires FormatOf(f) == Some(fmt)
    requires Trim(Value(d, f)) != [] && Satisfies(fmt, Value(d, f))
    ensures FieldError(f, d) == None
  {
  }

  /** A minimum-length field fails exactly when its trimmed value is shorter than the minimum. */
  lemma MinLengthError(f: Field, d: FormData, n: nat)
    requires Applies(f, d) && FormatOf(f) == Some(MinLength(n)) && n > 0
    ensures FieldError(f, d).Some? <==> Utf16Length(Trim(Value(d, f))) < n
  {
    if Utf16Length(Trim(Value(d, f))) < n {
      ShortFails(f, d, n);
    } else {
      NoMessageWhenValid(d, f, MinLength(n));
    }
  }

  /** A minimum-length field shorter than its minimum fails, blank or not. */
  lemma ShortFails(f: Field, d: FormData, n: nat)
    requires Applies(f, d) && FormatOf(f) == Some(MinLength(n))
    requires Utf16Length(Trim(Value(d, f))) < n
    ensures FieldError(f, d).Some?
  {
    if Trim(Value(d, f)) == [] {
      RequiredMessageFirst(d, f);
    } else {
      TooShortBreaksFormat(Value(d, f), n);
      FormatMessageSecond(d, f, MinLength(n));
    }
  }

  /** A value shorter than the minimum does not meet the minimum-length format. */
  lemma TooShortBreaksFormat(v: string, n: nat)
    requires Utf16Length(Trim(v)) < n
    ensures !Satisfies(MinLength(n), v)
  {
  }

  /** The minimum lengths: 15 for the three addresses, 4 for every other minimum-length field. */
  lemma MinimumLengths(f: Field)
    requires FormatOf(f).Some? && FormatOf(f).value.MinLength?
    ensures FormatOf(f).value.n == (if f == PresentAddress || f == PermanentAddress || f == OfficeAddress then 15 else 4)
    ensures InvalidMessage(f) == (if FormatOf(f).value.n == 15 then MinFifteen else MinFour)
  {
  }

  /** Phone numbers are matched untrimmed: ten digits with a trailing blank are non-blank
      but get the ten-digit message. */
  lemma PhoneMatchedUntrimmed(d: FormData, f: Field, digits: string)
    requires FormatOf(f) == Some(Phone10) && IsPhone10(digits)
    requires Value(d, f) == digits + " "
    ensures FieldError(f, d) == Some(TenDigits)
  {
    var v := Value(d, f);
    assert f != SpouseName && Applies(f, d);
    assert v[0] == digits[0] && IsDigit(v[0]);
    NonBlankFromFirst(v);
    assert |v| == 11 && !IsPhone10(v);
    assert InvalidMessage(f) == TenDigits;
  }

  /** Text that starts with a non-blank character is non-blank. */
  lemma NonBlankFromFirst(v: string)
    requires v != [] && !IsSpace(v[0])
    ensures RequireText(v)
  {
    TrimEndKeepsFirst(v);
  }

  /** The stay duration is matched after trimming: a duration with a blank on each side
      passes. */
  lemma DurationMatchedTrimmed(d: FormData, t: string)
    requires IsDuration(t) && t != [] && !IsSpace(t[0]) && !IsSpace(t[|t| - 1])
    requires Value(d, PresentAddressStayDuration) == " " + t + " "
    ensures FieldError(PresentAddressStayDuration, d) == None
  {
    var v := Value(d, PresentAddressStayDuration);
    assert Trim(v) == t by { TrimPadded(t); }
    assert Satisfies(Duration, v);
    NoMessageWhenValid(d, PresentAddressStayDuration, Duration);
  }

  /** The unit word is matched whatever its case: "2 Years" is a duration. */
  lemma YearsIsDuration()
    ensures IsDuration("2 Years")
  {
    var t := "2 Years";
    assert Lower(t[2..]) == "years" by { assert t[2..] == "Years"; }
    assert IsDurationNumber(t[..1]) by { assert t[..1] == "2"; }
    assert AllSpace(t[1..2]);
  }

  /** At most two decimals: `12.34` is a number of years, `12.345` is not. */
  lemma DecimalPlaces()
    ensures IsDecimalOrInt("12.34")
    ensures !IsDecimalOrInt("12.345")
  {
    var t := "12.34";
    assert t[2] == '.' && AllDigits(t[..2]) && AllDigits(t[3..]);
    var u := "12.345";
    assert !AllDigits(u) by { assert !IsDigit(u[2]); }
    forall i | 0 < i < |u| && u[i] == '.' ensures !(1 <= |u| - i - 1 <= 2) {
      assert i == 2;
    }
  }

  /** Minimum lengths are counted in UTF-16 code units: two characters beyond U+FFFF meet
      a minimum of 4. */
  lemma AstralMeetsMinimum()
    ensures MinLen("\U{20000}\U{20000}", 4)
  {
    AstralPair();
    TrimOfTrimmed("\U{20000}\U{20000}");
  }

  /** The spouse name fails exactly for a married applicant whose spouse name is under 4 characters. */
  lemma SpouseNameOnlyWhenMarried(d: FormData)
    ensures FieldError(SpouseName, d).Some? <==>
            Value(d, MaritalStatus) == "Married" && Utf16Length(Trim(Value(d, SpouseName))) < 4
  {
    if Applies(SpouseName, d) {
      MinLengthError(SpouseName, d, 4);
    }
  }

  /** The spouse name is in section 0's errors only for a married applicant. */
  lemma SpouseNameInSectionZero(d: FormData)
    ensures SpouseName in ToMap(ValidateSection(0, d)) <==>
            Value(d, MaritalStatus) == "Married" && Utf16Length(Trim(Value(d, SpouseName))) < 4
  {
    SectionErrorAt(0, Checker(d), SpouseName);
    SpouseNameOnlyWhenMarried(d);
  }

  /** A section's errors are empty exactly when none of the fields the table gives it fails. */
  lemma SectionClean(s: int, d: FormData)
    ensures ValidateSection(s, d) == [] <==> forall f | SectionOf(f) == Some(s) :: FieldError(f, d).None?
  {
    var errs := ValidateSection(s, d);
    forall f | SectionOf(f) == Some(s) && errs == [] ensures FieldError(f, d).None? {
      SectionErrorKeys(s, Checker(d), f);
    }
    if errs != [] {
      SectionErrorKeys(s, Checker(d), errs[0].key);
    }
  }

  // ---------------------------------------------------------------
  // Final submit: all four sections at once
  // ---------------------------------------------------------------

  /** The error objects of the sections, by section index. */
  type SectionResults = int -> Errors

  /** `validateSection(s, d)` for every `s`. */
  function Sections(d: FormData): SectionResults
  {
    (s: int) => ValidateSection(s, d)
  }

  /** `{...sec(0), ..., ...sec(n - 1)}` */
  function MergeUpTo(sec: SectionResults, n: nat): Errors
  {
    if n == 0 then [] else Spread(MergeUpTo(sec, n - 1), sec(n - 1))
  }

  /** `{...validateSection(0, d), ..., ...validateSection(n - 1, d)}` */
  function MergeSections(d: FormData, n: nat): Errors
  {
    if n == 0 then [] else Spread(MergeSections(d, n - 1), ValidateSection(n - 1, d))
  }

  /** `{...validateSection(0, d), ...validateSection(1, d), ...validateSection(2, d),
      ...validateSection(3, d)}`: the spread the final submit builds. */
  function SubmitErrors(d: FormData): Errors
  {
    MergeSections(d, SectionCount)
  }

  /** The final submit's spread is the generic merge of the four sections of `d`. */
  lemma SubmitIsMerge(d: FormData)
    ensures SubmitErrors(d) == MergeUpTo(Sections(d), SectionCount)
  {
    var sec := Sections(d);
    assert MergeSections(d, 1) == MergeUpTo(sec, 1) by { assert sec(0) == ValidateSection(0, d); }
    assert MergeSections(d, 2) == MergeUpTo(sec, 2) by { assert sec(1) == ValidateSection(1, d); }
    assert MergeSections(d, 3) == MergeUpTo(sec, 3) by { assert sec(2) == ValidateSection(2, d); }
    assert MergeSections(d, 4) == MergeUpTo(sec, 4) by { assert sec(3) == ValidateSection(3, d); }
  }

  /** The errors of sections 0 .. n - 1, one after another. */
  function SectionsUpTo(sec: SectionResults, n: nat): Errors
  {
    if n == 0 then [] else SectionsUpTo(sec, n - 1) + sec(n - 1)
  }

  /** A field-to-section table. */
  type Table = Field -> Option<int>

  // What the merge relies on, one fact at a time.

  /** The table only names sections 0 .. 3. */
  ghost predicate InRange(table: Table)
  {
    forall f | table(f).Some? :: 0 <= table(f).value < SectionCount
  }

  /** The table gives every key of section `s` that section. */
  ghost predicate KeyedBy(sec: SectionResults, table: Table)
  {
    forall s, i | 0 <= i < |sec(s)| :: table(sec(s)[i].key) == Some(s)
  }

  /** No section has a key twice. */
  ghost predicate DistinctKeys(sec: SectionResults)
  {
    forall s :: Distinct(Keys(sec(s)))
  }

  /** Every entry carries the message `check` gives its field. */
  ghost predicate AllSound(sec: SectionResults, check: Check)
  {
    forall s :: Sound(sec(s), check)
  }

  /** A field has an entry in a section exactly when the table gives it that section and it fails. */
  ghost predicate Complete(sec: SectionResults, check: Check, table: Table)
  {
    forall s, f :: f in Keys(sec(s)) <==> table(f) == Some(s) && check(f).Some?
  }

  /** `Complete` for the single field `f`. */
  ghost predicate CompleteAt(sec: SectionResults, check: Check, table: Table, f: Field)
  {
    forall s :: f in Keys(sec(s)) <==> table(f) == Some(s) && check(f).Some?
  }

  /** Every entry of `o` carries the message `check` gives its field. */
  predicate Sound(o: Errors, check: Check)
  {
    forall i | 0 <= i < |o| :: check(o[i].key) == Some(o[i].message)
  }

  /** The section validation meets what the merge relies on. */
  lemma ValidationAgrees(d: FormData)
    ensures InRange(SectionOf)
    ensures KeyedBy(Sections(d), SectionOf) && DistinctKeys(Sections(d))
    ensures AllSound(Sections(d), Checker(d)) && Complete(Sections(d), Checker(d), SectionOf)
  {
    var sec, check := Sections(d), Checker(d);
    forall f | SectionOf(f).Some? ensures 0 <= SectionOf(f).value < SectionCount {
      TableFieldsChecked(f);
    }
    forall s ensures Sound(sec(s), check) {
      SoundSection(s, check);
    }
    forall s, f ensures f in Keys(sec(s)) <==> SectionOf(f) == Some(s) && check(f).Some? {
      SectionErrorKeys(s, check, f);
    }
  }

  /** Every key of `o` belongs, by the table, to a section below `n`. */
  predicate Below(o: Errors, n: int, table: Table)
  {
    forall i | 0 <= i < |o| :: table(o[i].key).Some? && 0 <= table(o[i].key).value < n
  }

  lemma BelowConcat(a: Errors, b: Errors, n: int, table: Table)
    requires Below(a, n, table) && Below(b, n, table)
    ensures Below(a + b, n, table)
  {
    forall i | 0 <= i < |a + b|
      ensures table((a + b)[i].key).Some? && 0 <= table((a + b)[i].key).value < n
    {
      if i < |a| { assert (a + b)[i] == a[i]; } else { assert (a + b)[i] == b[i - |a|]; }
    }
  }

  lemma {:induction false} SectionsBelow(sec: SectionResults, table: Table, n: nat)
    requires KeyedBy(sec, table)
    ensures Below(SectionsUpTo(sec, n), n, table)
  {
    if n > 0 {
      SectionsBelow(sec, table, n - 1);
      BelowConcat(SectionsUpTo(sec, n - 1), sec(n - 1), n, table);
    }
  }

  /** The keys of section `s` are never keys of errors from lower sections. */
  lemma FreshAbove(o: Errors, sec: SectionResults, table: Table, s: int)
    requires KeyedBy(sec, table) && Below(o, s, table)
    ensures forall k | k in Keys(sec(s)) :: k !in Keys(o)
  {
    forall k | k in Keys(sec(s)) ensures k !in Keys(o) {
      var j :| 0 <= j < |sec(s)| && Keys(sec(s))[j] == k;
      assert table(k) == Some(s);
    }
  }

  /** The spread merge overwrites nothing: it is the sections' errors one after another,
      and no field appears twice. */
  lemma {:induction false} MergeIsConcat(sec: SectionResults, table: Table, n: nat)
    requires KeyedBy(sec, table) && DistinctKeys(sec)
    ensures MergeUpTo(sec, n) == SectionsUpTo(sec, n)
    ensures Distinct(Keys(SectionsUpTo(sec, n)))
  {
    if n > 0 {
      var prev, v := SectionsUpTo(sec, n - 1), sec(n - 1);
      MergeIsConcat(sec, table, n - 1);
      SectionsBelow(sec, table, n - 1);
      FreshAbove(prev, sec, table, n - 1);
      assert Distinct(Keys(v));
      SpreadFresh(prev, v);
      KeysConcat(prev, v);
      DistinctConcat(Keys(prev), Keys(v));
    }
  }

  lemma SoundConcat(a: Errors, b: Errors, check: Check)
    requires Sound(a, check) && Sound(b, check)
    ensures Sound(a + b, check)
  {
    forall i | 0 <= i < |a + b| ensures check((a + b)[i].key) == Some((a + b)[i].message) {
      if i < |a| { assert (a + b)[i] == a[i]; } else { assert (a + b)[i] == b[i - |a|]; }
    }
  }

  lemma {:induction false} SectionsSound(sec: SectionResults, check: Check, n: nat)
    requires AllSound(sec, check)
    ensures Sound(SectionsUpTo(sec, n), check)
  {
    if n > 0 {
      SectionsSound(sec, check, n - 1);
      assert Sound(sec(n - 1), check);
      SoundConcat(SectionsUpTo(sec, n - 1), sec(n - 1), check);
    }
  }

  /** A field has an entry among sections 0 .. n - 1 exactly when the table puts it below `n` and it fails. */
  lemma {:induction false} SectionsKeys(sec: SectionResults, check: Check, table: Table, n: nat, f: Field)
    requires CompleteAt(sec, check, table, f)
    ensures f in Keys(SectionsUpTo(sec, n)) <==>
            table(f).Some? && 0 <= table(f).value < n && check(f).Some?
  {
    if n > 0 {
      var prev, v := SectionsUpTo(sec, n - 1), sec(n - 1);
      assert SectionsUpTo(sec, n) == prev + v;
      SectionsKeys(sec, check, table, n - 1, f);
      KeysIn(prev, v, f);
      if table(f) == Some(n - 1) {
        assert f in Keys(v) <==> check(f).Some?;
      } else {
        assert f !in Keys(v);
      }
    }
  }

  /** Sections 0 .. n - 1 hold no error exactly when each of them holds none. */
  lemma {:induction false} SectionsEmpty(sec: SectionResults, n: nat)
    ensures SectionsUpTo(sec, n) == [] <==> forall s | 0 <= s < n :: sec(s) == []
  {
    if n > 0 {
      SectionsEmpty(sec, n - 1);
    }
  }

  /** The first entry among sections 0 .. n - 1 comes from the lowest section that has errors. */
  lemma {:induction false} SectionsFirst(sec: SectionResults, table: Table, n: nat)
    requires KeyedBy(sec, table)
    requires SectionsUpTo(sec, n) != []
    ensures var t := table(SectionsUpTo(sec, n)[0].key);
      t.Some? && 0 <= t.value < n && sec(t.value) != [] &&
      forall s | 0 <= s < t.value :: sec(s) == []
  {
    var prev, v := SectionsUpTo(sec, n - 1), sec(n - 1);
    if prev != [] {
      SectionsFirst(sec, table, n - 1);
      assert SectionsUpTo(sec, n)[0] == prev[0];
    } else {
      SectionsEmpty(sec, n - 1);
      assert SectionsUpTo(sec, n)[0] == v[0];
      assert table(v[0].key) == Some(n - 1);
    }
  }

  /** Field `f` in the map of the merged errors: present exactly when the table gives it a
      section and it fails, with the message it fails with. */
  lemma MergeAt(sec: SectionResults, check: Check, table: Table, f: Field)
    requires InRange(table) && KeyedBy(sec, table) && DistinctKeys(sec)
    requires AllSound(sec, check) && Complete(sec, check, table)
    ensures var m := ToMap(MergeUpTo(sec, SectionCount));
      (f in m <==> table(f).Some? && check(f).Some?) && (f in m ==> Some(m[f]) == check(f))
  {
    assert CompleteAt(sec, check, table, f);
    var all := SectionsUpTo(sec, SectionCount);
    MergeIsConcat(sec, table, SectionCount);
    SectionsSound(sec, check, SectionCount);
    SectionsKeys(sec, check, table, SectionCount, f);
    MapOfSound(all, check, f);
  }

  /** A field fails only if some section validates it. */
  lemma FailingFieldHasSection(f: Field, d: FormData)
    requires FieldError(f, d).Some?
    ensures SectionOf(f).Some? && 0 <= SectionOf(f).value < SectionCount
  {
    TableFieldsChecked(f);
  }

  /** Field `f` in the merged map: present exactly when it fails, with the message it fails with. */
  lemma SubmitErrorAt(d: FormData, f: Field)
    ensures var m := ToMap(SubmitErrors(d));
      (f in m <==> FieldError(f, d).Some?) && (f in m ==> Some(m[f]) == FieldError(f, d))
  {
    SubmitIsMerge(d);
    ValidationAgrees(d);
    MergeAt(Sections(d), Checker(d), SectionOf, f);
    if FieldError(f, d).Some? {
      FailingFieldHasSection(f, d);
    }
  }

  /** The merged errors hold exactly the fields that fail, each with its own message. */
  lemma SubmitErrorMap(d: FormData)
    ensures var m := ToMap(SubmitErrors(d));
      forall f :: (f in m <==> FieldError(f, d).Some?) && (f in m ==> Some(m[f]) == FieldError(f, d))
  {
    forall f { SubmitErrorAt(d, f); }
  }

  /** A submit goes through exactly when no field of the form fails. */
  lemma SubmitCleanIffAllValid(d: FormData)
    ensures SubmitErrors(d) == [] <==> forall f :: FieldError(f, d).None?
  {
    var all := SubmitErrors(d);
    forall f | all == [] ensures FieldError(f, d).None? { SubmitErrorAt(d, f); }
    if all != [] {
      SubmitIsMerge(d);
      ValidationAgrees(d);
      MergeIsConcat(Sections(d), SectionOf, SectionCount);
      SectionsSound(Sections(d), Checker(d), SectionCount);
      assert Checker(d)(all[0].key).Some?;
    }
  }

  /** The first key of the merged errors belongs to the lowest section that has errors. */
  lemma SubmitJumpTarget(d: FormData)
    requires SubmitErrors(d) != []
    ensures var t := SectionOf(SubmitErrors(d)[0].key);
      t.Some? && 0 <= t.value < SectionCount && ValidateSection(t.value, d) != [] &&
      forall s | 0 <= s < t.value :: ValidateSection(s, d) == []
  {
    SubmitIsMerge(d);
    ValidationAgrees(d);
    MergeIsConcat(Sections(d), SectionOf, SectionCount);
    SectionsFirst(Sections(d), SectionOf, SectionCount);
    var t := SectionOf(SubmitErrors(d)[0].key).value;
    assert ValidateSection(t, d) == Sections(d)(t);
    forall s | 0 <= s < t ensures ValidateSection(s, d) == [] {
      assert Sections(d)(s) == [];
    }
  }

  /** `fieldToSectionMap[f] ?? 0`, the section the final submit jumps to for field `f`. */
  function SectionIndex(f: Field): (t: int)
    ensures 0 <= t < SectionCount
    ensures SectionOf(f).Some? ==> SectionOf(f) == Some(t)
  {
    TableFieldsChecked(f);
    match SectionOf(f) case Some(t) => t case None => 0
  }

  /** Setting the marital status to anything but "Married" and blanking the spouse name,
      as a field edit does, leaves the spouse name nothing to fail on. */
  lemma SpouseClearedPasses(d: FormData, v: string)
    requires v != "Married"
    ensures FieldError(SpouseName, d[MaritalStatus := v][SpouseName := ""]) == None
  {
    var d' := d[MaritalStatus := v][SpouseName := ""];
    assert Value(d', MaritalStatus) == v;
    assert !Applies(SpouseName, d');
  }

  // ---------------------------------------------------------------
  // The component
  // ---------------------------------------------------------------

  class MultiStepForm {
    var formData: FormData
    var errors: map<Field, string>
    var currentSection: int
    var isSubmitting: bool

    /** The section index stays in range, and no submit is in progress between handlers. */
    ghost predicate Valid()
      reads this
    {
      0 <= currentSection < SectionCount && !isSubmitting
    }

    /** Every field empty, no errors, the first section. */
    constructor ()
      ensures Valid()
      ensures forall f :: Value(formData, f) == ""
      ensures errors == map[] && currentSection == 0
    {
      formData := map[];
      errors := map[];
      currentSection := 0;
      isSubmitting := false;
    }

    /** An edit of field `name`: store the value, blank the spouse name when the applicant
        is no longer married, and drop the field's own error message. */
    method HandleChange(name: Field, value: string)
      requires Valid()
      modifies this
      ensures Valid()
      ensures formData == if name == MaritalStatus && value != "Married"
                          then old(formData)[name := value][SpouseName := ""]
                          else old(formData)[name := value]
      ensures errors == if name in old(errors) && old(errors)[name] != "" then old(errors) - {name} else old(errors)
      ensures currentSection == old(currentSection)
    {
      var updated := formData[name := value];
      if name == MaritalStatus && value != "Married" {
        updated := updated[SpouseName := ""];
      }
      formData := updated;
      if name in errors && errors[name] != "" {
        errors := errors - {name};
      }
    }

    /** "Next": stay and show the current section's errors, or clear the errors and move on. */
    method HandleNext() returns (focus: Option<Field>)
      requires Valid()
      modifies this
      ensures Valid()
      ensures var errs := ValidateSection(old(currentSection), old(formData));
        if errs != [] then
          errors == ToMap(errs) && focus == Some(errs[0].key) && currentSection == old(currentSection)
        else
          errors == map[] && focus == None &&
          currentSection == (if old(currentSection) + 1 < SectionCount - 1 then old(currentSection) + 1 else SectionCount - 1)
      ensures formData == old(formData)
    {
      var validationErrors := ValidateSection(currentSection, formData);
      if |validationErrors| > 0 {
        errors := ToMap(validationErrors);
        focus := Some(validationErrors[0].key);
        return;
      }
      errors := map[];
      focus := None;
      var next := currentSection + 1;
      if next > SectionCount - 1 {
        next := SectionCount - 1;
      }
      currentSection := next;
    }

    /** "Previous": one section back, never below the first. */
    method HandlePrevious()
      requires Valid()
      modifies this
      ensures Valid()
      ensures currentSection == if old(currentSection) - 1 > 0 then old(currentSection) - 1 else 0
      ensures formData == old(formData) && errors == old(errors)
    {
      var prev := currentSection - 1;
      if prev < 0 {
        prev := 0;
      }
      currentSection := prev;
    }

    /** A click on the navigation button of section `index`; the buttons of later sections are disabled. */
    method JumpTo(index: int)
      requires Valid() && 0 <= index < SectionCount
      modifies this
      ensures Valid()
      ensures currentSection == if index <= old(currentSection) then index else old(currentSection)
      ensures formData == old(formData) && errors == old(errors)
    {
      var disabled := index > currentSection;
      if !disabled {
        currentSection := index;
      }
    }

    /** The final submit: on errors, store them all and jump to the section of the first one;
        otherwise hand the data to the success callback (the value returned in `submitted`). */
    method HandleSubmit() returns (submitted: Option<FormData>, focus: Option<Field>)
      requires Valid()
      modifies this
      ensures Valid()
      ensures var all := SubmitErrors(old(formData));
        if all != [] then
          errors == ToMap(all) && submitted == None && focus == Some(all[0].key) &&
          currentSection == SectionIndex(all[0].key)
        else
          errors == old(errors) && submitted == Some(old(formData)) && focus == None &&
          currentSection == old(currentSection)
      ensures formData == old(formData)
    {
      var finalErrors := SubmitErrors(formData);
      if |finalErrors| > 0 {
        errors := ToMap(finalErrors);
        var firstField := finalErrors[0].key;
        currentSection := SectionIndex(firstField);
        focus := Some(firstField);
        submitted := None;
        return;
      }
      isSubmitting := true;
      submitted := Some(formData);
      focus := None;
      isSubmitting := false;
    }
  }
}
