/** The checkout form: nine string fields, each with a rule that is either an
    anchored pattern together with "required", or "required" alone; the form
    is submitted only when every rule holds. */
module Payment {
  import opened Patterns

  datatype Form = Form(
    cardNumber: string, cardName: string, expiryDate: string, cvv: string,
    address: string, city: string, state: string, zipCode: string, country: string)

  datatype Field = CardNumber | CardName | ExpiryDate | Cvv | Address | City | State | ZipCode | Country

  /** Every field starts empty. */
  function InitialValues(): Form {
    Form("", "", "", "", "", "", "", "", "")
  }

  function Value(f: Form, fld: Field): string {
    match fld
    case CardNumber => f.cardNumber
    case CardName => f.cardName
    case ExpiryDate => f.expiryDate
    case Cvv => f.cvv
    case Address => f.address
    case City => f.city
    case State => f.state
    case ZipCode => f.zipCode
    case Country => f.country
  }

  /** `^\d{16}$` */
  function CardNumberPattern(): Regex {
    Repeat(Digit(), 16, 16)
  }

  /** `(0[1-9]|1[0-2])` */
  function MonthPattern(): Regex {
    Alt(Cat(Lit('0'), Range('1', '9')), Cat(Lit('1'), Range('0', '2')))
  }

  /** `^(0[1-9]|1[0-2])\/\d{2}$` */
  function ExpiryPattern(): Regex {
    Cat(MonthPattern(), Cat(Lit('/'), Repeat(Digit(), 2, 2)))
  }

  /** `^\d{3,4}$` */
  function CvvPattern(): Regex {
    Repeat(Digit(), 3, 4)
  }

  /** `^\d{5}(-\d{4})?$` */
  function ZipPattern(): Regex {
    Cat(Repeat(Digit(), 5, 5), Repeat(Cat(Lit('-'), Repeat(Digit(), 4, 4)), 0, 1))
  }

  /** The "required" check on a string: it is not empty. */
  predicate Required(v: string) {
    v != ""
  }

  /** The rule of each field in the validation schema. */
  predicate FieldValid(fld: Field, v: string) {
    match fld
    case CardNumber => Matches(CardNumberPattern(), v) && Required(v)
    case CardName => Required(v)
    case ExpiryDate => Matches(ExpiryPattern(), v) && Required(v)
    case Cvv => Matches(CvvPattern(), v) && Required(v)
    case Address => Required(v)
    case City => Required(v)
    case State => Required(v)
    case ZipCode => Matches(ZipPattern(), v) && Required(v)
    case Country => Required(v)
  }

  /** The whole schema: the conjunction of the nine rules. */
  predicate AllValid(f: Form) {
    && FieldValid(CardNumber, f.cardNumber)
    && FieldValid(CardName, f.cardName)
    && FieldValid(ExpiryDate, f.expiryDate)
    && FieldValid(Cvv, f.cvv)
    && FieldValid(Address, f.address)
    && FieldValid(City, f.city)
    && FieldValid(State, f.state)
    && FieldValid(ZipCode, f.zipCode)
    && FieldValid(Country, f.country)
  }

  /** The nine fields of the schema. */
  function AllFields(): set<Field> {
    {CardNumber, CardName, ExpiryDate, Cvv, Address, City, State, ZipCode, Country}
  }

  /** The schema has a rule for every field of the form. */
  lemma InSchema(fld: Field)
    ensures fld in AllFields()
  {
    match fld
    case CardNumber =>
    case CardName =>
    case ExpiryDate =>
    case Cvv =>
    case Address =>
    case City =>
    case State =>
    case ZipCode =>
    case Country =>
  }

  /** The error report: the schema's fields whose value breaks their rule. */
  function Errors(f: Form): set<Field> {
    set fld | fld in AllFields() && !FieldValid(fld, Value(f, fld))
  }

  /** A field is reported iff its own value breaks its own rule. */
  lemma ErrorsExact(f: Form, fld: Field)
    ensures fld in Errors(f) <==> !FieldValid(fld, Value(f, fld))
  {
    InSchema(fld);
  }

  /** No error is reported iff every one of the nine rules holds. */
  lemma NoErrorsIffAllValid(f: Form)
    ensures Errors(f) == {} <==> AllValid(f)
  {
    if AllValid(f) {
      forall fld ensures fld !in Errors(f) {
        ErrorsExact(f, fld);
        match fld
        case CardNumber =>
        case CardName =>
        case ExpiryDate =>
        case Cvv =>
        case Address =>
        case City =>
        case State =>
        case ZipCode =>
        case Country =>
      }
    } else if !FieldValid(CardNumber, f.cardNumber) { ErrorsExact(f, CardNumber);
    } else if !FieldValid(CardName, f.cardName) { ErrorsExact(f, CardName);
    } else if !FieldValid(ExpiryDate, f.expiryDate) { ErrorsExact(f, ExpiryDate);
    } else if !FieldValid(Cvv, f.cvv) { ErrorsExact(f, Cvv);
    } else if !FieldValid(Address, f.address) { ErrorsExact(f, Address);
    } else if !FieldValid(City, f.city) { ErrorsExact(f, City);
    } else if !FieldValid(State, f.state) { ErrorsExact(f, State);
    } else if !FieldValid(ZipCode, f.zipCode) { ErrorsExact(f, ZipCode);
    } else { ErrorsExact(f, Country);
    }
  }

  /** What pressing "Pay Now" leads to. */
  datatype Outcome = Submitted(values: Form) | Rejected(errors: set<Field>)

  /** The submit handler runs, with the form's values, only when every rule holds;
      otherwise all failing fields are reported together. */
  function Submit(f: Form): (o: Outcome)
    ensures o.Submitted? <==> AllValid(f)
    ensures o.Submitted? ==> o.values == f
    ensures o.Rejected? ==> o.errors == Errors(f) && o.errors != {}
  {
    NoErrorsIffAllValid(f);
    if Errors(f) == {} then Submitted(f) else Rejected(Errors(f))
  }

  // Character-level meaning of each rule.

  /** The card number is exactly sixteen digits. */
  lemma CardNumberRule(v: string)
    ensures FieldValid(CardNumber, v) <==> |v| == 16 && AllDigits(v)
  {
    DigitRun(16, 16, v);
  }

  lemma MonthRule(t: string)
    ensures Matches(MonthPattern(), t) <==>
      |t| == 2 && ((t[0] == '0' && '1' <= t[1] <= '9') || (t[0] == '1' && '0' <= t[1] <= '2'))
  {
    CatFixed(Lit('0'), Range('1', '9'), 1, t);
    CatFixed(Lit('1'), Range('0', '2'), 1, t);
    if |t| == 2 {
      assert t[..1] == [t[0]] && t[1..] == [t[1]];
    }
  }

  lemma SlashYearRule(w: string)
    ensures Matches(Cat(Lit('/'), Repeat(Digit(), 2, 2)), w) <==>
      |w| == 3 && w[0] == '/' && IsDigit(w[1]) && IsDigit(w[2])
  {
    CatFixed(Lit('/'), Repeat(Digit(), 2, 2), 1, w);
    if 1 <= |w| {
      DigitRun(2, 2, w[1..]);
      assert w[..1] == [w[0]];
      if |w| == 3 {
        assert w[1..][0] == w[1] && w[1..][1] == w[2];
      }
    }
  }

  /** The expiry date is `MM/YY`: month 01 to 12, a slash, two digits. */
  lemma ExpiryRule(v: string)
    ensures FieldValid(ExpiryDate, v) <==>
      && |v| == 5
      && ((v[0] == '0' && '1' <= v[1] <= '9') || (v[0] == '1' && '0' <= v[1] <= '2'))
      && v[2] == '/' && IsDigit(v[3]) && IsDigit(v[4])
  {
    forall t | Matches(MonthPattern(), t) ensures |t| == 2 {
      MonthRule(t);
    }
    CatFixed(MonthPattern(), Cat(Lit('/'), Repeat(Digit(), 2, 2)), 2, v);
    if 2 <= |v| {
      MonthRule(v[..2]);
      SlashYearRule(v[2..]);
    }
  }

  /** The CVV is three or four digits. */
  lemma CvvRule(v: string)
    ensures FieldValid(Cvv, v) <==> (|v| == 3 || |v| == 4) && AllDigits(v)
  {
    DigitRun(3, 4, v);
  }

  /** `(-\d{4})?` holds of the empty string and of a dash followed by four digits. */
  lemma PlusFourRule(w: string)
    ensures Matches(Repeat(Cat(Lit('-'), Repeat(Digit(), 4, 4)), 0, 1), w) <==>
      w == [] || (|w| == 5 && w[0] == '-' && AllDigits(w[1..]))
  {
    Optional(Cat(Lit('-'), Repeat(Digit(), 4, 4)), w);
    CatFixed(Lit('-'), Repeat(Digit(), 4, 4), 1, w);
    if 1 <= |w| {
      DigitRun(4, 4, w[1..]);
      assert w[..1] == [w[0]];
    }
  }

  /** The ZIP code is five digits, optionally followed by a dash and four digits. */
  lemma ZipRule(v: string)
    ensures FieldValid(ZipCode, v) <==>
      (|v| == 5 && AllDigits(v)) ||
      (|v| == 10 && AllDigits(v[..5]) && v[5] == '-' && AllDigits(v[6..]))
  {
    forall t | Matches(Repeat(Digit(), 5, 5), t) ensures |t| == 5 {
      DigitRun(5, 5, t);
    }
    var plusFour := Repeat(Cat(Lit('-'), Repeat(Digit(), 4, 4)), 0, 1);
    CatFixed(Repeat(Digit(), 5, 5), plusFour, 5, v);
    if 5 <= |v| {
      DigitRun(5, 5, v[..5]);
      PlusFourRule(v[5..]);
      if 6 <= |v| {
        assert v[5..][1..] == v[6..];
      }
      if |v| == 5 {
        assert v[..5] == v;
      } else if AllDigits(v) {
        assert IsDigit(v[5]);
      }
    }
  }

  /** The five address and name fields only have to be non-empty. */
  lemma RequiredOnlyRule(fld: Field, v: string)
    requires fld in {CardName, Address, City, State, Country}
    ensures FieldValid(fld, v) <==> v != ""
  {
  }

  /** The empty string fails every rule, so the initial form reports all nine fields. */
  lemma EmptyFailsEveryRule(fld: Field)
    ensures !FieldValid(fld, "")
    ensures Errors(InitialValues()) == {CardNumber, CardName, ExpiryDate, Cvv, Address, City, State, ZipCode, Country}
  {
  }

  /** Editing one field can change the error report on that field only. */
  lemma ErrorsAreLocal(f: Form, g: Form, fld: Field)
    requires Value(f, fld) == Value(g, fld)
    ensures fld in Errors(f) <==> fld in Errors(g)
  {
    ErrorsExact(f, fld);
    ErrorsExact(g, fld);
  }

  /** The form of an example: every field is well-formed except for month 13. */
  function MonthThirteenForm(): Form {
    Form("4111111111111111", "A", "13/25", "123", "x", "x", "x", "12345", "x")
  }

  // Each sample value is passed as a parameter equal to its literal, so that the
  // solver unfolds the pattern against one symbolic string instead of a literal.

  lemma SampleCardNumber(v: string)
    requires v == "4111111111111111"
    ensures FieldValid(CardNumber, v)
  {
    CardNumberRule(v);
  }

  lemma SampleExpiry(v: string)
    requires v == "13/25"
    ensures !FieldValid(ExpiryDate, v)
  {
    ExpiryRule(v);
  }

  lemma SampleCvv(v: string)
    requires v == "123"
    ensures FieldValid(Cvv, v)
  {
    assert |v| == 3 && AllDigits(v);
    CvvRule(v);
  }

  lemma SampleZip(v: string)
    requires v == "12345"
    ensures FieldValid(ZipCode, v)
  {
    ZipRule(v);
  }

  /** That form reports the expiry date and nothing else. */
  lemma MonthThirteenExample()
    ensures Errors(MonthThirteenForm()) == {ExpiryDate}
  {
    var f := MonthThirteenForm();
    SampleCardNumber(f.cardNumber);
    SampleExpiry(f.expiryDate);
    SampleCvv(f.cvv);
    SampleZip(f.zipCode);
    forall fld ensures fld in Errors(f) <==> fld == ExpiryDate {
      ErrorsExact(f, fld);
    }
  }
}
