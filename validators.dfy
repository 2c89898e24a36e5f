/** The input validators of the schema modules schemas.py,
    app/models/schemas.py and app/schemas.py: `PhoneNumber.validate`, the
    `PageRequest` bounds, the `Role` literal, and the declared constraints
    on ids and on `TimeDelta`. Each returns the validated value or the error
    pydantic reports. */
module Validators {
  import opened Base
  import opened JobCard

  /** What pydantic hands a validator: a string, or any other object. */
  datatype Input = Text(s: string) | NotText

  datatype ValidationError = TypeError | ValueError | NameError

  // ---------------------------------------------------------------------
  // PhoneNumber.validate

  /** The meaning of `^09(\d{9})$` matched against the whole string: "09"
      and then exactly nine digits. `isDigit` is Python 3's `\d`, which
      accepts every Unicode decimal digit (Persian digits included), so it
      is left as a parameter. */
  predicate IsPhoneNumber(isDigit: char -> bool, s: string)
  {
    |s| == 11 && s[0] == '0' && s[1] == '9' && forall i :: 2 <= i < 11 ==> isDigit(s[i])
  }

  /** `\d{n}$`: the rest of the input is exactly `n` digits. */
  function MatchDigits(isDigit: char -> bool, s: string, n: nat): bool
  {
    if n == 0 then s == []
    else s != [] && isDigit(s[0]) && MatchDigits(isDigit, s[1..], n - 1)
  }

  lemma {:induction false} MatchDigitsMeaning(isDigit: char -> bool, s: string, n: nat)
    ensures MatchDigits(isDigit, s, n) <==> |s| == n && forall i :: 0 <= i < |s| ==> isDigit(s[i])
    decreases n
  {
    if n > 0 && s != [] {
      MatchDigitsMeaning(isDigit, s[1..], n - 1);
      assert forall i :: 1 <= i < |s| ==> s[1..][i - 1] == s[i];
    }
  }

  /** `re.compile(r"^09(\d{9})$").fullmatch(s)`, giving group 1. */
  function FullMatch(isDigit: char -> bool, s: string): Option<string>
  {
    if |s| >= 2 && s[0] == '0' && s[1] == '9' && MatchDigits(isDigit, s[2..], 9) then Some(s[2..])
    else None
  }

  /** The match succeeds exactly on phone numbers, and its group is what
      follows the "09". */
  lemma FullMatchMeaning(isDigit: char -> bool, s: string)
    ensures FullMatch(isDigit, s).Some? <==> IsPhoneNumber(isDigit, s)
    ensures FullMatch(isDigit, s).Some? ==> s == "09" + FullMatch(isDigit, s).value && |FullMatch(isDigit, s).value| == 9
  {
    if |s| >= 2 {
      MatchDigitsMeaning(isDigit, s[2..], 9);
      assert forall i :: 2 <= i < |s| ==> s[2..][i - 2] == s[i];
      if s[0] == '0' && s[1] == '9' {
        assert s[..2] == "09";
        assert s == s[..2] + s[2..];
      }
    }
  }

  /** `PhoneNumber.validate`, as its regex evidently intends (see
      `ValidatePhoneAsWritten`): a non-string is a `TypeError`, a string
      that is not "09" and nine digits a `ValueError`, and an accepted
      number yields its nine digits after "09". */
  function ValidatePhone(isDigit: char -> bool, v: Input): (r: Result<string, ValidationError>)
    ensures v.NotText? ==> r == Err(TypeError)
    ensures v.Text? ==> (r.Ok? <==> IsPhoneNumber(isDigit, v.s))
    ensures v.Text? && r.Err? ==> r.error == ValueError
    ensures r.Ok? ==> |r.value| == 9 && v.Text? && v.s == "09" + r.value
  {
    match v
    case NotText => Err(TypeError)
    case Text(s) =>
      FullMatchMeaning(isDigit, s);
      match FullMatch(isDigit, s)
      case None => Err(ValueError)
      case Some(digits) => Ok(digits)
  }

  /** The validator is not idempotent: its nine-character result is never
      itself a phone number. */
  lemma ValidateNotIdempotent(isDigit: char -> bool, v: Input)
    requires ValidatePhone(isDigit, v).Ok?
    ensures ValidatePhone(isDigit, Text(ValidatePhone(isDigit, v).value)) == Err(ValueError)
  {
  }

  /** `PhoneNumber.validate` as written: inside the class body the name
      `__phone_num_re` is mangled to `_PhoneNumber__phone_num_re`, which no
      module defines, so every string raises `NameError`. */
  function ValidatePhoneAsWritten(v: Input): (r: Result<string, ValidationError>)
    ensures r.Err?
  {
    match v
    case NotText => Err(TypeError)
    case Text(_) => Err(NameError)
  }

  /** ASCII digits, one instance of `\d`. */
  predicate AsciiDigit(c: char)
  {
    '0' <= c <= '9'
  }

  /** The number the schema's own example shows is rejected as written and
      accepted by the intended validator. */
  lemma AsWrittenRejectsExample()
    ensures ValidatePhoneAsWritten(Text("09123456789")) == Err(NameError)
    ensures ValidatePhone(AsciiDigit, Text("09123456789")) == Ok("123456789")
  {
    assert IsPhoneNumber(AsciiDigit, "09123456789");
    assert "09123456789"[2..] == "123456789";
  }

  // ---------------------------------------------------------------------
  // PageRequest

  datatype PageRequest = PageRequest(page: int, perPage: int)

  /** `PageRequest(page=..., per_page=...)`: omitted values default to 1 and
      30; `PositiveInt` and the validators reject a page below 1 and a
      `per_page` outside 1..100. The error lists the failing fields in
      declaration order. */
  function MakePageRequest(page: Opt<int>, perPage: Opt<int>): (r: Result<PageRequest, seq<string>>)
    ensures r.Ok? <==> 1 <= Resolve(page, 1) && 1 <= Resolve(perPage, 30) <= 100
    ensures r.Ok? ==> r.value == PageRequest(Resolve(page, 1), Resolve(perPage, 30))
    ensures r.Err? ==>
      ("page" in r.error <==> Resolve(page, 1) < 1) &&
      ("per_page" in r.error <==> !(1 <= Resolve(perPage, 30) <= 100))
  {
    var p := Resolve(page, 1);
    var pp := Resolve(perPage, 30);
    var errors := (if p < 1 then ["page"] else []) + (if pp < 1 || pp > 100 then ["per_page"] else []);
    if errors == [] then Ok(PageRequest(p, pp)) else Err(errors)
  }

  /** A validated request is within the bounds every page computation relies on. */
  predicate ValidPageRequest(r: PageRequest)
  {
    1 <= r.page && 1 <= r.perPage <= 100
  }

  lemma PageRequestDefaults()
    ensures MakePageRequest(Default, Default) == Ok(PageRequest(1, 30))
  {
  }

  // ---------------------------------------------------------------------
  // Role

  datatype Role = Employer | Seeker

  function RoleName(r: Role): string
  {
    match r
    case Employer => "employer"
    case Seeker => "seeker"
  }

  /** `Literal["employer", "seeker"]`. */
  function ParseRole(s: string): (r: Result<Role, ValidationError>)
    ensures r.Ok? <==> s == "employer" || s == "seeker"
    ensures r.Ok? ==> RoleName(r.value) == s
  {
    if s == "employer" then Ok(Employer)
    else if s == "seeker" then Ok(Seeker)
    else Err(ValueError)
  }

  lemma RoleRoundTrip(r: Role)
    ensures ParseRole(RoleName(r)) == Ok(r)
  {
  }

  // ---------------------------------------------------------------------
  // Declared constraints

  /** `id: int = Field(ge=1)` of `SkillSchema` and `JobSchema`: an id
      below 1 is rejected, any other is kept. */
  function CheckId(id: int): (r: Result<int, ValidationError>)
    ensures r.Ok? <==> id >= 1
    ensures r.Ok? ==> r.value == id
    ensures r.Err? ==> r.error == ValueError
  {
    if id < 1 then Err(ValueError) else Ok(id)
  }

  /** The `unit` literal of `TimeDelta` in schemas.py. */
  const SchemasUnits: set<string> := {
    "مدت\U{200C}ها پیش",
    "به تازگی",
    "دقایقی پیش",
    "نیم\U{200C}ساعت پیش",
    "دقیقه پیش",
    "ساعت پیش",
    "امروز",
    "دیروز",
    "روز قبل",
    "هفته قبل",
    "ماه پیش"
  }

  /** The `unit` literal of `TimeDelta` in app/models/schemas.py. */
  const AppModelsUnits: set<string> := {
    "مدت\U{200C}ها پیش",
    "به تازگی",
    "دقایقی پیش",
    "نیم\U{200C}ساعت پیش",
    "دقیقه پیش",
    "ساعت پیش",
    "امروز",
    "دیروز",
    "روز پیش",
    "هفته قبل",
    "ماه پیش"
  }

  /** `TimeDelta`: `unit` is one of the literals and `amount >= 0`. */
  predicate ValidTimeDelta(units: set<string>, unit: string, amount: int)
  {
    unit in units && amount >= 0
  }

  /** Every age `Job.timedelta` computes passes app/models/schemas.py's
      `TimeDelta`. */
  lemma JobAgeIsValidTimeDelta(days: int, seconds: int)
    requires 0 <= seconds < 86400
    ensures ValidTimeDelta(AppModelsUnits, Label(TimeDelta(days, seconds).unit), TimeDelta(days, seconds).amount)
  {
    TimeDeltaAmounts(days, seconds);
  }

  /** schemas.py spells the "days ago" label differently ("روز قبل"), so
      its `TimeDelta` rejects the label for ages of two to six days. */
  lemma SchemasRejectDaysAgo(days: int, seconds: int)
    requires 0 <= seconds < 86400 && 2 <= days <= 6
    ensures TimeDelta(days, seconds).unit == DaysAgo
    ensures !ValidTimeDelta(SchemasUnits, Label(TimeDelta(days, seconds).unit), TimeDelta(days, seconds).amount)
  {
  }
}
