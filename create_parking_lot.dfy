/** The form for creating a parking lot: `validateForm`'s checks, in order,
    and the submission that only goes ahead without errors. */
module CreateLot {
  import opened Common

  /** The lot fields as the form holds them: every input's text. */
  datatype LotForm = LotForm(
    name: string, totalSpots: string, availableSpots: string, pricePerHour: string,
    lotType: string, openingTime: string, closingTime: string)

  /** The location fields; the coordinates are text as well. */
  datatype LocationForm = LocationForm(
    street: string, city: string, state: string, zipCode: string, country: string,
    latitude: string, longitude: string)

  // ---------------------------------------------------------------------------
  // The HH:mm:ss format

  /** `/^\d{2}:\d{2}:\d{2}$/.test(s)`: two digits, a colon, two digits, a colon
      and two digits, and nothing else. The ranges of the parts are not
      checked. */
  predicate IsHms(s: string) {
    && |s| == 8
    && IsDigit(s[0]) && IsDigit(s[1]) && s[2] == ':'
    && IsDigit(s[3]) && IsDigit(s[4]) && s[5] == ':'
    && IsDigit(s[6]) && IsDigit(s[7])
  }

  /** A number below 100 as two digits. */
  function TwoDigits(n: nat): (r: string)
    requires n < 100
    ensures |r| == 2 && AllDigits(r)
  {
    [DigitChar(n / 10), DigitChar(n % 10)]
  }

  function HmsText(h: nat, m: nat, s: nat): string
    requires h < 100 && m < 100 && s < 100
  {
    TwoDigits(h) + ":" + TwoDigits(m) + ":" + TwoDigits(s)
  }

  function DigitValue(c: char): nat
    requires IsDigit(c)
  {
    c as int - '0' as int
  }

  /** The three numbers an `HH:mm:ss` text spells. */
  function ReadHms(t: string): (r: (nat, nat, nat))
    requires IsHms(t)
    ensures r.0 < 100 && r.1 < 100 && r.2 < 100
  {
    (DigitValue(t[0]) * 10 + DigitValue(t[1]),
     DigitValue(t[3]) * 10 + DigitValue(t[4]),
     DigitValue(t[6]) * 10 + DigitValue(t[7]))
  }

  /** Writing three two-digit numbers gives a text the check accepts, which
      reads back as those numbers; and every accepted text is written that
      way. The ranges are not checked, so "99:99:99" is accepted too. */
  lemma HmsRoundTrip(h: nat, m: nat, s: nat, t: string)
    requires h < 100 && m < 100 && s < 100
    ensures IsHms(HmsText(h, m, s)) && ReadHms(HmsText(h, m, s)) == (h, m, s)
    ensures IsHms(t) ==> HmsText(ReadHms(t).0, ReadHms(t).1, ReadHms(t).2) == t
  {
    if IsHms(t) {
      var (a, b, c) := ReadHms(t);
      var w := HmsText(a, b, c);
      assert w[0] == t[0] && w[1] == t[1] && w[3] == t[3] && w[4] == t[4] && w[6] == t[6] && w[7] == t[7];
      assert w == t;
    }
  }

  // ---------------------------------------------------------------------------
  // validateForm

  /** The checks `validateForm` makes, in order. */
  datatype Check =
    | NameRequired | TotalSpotsPositive | AvailableSpotsNonNegative | PriceNumeric
    | OpeningTimeFormat | ClosingTimeFormat | CoordinatesRequired
  {
    function Message(): string {
      match this
      case NameRequired => "Name is required."
      case TotalSpotsPositive => "Total spots must be greater than 0."
      case AvailableSpotsNonNegative => "Available spots cannot be negative."
      case PriceNumeric => "Price per hour must be a number."
      case OpeningTimeFormat => "Opening time must be in HH:mm:ss format."
      case ClosingTimeFormat => "Closing time must be in HH:mm:ss format."
      case CoordinatesRequired => "Latitude and Longitude are required."
    }
  }

  const CHECKS: seq<Check> := [
    NameRequired, TotalSpotsPositive, AvailableSpotsNonNegative, PriceNumeric,
    OpeningTimeFormat, ClosingTimeFormat, CoordinatesRequired]

  /** `text <= 0` with the text converted by `Number`; NaN compares false. */
  predicate AtMostZero(text: string) {
    match ToNumberString(text)
    case Some(x) => x <= 0.0
    case None => false
  }

  /** `text < 0` likewise. */
  predicate BelowZero(text: string) {
    match ToNumberString(text)
    case Some(x) => x < 0.0
    case None => false
  }

  /** Whether a check reports an error for the form. */
  predicate Fails(lot: LotForm, location: LocationForm, c: Check) {
    match c
    case NameRequired => Trim(lot.name) == ""
    case TotalSpotsPositive => AtMostZero(lot.totalSpots)
    case AvailableSpotsNonNegative => BelowZero(lot.availableSpots)
    case PriceNumeric => ParseFloatString(lot.pricePerHour).None?
    case OpeningTimeFormat => !IsHms(lot.openingTime)
    case ClosingTimeFormat => !IsHms(lot.closingTime)
    case CoordinatesRequired => location.latitude == "" || location.longitude == ""
  }

  /** The failure predicate of a filled-in form. */
  function Failing(lot: LotForm, location: LocationForm): Check -> bool {
    c => Fails(lot, location, c)
  }

  /** The messages of the checks among `checks` that `failing` holds of, in
      their order. */
  function ErrorsOf(failing: Check -> bool, checks: seq<Check>): seq<string> {
    if checks == [] then []
    else
      var last := checks[|checks| - 1];
      ErrorsOf(failing, checks[..|checks| - 1]) + if failing(last) then [last.Message()] else []
  }

  /** `ErrorsOf` holds one message per failing check and no other: every
      failing check's message is there, every message belongs to a failing
      check, and there are no errors exactly when no check fails. */
  lemma ErrorsOfSpec(failing: Check -> bool, checks: seq<Check>)
    ensures var errs := ErrorsOf(failing, checks);
            && |errs| <= |checks|
            && (errs == [] <==> forall i :: 0 <= i < |checks| ==> !failing(checks[i]))
            && (forall i :: 0 <= i < |checks| && failing(checks[i]) ==> checks[i].Message() in errs)
            && (forall k :: 0 <= k < |errs| ==> exists i :: 0 <= i < |checks| && failing(checks[i]) && errs[k] == checks[i].Message())
  {
    var errs := ErrorsOf(failing, checks);
    var failed := Filter(checks, failing);
    ErrorsInCheckOrder(failing, checks);
    forall i | 0 <= i < |checks| && failing(checks[i])
      ensures checks[i].Message() in errs
    {
      var k :| 0 <= k < |failed| && failed[k] == checks[i];
      assert errs[k] == checks[i].Message();
    }
    forall k | 0 <= k < |errs|
      ensures exists i :: 0 <= i < |checks| && failing(checks[i]) && errs[k] == checks[i].Message()
    {
      var i :| 0 <= i < |checks| && checks[i] == failed[k];
    }
  }

  /** The errors are the messages of the failing checks taken in check order:
      position by position, `ErrorsOf` is the messages of `filter`ing the
      checks by failure. */
  lemma {:induction false} ErrorsInCheckOrder(failing: Check -> bool, checks: seq<Check>)
    ensures var errs := ErrorsOf(failing, checks);
            var failed := Filter(checks, failing);
            && |errs| == |failed|
            && forall k :: 0 <= k < |errs| ==> errs[k] == failed[k].Message()
  {
    if checks != [] {
      var init, last := checks[..|checks| - 1], checks[|checks| - 1];
      ErrorsInCheckOrder(failing, init);
      assert checks == init + [last];
      FilterAppend(init, [last], failing);
      assert [last][1..] == [];
      assert Filter([last], failing) == if failing(last) then [last] else [];
    }
  }

  /** Checks whose message is the same are the same check. */
  lemma MessageInjective(c: Check, d: Check)
    requires c.Message() == d.Message()
    ensures c == d
  {
    assert c.Message()[0] == d.Message()[0];
  }

  /** Filtering a list without repeats gives a list without repeats. */
  lemma {:induction false} FilterDistinct(checks: seq<Check>, failing: Check -> bool)
    requires forall i, j :: 0 <= i < j < |checks| ==> checks[i] != checks[j]
    ensures forall i, j :: 0 <= i < j < |Filter(checks, failing)| ==> Filter(checks, failing)[i] != Filter(checks, failing)[j]
  {
    if checks != [] {
      var rest := checks[1..];
      FilterDistinct(rest, failing);
      assert checks[0] !in rest by {
        forall k | 0 <= k < |rest|
          ensures rest[k] != checks[0]
        {
          assert rest[k] == checks[k + 1];
        }
      }
      var tail := Filter(rest, failing);
      var head := if failing(checks[0]) then [checks[0]] else [];
      var failed := Filter(checks, failing);
      assert failed == head + tail;
      assert checks[0] !in tail;
      forall i, j | 0 <= i < j < |failed|
        ensures failed[i] != failed[j]
      {
        if head != [] && i == 0 {
          assert failed[j] == tail[j - 1] && tail[j - 1] in rest;
        } else {
          var a, b := i - |head|, j - |head|;
          assert 0 <= a < b < |tail| && tail[a] != tail[b];
          assert failed[i] == tail[a] && failed[j] == tail[b];
        }
      }
    }
  }

  /** The position of a check in `CHECKS`. */
  function Position(c: Check): nat {
    match c
    case NameRequired => 0
    case TotalSpotsPositive => 1
    case AvailableSpotsNonNegative => 2
    case PriceNumeric => 3
    case OpeningTimeFormat => 4
    case ClosingTimeFormat => 5
    case CoordinatesRequired => 6
  }

  /** `validateForm` makes each check once. */
  lemma ChecksDistinct()
    ensures forall i, j :: 0 <= i < j < |CHECKS| ==> CHECKS[i] != CHECKS[j]
  {
    forall i | 0 <= i < |CHECKS|
      ensures Position(CHECKS[i]) == i
    {
    }
  }

  /** `validateForm` never reports a message twice, whatever fails: the
      failing checks are taken once each, and distinct checks have distinct
      messages. */
  lemma MessagesDistinct(failing: Check -> bool)
    ensures var errs := ErrorsOf(failing, CHECKS);
            forall i, j :: 0 <= i < j < |errs| ==> errs[i] != errs[j]
  {
    var errs := ErrorsOf(failing, CHECKS);
    var failed := Filter(CHECKS, failing);
    ErrorsInCheckOrder(failing, CHECKS);
    ChecksDistinct();
    FilterDistinct(CHECKS, failing);
    forall i, j | 0 <= i < j < |errs|
      ensures errs[i] != errs[j]
    {
      if errs[i] == errs[j] {
        MessageInjective(failed[i], failed[j]);
      }
    }
  }

  /** An empty spot count reads as 0: it fails "greater than 0" and passes
      "cannot be negative". */
  lemma EmptyCountReadsAsZero(lot: LotForm, location: LocationForm)
    ensures Fails(lot.(totalSpots := ""), location, TotalSpotsPositive)
    ensures !Fails(lot.(availableSpots := ""), location, AvailableSpotsNonNegative)
  {
    ToNumberOfNatString(0);
  }

  /** A positive whole number of spots passes both count checks. */
  lemma PositiveCountPasses(lot: LotForm, location: LocationForm, n: nat)
    requires n > 0
    ensures !Fails(lot.(totalSpots := NatToString(n)), location, TotalSpotsPositive)
    ensures !Fails(lot.(availableSpots := NatToString(n)), location, AvailableSpotsNonNegative)
  {
    ToNumberOfNatString(n);
  }

  /** `validateForm`: each check pushes its message onto the list when it
      fails. */
  method ValidateForm(lot: LotForm, location: LocationForm) returns (errors: seq<string>)
    ensures errors == ErrorsOf(Failing(lot, location), CHECKS)
  {
    errors := [];
    assert CHECKS[..0] == [];
    errors := Push(lot, location, errors, 0);
    errors := Push(lot, location, errors, 1);
    errors := Push(lot, location, errors, 2);
    errors := Push(lot, location, errors, 3);
    errors := Push(lot, location, errors, 4);
    errors := Push(lot, location, errors, 5);
    errors := Push(lot, location, errors, 6);
    assert CHECKS[..7] == CHECKS;
  }

  /** One line of `validateForm`: the `k`-th check's message is pushed when
      that check fails. */
  method Push(lot: LotForm, location: LocationForm, errors: seq<string>, k: nat) returns (r: seq<string>)
    requires k < |CHECKS| && errors == ErrorsOf(Failing(lot, location), CHECKS[..k])
    ensures r == ErrorsOf(Failing(lot, location), CHECKS[..k + 1])
  {
    assert CHECKS[..k + 1][..k] == CHECKS[..k];
    var check := CHECKS[k];
    r := errors;
    if Failing(lot, location)(check) {
      r := errors + [check.Message()];
    }
  }

  /** `errors.join("\n")`. */
  function JoinLines(lines: seq<string>): string {
    if lines == [] then ""
    else if |lines| == 1 then lines[0]
    else lines[0] + "\n" + JoinLines(lines[1..])
  }

  /** What a submission leads to: an alert listing the errors, or the call
      that creates the lot with the form's data. */
  datatype Submission = Alert(text: string) | Create(lot: LotForm, location: LocationForm)

  /** `handleSubmit`. */
  method HandleSubmit(lot: LotForm, location: LocationForm) returns (s: Submission)
    ensures s.Create? <==> forall i :: 0 <= i < |CHECKS| ==> !Fails(lot, location, CHECKS[i])
    ensures s.Create? ==> s == Create(lot, location)
    ensures s.Alert? ==> s.text == "Validation Errors:\n" + JoinLines(ErrorsOf(Failing(lot, location), CHECKS))
  {
    var errors := ValidateForm(lot, location);
    ErrorsOfSpec(Failing(lot, location), CHECKS);
    if |errors| > 0 {
      return Alert("Validation Errors:\n" + JoinLines(errors));
    }
    s := Create(lot, location);
  }
}
