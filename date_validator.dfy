/**
 * `DateValidator`: single dates, lease date ranges, the scan of a contract
 * text for dates and ranges, and the suggestions for fixing a date. The
 * reference moment ("today") is a parameter; the source takes it from
 * `datetime.now()` when the validator is built.
 */
module DateValidator {
  import opened Wrappers
  import opened Seqs
  import opened Text
  import opened Calendar
  import opened DateParse

  // ---------------------------------------------------------------------
  // Single dates
  // ---------------------------------------------------------------------

  /** Why `validate_date` rejects a string. */
  datatype DateError =
    | BadFormat(text: string)
    | NotInCalendar(text: string)
    | YearOutOfRange(year: int)

  /** The message `validate_date` returns for an error. */
  function Describe(e: DateError): string {
    match e
    case BadFormat(text) => "Invalid date format: " + text
    case NotInCalendar(text) => "Invalid date: " + text + " (this date does not exist in the calendar)"
    case YearOutOfRange(year) => "Year out of reasonable range: " + IntToString(year)
  }

  /** The years `validate_date` accepts. */
  const FirstYear: int := 1900
  const LastYear: int := 2100

  /**
   * `validate_date(date_str)`: the parsed date when the string parses to a
   * date in 1900..2100, an error otherwise. Parsing only yields real dates, so
   * the calendar error is never produced.
   */
  function ValidateDate(s: string): (r: Result<Date, DateError>)
    ensures r.Ok? <==> ParseDate(s).Some? && FirstYear <= ParseDate(s).value.year <= LastYear
    ensures r.Ok? ==> r.value == ParseDate(s).value && IsReal(r.value)
    ensures ParseDate(s).None? ==> r == Err(BadFormat(s))
    ensures r.Err? ==> !r.error.NotInCalendar?
  {
    match ParseDate(s)
    case None => Err(BadFormat(s))
    case Some(d) =>
      if !IsValidDate(d.day, d.month, d.year) then Err(NotInCalendar(s))
      else if !(FirstYear <= d.year <= LastYear) then Err(YearOutOfRange(d.year))
      else Ok(d)
  }

  /** The module helper `is_valid_date(date_str)`. */
  function IsValidDateText(s: string): (b: bool)
    ensures b <==> ParseDate(s).Some? && FirstYear <= ParseDate(s).value.year <= LastYear
  {
    ValidateDate(s).Ok?
  }

  /** "30/02/YYYY" is reported as a format error, not as a calendar error. */
  lemma Feb30IsFormatError(year: string)
    requires |year| == 4 && AllDigits(year)
    ensures ValidateDate("30" + "/" + "02" + "/" + year) == Err(BadFormat("30" + "/" + "02" + "/" + year))
  {
    Feb30IsNoDate(year);
  }

  // ---------------------------------------------------------------------
  // Date ranges
  // ---------------------------------------------------------------------

  /** Why `validate_date_range` rejects a range; texts are kept as the caller wrote them. */
  datatype RangeError =
    | StartInvalid(cause: DateError)
    | EndInvalid(cause: DateError)
    | StartInPast(startText: string, todayText: string)
    | EndNotAfterStart(endText: string, startText: string)
    | TooShort(days: int, minDays: int)
    | TooLong(days: int, maxDays: int)

  /** The message `validate_date_range` returns for an error (`//` is floor division). */
  function DescribeRange(e: RangeError): string {
    match e
    case StartInvalid(cause) => "Start date error: " + Describe(cause)
    case EndInvalid(cause) => "End date error: " + Describe(cause)
    case StartInPast(startText, todayText) =>
      "Start date " + startText + " is in the past. "
      + "Lease contracts should start on or after today (" + todayText + ")"
    case EndNotAfterStart(endText, startText) =>
      "End date " + endText + " must be after start date " + startText + ". "
      + "The lease period goes backward in time."
    case TooShort(days, minDays) =>
      "Lease duration too short: " + IntToString(days) + " days. "
      + "Minimum duration is " + IntToString(minDays) + " days."
    case TooLong(days, maxDays) =>
      "Lease duration too long: " + IntToString(days) + " days (" + IntToString(days / 365) + " years). "
      + "Maximum duration is " + IntToString(maxDays / 365) + " years."
  }

  /** `(end - start).days` for two midnight datetimes. */
  function Duration(start: Date, end: Date): int
    requires 1 <= start.month <= 12 && 1 <= end.month <= 12
  {
    Ordinal(end) - Ordinal(start)
  }

  /** `reference_date.strftime('%d/%m/%Y')` */
  function TodayText(now: Moment): string
    requires IsRealMoment(now)
  {
    DmyText(now.date.day, now.date.month, now.date.year)
  }

  /**
   * `validate_date_range`: the start, then the end, must be valid dates; the
   * start must not lie before the reference moment unless that is allowed;
   * the end must come after the start; the day count must lie within the
   * bounds. The first failing check decides the error.
   */
  function ValidateDateRange(now: Moment, startText: string, endText: string, allowPastStart: bool,
                             minDays: int, maxDays: int): (r: Outcome<RangeError>)
    requires IsRealMoment(now)
    ensures r.Pass? ==> ValidateDate(startText).Ok? && ValidateDate(endText).Ok?
    ensures r.Pass? ==> var d := Duration(ValidateDate(startText).value, ValidateDate(endText).value);
      d >= 1 && minDays <= d <= maxDays
  {
    match ValidateDate(startText)
    case Err(e) => Fail(StartInvalid(e))
    case Ok(start) =>
      match ValidateDate(endText)
      case Err(e) => Fail(EndInvalid(e))
      case Ok(end) =>
        OrdinalOrder(start, end);
        if !allowPastStart && MomentLess(Midnight(start), now) then Fail(StartInPast(startText, TodayText(now)))
        else if !DateLess(start, end) then Fail(EndNotAfterStart(endText, startText))
        else
          var days := Duration(start, end);
          if days < minDays then Fail(TooShort(days, minDays))
          else if days > maxDays then Fail(TooLong(days, maxDays))
          else Pass
  }

  /**
   * A range is accepted exactly when both dates are valid, the start is not
   * before the reference moment (unless allowed), the end comes strictly
   * after the start in the calendar, and the day count is within the bounds.
   */
  lemma RangeAcceptedIff(now: Moment, startText: string, endText: string, allowPastStart: bool,
                         minDays: int, maxDays: int)
    requires IsRealMoment(now)
    ensures ValidateDateRange(now, startText, endText, allowPastStart, minDays, maxDays).Pass?
      <==> && ValidateDate(startText).Ok? && ValidateDate(endText).Ok?
           && var start, end := ValidateDate(startText).value, ValidateDate(endText).value;
           && (allowPastStart || !MomentLess(Midnight(start), now))
           && Ordinal(start) < Ordinal(end)
           && minDays <= Ordinal(end) - Ordinal(start) <= maxDays
  {
    if ValidateDate(startText).Ok? && ValidateDate(endText).Ok? {
      OrdinalOrder(ValidateDate(startText).value, ValidateDate(endText).value);
    }
  }

  /** An end date on or before the start date always fails, whatever the bounds. */
  lemma EndNotAfterStartFails(now: Moment, startText: string, endText: string, allowPastStart: bool,
                              minDays: int, maxDays: int)
    requires IsRealMoment(now)
    requires ValidateDate(startText).Ok? && ValidateDate(endText).Ok?
    requires !DateLess(ValidateDate(startText).value, ValidateDate(endText).value)
    ensures ValidateDateRange(now, startText, endText, allowPastStart, minDays, maxDays).Fail?
  {
  }

  /**
   * Parsed dates sit at midnight, so once the reference moment is past
   * midnight a lease starting today is reported as starting in the past.
   */
  lemma StartTodayIsInThePast(now: Moment, startText: string, endText: string, minDays: int, maxDays: int)
    requires IsRealMoment(now) && now.micros > 0
    requires ValidateDate(startText) == Ok(now.date) && ValidateDate(endText).Ok?
    ensures ValidateDateRange(now, startText, endText, false, minDays, maxDays)
         == Fail(StartInPast(startText, TodayText(now)))
  {
  }

  /** The defaults of `validate_date_range`: at least one day, at most 36500. */
  const DefaultMinDays: int := 1
  const DefaultMaxDays: int := 36500

  /** The module helper `validate_lease_dates` with the defaults. */
  function ValidateLeaseDates(now: Moment, startText: string, endText: string, allowPastStart: bool): (r: Outcome<RangeError>)
    requires IsRealMoment(now)
    ensures r.Pass? ==>
      && ValidateDate(startText).Ok? && ValidateDate(endText).Ok?
      && 1 <= Duration(ValidateDate(startText).value, ValidateDate(endText).value) <= 36500
  {
    ValidateDateRange(now, startText, endText, allowPastStart, DefaultMinDays, DefaultMaxDays)
  }

  // ---------------------------------------------------------------------
  // Scanning a text for dates and ranges
  // ---------------------------------------------------------------------

  /**
   * What the regular expressions of `extract_and_validate_dates` find in a
   * text: for each of the three date patterns the matched strings, and for
   * each of the four range patterns the (start, end) groups, in the order
   * `re.finditer` yields them.
   */
  datatype DateMatches = DateMatches(dateHits: seq<seq<string>>, rangeHits: seq<seq<(string, string)>>)

  /** One entry of `found_dates`: the text and what `validate_date` made of it. */
  datatype Finding = Finding(text: string, check: Result<Date, DateError>)

  /** One entry of `errors`. */
  datatype ScanError = BadDate(text: string, cause: DateError) | BadRange(rangeCause: RangeError)

  function DescribeScan(e: ScanError): string {
    match e
    case BadDate(text, cause) => "Invalid date '" + text + "': " + Describe(cause)
    case BadRange(cause) => DescribeRange(cause)
  }

  /** `"; ".join(errors)` */
  function ErrorText(errors: seq<ScanError>): string {
    Join(Map(errors, DescribeScan), "; ")
  }

  datatype ScanResult = ScanResult(allValid: bool, errors: seq<ScanError>, found: seq<Finding>)

  /**
   * One finding per hit, in order, each holding what `check` makes of the hit
   * (the scan uses `validate_date` as `check`).
   */
  function Findings(check: string -> Result<Date, DateError>, hits: seq<string>): (r: seq<Finding>)
    ensures |r| == |hits|
  {
    if |hits| == 0 then []
    else Findings(check, hits[..|hits| - 1]) + [Finding(hits[|hits| - 1], check(hits[|hits| - 1]))]
  }

  /** The error entries of the invalid findings, in order. */
  function DateErrors(found: seq<Finding>): seq<ScanError> {
    if |found| == 0 then []
    else
      var f := found[|found| - 1];
      DateErrors(found[..|found| - 1]) + (if f.check.Err? then [BadDate(f.text, f.check.error)] else [])
  }

  /**
   * The error entries of the ranges `verdict` rejects, in order (the scan uses
   * its own `validate_date_range(start, end, allow_past_start)`, with the default
   * duration bounds, as `verdict`).
   */
  function RangeErrors(verdict: ((string, string)) -> Outcome<RangeError>, pairs: seq<(string, string)>): seq<ScanError> {
    if |pairs| == 0 then []
    else
      var v := verdict(pairs[|pairs| - 1]);
      RangeErrors(verdict, pairs[..|pairs| - 1]) + (if v.Fail? then [BadRange(v.error)] else [])
  }

  /**
   * The scan's `self.validate_date_range(start, end, allow_past_start)` with the
   * default bounds of 1 and 36500 days, against the validator's reference moment.
   * It is the range check `ValidateLeaseDates` states.
   */
  function LeaseCheck(now: Moment, allowPastStart: bool): ((string, string)) -> Outcome<RangeError>
    requires IsRealMoment(now)
  {
    (pair: (string, string)) => ValidateLeaseDates(now, pair.0, pair.1, allowPastStart)
  }

  predicate RangeOk(now: Moment, pair: (string, string), allowPastStart: bool)
    requires IsRealMoment(now)
  {
    ValidateLeaseDates(now, pair.0, pair.1, allowPastStart).Pass?
  }

  /**
   * `extract_and_validate_dates` as a function of the matches, with `check`
   * for `validate_date` and `verdict` for `validate_date_range` with its defaults: the findings
   * of all date hits; when any is invalid, their errors and nothing else;
   * otherwise the errors of the ranges.
   */
  function ScanWith(check: string -> Result<Date, DateError>, verdict: ((string, string)) -> Outcome<RangeError>,
                    m: DateMatches): ScanResult
  {
    var found := Findings(check, Concat(m.dateHits));
    var dateErrors := DateErrors(found);
    if |dateErrors| > 0 then ScanResult(false, dateErrors, found)
    else
      var rangeErrors := RangeErrors(verdict, Concat(m.rangeHits));
      if |rangeErrors| > 0 then ScanResult(false, rangeErrors, found)
      else ScanResult(true, [], found)
  }

  /** The scan with the validator's own checks. */
  function Scan(now: Moment, m: DateMatches, allowPastStart: bool): ScanResult
    requires IsRealMoment(now)
  {
    ScanWith(ValidateDate, LeaseCheck(now, allowPastStart), m)
  }

  /** Every date hit passes `check`. */
  predicate AllDatesValid(check: string -> Result<Date, DateError>, hits: seq<string>) {
    forall i :: 0 <= i < |hits| ==> check(hits[i]).Ok?
  }

  /** Every range hit passes `verdict`. */
  predicate AllRangesPass(verdict: ((string, string)) -> Outcome<RangeError>, pairs: seq<(string, string)>) {
    forall i :: 0 <= i < |pairs| ==> verdict(pairs[i]).Pass?
  }

  /** Each finding holds its hit and that hit's check, in hit order. */
  lemma {:induction false} FindingsAt(check: string -> Result<Date, DateError>, hits: seq<string>)
    ensures forall i :: 0 <= i < |hits| ==> Findings(check, hits)[i] == Finding(hits[i], check(hits[i]))
  {
    if |hits| > 0 {
      FindingsAt(check, hits[..|hits| - 1]);
    }
  }

  /** Date errors are all single-date entries, and there are none exactly when every finding is valid. */
  lemma {:induction false} DateErrorsIff(found: seq<Finding>)
    ensures forall e :: e in DateErrors(found) ==> e.BadDate?
    ensures DateErrors(found) == [] <==> forall i :: 0 <= i < |found| ==> found[i].check.Ok?
  {
    if |found| > 0 {
      var init := found[..|found| - 1];
      DateErrorsIff(init);
      assert forall i :: 0 <= i < |init| ==> init[i] == found[i];
    }
  }

  /** Range errors are all range entries, and there are none exactly when every range passes. */
  lemma {:induction false} RangeErrorsIff(verdict: ((string, string)) -> Outcome<RangeError>, pairs: seq<(string, string)>)
    ensures forall e :: e in RangeErrors(verdict, pairs) ==> e.BadRange?
    ensures RangeErrors(verdict, pairs) == [] <==> AllRangesPass(verdict, pairs)
  {
    if |pairs| > 0 {
      var init := pairs[..|pairs| - 1];
      RangeErrorsIff(verdict, init);
      assert forall i :: 0 <= i < |init| ==> init[i] == pairs[i];
    }
  }

  /**
   * The scan reports everything valid exactly when it reports no error, and
   * that is exactly when every date hit passes `check` and every range hit
   * passes `verdict`; the findings are one per date hit, in order; and when
   * some date hit is invalid only single-date errors are reported.
   */
  lemma ScanProperties(check: string -> Result<Date, DateError>, verdict: ((string, string)) -> Outcome<RangeError>,
                       m: DateMatches)
    ensures ScanWith(check, verdict, m).allValid <==> ScanWith(check, verdict, m).errors == []
    ensures |ScanWith(check, verdict, m).found| == |Concat(m.dateHits)|
    ensures forall i :: 0 <= i < |Concat(m.dateHits)| ==>
      ScanWith(check, verdict, m).found[i] == Finding(Concat(m.dateHits)[i], check(Concat(m.dateHits)[i]))
    ensures ScanWith(check, verdict, m).allValid <==>
      AllDatesValid(check, Concat(m.dateHits)) && AllRangesPass(verdict, Concat(m.rangeHits))
    ensures (exists i :: 0 <= i < |Concat(m.dateHits)| && check(Concat(m.dateHits)[i]).Err?) ==>
      forall e :: e in ScanWith(check, verdict, m).errors ==> e.BadDate?
  {
    var hits, pairs := Concat(m.dateHits), Concat(m.rangeHits);
    FindingsAt(check, hits);
    var found := Findings(check, hits);
    DateErrorsIff(found);
    RangeErrorsIff(verdict, pairs);
    assert (forall i :: 0 <= i < |found| ==> found[i].check.Ok?) <==> AllDatesValid(check, hits) by {
      assert forall i :: 0 <= i < |hits| ==> found[i].check == check(hits[i]);
    }
    forall i | 0 <= i < |hits| && check(hits[i]).Err?
      ensures DateErrors(found) != []
    {
      assert found[i].check.Err?;
    }
  }

  /** With the validator's own checks: valid exactly when every date validates and every range is accepted. */
  lemma ScanValidIff(now: Moment, m: DateMatches, allowPastStart: bool)
    requires IsRealMoment(now)
    ensures Scan(now, m, allowPastStart).allValid <==>
      && (forall i :: 0 <= i < |Concat(m.dateHits)| ==> ValidateDate(Concat(m.dateHits)[i]).Ok?)
      && (forall i :: 0 <= i < |Concat(m.rangeHits)| ==> RangeOk(now, Concat(m.rangeHits)[i], allowPastStart))
  {
    ScanProperties(ValidateDate, LeaseCheck(now, allowPastStart), m);
  }

  /** A verdict that rejects a pair twice gives the same error entry twice. */
  lemma RejectedTwice(verdict: ((string, string)) -> Outcome<RangeError>, pair: (string, string))
    requires verdict(pair).Fail?
    ensures RangeErrors(verdict, [pair, pair]) == [BadRange(verdict(pair).error), BadRange(verdict(pair).error)]
  {
    var e := verdict(pair).error;
    assert [pair][..0] == [];
    assert RangeErrors(verdict, [pair]) == [BadRange(e)];
    assert [pair, pair][..1] == [pair];
  }

  /** The message of two errors: their texts joined by "; ". */
  lemma ErrorTextOfTwo(a: ScanError, b: ScanError)
    ensures ErrorText([a, b]) == DescribeScan(a) + "; " + DescribeScan(b)
  {
    var ds := Map([a, b], DescribeScan);
    assert ds == [DescribeScan(a), DescribeScan(b)];
    assert ds[1..] == [DescribeScan(b)];
    assert Join(ds[1..], "; ") == DescribeScan(b);
  }

  /** The date findings and errors of the two endpoints of one range phrase. */
  lemma EndpointFindings(startText: string, endText: string)
    ensures Concat([[startText, endText], [], []]) == [startText, endText]
    ensures Findings(ValidateDate, [startText, endText])
      == [Finding(startText, ValidateDate(startText)), Finding(endText, ValidateDate(endText))]
    ensures ValidateDate(startText).Ok? && ValidateDate(endText).Ok? ==>
      DateErrors(Findings(ValidateDate, [startText, endText])) == []
    ensures ValidateDate(startText).Err? && ValidateDate(endText).Ok? ==>
      DateErrors(Findings(ValidateDate, [startText, endText])) == [BadDate(startText, ValidateDate(startText).error)]
  {
    var dh: seq<seq<string>> := [[startText, endText], [], []];
    assert dh[1..][1..][1..] == [];
    assert Concat(dh[1..][1..]) == [];
    assert Concat(dh[1..]) == [];
    assert [startText, endText][..1] == [startText];
    assert [startText][..0] == [];
    var found := Findings(ValidateDate, [startText, endText]);
    assert found[..1] == [found[0]];
    assert DateErrors(found[..1][..0]) == [];
  }

  /** The range hits of a "from X to Y" phrase: the `from` and the `From[:\s]+` patterns. */
  lemma FromToRangeHits(pair: (string, string))
    ensures Concat([[], [pair], [pair], []]) == [pair, pair]
  {
    var rh: seq<seq<(string, string)>> := [[], [pair], [pair], []];
    assert rh[3..][1..] == [];
    assert Concat(rh[3..]) == [];
    assert rh[2..][1..] == rh[3..];
    assert Concat(rh[2..]) == [pair];
    assert rh[1..][1..] == rh[2..];
  }

  /**
   * The endpoints of a "from X to Y" phrase are hits of the day-first date
   * pattern. When both are valid dates, the phrase is also matched by the
   * `From[:\s]+` pattern, so a rejected range is reported twice.
   */
  lemma FromToErrorReportedTwice(now: Moment, startText: string, endText: string, allowPastStart: bool)
    requires IsRealMoment(now)
    requires ValidateDate(startText).Ok? && ValidateDate(endText).Ok?
    requires ValidateLeaseDates(now, startText, endText, allowPastStart).Fail?
    ensures var e := ValidateLeaseDates(now, startText, endText, allowPastStart).error;
      var r := Scan(now, DateMatches([[startText, endText], [], []], [[], [(startText, endText)], [(startText, endText)], []]), allowPastStart);
      !r.allValid && r.errors == [BadRange(e), BadRange(e)]
      && ErrorText(r.errors) == DescribeRange(e) + "; " + DescribeRange(e)
  {
    var pair := (startText, endText);
    FromToRangeHits(pair);
    EndpointFindings(startText, endText);
    var verdict := LeaseCheck(now, allowPastStart);
    RejectedTwice(verdict, pair);
    var e := verdict(pair).error;
    ErrorTextOfTwo(BadRange(e), BadRange(e));
  }

  /**
   * When an endpoint of a "from X to Y" phrase is no valid date, the scan
   * stops at the date hits: the phrase is reported once, as that invalid
   * date, and the range patterns are never consulted.
   */
  lemma FromToBadEndpointReportedOnce(now: Moment, startText: string, endText: string, allowPastStart: bool)
    requires IsRealMoment(now)
    requires ValidateDate(startText).Err? && ValidateDate(endText).Ok?
    ensures var r := Scan(now, DateMatches([[startText, endText], [], []], [[], [(startText, endText)], [(startText, endText)], []]), allowPastStart);
      !r.allValid && r.errors == [BadDate(startText, ValidateDate(startText).error)]
  {
    EndpointFindings(startText, endText);
  }

  /**
   * `extract_and_validate_dates`: loops over the patterns and their matches,
   * appending to `found_dates` and `errors`, and returns before the range
   * patterns when a single date is invalid.
   */
  method ExtractAndValidateDates(now: Moment, m: DateMatches, allowPastStart: bool)
    returns (allValid: bool, message: string, found: seq<Finding>)
    requires IsRealMoment(now)
    ensures var r := Scan(now, m, allowPastStart);
      allValid == r.allValid && message == ErrorText(r.errors) && found == r.found
  {
    var errors;
    found, errors := CheckDateHits(ValidateDate, m.dateHits);
    if |errors| > 0 {
      return false, ErrorText(errors), found;
    }
    errors := CheckRangeHits(LeaseCheck(now, allowPastStart), m.rangeHits);
    if |errors| > 0 {
      return false, ErrorText(errors), found;
    }
    return true, "", found;
  }

  /** The date-pattern loops of `extract_and_validate_dates`, with `check` for `validate_date`. */
  method CheckDateHits(check: string -> Result<Date, DateError>, dateHits: seq<seq<string>>)
    returns (found: seq<Finding>, errors: seq<ScanError>)
    ensures found == Findings(check, Concat(dateHits)) && errors == DateErrors(found)
  {
    found, errors := [], [];
    var p := 0;
    while p < |dateHits|
      invariant 0 <= p <= |dateHits|
      invariant found == Findings(check, Concat(dateHits[..p]))
      invariant errors == DateErrors(found)
    {
      var hits := dateHits[p];
      var k := 0;
      assert Concat(dateHits[..p]) + hits[..0] == Concat(dateHits[..p]);
      while k < |hits|
        invariant 0 <= k <= |hits|
        invariant found == Findings(check, Concat(dateHits[..p]) + hits[..k])
        invariant errors == DateErrors(found)
      {
        var text := hits[k];
        var result := check(text);
        FindingsSnoc(check, Concat(dateHits[..p]), hits, k);
        DateErrorsSnoc(found, Finding(text, result));
        found := found + [Finding(text, result)];
        if result.Err? {
          errors := errors + [BadDate(text, result.error)];
        }
        k := k + 1;
      }
      ConcatPrefixStep(dateHits, p);
      p := p + 1;
    }
    assert dateHits[..p] == dateHits;
  }

  /** The range-pattern loops of `extract_and_validate_dates`, with `verdict` for `validate_date_range` with its defaults. */
  method CheckRangeHits(verdict: ((string, string)) -> Outcome<RangeError>, rangeHits: seq<seq<(string, string)>>)
    returns (errors: seq<ScanError>)
    ensures errors == RangeErrors(verdict, Concat(rangeHits))
  {
    errors := [];
    var q := 0;
    while q < |rangeHits|
      invariant 0 <= q <= |rangeHits|
      invariant errors == RangeErrors(verdict, Concat(rangeHits[..q]))
    {
      var pairs := rangeHits[q];
      var k := 0;
      assert Concat(rangeHits[..q]) + pairs[..0] == Concat(rangeHits[..q]);
      while k < |pairs|
        invariant 0 <= k <= |pairs|
        invariant errors == RangeErrors(verdict, Concat(rangeHits[..q]) + pairs[..k])
      {
        var v := verdict(pairs[k]);
        RangeErrorsSnoc(verdict, Concat(rangeHits[..q]), pairs, k);
        if v.Fail? {
          errors := errors + [BadRange(v.error)];
        }
        k := k + 1;
      }
      ConcatPrefixStep(rangeHits, q);
      q := q + 1;
    }
    assert rangeHits[..q] == rangeHits;
  }

  lemma FindingsSnoc(check: string -> Result<Date, DateError>, before: seq<string>, hits: seq<string>, k: nat)
    requires k < |hits|
    ensures Findings(check, before + hits[..k + 1]) == Findings(check, before + hits[..k]) + [Finding(hits[k], check(hits[k]))]
  {
    assert (before + hits[..k + 1])[..|before| + k] == before + hits[..k];
  }

  lemma DateErrorsSnoc(found: seq<Finding>, f: Finding)
    ensures DateErrors(found + [f]) == DateErrors(found) + (if f.check.Err? then [BadDate(f.text, f.check.error)] else [])
  {
    assert (found + [f])[..|found|] == found;
  }

  lemma RangeErrorsSnoc(verdict: ((string, string)) -> Outcome<RangeError>, before: seq<(string, string)>,
                        pairs: seq<(string, string)>, k: nat)
    requires k < |pairs|
    ensures var v := verdict(pairs[k]);
      RangeErrors(verdict, before + pairs[..k + 1])
      == RangeErrors(verdict, before + pairs[..k]) + (if v.Fail? then [BadRange(v.error)] else [])
  {
    assert (before + pairs[..k + 1])[..|before| + k] == before + pairs[..k];
  }

  // ---------------------------------------------------------------------
  // Suggestions for fixing a date
  // ---------------------------------------------------------------------

  /**
   * The first leap year after `year`, by the Gregorian rule: the next
   * multiple of four, or the one after it when that is a century not
   * divisible by 400.
   */
  function FirstLeapAfter(year: int): int {
    var c := year + 4 - year % 4;
    if IsLeapYear(c) then c else c + 4
  }

  /** It is a leap year, no year between is one, and it lies at most eight years ahead. */
  lemma FirstLeapAfterIsFirst(year: int)
    ensures var r := FirstLeapAfter(year);
      year < r <= year + 8 && IsLeapYear(r) && forall y :: year < y < r ==> !IsLeapYear(y)
  {
    var c := year + 4 - year % 4;
    assert c % 4 == 0;
    forall y | year < y < c
      ensures y % 4 != 0
    {
      assert year - year % 4 < y < c;
    }
    if !IsLeapYear(c) {
      assert c % 100 == 0;
      assert (c + 4) % 4 == 0 && (c + 4) % 100 == 4;
      forall y | c < y < c + 4
        ensures y % 4 != 0
      {
      }
    }
  }

  /**
   * The loop of `get_validation_suggestions` that looks for a leap year after
   * `year`, trying at most the nine years that follow it.
   */
  method NextLeapYear(year: int) returns (next: int)
    ensures next == FirstLeapAfter(year)
  {
    FirstLeapAfterIsFirst(year);
    next := year + 1;
    while !IsLeapYear(next) && next < year + 10
      invariant year < next <= FirstLeapAfter(year)
      decreases year + 10 - next
    {
      next := next + 1;
    }
  }

  /** The reference moment lies late enough for `reference_date - timedelta(days=365)` to exist. */
  predicate YearBackExists(now: Moment)
    requires 1 <= now.date.month <= 12
  {
    Ordinal(now.date) > 365
  }

  /**
   * `parsed < reference_date - timedelta(days=365)` on the microsecond
   * timeline: midnight of the date lies more than 365 days before the
   * reference moment.
   */
  predicate LongPast(now: Moment, d: Date)
    requires 1 <= now.date.month <= 12 && 1 <= d.month <= 12
  {
    Ordinal(d) * MicrosPerDay < (Ordinal(now.date) - 365) * MicrosPerDay + now.micros
  }

  /** A date long past comes before the reference date in the calendar. */
  lemma LongPastIsBefore(now: Moment, d: Date)
    requires IsRealMoment(now) && IsReal(d)
    requires LongPast(now, d)
    ensures DateLess(d, now.date) && Ordinal(d) <= Ordinal(now.date) - 365
  {
    OrdinalOrder(d, now.date);
  }

  /** The shape a parsed date has when `get_validation_suggestions` inspects it. */
  predicate Inspectable(d: Date) {
    1 <= d.month <= 12 && 1 <= d.day <= 31 && MinYear <= d.year <= MaxYear
  }

  const FormatHint: string := "Use format DD/MM/YYYY (e.g., 23/02/2026)"

  /** The lines about 29 February of a common year, with the leap year that follows. */
  function Feb29Lines(year: int): seq<string> {
    var y := IntToString(year);
    [ "February 29 does not exist in " + y + " (not a leap year)",
      "Try: 28/02/" + y + " or 01/03/" + y,
      "Or use a leap year: 29/02/" + IntToString(FirstLeapAfter(year)) ]
  }

  /** The lines about a day beyond the end of its month. */
  function DayLines(d: Date): seq<string>
    requires Inspectable(d)
  {
    var maxDay := DaysInMonth(d.year, d.month);
    [ "Day " + IntToString(d.day) + " is invalid for month " + IntToString(d.month) + "/" + IntToString(d.year) + ". "
      + "Maximum day is " + IntToString(maxDay),
      "Try: " + IntToString(maxDay) + "/" + Pad2(d.month) + "/" + IntToString(d.year) ]
  }

  function PastLine(d: Date): string
    requires Inspectable(d)
  {
    "Date is in the past (" + DmyText(d.day, d.month, d.year) + "). Consider using a current or future date."
  }

  /**
   * What `get_validation_suggestions` returns for a parse result: the format
   * hint when nothing parsed; otherwise, in order, the 29 February lines, the
   * day-of-month lines and the line for a date long past, each when it applies.
   */
  function Suggestions(now: Moment, parsed: Option<Date>): seq<string>
    requires IsRealMoment(now) && YearBackExists(now)
    requires parsed.Some? ==> Inspectable(parsed.value)
  {
    match parsed
    case None => [FormatHint]
    case Some(d) =>
      (if d.month == 2 && d.day == 29 && !IsLeapYear(d.year) then Feb29Lines(d.year) else [])
      + (if d.day > DaysInMonth(d.year, d.month) then DayLines(d) else [])
      + (if LongPast(now, d) then [PastLine(d)] else [])
  }

  /**
   * For a real calendar date, which is all parsing yields, neither the
   * 29 February lines nor the day-of-month lines can appear: the only possible
   * suggestion is the one about a date long past.
   */
  lemma SuggestionsForRealDate(now: Moment, d: Date)
    requires IsRealMoment(now) && YearBackExists(now) && IsReal(d)
    ensures Suggestions(now, Some(d)) == if LongPast(now, d) then [PastLine(d)] else []
  {
    Feb29IffLeap(d.year);
  }

  /**
   * 29 February of a common year gets at least five lines: the two about the
   * day, a leap year to use instead (one always lies within eight years), and
   * the two about the end of February.
   */
  lemma Feb29OfCommonYear(now: Moment, year: int)
    requires IsRealMoment(now) && YearBackExists(now)
    requires MinYear <= year <= MaxYear && !IsLeapYear(year)
    ensures var s := Suggestions(now, Some(Date(year, 2, 29)));
      |s| >= 5 && s[..5] == Feb29Lines(year) + DayLines(Date(year, 2, 29))
    ensures var next := FirstLeapAfter(year);
      IsLeapYear(next) && year < next <= year + 8
  {
    FirstLeapAfterIsFirst(year);
    var d := Date(year, 2, 29);
    assert DaysInMonth(year, 2) == 28;
    var front := Feb29Lines(year) + DayLines(d);
    var s := Suggestions(now, Some(d));
    assert s == front + (if LongPast(now, d) then [PastLine(d)] else []);
    assert s[..5] == front;
  }

  /**
   * `get_validation_suggestions` for a parse result, with the leap-year loop;
   * the reference moment must lie late enough that subtracting 365 days from
   * it does not overflow.
   */
  method SuggestionsFor(now: Moment, parsed: Option<Date>) returns (suggestions: seq<string>)
    requires IsRealMoment(now) && YearBackExists(now)
    requires parsed.Some? ==> Inspectable(parsed.value)
    ensures suggestions == Suggestions(now, parsed)
  {
    suggestions := [];
    if parsed.None? {
      suggestions := suggestions + [FormatHint];
      return;
    }
    var d := parsed.value;
    if d.month == 2 && d.day == 29 && !IsLeapYear(d.year) {
      var y := IntToString(d.year);
      suggestions := suggestions + ["February 29 does not exist in " + y + " (not a leap year)"];
      suggestions := suggestions + ["Try: 28/02/" + y + " or 01/03/" + y];
      var nextLeap := NextLeapYear(d.year);
      FirstLeapAfterIsFirst(d.year);
      if nextLeap < d.year + 10 {
        suggestions := suggestions + ["Or use a leap year: 29/02/" + IntToString(nextLeap)];
      }
      assert suggestions == Feb29Lines(d.year);
    }
    assert suggestions == if d.month == 2 && d.day == 29 && !IsLeapYear(d.year) then Feb29Lines(d.year) else [];
    var maxDay := DaysInMonth(d.year, d.month);
    if d.day > maxDay {
      suggestions := suggestions + DayLines(d);
    }
    if LongPast(now, d) {
      suggestions := suggestions + [PastLine(d)];
    }
  }

  /**
   * `get_validation_suggestions(date_str)`: the format hint when the string
   * does not parse; otherwise at most the line about a date long past.
   */
  method GetValidationSuggestions(now: Moment, s: string) returns (suggestions: seq<string>)
    requires IsRealMoment(now) && YearBackExists(now)
    ensures ParseDate(s).None? ==> suggestions == [FormatHint]
    ensures ParseDate(s).Some? ==>
      suggestions == if LongPast(now, ParseDate(s).value) then [PastLine(ParseDate(s).value)] else []
  {
    var parsed := ParseDate(s);
    if parsed.Some? {
      SuggestionsForRealDate(now, parsed.value);
    }
    suggestions := SuggestionsFor(now, parsed);
  }
}
