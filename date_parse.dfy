/**
 * `DateValidator.parse_date`: turning a date string into a calendar date by
 * an Arabic month-name search, then `datetime.strptime` with each entry of
 * `DATE_FORMATS`, then a manual split on '/', '-' or '.'.
 */
module DateParse {
  import opened Wrappers
  import opened Text
  import opened Calendar

  /** `datetime(year, month, day)`: a date when the triple is a real one, otherwise `ValueError`. */
  function RealDate(year: int, month: int, day: int): (r: Option<Date>)
    ensures r.Some? <==> IsValidDate(day, month, year)
    ensures r.Some? ==> r.value == Date(year, month, day) && IsReal(r.value)
  {
    if IsValidDate(day, month, year) then Some(Date(year, month, day)) else None
  }

  // ---------------------------------------------------------------------
  // The Arabic month-name search
  // ---------------------------------------------------------------------

  /** `ARABIC_MONTHS`: month names (Arabic and Levantine forms, some misspelt) and their numbers, in source order. */
  const ArabicMonths: seq<(string, int)> := [
    ("يناير", 1), ("ينايר", 1), ("فبراير", 2),
    ("شباط", 2), ("مارس", 3), ("آذار", 3),
    ("أبريل", 4), ("نيسان", 4), ("ابريل", 4),
    ("مايو", 5), ("أيار", 5), ("ماي", 5),
    ("يونيو", 6), ("حزيران", 6), ("يونيه", 6),
    ("يوليو", 7), ("تموز", 7), ("يوليه", 7),
    ("أغسطس", 8), ("آب", 8), ("اغسطس", 8),
    ("سبتمبر", 9), ("أيلول", 9), ("أكتوبر", 10),
    ("تشرين الأول", 10), ("اكتوبر", 10), ("نوفمبر", 11),
    ("تشرين الثاني", 11), ("ديسمبر", 12), ("كانون الأول", 12),
    ("دسمبر", 12)
  ]

  /** `ARABIC_MONTHS.get(name)` from entry k on. */
  function MonthNumber(name: string, k: nat): (r: Option<int>)
    ensures r.Some? ==> 1 <= r.value <= 12
    ensures r.Some? <==> exists j :: k <= j < |ArabicMonths| && ArabicMonths[j].0 == name
    decreases |ArabicMonths| - k
  {
    if k >= |ArabicMonths| then None
    else if ArabicMonths[k].0 == name then Some(ArabicMonths[k].1)
    else MonthNumber(name, k + 1)
  }

  /** The class `[أ-ي]` of the name group: the code points U+0623 to U+064A. */
  predicate IsNameLetter(c: char) {
    '\U{0623}' <= c <= '\U{064A}'
  }

  /** The length of the longest run of characters of class p that starts at i. */
  function Run(t: string, i: nat, p: char -> bool): (n: nat)
    requires i <= |t|
    ensures i + n <= |t|
    ensures forall k :: i <= k < i + n ==> p(t[k])
    ensures i + n < |t| ==> !p(t[i + n])
    decreases |t| - i
  {
    if i < |t| && p(t[i]) then 1 + Run(t, i + 1, p) else 0
  }

  /** The three groups of a match of `(\d{1,2})\s+([أ-ي]+)\s+(\d{4})`. */
  datatype NameMatch = NameMatch(day: string, name: string, year: string)

  predicate WellFormedMatch(m: NameMatch) {
    && 1 <= |m.day| <= 2 && AllDigits(m.day)
    && |m.name| > 0 && (forall k :: 0 <= k < |m.name| ==> IsNameLetter(m.name[k]))
    && |m.year| == 4 && AllDigits(m.year)
  }

  /**
   * A match of the month-name pattern starting exactly at i. The pattern's
   * quantifiers are greedy, and since digits, spaces and name letters are
   * disjoint classes no shorter choice can succeed where the longest fails.
   */
  function MatchAt(t: string, i: nat): (r: Option<NameMatch>)
    requires i <= |t|
    ensures r.Some? ==> WellFormedMatch(r.value)
  {
    var nd := if i + 1 < |t| && IsDigit(t[i]) && IsDigit(t[i + 1]) then 2
              else if i < |t| && IsDigit(t[i]) then 1
              else 0;
    if nd == 0 then None
    else
      var j := i + nd;
      var w1 := Run(t, j, IsSpace);
      var k := j + w1;
      var nl := Run(t, k, IsNameLetter);
      var l := k + nl;
      var w2 := Run(t, l, IsSpace);
      var m := l + w2;
      if w1 == 0 || nl == 0 || w2 == 0 || m + 4 > |t| || !AllDigits(t[m..m + 4]) then None
      else
        SliceOfClass(t, k, l, IsNameLetter);
        SliceOfClass(t, i, j, IsDigit);
        Some(NameMatch(t[i..j], t[k..l], t[m..m + 4]))
  }

  lemma SliceOfClass(t: string, a: nat, b: nat, p: char -> bool)
    requires a <= b <= |t|
    requires forall q :: a <= q < b ==> p(t[q])
    ensures forall q :: 0 <= q < b - a ==> p(t[a..b][q])
  {
  }

  /** `re.search`: the leftmost match at or after position i. */
  function SearchFrom(t: string, i: nat): (r: Option<NameMatch>)
    requires i <= |t|
    ensures r.Some? ==> WellFormedMatch(r.value)
    decreases |t| - i
  {
    if i == |t| then None
    else
      match MatchAt(t, i)
      case Some(m) => Some(m)
      case None => SearchFrom(t, i + 1)
  }

  /** The date the month-name branch returns, if it returns one. */
  function ArabicDate(t: string): (r: Option<Date>)
    ensures r.Some? ==> IsReal(r.value)
  {
    match SearchFrom(t, 0)
    case None => None
    case Some(m) =>
      match MonthNumber(m.name, 0)
      case Some(month) => RealDate(DigitsValue(m.year), month, DigitsValue(m.day))
      case None => None
  }

  // ---------------------------------------------------------------------
  // datetime.strptime with DATE_FORMATS
  // ---------------------------------------------------------------------

  /**
   * An entry of `DATE_FORMATS`: day, month and year with a separator, year
   * first, or a format with a directive `_strptime` does not know (`%-d` and
   * `%#d`), for which `strptime` raises `ValueError` on every input.
   */
  datatype Format = DayFirst(sep: char) | YearFirst(sep: char) | BadDirective

  const DateFormats: seq<Format> :=
    [DayFirst('/'), DayFirst('-'), YearFirst('/'), YearFirst('-'), DayFirst('.'), BadDirective, BadDirective]

  predicate NonZeroDigit(c: char) { '1' <= c <= '9' }

  /** The strings `strptime`'s `%d` accepts: `3[01]|[12]\d|0[1-9]|[1-9]| [1-9]`. */
  predicate DayField(s: string) {
    || (|s| == 2 && s[0] == '3' && (s[1] == '0' || s[1] == '1'))
    || (|s| == 2 && (s[0] == '1' || s[0] == '2') && IsDigit(s[1]))
    || (|s| == 2 && s[0] == '0' && NonZeroDigit(s[1]))
    || (|s| == 1 && NonZeroDigit(s[0]))
    || (|s| == 2 && s[0] == ' ' && NonZeroDigit(s[1]))
  }

  /** The strings `%m` accepts: `1[0-2]|0[1-9]|[1-9]`. */
  predicate MonthField(s: string) {
    || (|s| == 2 && s[0] == '1' && '0' <= s[1] <= '2')
    || (|s| == 2 && s[0] == '0' && NonZeroDigit(s[1]))
    || (|s| == 1 && NonZeroDigit(s[0]))
  }

  /** The strings `%Y` accepts: four digits. */
  predicate YearField(s: string) {
    |s| == 4 && AllDigits(s)
  }

  /** The digits of a field, without the leading space `%d` allows. */
  function FieldDigits(s: string): string {
    if |s| > 0 && s[0] == ' ' then s[1..] else s
  }

  /** `int()` of a matched field. */
  function FieldValue(s: string): nat
    requires DayField(s) || MonthField(s) || YearField(s)
  {
    assert AllDigits(FieldDigits(s));
    DigitsValue(FieldDigits(s))
  }

  /**
   * `datetime.strptime(t, fmt)`: the whole string must be the three fields and
   * the two separators, and the fields must name a real date.
   */
  function Strptime(t: string, f: Format): (r: Option<Date>)
    ensures r.Some? ==> IsReal(r.value)
  {
    match f
    case BadDirective => None
    case DayFirst(sep) =>
      var p := Split(t, sep);
      if |p| == 3 && DayField(p[0]) && MonthField(p[1]) && YearField(p[2]) then
        RealDate(FieldValue(p[2]), FieldValue(p[1]), FieldValue(p[0]))
      else None
    case YearFirst(sep) =>
      var p := Split(t, sep);
      if |p| == 3 && YearField(p[0]) && MonthField(p[1]) && DayField(p[2]) then
        RealDate(FieldValue(p[0]), FieldValue(p[1]), FieldValue(p[2]))
      else None
  }

  /** The loop over the formats from entry k on: the first that parses wins. */
  function TryFormats(t: string, k: nat): (r: Option<Date>)
    ensures r.Some? ==> IsReal(r.value)
    ensures r.None? <==> forall j :: k <= j < |DateFormats| ==> Strptime(t, DateFormats[j]).None?
    decreases |DateFormats| - k
  {
    if k >= |DateFormats| then None
    else
      match Strptime(t, DateFormats[k])
      case Some(d) => Some(d)
      case None => TryFormats(t, k + 1)
  }

  // ---------------------------------------------------------------------
  // The manual fallback
  // ---------------------------------------------------------------------

  /** `datetime(int(y), int(m), int(d))`; a `ValueError` from either step gives no date. */
  function IntsToDate(dayText: string, monthText: string, yearText: string): (r: Option<Date>)
    ensures r.Some? ==> IsReal(r.value)
  {
    match (PyInt(dayText), PyInt(monthText), PyInt(yearText))
    case (Some(d), Some(m), Some(y)) => RealDate(y, m, d)
    case _ => None
  }

  /**
   * The loop over the separators. The first separator whose split has three
   * parts with a four-character last (day first) or first (year first) part
   * decides the outcome: a `ValueError` there leaves the whole loop.
   */
  function ManualParse(t: string, k: nat): (r: Option<Date>)
    ensures r.Some? ==> IsReal(r.value)
    decreases |ManualSeparators| - k
  {
    if k >= |ManualSeparators| then None
    else
      var sep := ManualSeparators[k];
      var parts := Split(t, sep);
      if sep in t && |parts| == 3 && |parts[2]| == 4 then IntsToDate(parts[0], parts[1], parts[2])
      else if sep in t && |parts| == 3 && |parts[0]| == 4 then IntsToDate(parts[2], parts[1], parts[0])
      else ManualParse(t, k + 1)
  }

  const ManualSeparators: seq<char> := ['/', '-', '.']

  /**
   * `parse_date(date_str)`: no date for the empty string; otherwise the
   * stripped string through the month-name search, the formats and the manual
   * split, in that order. Whatever it returns is a real calendar date.
   */
  function ParseDate(s: string): (r: Option<Date>)
    ensures r.Some? ==> IsReal(r.value)
    ensures |s| == 0 ==> r.None?
  {
    if |s| == 0 then None
    else
      var t := Strip(s);
      match ArabicDate(t)
      case Some(d) => Some(d)
      case None =>
        match TryFormats(t, 0)
        case Some(d) => Some(d)
        case None => ManualParse(t, 0)
  }
  // ---------------------------------------------------------------------
  // Rendering dates, and what parses back
  // ---------------------------------------------------------------------

  /** `f"{n:02d}"` for a number below 100. */
  function Pad2(n: nat): (r: string)
    requires n < 100
  {
    if n < 10 then "0" + NatToString(n) else NatToString(n)
  }

  /** `strftime('%d/%m/%Y')` (the year is not padded, as on glibc). */
  function DmyText(day: nat, month: nat, year: nat): string
    requires day < 100 && month < 100
  {
    Pad2(day) + "/" + Pad2(month) + "/" + NatToString(year)
  }

  /** The full-date form of section 5.6 of RFC 3339: `YYYY-MM-DD`. */
  function IsoText(day: nat, month: nat, year: nat): string
    requires day < 100 && month < 100
  {
    NatToString(year) + "-" + Pad2(month) + "-" + Pad2(day)
  }

  lemma {:induction false} DigitsValueOfRendering(n: nat)
    ensures AllDigits(NatToString(n)) && DigitsValue(NatToString(n)) == n
  {
    var s := NatToString(n);
    if n >= 10 {
      DigitsValueOfRendering(n / 10);
      assert s[..|s| - 1] == NatToString(n / 10);
    }
  }

  lemma Pad2Props(n: nat)
    requires n < 100
    ensures var s := Pad2(n);
      && |s| == 2 && AsciiDigits(s) && AllDigits(s) && DigitsValue(s) == n
      && s[0] == ('0' as int + n / 10) as char && s[1] == ('0' as int + n % 10) as char
  {
    var s := Pad2(n);
    var hi, lo := ('0' as int + n / 10) as char, ('0' as int + n % 10) as char;
    if n < 10 {
      assert NatToString(n) == [lo];
    } else {
      assert NatToString(n / 10) == [hi];
      assert NatToString(n) == NatToString(n / 10) + [lo];
    }
    assert s == [hi, lo];
    assert s[..1] == [hi] && [hi][..0] == [];
    assert DigitsValue([hi]) == n / 10;
  }

  lemma Year4Props(y: nat)
    requires 1000 <= y <= 9999
    ensures |NatToString(y)| == 4 && AsciiDigits(NatToString(y)) && YearField(NatToString(y))
    ensures DigitsValue(NatToString(y)) == y
  {
    DigitsValueOfRendering(y);
    assert |NatToString(y / 10 / 10 / 10)| == 1;
    assert |NatToString(y / 10 / 10)| == 2;
    assert |NatToString(y / 10)| == 3;
  }

  /** `int()` of a non-empty string of decimal digits, of any block, is its value. */
  lemma PyIntOfDigits(s: string)
    requires |s| > 0 && AllDigits(s)
    ensures PyInt(s) == Some(DigitsValue(s))
  {
    assert forall i :: 0 <= i < |s| ==> !IsSpace(s[i]) && s[i] != '_' && s[i] != '+' && s[i] != '-';
    assert LStrip(s) == s;
    assert RStrip(s) == s;
    assert Strip(s) == s;
    assert !exists i | 0 <= i < |s| :: !IsDigit(s[i]) && s[i] != '_';
    DigitsOnlyOfDigits(s);
    assert IntBody(s) == Some(DigitsValue(s));
  }

  lemma {:induction false} DigitsOnlyOfDigits(s: string)
    requires AllDigits(s)
    ensures DigitsOnly(s) == s
  {
    if |s| > 0 {
      assert s[0] != '_';
      DigitsOnlyOfDigits(s[1..]);
      assert [s[0]] + s[1..] == s;
    }
  }

  /** Without whitespace there is nothing for `\s+` to match, so the month-name search fails. */
  lemma {:induction false} NoSpaceNoMatch(t: string, i: nat)
    requires i <= |t|
    requires forall k :: 0 <= k < |t| ==> !IsSpace(t[k])
    ensures SearchFrom(t, i).None?
    decreases |t| - i
  {
    if i < |t| {
      var nd := if i + 1 < |t| && IsDigit(t[i]) && IsDigit(t[i + 1]) then 2
                else if i < |t| && IsDigit(t[i]) then 1
                else 0;
      if nd > 0 {
        assert Run(t, i + nd, IsSpace) == 0;
      }
      assert MatchAt(t, i).None?;
      NoSpaceNoMatch(t, i + 1);
    }
  }

  /** A string of three digit fields and two separators. */
  lemma ThreeFields(a: string, b: string, c: string, sep: char, x: string)
    requires AllDigits(a) && AllDigits(b) && AllDigits(c) && |a| > 0 && |c| > 0
    requires !IsDigit(sep) && !IsSpace(sep)
    requires x == a + [sep] + b + [sep] + c
    ensures Split(x, sep) == [a, b, c] && sep in x
    ensures forall k :: 0 <= k < |x| ==> IsDigit(x[k]) || x[k] == sep
    ensures Strip(x) == x && ArabicDate(x).None?
  {
    ThreeFieldsSplit(a, b, c, sep, x);
    forall k | 0 <= k < |x|
      ensures IsDigit(x[k]) || x[k] == sep
    {
      if k < |a| {
        assert x[k] == a[k];
      } else if k == |a| {
      } else if k < |a| + 1 + |b| {
        assert x[k] == b[k - |a| - 1];
      } else if k == |a| + 1 + |b| {
      } else {
        assert x[k] == c[k - |a| - |b| - 2];
      }
    }
    NoSpaceText(x, sep);
  }

  lemma ThreeFieldsSplit(a: string, b: string, c: string, sep: char, x: string)
    requires AllDigits(a) && AllDigits(b) && AllDigits(c)
    requires !IsDigit(sep)
    requires x == a + [sep] + b + [sep] + c
    ensures Split(x, sep) == [a, b, c] && sep in x
  {
    assert x[|a|] == sep;
    assert sep !in a && sep !in b && sep !in c;
    assert [a, b, c][1..] == [b, c] && [b, c][1..] == [c];
    assert Join([b, c], [sep]) == b + [sep] + c;
    assert Join([a, b, c], [sep]) == a + [sep] + (b + [sep] + c) == x;
    SplitJoin([a, b, c], sep);
  }

  lemma NoSpaceText(x: string, sep: char)
    requires forall k :: 0 <= k < |x| ==> IsDigit(x[k]) || x[k] == sep
    requires !IsSpace(sep) && |x| > 0
    ensures Strip(x) == x && ArabicDate(x).None?
  {
    assert !IsSpace(x[0]) && !IsSpace(x[|x| - 1]);
    assert LStrip(x) == x;
    assert RStrip(x) == x;
    NoSpaceNoMatch(x, 0);
  }

  /** A separator that does not occur leaves the string whole. */
  lemma OtherSeparator(x: string, sep: char, other: char)
    requires forall k :: 0 <= k < |x| ==> IsDigit(x[k]) || x[k] == sep
    requires other != sep && !IsDigit(other)
    ensures other !in x && Split(x, other) == [x]
  {
    SplitNoSep(x, other);
  }

  /** With nothing to strip and no month name, parsing is the formats, then the manual split. */
  lemma PlainParse(x: string)
    requires |x| > 0 && Strip(x) == x && ArabicDate(x).None?
    ensures ParseDate(x) == if TryFormats(x, 0).Some? then TryFormats(x, 0) else ManualParse(x, 0)
  {
  }

  /** The two formats with unknown directives never parse. */
  lemma FormatsFromFiveFail(x: string)
    ensures TryFormats(x, 5).None?
  {
    assert TryFormats(x, 7).None?;
    assert TryFormats(x, 6).None?;
  }

  /**
   * Day-first numeric text with slashes (one- or two-digit day and month,
   * four-digit year) parses to exactly the triple it names when that is a
   * real date, and to no date otherwise: an impossible day such as
   * 30 February is never moved onto a neighbouring date.
   */
  lemma DayFirstText(a: string, b: string, c: string)
    requires AllDigits(a) && AllDigits(b) && AllDigits(c)
    requires 1 <= |a| <= 2 && 1 <= |b| <= 2 && |c| == 4
    ensures ParseDate(a + "/" + b + "/" + c) == RealDate(DigitsValue(c), DigitsValue(b), DigitsValue(a))
  {
    var x := a + "/" + b + "/" + c;
    ThreeFields(a, b, c, '/', x);
    PlainParse(x);
    DayFirstFormats(a, b, c, x);
    DayFirstManual(a, b, c, x);
  }

  lemma DayFirstManual(a: string, b: string, c: string, x: string)
    requires AllDigits(a) && AllDigits(b) && AllDigits(c)
    requires 1 <= |a| <= 2 && 1 <= |b| <= 2 && |c| == 4
    requires Split(x, '/') == [a, b, c] && '/' in x
    ensures ManualParse(x, 0) == RealDate(DigitsValue(c), DigitsValue(b), DigitsValue(a))
  {
    assert ManualParse(x, 0) == IntsToDate(a, b, c);
    PyIntOfDigits(a);
    PyIntOfDigits(b);
    PyIntOfDigits(c);
  }

  lemma DayFirstFormats(a: string, b: string, c: string, x: string)
    requires AllDigits(a) && AllDigits(b) && AllDigits(c)
    requires 1 <= |a| <= 2 && 1 <= |b| <= 2 && |c| == 4
    requires Split(x, '/') == [a, b, c]
    requires forall k :: 0 <= k < |x| ==> IsDigit(x[k]) || x[k] == '/'
    ensures TryFormats(x, 0) in {None, RealDate(DigitsValue(c), DigitsValue(b), DigitsValue(a))}
  {
    OtherSeparator(x, '/', '-');
    OtherSeparator(x, '/', '.');
    var v := RealDate(DigitsValue(c), DigitsValue(b), DigitsValue(a));
    assert FieldDigits(a) == a && FieldDigits(b) == b;
    assert Strptime(x, DayFirst('/')) in {None, v};
    assert Strptime(x, DayFirst('-')).None?;
    assert Strptime(x, YearFirst('/')).None? by { assert !YearField(a); }
    assert Strptime(x, YearFirst('-')).None?;
    assert Strptime(x, DayFirst('.')).None?;
    FormatsFromFiveFail(x);
    assert TryFormats(x, 3).None?;
    assert TryFormats(x, 1).None?;
  }

  /** Year-first numeric text with hyphens, the full-date form of RFC 3339 among it, likewise. */
  lemma YearFirstText(a: string, b: string, c: string)
    requires AllDigits(a) && AllDigits(b) && AllDigits(c)
    requires |a| == 4 && 1 <= |b| <= 2 && 1 <= |c| <= 2
    ensures ParseDate(a + "-" + b + "-" + c) == RealDate(DigitsValue(a), DigitsValue(b), DigitsValue(c))
  {
    var x := a + "-" + b + "-" + c;
    ThreeFields(a, b, c, '-', x);
    PlainParse(x);
    YearFirstFormats(a, b, c, x);
    YearFirstManual(a, b, c, x);
  }

  lemma YearFirstManual(a: string, b: string, c: string, x: string)
    requires AllDigits(a) && AllDigits(b) && AllDigits(c)
    requires |a| == 4 && 1 <= |b| <= 2 && 1 <= |c| <= 2
    requires Split(x, '-') == [a, b, c] && '-' in x
    requires forall k :: 0 <= k < |x| ==> IsDigit(x[k]) || x[k] == '-'
    ensures ManualParse(x, 0) == RealDate(DigitsValue(a), DigitsValue(b), DigitsValue(c))
  {
    OtherSeparator(x, '-', '/');
    assert ManualParse(x, 0) == ManualParse(x, 1);
    assert ManualParse(x, 1) == IntsToDate(c, b, a);
    PyIntOfDigits(a);
    PyIntOfDigits(b);
    PyIntOfDigits(c);
  }

  lemma YearFirstFormats(a: string, b: string, c: string, x: string)
    requires AllDigits(a) && AllDigits(b) && AllDigits(c)
    requires |a| == 4 && 1 <= |b| <= 2 && 1 <= |c| <= 2
    requires Split(x, '-') == [a, b, c]
    requires forall k :: 0 <= k < |x| ==> IsDigit(x[k]) || x[k] == '-'
    ensures TryFormats(x, 0) in {None, RealDate(DigitsValue(a), DigitsValue(b), DigitsValue(c))}
  {
    OtherSeparator(x, '-', '/');
    OtherSeparator(x, '-', '.');
    var v := RealDate(DigitsValue(a), DigitsValue(b), DigitsValue(c));
    assert FieldDigits(c) == c && FieldDigits(b) == b;
    assert Strptime(x, DayFirst('/')).None?;
    assert Strptime(x, DayFirst('-')).None? by { assert !DayField(a); }
    assert Strptime(x, YearFirst('/')).None?;
    assert Strptime(x, YearFirst('-')) in {None, v};
    assert Strptime(x, DayFirst('.')).None?;
    FormatsFromFiveFail(x);
    assert TryFormats(x, 4).None?;
    assert TryFormats(x, 0) == TryFormats(x, 3);
  }

  /** What `strftime('%d/%m/%Y')` renders parses back to the same date. */
  lemma DayFirstRoundTrip(day: nat, month: nat, year: nat)
    requires day < 100 && month < 100 && 1000 <= year <= 9999
    ensures ParseDate(DmyText(day, month, year)) == RealDate(year, month, day)
  {
    Pad2Props(day);
    Pad2Props(month);
    Year4Props(year);
    DayFirstText(Pad2(day), Pad2(month), NatToString(year));
  }

  /** The RFC 3339 full-date rendering parses back to the same date. */
  lemma IsoRoundTrip(day: nat, month: nat, year: nat)
    requires day < 100 && month < 100 && 1000 <= year <= 9999
    ensures ParseDate(IsoText(day, month, year)) == RealDate(year, month, day)
  {
    Pad2Props(day);
    Pad2Props(month);
    Year4Props(year);
    YearFirstText(NatToString(year), Pad2(month), Pad2(day));
  }

  /**
   * Digits of every block are read: `%Y` takes a Devanagari year, and
   * `int()` reads fullwidth digits, so dates written with such digits parse
   * through `DayFirstText` like ASCII ones.
   */
  lemma OtherScriptDigitsRead()
    ensures YearField("\U{0968}\U{0966}\U{0968}\U{096A}") && DigitsValue("\U{0968}\U{0966}\U{0968}\U{096A}") == 2024
    ensures PyInt("\U{FF11}\U{FF15}") == Some(15)
  {
    var year, day := "\U{0968}\U{0966}\U{0968}\U{096A}", "\U{FF11}\U{FF15}";
    BlockDigitsValue(year, 0x0966);
    assert BlockValue(year, 0x0966) == 2024 by {
      var p1, p2, p3 := year[..1], year[..2], year[..3];
      assert p3[..2] == p2 && p2[..1] == p1 && p1[..0] == [];
      assert BlockValue(p1, 0x0966) == 2;
      assert BlockValue(p2, 0x0966) == 20;
      assert BlockValue(p3, 0x0966) == 202;
    }
    BlockDigitsValue(day, 0xFF10);
    assert BlockValue(day, 0xFF10) == 15 by {
      assert day[..1][..0] == [];
    }
    PyIntOfDigits(day);
  }

  /** The value of a string of digits of the one block whose zero is `zero`. */
  function BlockValue(s: string, zero: int): int {
    if |s| == 0 then 0 else BlockValue(s[..|s| - 1], zero) * 10 + (s[|s| - 1] as int - zero)
  }

  /** Digits of the block whose zero is `zero` are digits, and `int()` reads them as their distances from that zero. */
  lemma {:induction false} BlockDigitsValue(s: string, zero: int)
    requires zero >= 0x07C0
    requires forall k :: 0 <= k < |s| ==> DigitZero(s[k] as int) == zero
    ensures AllDigits(s) && DigitsValue(s) == BlockValue(s, zero)
  {
    if |s| > 0 {
      var p := s[..|s| - 1];
      assert forall k :: 0 <= k < |p| ==> p[k] == s[k];
      BlockDigitsValue(p, zero);
    }
  }

  /** "30/02/YYYY" is not read as any date, whatever the year. */
  lemma Feb30IsNoDate(year: string)
    requires |year| == 4 && AllDigits(year)
    ensures ParseDate("30" + "/" + "02" + "/" + year) == None
  {
    TwoDigitValue('3', '0');
    TwoDigitValue('0', '2');
    DayFirstText("30", "02", year);
    Feb30Value(year);
  }

  lemma Feb30Value(year: string)
    requires |year| == 4 && AllDigits(year)
    ensures RealDate(DigitsValue(year), DigitsValue("02"), DigitsValue("30")).None?
  {
    TwoDigitValue('3', '0');
    TwoDigitValue('0', '2');
  }

  /** "29/02/YYYY" is read as a date exactly when YYYY is a leap year. */
  lemma Feb29ParsesInLeapYears(year: string)
    requires |year| == 4 && AllDigits(year)
    ensures ParseDate("29" + "/" + "02" + "/" + year).Some? <==> DigitsValue(year) >= 1 && IsLeapYear(DigitsValue(year))
  {
    TwoDigitValue('2', '9');
    TwoDigitValue('0', '2');
    DayFirstText("29", "02", year);
    Feb29Value(year);
  }

  lemma Feb29Value(year: string)
    requires |year| == 4 && AllDigits(year)
    ensures RealDate(DigitsValue(year), DigitsValue("02"), DigitsValue("29")).Some?
      <==> DigitsValue(year) >= 1 && IsLeapYear(DigitsValue(year))
  {
    TwoDigitValue('2', '9');
    TwoDigitValue('0', '2');
    DigitsBound(year);
    assert Pow10(4) == 10000;
  }

  lemma TwoDigitValue(hi: char, lo: char)
    requires '0' <= hi <= '9' && '0' <= lo <= '9'
    ensures AllDigits([hi, lo]) && DigitsValue([hi, lo]) == 10 * ((hi as int) - ('0' as int)) + ((lo as int) - ('0' as int))
  {
    assert [hi, lo][..1] == [hi] && [hi][..0] == [];
    assert DigitsValue([hi]) == DigitValue(hi);
    assert DigitsValue([hi, lo]) == DigitsValue([hi]) * 10 + DigitValue(lo);
  }

  lemma {:induction false} DigitsBound(s: string)
    requires AllDigits(s)
    ensures DigitsValue(s) < Pow10(|s|)
  {
    if |s| > 0 {
      var p := s[..|s| - 1];
      DigitsBound(p);
      assert DigitsValue(p) * 10 <= (Pow10(|p|) - 1) * 10;
    }
  }

  function Pow10(n: nat): nat {
    if n == 0 then 1 else 10 * Pow10(n - 1)
  }

  /**
   * Names in `ARABIC_MONTHS` that the search can never capture: two begin
   * with U+0622 (outside `[أ-ي]`), three contain a space, and one ends in a
   * Hebrew letter. March, August, October, November, December and January
   * are still reached through their other spellings.
   */
  const UncapturableNames: set<string> := {"آذار", "آب", "تشرين الأول", "تشرين الثاني", "كانون الأول", "ينايר"}

  lemma UncapturableNamesAreKeys()
    ensures forall n :: n in UncapturableNames ==> exists j :: 0 <= j < |ArabicMonths| && ArabicMonths[j].0 == n
  {
    assert ArabicMonths[5].0 == "آذار" && ArabicMonths[19].0 == "آب" && ArabicMonths[1].0 == "ينايר";
    assert ArabicMonths[24].0 == "تشرين الأول" && ArabicMonths[27].0 == "تشرين الثاني";
    assert ArabicMonths[29].0 == "كانون الأول";
  }

  lemma UncapturableNamesNeverMatch(t: string)
    ensures SearchFrom(t, 0).Some? ==> SearchFrom(t, 0).value.name !in UncapturableNames
  {
    if SearchFrom(t, 0).Some? {
      NotOfNameLetters(SearchFrom(t, 0).value.name);
    }
  }

  lemma NotOfNameLetters(n: string)
    requires |n| > 0 && forall k :: 0 <= k < |n| ==> IsNameLetter(n[k])
    ensures n !in UncapturableNames
  {
    assert IsNameLetter(n[0]);
    assert !IsNameLetter("آذار"[0]) && !IsNameLetter("آب"[0]);
    assert |n| > 5 ==> IsNameLetter(n[5]);
    assert !IsNameLetter("تشرين الأول"[5]) && !IsNameLetter("تشرين الثاني"[5]);
    assert !IsNameLetter("كانون الأول"[5]);
    assert |n| > 4 ==> IsNameLetter(n[4]);
    assert !IsNameLetter("ينايר"[4]);
  }
}
