/**
 * The parts of Python's `str` that the core relies on: whitespace and digit
 * classes, `strip`, `split`, `join`, `in`, `startswith`, `lower`, `int()` and
 * decimal rendering of integers.
 */
module Text {
  import opened Wrappers
  import Seqs

  /** Python's `str.isspace()`: the Unicode whitespace characters. */
  predicate IsSpace(c: char) {
    ('\U{0009}' <= c <= '\U{000D}') || ('\U{001C}' <= c <= '\U{001F}') || c == ' '
    || c == '\U{0085}' || c == '\U{00A0}' || c == '\U{1680}'
    || ('\U{2000}' <= c <= '\U{200A}') || c == '\U{2028}' || c == '\U{2029}'
    || c == '\U{202F}' || c == '\U{205F}' || c == '\U{3000}'
  }

  /**
   * The code point of the digit zero of the block of decimal digits that
   * holds code point c, or -1 when c is in none, for the blocks from U+07C0
   * on. With the ASCII, Arabic-Indic and Extended Arabic-Indic blocks these
   * are the blocks of Unicode general category Nd (Unicode 15.0), in
   * increasing order; each holds the digits zero to nine at consecutive code
   * points.
   */
  function DigitZero(c: int): (z: int)
    ensures z == -1 || z <= c <= z + 9
  {
    if c < 0x07C0 then -1 else if c <= 0x07C9 then 0x07C0
    else if c < 0x0966 then -1 else if c <= 0x096F then 0x0966
    else if c < 0x09E6 then -1 else if c <= 0x09EF then 0x09E6
    else if c < 0x0A66 then -1 else if c <= 0x0A6F then 0x0A66
    else if c < 0x0AE6 then -1 else if c <= 0x0AEF then 0x0AE6
    else if c < 0x0B66 then -1 else if c <= 0x0B6F then 0x0B66
    else if c < 0x0BE6 then -1 else if c <= 0x0BEF then 0x0BE6
    else if c < 0x0C66 then -1 else if c <= 0x0C6F then 0x0C66
    else if c < 0x0CE6 then -1 else if c <= 0x0CEF then 0x0CE6
    else if c < 0x0D66 then -1 else if c <= 0x0D6F then 0x0D66
    else if c < 0x0DE6 then -1 else if c <= 0x0DEF then 0x0DE6
    else if c < 0x0E50 then -1 else if c <= 0x0E59 then 0x0E50
    else if c < 0x0ED0 then -1 else if c <= 0x0ED9 then 0x0ED0
    else if c < 0x0F20 then -1 else if c <= 0x0F29 then 0x0F20
    else if c < 0x1040 then -1 else if c <= 0x1049 then 0x1040
    else if c < 0x1090 then -1 else if c <= 0x1099 then 0x1090
    else if c < 0x17E0 then -1 else if c <= 0x17E9 then 0x17E0
    else if c < 0x1810 then -1 else if c <= 0x1819 then 0x1810
    else if c < 0x1946 then -1 else if c <= 0x194F then 0x1946
    else if c < 0x19D0 then -1 else if c <= 0x19D9 then 0x19D0
    else if c < 0x1A80 then -1 else if c <= 0x1A89 then 0x1A80
    else if c < 0x1A90 then -1 else if c <= 0x1A99 then 0x1A90
    else if c < 0x1B50 then -1 else if c <= 0x1B59 then 0x1B50
    else if c < 0x1BB0 then -1 else if c <= 0x1BB9 then 0x1BB0
    else if c < 0x1C40 then -1 else if c <= 0x1C49 then 0x1C40
    else if c < 0x1C50 then -1 else if c <= 0x1C59 then 0x1C50
    else if c < 0xA620 then -1 else if c <= 0xA629 then 0xA620
    else if c < 0xA8D0 then -1 else if c <= 0xA8D9 then 0xA8D0
    else if c < 0xA900 then -1 else if c <= 0xA909 then 0xA900
    else if c < 0xA9D0 then -1 else if c <= 0xA9D9 then 0xA9D0
    else if c < 0xA9F0 then -1 else if c <= 0xA9F9 then 0xA9F0
    else if c < 0xAA50 then -1 else if c <= 0xAA59 then 0xAA50
    else if c < 0xABF0 then -1 else if c <= 0xABF9 then 0xABF0
    else if c < 0xFF10 then -1 else if c <= 0xFF19 then 0xFF10
    else if c < 0x104A0 then -1 else if c <= 0x104A9 then 0x104A0
    else if c < 0x10D30 then -1 else if c <= 0x10D39 then 0x10D30
    else if c < 0x11066 then -1 else if c <= 0x1106F then 0x11066
    else if c < 0x110F0 then -1 else if c <= 0x110F9 then 0x110F0
    else if c < 0x11136 then -1 else if c <= 0x1113F then 0x11136
    else if c < 0x111D0 then -1 else if c <= 0x111D9 then 0x111D0
    else if c < 0x112F0 then -1 else if c <= 0x112F9 then 0x112F0
    else if c < 0x11450 then -1 else if c <= 0x11459 then 0x11450
    else if c < 0x114D0 then -1 else if c <= 0x114D9 then 0x114D0
    else if c < 0x11650 then -1 else if c <= 0x11659 then 0x11650
    else if c < 0x116C0 then -1 else if c <= 0x116C9 then 0x116C0
    else if c < 0x11730 then -1 else if c <= 0x11739 then 0x11730
    else if c < 0x118E0 then -1 else if c <= 0x118E9 then 0x118E0
    else if c < 0x11950 then -1 else if c <= 0x11959 then 0x11950
    else if c < 0x11C50 then -1 else if c <= 0x11C59 then 0x11C50
    else if c < 0x11D50 then -1 else if c <= 0x11D59 then 0x11D50
    else if c < 0x11DA0 then -1 else if c <= 0x11DA9 then 0x11DA0
    else if c < 0x11F50 then -1 else if c <= 0x11F59 then 0x11F50
    else if c < 0x16A60 then -1 else if c <= 0x16A69 then 0x16A60
    else if c < 0x16AC0 then -1 else if c <= 0x16AC9 then 0x16AC0
    else if c < 0x16B50 then -1 else if c <= 0x16B59 then 0x16B50
    else if c < 0x1D7CE then -1 else if c <= 0x1D7D7 then 0x1D7CE
    else if c < 0x1D7D8 then -1 else if c <= 0x1D7E1 then 0x1D7D8
    else if c < 0x1D7E2 then -1 else if c <= 0x1D7EB then 0x1D7E2
    else if c < 0x1D7EC then -1 else if c <= 0x1D7F5 then 0x1D7EC
    else if c < 0x1D7F6 then -1 else if c <= 0x1D7FF then 0x1D7F6
    else if c < 0x1E140 then -1 else if c <= 0x1E149 then 0x1E140
    else if c < 0x1E2F0 then -1 else if c <= 0x1E2F9 then 0x1E2F0
    else if c < 0x1E4F0 then -1 else if c <= 0x1E4F9 then 0x1E4F0
    else if c < 0x1E950 then -1 else if c <= 0x1E959 then 0x1E950
    else if c < 0x1FBF0 then -1 else if c <= 0x1FBF9 then 0x1FBF0
    else -1
  }

  /** A decimal digit as regex `\d` and `int()` accept it: a character of category Nd. */
  predicate IsDigit(c: char) {
    || ('0' <= c <= '9') || ('\U{0660}' <= c <= '\U{0669}') || ('\U{06F0}' <= c <= '\U{06F9}')
    || ('\U{07C0}' <= c && DigitZero(c as int) >= 0)
  }

  /** The numeric value of a decimal digit, as `int()` reads it: its distance from its block's zero. */
  function DigitValue(c: char): (v: nat)
    requires IsDigit(c)
    ensures v < 10
  {
    if '0' <= c <= '9' then (c as int) - ('0' as int)
    else if '\U{0660}' <= c <= '\U{0669}' then (c as int) - 0x0660
    else if '\U{06F0}' <= c <= '\U{06F9}' then (c as int) - 0x06F0
    else (c as int) - DigitZero(c as int)
  }

  /** No whitespace character is a digit. */
  lemma SpaceIsNoDigit(c: char)
    requires IsSpace(c)
    ensures !IsDigit(c)
  {
  }

  predicate AllDigits(s: string) {
    forall i :: 0 <= i < |s| ==> IsDigit(s[i])
  }

  /** The value of a string of digits, most significant first. */
  function DigitsValue(s: string): nat
    requires AllDigits(s)
  {
    if |s| == 0 then 0 else DigitsValue(s[..|s| - 1]) * 10 + DigitValue(s[|s| - 1])
  }

  /** `s.lstrip()` */
  function LStrip(s: string): string {
    if |s| > 0 && IsSpace(s[0]) then LStrip(s[1..]) else s
  }

  /** `s.rstrip()` */
  function RStrip(s: string): string {
    if |s| > 0 && IsSpace(s[|s| - 1]) then RStrip(s[..|s| - 1]) else s
  }

  /** `s.strip()` */
  function Strip(s: string): string {
    RStrip(LStrip(s))
  }

  predicate Trimmed(s: string) {
    |s| == 0 || (!IsSpace(s[0]) && !IsSpace(s[|s| - 1]))
  }

  predicate IsBlank(s: string) {
    forall i :: 0 <= i < |s| ==> IsSpace(s[i])
  }

  lemma {:induction false} LStripProps(s: string)
    ensures |LStrip(s)| <= |s|
    ensures |LStrip(s)| == 0 || !IsSpace(LStrip(s)[0])
    ensures LStrip(s) == s[|s| - |LStrip(s)|..]
    ensures IsBlank(s[..|s| - |LStrip(s)|])
  {
    if |s| > 0 && IsSpace(s[0]) {
      LStripProps(s[1..]);
      var k := |s| - |LStrip(s)|;
      assert s[1..][..k - 1] == s[1..k];
      assert forall i :: 1 <= i < k ==> s[i] == s[1..][..k - 1][i - 1];
    }
  }

  lemma {:induction false} RStripProps(s: string)
    ensures |RStrip(s)| <= |s|
    ensures |RStrip(s)| == 0 || !IsSpace(RStrip(s)[|RStrip(s)| - 1])
    ensures RStrip(s) == s[..|RStrip(s)|]
    ensures IsBlank(s[|RStrip(s)|..])
    ensures |s| > 0 && !IsSpace(s[0]) ==> |RStrip(s)| > 0
  {
    if |s| > 0 && IsSpace(s[|s| - 1]) {
      var t := s[..|s| - 1];
      RStripProps(t);
      var k := |RStrip(s)|;
      assert t[..k] == s[..k];
      assert forall i :: k <= i < |s| - 1 ==> s[i] == t[k..][i - k];
    }
  }

  /** Where the kept part of `s.strip()` starts in `s`. */
  function StripStart(s: string): nat {
    if |s| > 0 && IsSpace(s[0]) then 1 + StripStart(s[1..]) else 0
  }

  /**
   * `strip` removes exactly a blank prefix and a blank suffix, and what it
   * keeps neither starts nor ends with whitespace.
   */
  lemma StripProps(s: string)
    ensures var t, i := Strip(s), StripStart(s);
      && Trimmed(t) && i + |t| <= |s| && s[i..i + |t|] == t
      && IsBlank(s[..i]) && IsBlank(s[i + |t|..])
  {
    var l := LStrip(s);
    LStripProps(s);
    StartIsLStrip(s);
    RStripProps(l);
    var t := RStrip(l);
    var i := |s| - |l|;
    assert l == s[i..];
    assert s[i..i + |t|] == l[..|t|];
    assert s[i + |t|..] == l[|t|..];
    if |t| > 0 {
      assert !IsSpace(l[0]);
    }
  }

  lemma {:induction false} StartIsLStrip(s: string)
    ensures StripStart(s) == |s| - |LStrip(s)|
  {
    if |s| > 0 && IsSpace(s[0]) {
      StartIsLStrip(s[1..]);
    }
  }

  lemma {:induction false} StripTrimmed(s: string)
    requires Trimmed(s)
    ensures Strip(s) == s
  {
    if |s| > 0 {
      assert LStrip(s) == s;
    }
  }

  /** A leading space before trimmed text is all that `strip` removes. */
  lemma StripSpaceThen(t: string)
    requires Trimmed(t) && t != ""
    ensures Strip(" " + t) == t
  {
    assert (" " + t)[1..] == t;
    assert LStrip(" " + t) == LStrip(t) == t;
  }

  /** Two non-empty trimmed strings joined by a space are trimmed. */
  lemma TrimmedSpaced(a: string, b: string)
    requires Trimmed(a) && a != "" && Trimmed(b) && b != ""
    ensures Trimmed(a + " " + b) && a + " " + b != ""
  {
    assert (a + " " + b)[0] == a[0];
    assert (a + " " + b)[|a + " " + b| - 1] == b[|b| - 1];
  }

  lemma StripBlank(s: string)
    ensures Strip(s) == "" <==> IsBlank(s)
  {
    StripProps(s);
    var t, i := Strip(s), StripStart(s);
    if |t| > 0 {
      assert t[0] == s[i] && !IsSpace(s[i]);
    }
    if t == "" {
      forall k | 0 <= k < |s| ensures IsSpace(s[k]) {
        if k < i { assert s[k] == s[..i][k]; } else { assert s[k] == s[i..][k - i]; }
      }
    }
  }

  lemma StripIdempotent(s: string)
    ensures Strip(Strip(s)) == Strip(s)
  {
    StripProps(s);
    StripTrimmed(Strip(s));
  }

  /** Python's truthiness of a string: non-empty. */
  predicate Truthy(s: string) { |s| > 0 }

  /** `prefix` starts `s` (`s.startswith(prefix)`). */
  predicate StartsWith(s: string, prefix: string) {
    |prefix| <= |s| && s[..|prefix|] == prefix
  }

  /** `sub` occurs in `s` at position `i`. */
  predicate OccursAt(s: string, sub: string, i: int) {
    0 <= i && i + |sub| <= |s| && s[i..i + |sub|] == sub
  }

  /** `sub in s` */
  predicate Contains(s: string, sub: string) {
    exists i | 0 <= i <= |s| - |sub| :: OccursAt(s, sub, i)
  }

  /** Substring containment survives appending text on either side. */
  lemma ContainsMonotone(s: string, t: string, u: string, sub: string)
    requires Contains(s, sub)
    ensures Contains(t + s + u, sub)
  {
    var i :| 0 <= i <= |s| - |sub| && OccursAt(s, sub, i);
    var j := |t| + i;
    assert (t + s + u)[j..j + |sub|] == s[i..i + |sub|];
    assert OccursAt(t + s + u, sub, j);
  }

  /** `s[:n]` */
  function Prefix(s: string, n: nat): (r: string)
    ensures |r| == if n < |s| then n else |s|
  {
    if n < |s| then s[..n] else s
  }

  /** `s[i:j]` for non-negative bounds: both are clamped to the string. */
  function Slice(s: string, i: nat, j: nat): (r: string)
    ensures |r| <= |s| && (i < j ==> |r| <= j - i)
  {
    if i >= |s| || j <= i then "" else if j >= |s| then s[i..] else s[i..j]
  }

  /** `s.split(sep)` for a one-character separator. */
  function Split(s: string, sep: char): (r: seq<string>)
    ensures |r| >= 1
    ensures forall i :: 0 <= i < |r| ==> sep !in r[i]
  {
    if |s| == 0 then [""]
    else if s[0] == sep then [""] + Split(s[1..], sep)
    else
      var rest := Split(s[1..], sep);
      [[s[0]] + rest[0]] + rest[1..]
  }

  /** `sep.join(pieces)` */
  function Join(pieces: seq<string>, sep: string): string {
    if |pieces| == 0 then ""
    else if |pieces| == 1 then pieces[0]
    else pieces[0] + sep + Join(pieces[1..], sep)
  }

  lemma {:induction false} JoinSnoc(pieces: seq<string>, x: string, sep: string)
    requires |pieces| > 0
    ensures Join(pieces + [x], sep) == Join(pieces, sep) + sep + x
  {
    if |pieces| == 1 {
      assert (pieces + [x])[1..] == [x];
    } else {
      assert (pieces + [x])[1..] == pieces[1..] + [x];
      JoinSnoc(pieces[1..], x, sep);
    }
  }

  lemma {:induction false} JoinAppend(a: seq<string>, b: seq<string>, sep: string)
    requires |a| > 0 && |b| > 0
    ensures Join(a + b, sep) == Join(a, sep) + sep + Join(b, sep)
  {
    if |a| == 1 {
      assert (a + b)[1..] == b;
    } else {
      assert (a + b)[1..] == a[1..] + b;
      JoinAppend(a[1..], b, sep);
    }
  }

  /** Joining the pieces of a split with the separator gives back the string. */
  lemma {:induction false} JoinSplit(s: string, sep: char)
    ensures Join(Split(s, sep), [sep]) == s
  {
    if |s| == 0 {
    } else if s[0] == sep {
      JoinSplit(s[1..], sep);
      assert Split(s, sep) == [""] + Split(s[1..], sep);
      assert |Split(s[1..], sep)| >= 1;
      assert s == [sep] + s[1..];
    } else {
      JoinSplit(s[1..], sep);
      var rest := Split(s[1..], sep);
      if |rest| == 1 {
        assert s == [s[0]] + s[1..];
      } else {
        assert Split(s, sep)[1..] == rest[1..];
        assert s == [s[0]] + s[1..];
      }
    }
  }

  /** Splitting a join of separator-free pieces gives back the pieces. */
  lemma {:induction false} SplitJoin(pieces: seq<string>, sep: char)
    requires |pieces| > 0
    requires forall i :: 0 <= i < |pieces| ==> sep !in pieces[i]
    ensures Split(Join(pieces, [sep]), sep) == pieces
  {
    if |pieces| == 1 {
      SplitNoSep(pieces[0], sep);
    } else {
      SplitJoin(pieces[1..], sep);
      var tail := [sep] + Join(pieces[1..], [sep]);
      assert Join(pieces, [sep]) == pieces[0] + tail;
      SplitNoSepThen(pieces[0], sep, Join(pieces[1..], [sep]));
    }
  }

  lemma {:induction false} SplitNoSep(s: string, sep: char)
    requires sep !in s
    ensures Split(s, sep) == [s]
  {
    if |s| > 0 {
      assert s[0] in s;
      SplitNoSep(s[1..], sep);
      assert [s[0]] + s[1..] == s;
    }
  }

  lemma {:induction false} SplitNoSepThen(s: string, sep: char, rest: string)
    requires sep !in s
    ensures Split(s + [sep] + rest, sep) == [s] + Split(rest, sep)
  {
    if |s| == 0 {
      assert s + [sep] + rest == [sep] + rest;
      assert ([sep] + rest)[1..] == rest;
    } else {
      assert (s + [sep] + rest)[1..] == s[1..] + [sep] + rest;
      SplitNoSepThen(s[1..], sep, rest);
      assert [s[0]] + s[1..] == s;
    }
  }

  /** `re.sub(r"\n{2,}", "\n", s)`: every run of newlines becomes a single newline. */
  function CollapseNewlines(s: string): string {
    if |s| < 2 then s
    else if s[0] == '\n' && s[1] == '\n' then CollapseNewlines(s[1..])
    else [s[0]] + CollapseNewlines(s[1..])
  }

  lemma {:induction false} CollapseKeepsHead(s: string)
    requires |s| > 0
    ensures |CollapseNewlines(s)| > 0 && CollapseNewlines(s)[0] == s[0]
  {
    if |s| >= 2 && s[0] == '\n' && s[1] == '\n' {
      CollapseKeepsHead(s[1..]);
    }
  }

  /** No two newlines of `s` are adjacent. */
  predicate NoBlankLine(s: string) {
    forall i :: 0 <= i < |s| - 1 ==> !(s[i] == '\n' && s[i + 1] == '\n')
  }

  /** After collapsing, no two newlines are adjacent. */
  lemma {:induction false} CollapseNoDoubleNewline(s: string)
    ensures NoBlankLine(CollapseNewlines(s))
  {
    if |s| >= 2 {
      CollapseNoDoubleNewline(s[1..]);
      if !(s[0] == '\n' && s[1] == '\n') {
        var r := CollapseNewlines(s);
        var rest := CollapseNewlines(s[1..]);
        CollapseKeepsHead(s[1..]);
        assert r == [s[0]] + rest;
        forall i | 0 <= i < |r| - 1 ensures !(r[i] == '\n' && r[i + 1] == '\n') {
          if i > 0 {
            assert r[i] == rest[i - 1] && r[i + 1] == rest[i];
          } else {
            assert r[1] == rest[0] == s[1];
          }
        }
      } else {
        assert CollapseNewlines(s) == CollapseNewlines(s[1..]);
      }
    }
  }

  /** Stripping cuts a slice out of `s`, so it joins no newlines that were apart. */
  lemma StripNoBlankLine(s: string)
    requires NoBlankLine(s)
    ensures NoBlankLine(Strip(s))
  {
    StripProps(s);
    var t, i := Strip(s), StripStart(s);
    forall k | 0 <= k < |t| - 1 ensures !(t[k] == '\n' && t[k + 1] == '\n') {
      assert t[k] == s[i + k] && t[k + 1] == s[i + k + 1];
    }
  }

  /** Collapsing removes newlines only: every other character stays, in order. */
  lemma {:induction false} CollapseKeepsText(s: string)
    ensures Seqs.Filter(CollapseNewlines(s), c => c != '\n') == Seqs.Filter(s, c => c != '\n')
  {
    if |s| >= 2 {
      CollapseKeepsText(s[1..]);
      if !(s[0] == '\n' && s[1] == '\n') {
        assert ([s[0]] + CollapseNewlines(s[1..]))[1..] == CollapseNewlines(s[1..]);
      }
    }
  }

  /** The characters of a decimal rendering are ASCII digits. */
  predicate AsciiDigits(s: string) {
    forall i :: 0 <= i < |s| ==> '0' <= s[i] <= '9'
  }

  /** `str(n)` for a natural number. */
  function NatToString(n: nat): (r: string)
    ensures |r| > 0 && AsciiDigits(r)
    ensures n < 10 <==> |r| == 1
  {
    if n < 10 then [('0' as int + n) as char]
    else NatToString(n / 10) + [('0' as int + n % 10) as char]
  }

  /** Decimal rendering is injective: different numbers render differently. */
  lemma {:induction false} NatToStringInjective(a: nat, b: nat)
    requires NatToString(a) == NatToString(b)
    ensures a == b
  {
    var sa, sb := NatToString(a), NatToString(b);
    if a >= 10 && b >= 10 {
      assert sa[..|sa| - 1] == NatToString(a / 10);
      assert sb[..|sb| - 1] == NatToString(b / 10);
      NatToStringInjective(a / 10, b / 10);
      assert sa[|sa| - 1] == sb[|sb| - 1];
    } else {
      assert sa[0] == sb[0];
    }
  }

  /** `str(i)` for an integer. */
  function IntToString(i: int): string {
    if i < 0 then "-" + NatToString(-i) else NatToString(i)
  }

  /**
   * `c.lower()` for the capital letters of ASCII and Latin-1 and for the
   * Kelvin sign, which lower-cases to an ASCII 'k'; every other character is
   * kept as it is.
   */
  function LowerChar(c: char): char {
    if 'A' <= c <= 'Z' || ('\U{00C0}' <= c <= '\U{00DE}' && c != '\U{00D7}') then (c as int + 32) as char
    else if c == '\U{212A}' then 'k'
    else c
  }

  /** `c.lower()` as a string: the capital I with dot above becomes 'i' and a combining dot above. */
  function LowerOf(c: char): (r: string)
    ensures |r| > 0
  {
    if c == '\U{0130}' then "i\U{0307}" else [LowerChar(c)]
  }

  /** `s.lower()` */
  function Lower(s: string): (r: string)
    ensures |r| >= |s|
  {
    if |s| == 0 then "" else LowerOf(s[0]) + Lower(s[1..])
  }

  /** Lower-casing works character by character, so it distributes over concatenation. */
  lemma {:induction false} LowerAppend(a: string, b: string)
    ensures Lower(a + b) == Lower(a) + Lower(b)
  {
    if |a| > 0 {
      assert (a + b)[0] == a[0] && (a + b)[1..] == a[1..] + b;
      LowerAppend(a[1..], b);
      calc {
        Lower(a + b);
        LowerOf(a[0]) + Lower(a[1..] + b);
        LowerOf(a[0]) + (Lower(a[1..]) + Lower(b));
        (LowerOf(a[0]) + Lower(a[1..])) + Lower(b);
        Lower(a) + Lower(b);
      }
    } else {
      assert a + b == b;
    }
  }

  /** Lower-casing is idempotent: `s.lower().lower() == s.lower()`. */
  lemma {:induction false} LowerIdempotent(s: string)
    ensures Lower(Lower(s)) == Lower(s)
  {
    if |s| > 0 {
      LowerIdempotent(s[1..]);
      LowerAppend(LowerOf(s[0]), Lower(s[1..]));
      var d := "i\U{0307}";
      assert Lower(d) == d by {
        assert d[1..][1..] == "";
      }
    }
  }

  /** Text in the Arabic block has no case: lower-casing keeps it. */
  lemma {:induction false} LowerKeepsArabic(s: string)
    requires forall k :: 0 <= k < |s| ==> '\U{0600}' <= s[k] <= '\U{06FF}'
    ensures Lower(s) == s
  {
    if |s| > 0 {
      LowerKeepsArabic(s[1..]);
      assert [s[0]] + s[1..] == s;
    }
  }

  /** Without a capital I with dot above, lower-casing maps each character to one character. */
  lemma {:induction false} LowerPointwise(s: string)
    requires forall k :: 0 <= k < |s| ==> s[k] != '\U{0130}'
    ensures |Lower(s)| == |s| && forall k :: 0 <= k < |s| ==> Lower(s)[k] == LowerChar(s[k])
  {
    if |s| > 0 {
      LowerPointwise(s[1..]);
    }
  }

  /** The Kelvin sign lower-cases to an ASCII 'k'. */
  lemma LowerKelvinParking()
    ensures Lower("PAR\U{212A}ING") == "parking"
  {
    LowerPointwise("PAR\U{212A}ING");
  }

  /** An occurrence of `sub` is an occurrence of its lower-cased form in the lower-cased text. */
  lemma ContainsLower(s: string, sub: string)
    requires Contains(s, sub)
    ensures Contains(Lower(s), Lower(sub))
  {
    var i :| 0 <= i <= |s| - |sub| && OccursAt(s, sub, i);
    var t, u := s[..i], s[i + |sub|..];
    assert s == t + sub + u;
    LowerAppend(t + sub, u);
    LowerAppend(t, sub);
    assert OccursAt(Lower(sub), Lower(sub), 0);
    ContainsMonotone(Lower(sub), Lower(t), Lower(u), Lower(sub));
  }

  /**
   * Python's `int(s)` on a string: surrounding whitespace, an optional sign,
   * then digits with single underscores allowed between them.
   */
  function PyInt(s: string): (r: Option<int>) {
    var t := Strip(s);
    if |t| > 0 && (t[0] == '+' || t[0] == '-') then
      match IntBody(t[1..])
      case Some(v) => var n: int := if t[0] == '-' then -(v as int) else v; Some(n)
      case None => None
    else IntBody(t)
  }

  /** Digits with single underscores between them, and their value. */
  function IntBody(b: string): (r: Option<nat>) {
    if |b| == 0 || !IsDigit(b[0]) || !IsDigit(b[|b| - 1]) then None
    else if exists i | 0 <= i < |b| :: !IsDigit(b[i]) && b[i] != '_' then None
    else if exists i | 0 <= i < |b| - 1 :: b[i] == '_' && b[i + 1] == '_' then None
    else Some(DigitsValue(DigitsOnly(b)))
  }

  function DigitsOnly(b: string): (r: string)
    requires forall i :: 0 <= i < |b| ==> IsDigit(b[i]) || b[i] == '_'
    ensures AllDigits(r)
  {
    if |b| == 0 then "" else (if b[0] == '_' then "" else [b[0]]) + DigitsOnly(b[1..])
  }
}
