/**
 * `Chunking`: the text cutting the law and mistake splitters share. A
 * zero-width `re.split` (a lookahead or lookbehind pattern) cuts a text before
 * every position where the pattern matches; `re.split(r"\n{2,}", s)` cuts at
 * runs of blank lines; and a comprehension keeps the pieces that are long
 * enough once stripped.
 */
module Chunking {
  import opened Seqs
  import opened Text

  // ---------------------------------------------------------------------
  // Zero-width split
  // ---------------------------------------------------------------------

  /**
   * The pieces of `s[start..]`, the piece under way having begun at `start`
   * and positions before `k` already examined: a new piece begins at every
   * position where `cut` matches, a match at the very start giving an empty
   * first piece and one at the very end an empty last piece, as `re.split`
   * does with a zero-width pattern.
   */
  function CutFrom(s: string, cut: (string, nat) -> bool, start: nat, k: nat): seq<string>
    requires start <= |s| && start <= k <= |s| + 1
    decreases |s| + 1 - k
  {
    if k > |s| then [s[start..]]
    else if cut(s, k) then [s[start..k]] + CutFrom(s, cut, k, k + 1)
    else CutFrom(s, cut, start, k + 1)
  }

  /** `re.split(pattern, s)` for a zero-width pattern matching at the positions `cut` accepts. */
  function CutBefore(s: string, cut: (string, nat) -> bool): seq<string> {
    CutFrom(s, cut, 0, 0)
  }

  lemma {:induction false} CutFromConcat(s: string, cut: (string, nat) -> bool, start: nat, k: nat)
    requires start <= |s| && start <= k <= |s| + 1
    ensures Concat(CutFrom(s, cut, start, k)) == s[start..]
    decreases |s| + 1 - k
  {
    if k > |s| {
      assert Concat([s[start..]]) == s[start..] + Concat([]);
    } else if cut(s, k) {
      CutFromConcat(s, cut, k, k + 1);
      ConcatAppend([s[start..k]], CutFrom(s, cut, k, k + 1));
      assert Concat([s[start..k]]) == s[start..k] + Concat([]);
      assert s[start..] == s[start..k] + s[k..];
    } else {
      CutFromConcat(s, cut, start, k + 1);
    }
  }

  /** A zero-width split loses nothing and reorders nothing. */
  lemma CutBeforeConcat(s: string, cut: (string, nat) -> bool)
    ensures Concat(CutBefore(s, cut)) == s
  {
    CutFromConcat(s, cut, 0, 0);
  }

  // ---------------------------------------------------------------------
  // Blank-line split
  // ---------------------------------------------------------------------

  /** Where the run of newlines starting at `k` ends. */
  function RunEnd(s: string, k: nat): (r: nat)
    requires k <= |s|
    ensures k <= r <= |s| && (r == |s| || s[r] != '\n')
    ensures forall j :: k <= j < r ==> s[j] == '\n'
    decreases |s| - k
  {
    if k < |s| && s[k] == '\n' then RunEnd(s, k + 1) else k
  }

  /**
   * The pieces of `s[start..]`, scanning at `k`: a run of two or more
   * newlines, taken whole, separates two pieces.
   */
  function BlankSplitFrom(s: string, start: nat, k: nat): seq<string>
    requires start <= k <= |s|
    decreases |s| - k
  {
    if k + 1 >= |s| then [s[start..]]
    else if s[k] == '\n' && s[k + 1] == '\n' then
      var e := RunEnd(s, k);
      [s[start..k]] + BlankSplitFrom(s, e, e)
    else BlankSplitFrom(s, start, k + 1)
  }

  /** `re.split(r"\n{2,}", s)` */
  function BlankSplit(s: string): seq<string> {
    BlankSplitFrom(s, 0, 0)
  }

  lemma {:induction false} BlankSplitFromClean(s: string, start: nat, k: nat)
    requires start <= k <= |s|
    requires NoBlankLine(s[start..if k < |s| then k + 1 else |s|])
    ensures forall j :: 0 <= j < |BlankSplitFrom(s, start, k)| ==> NoBlankLine(BlankSplitFrom(s, start, k)[j])
    decreases |s| - k
  {
    if k + 1 >= |s| {
      assert s[start..if k < |s| then k + 1 else |s|] == s[start..];
    } else if s[k] == '\n' && s[k + 1] == '\n' {
      var e := RunEnd(s, k);
      var piece, t := s[start..k], s[start..k + 1];
      assert forall i :: 0 <= i < |piece| ==> piece[i] == t[i];
      BlankSplitFromClean(s, e, e);
    } else {
      var t, u := s[start..k + 1], s[start..k + 2];
      assert forall i :: 0 <= i < |t| ==> u[i] == t[i];
      assert u[|u| - 2] == s[k] && u[|u| - 1] == s[k + 1];
      BlankSplitFromClean(s, start, k + 1);
    }
  }

  /** No piece of the blank-line split holds two newlines in a row. */
  lemma BlankSplitClean(s: string)
    ensures forall j :: 0 <= j < |BlankSplit(s)| ==> NoBlankLine(BlankSplit(s)[j])
  {
    BlankSplitFromClean(s, 0, 0);
  }

  // ---------------------------------------------------------------------
  // Keeping long pieces
  // ---------------------------------------------------------------------

  /** `[p.strip() for p in ps if len(p.strip()) >= min_len]` */
  function LongStripped(ps: seq<string>, minLen: nat): seq<string> {
    if |ps| == 0 then []
    else (if |Strip(ps[0])| >= minLen then [Strip(ps[0])] else []) + LongStripped(ps[1..], minLen)
  }

  /** Stripped and at least `minLen` long. */
  predicate LongTrimmed(c: string, minLen: nat) {
    Trimmed(c) && |c| >= minLen
  }

  /** Stripped and between the two lengths. */
  predicate Emitted(c: string, minLen: nat, maxChars: nat) {
    LongTrimmed(c, minLen) && |c| <= maxChars
  }

  /** What is kept is stripped and at least `minLen` long. */
  lemma {:induction false} LongStrippedTrimmed(ps: seq<string>, minLen: nat)
    ensures forall c :: c in LongStripped(ps, minLen) ==> LongTrimmed(c, minLen)
  {
    if |ps| > 0 {
      StripProps(ps[0]);
      LongStrippedTrimmed(ps[1..], minLen);
    }
  }

  /** Stripping never lengthens, so what is kept of pieces of at most `n` characters is at most `n` long. */
  lemma {:induction false} LongStrippedEmitted(ps: seq<string>, minLen: nat, n: nat)
    requires forall k :: 0 <= k < |ps| ==> |ps[k]| <= n
    ensures forall c :: c in LongStripped(ps, minLen) ==> Emitted(c, minLen, n)
  {
    if |ps| > 0 {
      StripProps(ps[0]);
      LongStrippedEmitted(ps[1..], minLen, n);
    }
  }

  /** Pieces kept one list after another: what is kept of each, in order. */
  lemma {:induction false} LongStrippedAppend(a: seq<string>, b: seq<string>, minLen: nat)
    ensures LongStripped(a + b, minLen) == LongStripped(a, minLen) + LongStripped(b, minLen)
  {
    if |a| > 0 {
      assert (a + b)[1..] == a[1..] + b;
      LongStrippedAppend(a[1..], b, minLen);
    } else {
      assert a + b == b;
    }
  }

  /** Everything kept is one of the pieces, stripped. */
  lemma {:induction false} LongStrippedFrom(ps: seq<string>, minLen: nat)
    ensures forall c :: c in LongStripped(ps, minLen) ==> exists k :: 0 <= k < |ps| && c == Strip(ps[k])
  {
    if |ps| > 0 {
      LongStrippedFrom(ps[1..], minLen);
      forall c | c in LongStripped(ps[1..], minLen) ensures exists k :: 0 <= k < |ps| && c == Strip(ps[k]) {
        var k :| 0 <= k < |ps[1..]| && c == Strip(ps[1..][k]);
        assert c == Strip(ps[k + 1]);
      }
    }
  }
}
