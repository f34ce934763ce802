/** Sequence helpers: concatenation of pieces and fixed-width windowing. */
module Seqs {

  /** The pieces laid end to end, in order. */
  function Concat<T>(ss: seq<seq<T>>): seq<T> {
    if |ss| == 0 then [] else ss[0] + Concat(ss[1..])
  }

  lemma {:induction false} ConcatAppend<T>(a: seq<seq<T>>, b: seq<seq<T>>)
    ensures Concat(a + b) == Concat(a) + Concat(b)
  {
    if |a| == 0 {
      assert a + b == b;
    } else {
      assert (a + b)[1..] == a[1..] + b;
      ConcatAppend(a[1..], b);
    }
  }

  lemma ConcatSnoc<T>(a: seq<seq<T>>, x: seq<T>)
    ensures Concat(a + [x]) == Concat(a) + x
  {
    ConcatAppend(a, [x]);
    assert Concat([x]) == x + Concat([x][1..]);
  }

  /** Taking one more piece: the flattened prefix grows by that piece. */
  lemma ConcatPrefixStep<T>(xs: seq<seq<T>>, p: nat)
    requires p < |xs|
    ensures Concat(xs[..p + 1]) == Concat(xs[..p]) + xs[p][..|xs[p]|]
  {
    assert xs[..p + 1] == xs[..p] + [xs[p]];
    ConcatSnoc(xs[..p], xs[p]);
    assert xs[p][..|xs[p]|] == xs[p];
  }

  /**
   * The consecutive slices `s[i:i+n]` for `i` in `range(0, len(s), n)`: every
   * slice is `n` long except possibly the last, which holds what is left.
   */
  function Windows<T>(s: seq<T>, n: nat): seq<seq<T>>
    requires n > 0
    decreases |s|
  {
    if |s| == 0 then []
    else if |s| <= n then [s]
    else [s[..n]] + Windows(s[n..], n)
  }

  /** Concatenation regroups freely. */
  lemma AppendAssociates<T>(x: seq<T>, y: seq<T>, z: seq<T>)
    ensures (x + y) + z == x + (y + z)
  {
  }

  /** Windowing loses nothing and reorders nothing. */
  lemma {:induction false} WindowsConcat<T>(s: seq<T>, n: nat)
    requires n > 0
    ensures Concat(Windows(s, n)) == s
    decreases |s|
  {
    if |s| == 0 {
    } else if |s| <= n {
      assert Concat([s]) == s + Concat([s][1..]);
    } else {
      WindowsConcat(s[n..], n);
      assert Windows(s, n)[1..] == Windows(s[n..], n);
      assert s == s[..n] + s[n..];
    }
  }

  /**
   * Every window is non-empty and at most `n` long, all but the last are exactly
   * `n` long, and there are ceil(|s| / n) of them.
   */
  lemma {:induction false} WindowsShape<T>(s: seq<T>, n: nat)
    requires n > 0
    ensures var w := Windows(s, n);
      && (forall i :: 0 <= i < |w| ==> 0 < |w[i]| <= n)
      && (forall i :: 0 <= i < |w| - 1 ==> |w[i]| == n)
      && |w| * n >= |s| && (|w| - 1) * n < |s| + (if |s| == 0 then n else 0)
    decreases |s|
  {
    var w := Windows(s, n);
    if |s| == 0 {
    } else if |s| <= n {
    } else {
      WindowsShape(s[n..], n);
      var rest := Windows(s[n..], n);
      assert w == [s[..n]] + rest;
      assert |w| * n == n + |rest| * n;
      forall i | 0 <= i < |w| ensures 0 < |w[i]| <= n {
        if i > 0 { assert w[i] == rest[i - 1]; }
      }
      forall i | 0 <= i < |w| - 1 ensures |w[i]| == n {
        if i > 0 { assert w[i] == rest[i - 1]; }
      }
    }
  }

  /** The elements of `s` that satisfy `p`, in order. */
  function Filter<T>(s: seq<T>, p: T -> bool): (r: seq<T>)
    ensures |r| <= |s|
    ensures forall x :: x in r ==> x in s && p(x)
  {
    if |s| == 0 then [] else (if p(s[0]) then [s[0]] else []) + Filter(s[1..], p)
  }

  lemma {:induction false} FilterSnoc<T>(s: seq<T>, x: T, p: T -> bool)
    ensures Filter(s + [x], p) == Filter(s, p) + (if p(x) then [x] else [])
  {
    if |s| == 0 {
      assert s + [x] == [x];
      assert Filter([x], p) == (if p(x) then [x] else []) + Filter([x][1..], p);
    } else {
      var head := if p(s[0]) then [s[0]] else [];
      assert (s + [x])[0] == s[0] && (s + [x])[1..] == s[1..] + [x];
      FilterSnoc(s[1..], x, p);
      AppendAssociates(head, Filter(s[1..], p), if p(x) then [x] else []);
    }
  }

  /** `f` applied to every element, in order. */
  function Map<T, U>(s: seq<T>, f: T -> U): (r: seq<U>)
    ensures |r| == |s| && forall i :: 0 <= i < |s| ==> r[i] == f(s[i])
  {
    if |s| == 0 then [] else [f(s[0])] + Map(s[1..], f)
  }

  /** Mapping a sequence with one more element adds that element's image at the end. */
  lemma MapSnoc<T, U>(s: seq<T>, x: T, f: T -> U)
    ensures Map(s + [x], f) == Map(s, f) + [f(x)]
  {
    assert forall i :: 0 <= i < |s| ==> (s + [x])[i] == s[i];
  }

  /** Non-empty pieces flatten to at least one element per piece. */
  lemma {:induction false} ConcatLength<T>(ss: seq<seq<T>>)
    requires forall i :: 0 <= i < |ss| ==> |ss[i]| > 0
    ensures |Concat(ss)| >= |ss|
  {
    if |ss| > 0 {
      ConcatLength(ss[1..]);
    }
  }
}
