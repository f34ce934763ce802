/**
 * `SplitLaw`: preparing statute texts for retrieval. The text has its newline
 * runs collapsed and is stripped, then cut before every article heading
 * ("المادة 12", "مادة ٣"). Each part is stripped; parts shorter than the
 * minimum length are dropped, parts that fit are kept whole, and longer ones
 * are cut into fixed-width windows of which the long enough are kept,
 * stripped. Where the heading pattern matches is given as the function
 * `heading(text, position)`.
 */
module SplitLaw {
  import opened Seqs
  import opened Text
  import opened Records
  import opened Chunking

  /** The default `min_len` of `split_law_by_article`. */
  const MinLen: nat := 80
  /** The default `max_chars` of `split_law_by_article`. */
  const MaxChars: nat := 3500

  /** The text the heading split works on: newline runs collapsed to one newline, then stripped. */
  function Normalized(text: string): string {
    Strip(CollapseNewlines(text))
  }

  /** The normalised text is stripped and has no two newlines in a row. */
  lemma NormalizedShape(text: string)
    ensures Trimmed(Normalized(text)) && NoBlankLine(Normalized(text))
  {
    StripProps(CollapseNewlines(text));
    CollapseNoDoubleNewline(text);
    StripNoBlankLine(CollapseNewlines(text));
  }

  // ---------------------------------------------------------------------
  // Chunks
  // ---------------------------------------------------------------------

  /** The chunks one part yields. */
  function PartChunks(p: string, minLen: nat, maxChars: nat): seq<string>
    requires maxChars > 0
  {
    var q := Strip(p);
    if |q| < minLen then []
    else if |q| <= maxChars then [q]
    else LongStripped(Windows(q, maxChars), minLen)
  }

  /** The chunks of all parts, in order. */
  function LawChunks(parts: seq<string>, minLen: nat, maxChars: nat): seq<string>
    requires maxChars > 0
  {
    if |parts| == 0 then []
    else LawChunks(parts[..|parts| - 1], minLen, maxChars) + PartChunks(parts[|parts| - 1], minLen, maxChars)
  }

  /** Every chunk of a part is stripped and between `minLen` and `maxChars` long. */
  lemma PartChunksEmitted(p: string, minLen: nat, maxChars: nat)
    requires maxChars > 0
    ensures forall c :: c in PartChunks(p, minLen, maxChars) ==> Emitted(c, minLen, maxChars)
  {
    var q := Strip(p);
    StripProps(p);
    if minLen <= |q| && |q| > maxChars {
      WindowsShape(q, maxChars);
      LongStrippedEmitted(Windows(q, maxChars), minLen, maxChars);
    }
  }

  /** Every chunk `split_law_by_article` emits is stripped and between `minLen` and `maxChars` long. */
  lemma {:induction false} LawChunksEmitted(parts: seq<string>, minLen: nat, maxChars: nat)
    requires maxChars > 0
    ensures forall c :: c in LawChunks(parts, minLen, maxChars) ==> Emitted(c, minLen, maxChars)
  {
    if |parts| > 0 {
      LawChunksEmitted(parts[..|parts| - 1], minLen, maxChars);
      PartChunksEmitted(parts[|parts| - 1], minLen, maxChars);
    }
  }

  /** The windows of `p` from position `i` on: its first one is `p[i:i+n]`. */
  lemma WindowStep(p: string, i: nat, n: nat)
    requires n > 0 && i < |p|
    ensures Windows(Slice(p, i, |p|), n) == [Slice(p, i, i + n)] + Windows(Slice(p, i + n, |p|), n)
  {
    var rest := p[i..];
    assert Slice(p, i, |p|) == rest;
    if |rest| > n {
      assert rest[..n] == Slice(p, i, i + n);
      assert rest[n..] == Slice(p, i + n, |p|);
    } else {
      assert Slice(p, i + n, |p|) == "";
    }
  }

  /** What the window at `i` contributes comes before what the later windows do. */
  lemma WindowChunksStep(p: string, i: nat, n: nat, minLen: nat)
    requires n > 0 && i < |p|
    ensures var sub := Strip(Slice(p, i, i + n));
      LongStripped(Windows(Slice(p, i, |p|), n), minLen)
      == (if |sub| >= minLen then [sub] else []) + LongStripped(Windows(Slice(p, i + n, |p|), n), minLen)
  {
    WindowStep(p, i, n);
    var ws := [Slice(p, i, i + n)] + Windows(Slice(p, i + n, |p|), n);
    assert ws[0] == Slice(p, i, i + n) && ws[1..] == Windows(Slice(p, i + n, |p|), n);
  }

  /** One more part adds its own chunks after those of the parts before it. */
  lemma LawChunksStep(parts: seq<string>, j: nat, minLen: nat, maxChars: nat)
    requires maxChars > 0 && j < |parts|
    ensures LawChunks(parts[..j + 1], minLen, maxChars) == LawChunks(parts[..j], minLen, maxChars) + PartChunks(parts[j], minLen, maxChars)
  {
    assert parts[..j + 1][..j] == parts[..j];
  }

  /**
   * `split_law_by_article`: the chunks of the heading parts of the normalised
   * text, each stripped and between `minLen` and `maxChars` long.
   */
  method SplitLawByArticle(text: string, heading: (string, nat) -> bool, minLen: nat, maxChars: nat)
    returns (chunks: seq<string>)
    requires maxChars > 0
    ensures chunks == LawChunks(CutBefore(Normalized(text), heading), minLen, maxChars)
    ensures forall c :: c in chunks ==> Emitted(c, minLen, maxChars)
  {
    var parts := CutBefore(Normalized(text), heading);
    chunks := [];
    var j := 0;
    while j < |parts|
      invariant 0 <= j <= |parts|
      invariant chunks == LawChunks(parts[..j], minLen, maxChars)
    {
      LawChunksStep(parts, j, minLen, maxChars);
      var p := Strip(parts[j]);
      if |p| < minLen {
      } else if |p| <= maxChars {
        chunks := chunks + [p];
      } else {
        chunks := AppendWindows(chunks, p, minLen, maxChars);
      }
      j := j + 1;
    }
    assert parts[..j] == parts;
    LawChunksEmitted(parts, minLen, maxChars);
  }

  /**
   * The safety split of one long part: `p[i:i+max_chars]` stripped, for `i`
   * in `range(0, len(p), max_chars)`, appended when at least `minLen` long.
   */
  method AppendWindows(chunks: seq<string>, p: string, minLen: nat, maxChars: nat) returns (out: seq<string>)
    requires maxChars > 0
    ensures out == chunks + LongStripped(Windows(p, maxChars), minLen)
  {
    out := chunks;
    ghost var rest := p;
    assert Slice(p, 0, |p|) == p;
    var i: nat := 0;
    while i < |p|
      invariant rest == Slice(p, i, |p|)
      invariant out + LongStripped(Windows(rest, maxChars), minLen) == chunks + LongStripped(Windows(p, maxChars), minLen)
    {
      WindowChunksStep(p, i, maxChars, minLen);
      var sub := Strip(Slice(p, i, i + maxChars));
      ghost var later := Slice(p, i + maxChars, |p|);
      if |sub| >= minLen {
        assert out + ([sub] + LongStripped(Windows(later, maxChars), minLen))
            == (out + [sub]) + LongStripped(Windows(later, maxChars), minLen);
        out := out + [sub];
      } else {
        assert [] + LongStripped(Windows(later, maxChars), minLen) == LongStripped(Windows(later, maxChars), minLen);
      }
      rest := later;
      i := i + maxChars;
    }
    assert rest == [];
    assert LongStripped(Windows(rest, maxChars), minLen) == [];
    assert out + [] == out;
  }

  // ---------------------------------------------------------------------
  // Properties
  // ---------------------------------------------------------------------

  /** A long part is cut into windows that give it back when concatenated, each at most `maxChars` long. */
  lemma LongPartWindows(p: string, minLen: nat, maxChars: nat)
    requires maxChars > 0 && |Strip(p)| > maxChars && |Strip(p)| >= minLen
    ensures PartChunks(p, minLen, maxChars) == LongStripped(Windows(Strip(p), maxChars), minLen)
    ensures Concat(Windows(Strip(p), maxChars)) == Strip(p)
    ensures forall k :: 0 <= k < |Windows(Strip(p), maxChars)| ==> 0 < |Windows(Strip(p), maxChars)[k]| <= maxChars
  {
    WindowsConcat(Strip(p), maxChars);
    WindowsShape(Strip(p), maxChars);
  }

  /** Chunks of one list of parts after another: the chunks of each, in order. */
  lemma {:induction false} LawChunksAppend(a: seq<string>, b: seq<string>, minLen: nat, maxChars: nat)
    requires maxChars > 0
    ensures LawChunks(a + b, minLen, maxChars) == LawChunks(a, minLen, maxChars) + LawChunks(b, minLen, maxChars)
    decreases |b|
  {
    if |b| == 0 {
      assert a + b == a;
    } else {
      var front, last := b[..|b| - 1], b[|b| - 1];
      LawChunksAppend(a, front, minLen, maxChars);
      var ab := a + b;
      assert ab[..|ab| - 1] == a + front && ab[|ab| - 1] == last;
      AppendAssociates(LawChunks(a, minLen, maxChars), LawChunks(front, minLen, maxChars), PartChunks(last, minLen, maxChars));
    }
  }

  /** A part shorter than `minLen` once stripped contributes nothing, wherever it stands. */
  lemma ShortPartDropped(a: seq<string>, p: string, b: seq<string>, minLen: nat, maxChars: nat)
    requires maxChars > 0 && |Strip(p)| < minLen
    ensures LawChunks(a + [p] + b, minLen, maxChars) == LawChunks(a + b, minLen, maxChars)
  {
    LawChunksAppend(a + [p], b, minLen, maxChars);
    LawChunksAppend(a, [p], minLen, maxChars);
    LawChunksAppend(a, b, minLen, maxChars);
    assert [p][..0] == [];
  }

  /**
   * When every part fits once stripped, the chunks are exactly the stripped
   * parts, in order.
   */
  lemma {:induction false} FittingPartsPass(parts: seq<string>, minLen: nat, maxChars: nat)
    requires maxChars > 0
    requires forall k :: 0 <= k < |parts| ==> minLen <= |Strip(parts[k])| <= maxChars
    ensures LawChunks(parts, minLen, maxChars) == Map(parts, Strip)
  {
    if |parts| > 0 {
      var front, last := parts[..|parts| - 1], parts[|parts| - 1];
      FittingPartsPass(front, minLen, maxChars);
      assert PartChunks(last, minLen, maxChars) == [Strip(last)];
      assert LawChunks(parts, minLen, maxChars) == Map(front, Strip) + [Strip(last)];
      MapSnoc(front, last, Strip);
      assert front + [last] == parts;
    }
  }

  // ---------------------------------------------------------------------
  // Records
  // ---------------------------------------------------------------------

  /** The metadata every chunk of the file `fname` carries besides its index. */
  function LawMetadata(fname: string): map<string, Value> {
    map["doc_type" := Str("law"), "jurisdiction" := Str("JO"), "language" := Str("ar"),
        "source_file" := Str(fname), "law_name" := Str(Stem(fname))]
  }

  /**
   * The records of one law file: the chunks numbered from 1 under the id
   * `law:{name}:{i}`, the name being the file name without its extension.
   */
  method LawRecords(fname: string, chunks: seq<string>) returns (records: seq<Record>)
    ensures |records| == |chunks|
    ensures forall j :: 0 <= j < |chunks| ==> records[j] == ChunkRecord("law", Stem(fname), LawMetadata(fname), chunks[j], j + 1)
    ensures forall a, b :: 0 <= a < b < |records| ==> records[a].id != records[b].id
  {
    records := NumberChunks("law", Stem(fname), LawMetadata(fname), chunks);
  }
}
