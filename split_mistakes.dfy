/**
 * `SplitMistakes`: preparing the "common lease mistakes" texts for retrieval.
 * Line breaks are normalised and the text stripped; it is cut before every
 * numbered heading ("1-", "٢." ...), falling back to blank-line paragraphs when
 * fewer than two long enough parts come out. Parts that fit are kept whole;
 * longer ones are cut after sentence punctuation and the sentences packed
 * greedily into buffers of at most the maximum length, a single sentence
 * that is longer on its own making a buffer by itself. Where the heading
 * pattern matches is given as the function `heading(text, position)`.
 */
module SplitMistakes {
  import opened Seqs
  import opened Text
  import opened Records
  import opened Chunking

  /** The default `min_len` of `split_mistakes`. */
  const MinLen: nat := 80
  /** The default `max_chars` of `split_mistakes`. */
  const MaxChars: nat := 2500

  // ---------------------------------------------------------------------
  // Line breaks
  // ---------------------------------------------------------------------

  /** `s.replace("\r\n", "\n")`: pairs replaced left to right. */
  function ReplaceCrLf(s: string): string {
    if |s| == 0 then ""
    else if |s| >= 2 && s[0] == '\r' && s[1] == '\n' then "\n" + ReplaceCrLf(s[2..])
    else [s[0]] + ReplaceCrLf(s[1..])
  }

  /** Text not ending in a carriage return starts no pair with what follows it. */
  lemma {:induction false} CrLfAppend(a: string, b: string)
    requires |a| == 0 || a[|a| - 1] != '\r'
    ensures ReplaceCrLf(a + b) == ReplaceCrLf(a) + ReplaceCrLf(b)
  {
    if |a| == 0 {
      assert a + b == b;
    } else if |a| >= 2 && a[0] == '\r' && a[1] == '\n' {
      var ab := a + b;
      assert ab[0] == '\r' && ab[1] == '\n';
      assert ab[2..] == a[2..] + b;
      CrLfAppend(a[2..], b);
      calc {
        ReplaceCrLf(ab);
        "\n" + ReplaceCrLf(a[2..] + b);
        "\n" + (ReplaceCrLf(a[2..]) + ReplaceCrLf(b));
        ("\n" + ReplaceCrLf(a[2..])) + ReplaceCrLf(b);
      }
    } else {
      var ab := a + b;
      assert |a| >= 2 || a[0] != '\r';
      assert ab[0] == a[0] && (|a| >= 2 ==> ab[1] == a[1]);
      assert ab[1..] == a[1..] + b;
      CrLfAppend(a[1..], b);
      calc {
        ReplaceCrLf(ab);
        [a[0]] + ReplaceCrLf(a[1..] + b);
        [a[0]] + (ReplaceCrLf(a[1..]) + ReplaceCrLf(b));
        ([a[0]] + ReplaceCrLf(a[1..])) + ReplaceCrLf(b);
      }
    }
  }

  /** A "\r\n" pair becomes a single newline, and the text on either side is replaced on its own. */
  lemma CrLfBecomesOneNewline(a: string, b: string)
    requires |a| == 0 || a[|a| - 1] != '\r'
    ensures ReplaceCrLf(a + "\r\n" + b) == ReplaceCrLf(a) + "\n" + ReplaceCrLf(b)
  {
    var rest := "\r\n" + b;
    assert a + "\r\n" + b == a + rest;
    assert rest[0] == '\r' && rest[1] == '\n' && rest[2..] == b;
    assert ReplaceCrLf(rest) == "\n" + ReplaceCrLf(b);
    CrLfAppend(a, rest);
  }

  /** `s.replace("\r", "\n")` */
  function ReplaceCr(s: string): (r: string)
    ensures |r| == |s| && forall i :: 0 <= i < |s| ==> r[i] == if s[i] == '\r' then '\n' else s[i]
  {
    if |s| == 0 then "" else [if s[0] == '\r' then '\n' else s[0]] + ReplaceCr(s[1..])
  }

  /** The line-break part of `normalize_ar`. */
  function NormalizeNewlines(s: string): string {
    ReplaceCr(ReplaceCrLf(s))
  }

  /** Neither a carriage return nor a newline. */
  predicate NotLineBreak(c: char) {
    c != '\r' && c != '\n'
  }

  /** After normalising, no carriage return is left. */
  lemma NormalizeNoCr(s: string)
    ensures '\r' !in NormalizeNewlines(s)
  {
    var r := NormalizeNewlines(s);
    assert forall i :: 0 <= i < |r| ==> r[i] != '\r';
  }

  lemma {:induction false} CrLfWithoutCr(s: string)
    requires '\r' !in s
    ensures ReplaceCrLf(s) == s
  {
    if |s| > 0 {
      assert '\r' !in s[1..];
      CrLfWithoutCr(s[1..]);
    }
  }

  /** A text without carriage returns is left as it is, so normalising twice is normalising once. */
  lemma NormalizeIdempotent(s: string)
    ensures '\r' !in s ==> NormalizeNewlines(s) == s
    ensures NormalizeNewlines(NormalizeNewlines(s)) == NormalizeNewlines(s)
  {
    forall t: string | '\r' !in t ensures NormalizeNewlines(t) == t {
      CrLfWithoutCr(t);
      assert forall i :: 0 <= i < |t| ==> t[i] != '\r';
    }
    NormalizeNoCr(s);
  }

  lemma {:induction false} CrLfKeepsText(s: string)
    ensures Filter(ReplaceCrLf(s), NotLineBreak) == Filter(s, NotLineBreak)
  {
    if |s| >= 2 && s[0] == '\r' && s[1] == '\n' {
      CrLfKeepsText(s[2..]);
      assert ("\n" + ReplaceCrLf(s[2..]))[1..] == ReplaceCrLf(s[2..]);
      assert s[1..][1..] == s[2..];
    } else if |s| > 0 {
      CrLfKeepsText(s[1..]);
      assert ([s[0]] + ReplaceCrLf(s[1..]))[1..] == ReplaceCrLf(s[1..]);
    }
  }

  lemma {:induction false} CrKeepsText(s: string)
    ensures Filter(ReplaceCr(s), NotLineBreak) == Filter(s, NotLineBreak)
  {
    if |s| > 0 {
      CrKeepsText(s[1..]);
      assert ReplaceCr(s)[1..] == ReplaceCr(s[1..]);
    }
  }

  /** Only line breaks change: every other character stays, in order. */
  lemma NormalizeKeepsText(s: string)
    ensures Filter(NormalizeNewlines(s), NotLineBreak) == Filter(s, NotLineBreak)
  {
    CrLfKeepsText(s);
    CrKeepsText(ReplaceCrLf(s));
  }

  // ---------------------------------------------------------------------
  // Parts
  // ---------------------------------------------------------------------

  /** The text `split_mistakes` cuts: line breaks normalised, then stripped. */
  function Prepared(text: string): string {
    Strip(NormalizeNewlines(text))
  }

  /** The long enough parts between numbered headings, stripped. */
  function HeadingParts(t: string, heading: (string, nat) -> bool, minLen: nat): seq<string> {
    LongStripped(CutBefore(t, heading), minLen)
  }

  /** The long enough blank-line paragraphs, stripped. */
  function BlankParts(t: string, minLen: nat): seq<string> {
    LongStripped(BlankSplit(t), minLen)
  }

  /** The parts `split_mistakes` goes on with. */
  function ChosenParts(t: string, heading: (string, nat) -> bool, minLen: nat): seq<string> {
    var parts := HeadingParts(t, heading, minLen);
    if |parts| < 2 then BlankParts(t, minLen) else parts
  }

  /**
   * With two or more heading parts those are used; otherwise the paragraphs,
   * none of which holds two newlines in a row. Either way every part is
   * stripped and at least `minLen` long.
   */
  lemma FallbackOnFewHeadings(t: string, heading: (string, nat) -> bool, minLen: nat)
    ensures |HeadingParts(t, heading, minLen)| >= 2 ==> ChosenParts(t, heading, minLen) == HeadingParts(t, heading, minLen)
    ensures |HeadingParts(t, heading, minLen)| < 2 ==> ChosenParts(t, heading, minLen) == BlankParts(t, minLen)
    ensures forall c :: c in BlankParts(t, minLen) ==> NoBlankLine(c)
    ensures forall c :: c in ChosenParts(t, heading, minLen) ==> LongTrimmed(c, minLen)
  {
    var pieces := BlankSplit(t);
    BlankSplitClean(t);
    LongStrippedFrom(pieces, minLen);
    forall c | c in BlankParts(t, minLen) ensures NoBlankLine(c) {
      var k :| 0 <= k < |pieces| && c == Strip(pieces[k]);
      StripNoBlankLine(pieces[k]);
    }
    LongStrippedTrimmed(CutBefore(t, heading), minLen);
    LongStrippedTrimmed(pieces, minLen);
  }

  // ---------------------------------------------------------------------
  // Sentences and packing
  // ---------------------------------------------------------------------

  /** The characters a sentence ends with. */
  predicate SentenceEnd(c: char) {
    c == '.' || c == '\U{060C}' || c == '\U{061B}' || c == ':' || c == '\n'
  }

  /** `(?<=[.،؛:\n])`: the position right after a sentence end. */
  predicate AfterSentenceEnd(s: string, k: nat) {
    0 < k <= |s| && SentenceEnd(s[k - 1])
  }

  /** `re.split(r"(?<=[.،؛:\n])", p)` */
  function Sentences(p: string): seq<string> {
    CutBefore(p, AfterSentenceEnd)
  }

  /** The packing loop's state: the buffers given up so far and the one being filled. */
  datatype Packing = Packing(done: seq<string>, buf: string)

  /**
   * The packing after the sentences `ss`: a sentence joins the buffer when
   * both fit in `maxChars` together; otherwise the buffer is given up and the
   * sentence starts the next one.
   */
  function PackFold(ss: seq<string>, maxChars: nat): Packing {
    if |ss| == 0 then Packing([], "")
    else
      var st := PackFold(ss[..|ss| - 1], maxChars);
      var s := ss[|ss| - 1];
      if |st.buf| + |s| <= maxChars then Packing(st.done, st.buf + s)
      else Packing(st.done + [st.buf], s)
  }

  /** Every buffer the packing produces, the last one included, before stripping. */
  function Buffers(ss: seq<string>, maxChars: nat): seq<string> {
    var st := PackFold(ss, maxChars);
    st.done + [st.buf]
  }

  /** The pieces one part yields. */
  function PartPieces(p: string, minLen: nat, maxChars: nat): seq<string> {
    if |p| <= maxChars then [p] else LongStripped(Buffers(Sentences(p), maxChars), minLen)
  }

  /** The pieces of all parts, in order. */
  function MistakeChunks(parts: seq<string>, minLen: nat, maxChars: nat): seq<string> {
    if |parts| == 0 then []
    else MistakeChunks(parts[..|parts| - 1], minLen, maxChars) + PartPieces(parts[|parts| - 1], minLen, maxChars)
  }

  /** The buffers, taken together, are the sentences, in order. */
  lemma {:induction false} PackConcat(ss: seq<string>, maxChars: nat)
    ensures Concat(Buffers(ss, maxChars)) == Concat(ss)
  {
    if |ss| == 0 {
      assert Concat([""]) == "" + Concat([]);
    } else {
      var front, s := ss[..|ss| - 1], ss[|ss| - 1];
      var st := PackFold(front, maxChars);
      PackConcat(front, maxChars);
      ConcatSnoc(st.done, st.buf);
      ConcatSnoc(front, s);
      assert front + [s] == ss;
      if |st.buf| + |s| <= maxChars {
        ConcatSnoc(st.done, st.buf + s);
      } else {
        ConcatSnoc(st.done + [st.buf], s);
      }
    }
  }

  /** The buffers of a long part, taken together, are the part itself. */
  lemma PartBuffersConcat(p: string, maxChars: nat)
    ensures Concat(Buffers(Sentences(p), maxChars)) == p
  {
    PackConcat(Sentences(p), maxChars);
    CutBeforeConcat(p, AfterSentenceEnd);
  }

  /** A buffer fits in `maxChars` or is a single sentence. */
  predicate FitsOrSingle(b: string, ss: seq<string>, maxChars: nat) {
    |b| <= maxChars || b in ss
  }

  /**
   * Every buffer is at most `maxChars` long unless it is one sentence that is
   * longer on its own: a sentence is added to a buffer only when both fit.
   */
  lemma {:induction false} PackBound(ss: seq<string>, maxChars: nat)
    ensures forall k :: 0 <= k < |Buffers(ss, maxChars)| ==> FitsOrSingle(Buffers(ss, maxChars)[k], ss, maxChars)
  {
    if |ss| > 0 {
      var front, s := ss[..|ss| - 1], ss[|ss| - 1];
      var st := PackFold(front, maxChars);
      PackBound(front, maxChars);
      var prior := st.done + [st.buf];
      assert prior == Buffers(front, maxChars);
      assert forall k :: 0 <= k < |prior| ==> FitsOrSingle(prior[k], ss, maxChars) by {
        forall k | 0 <= k < |prior| ensures FitsOrSingle(prior[k], ss, maxChars) {
          assert FitsOrSingle(prior[k], front, maxChars);
          if prior[k] in front {
            var m :| 0 <= m < |front| && front[m] == prior[k];
            assert ss[m] == front[m];
          }
        }
      }
      var now := Buffers(ss, maxChars);
      if |st.buf| + |s| <= maxChars {
        assert now == st.done + [st.buf + s];
        assert forall k :: 0 <= k < |st.done| ==> now[k] == prior[k];
      } else {
        assert now == prior + [s];
        assert s == ss[|ss| - 1];
      }
    }
  }

  // ---------------------------------------------------------------------
  // The splitter
  // ---------------------------------------------------------------------

  /** The greedy loop, one sentence at a time: the state after one more is `PackFold` of one more. */
  lemma PackStep(ss: seq<string>, i: nat, maxChars: nat)
    requires i < |ss|
    ensures var st, s := PackFold(ss[..i], maxChars), ss[i];
      PackFold(ss[..i + 1], maxChars)
      == if |st.buf| + |s| <= maxChars then Packing(st.done, st.buf + s) else Packing(st.done + [st.buf], s)
  {
    assert ss[..i + 1][..i] == ss[..i];
  }

  /**
   * The safety split of one long part: the buffers of its sentences are given
   * up, stripped, whenever the next sentence does not fit, and kept when long
   * enough, the last one too.
   */
  method PackSentences(chunks: seq<string>, p: string, minLen: nat, maxChars: nat) returns (out: seq<string>)
    ensures out == chunks + LongStripped(Buffers(Sentences(p), maxChars), minLen)
  {
    var sentences := Sentences(p);
    out := chunks;
    var buf := "";
    var i := 0;
    while i < |sentences|
      invariant 0 <= i <= |sentences|
      invariant out == chunks + LongStripped(PackFold(sentences[..i], maxChars).done, minLen)
      invariant buf == PackFold(sentences[..i], maxChars).buf
    {
      var s := sentences[i];
      PackStep(sentences, i, maxChars);
      ghost var done := PackFold(sentences[..i], maxChars).done;
      if |buf| + |s| <= maxChars {
        buf := buf + s;
      } else {
        LongStrippedAppend(done, [buf], minLen);
        if |Strip(buf)| >= minLen {
          out := out + [Strip(buf)];
        }
        buf := s;
      }
      i := i + 1;
    }
    assert sentences[..i] == sentences;
    LongStrippedAppend(PackFold(sentences, maxChars).done, [buf], minLen);
    if |Strip(buf)| >= minLen {
      out := out + [Strip(buf)];
    }
  }

  lemma MistakeChunksStep(parts: seq<string>, j: nat, minLen: nat, maxChars: nat)
    requires j < |parts|
    ensures MistakeChunks(parts[..j + 1], minLen, maxChars)
      == MistakeChunks(parts[..j], minLen, maxChars) + PartPieces(parts[j], minLen, maxChars)
  {
    assert parts[..j + 1][..j] == parts[..j];
  }

  /**
   * `split_mistakes`: the pieces of the chosen parts of the prepared text,
   * each stripped and at least `minLen` long.
   */
  method SplitMistakes(text: string, heading: (string, nat) -> bool, minLen: nat, maxChars: nat)
    returns (chunks: seq<string>)
    ensures chunks == MistakeChunks(ChosenParts(Prepared(text), heading, minLen), minLen, maxChars)
    ensures forall c :: c in chunks ==> LongTrimmed(c, minLen)
  {
    var t := Prepared(text);
    var parts := HeadingParts(t, heading, minLen);
    if |parts| < 2 {
      parts := BlankParts(t, minLen);
    }
    chunks := [];
    var j := 0;
    while j < |parts|
      invariant 0 <= j <= |parts|
      invariant chunks == MistakeChunks(parts[..j], minLen, maxChars)
    {
      MistakeChunksStep(parts, j, minLen, maxChars);
      var p := parts[j];
      if |p| <= maxChars {
        chunks := chunks + [p];
      } else {
        chunks := PackSentences(chunks, p, minLen, maxChars);
      }
      j := j + 1;
    }
    assert parts[..j] == parts;
    FallbackOnFewHeadings(t, heading, minLen);
    MistakeChunksTrimmed(parts, minLen, maxChars);
  }

  // ---------------------------------------------------------------------
  // Properties
  // ---------------------------------------------------------------------

  /** From stripped parts of at least `minLen`, every piece is stripped and at least `minLen` long. */
  lemma {:induction false} MistakeChunksTrimmed(parts: seq<string>, minLen: nat, maxChars: nat)
    requires forall p :: p in parts ==> LongTrimmed(p, minLen)
    ensures forall c :: c in MistakeChunks(parts, minLen, maxChars) ==> LongTrimmed(c, minLen)
  {
    if |parts| > 0 {
      var front, p := parts[..|parts| - 1], parts[|parts| - 1];
      assert forall q :: q in front ==> q in parts;
      MistakeChunksTrimmed(front, minLen, maxChars);
      if |p| > maxChars {
        LongStrippedTrimmed(Buffers(Sentences(p), maxChars), minLen);
      }
    }
  }

  /** When every part fits, the parts come out unchanged and in order. */
  lemma {:induction false} FittingPartsPass(parts: seq<string>, minLen: nat, maxChars: nat)
    requires forall k :: 0 <= k < |parts| ==> |parts[k]| <= maxChars
    ensures MistakeChunks(parts, minLen, maxChars) == parts
  {
    if |parts| > 0 {
      var front := parts[..|parts| - 1];
      FittingPartsPass(front, minLen, maxChars);
      assert front + [parts[|parts| - 1]] == parts;
    }
  }

  /**
   * The pieces of a long part are its buffers, stripped and those too short
   * dropped; the buffers give the part back when concatenated, and each fits
   * in `maxChars` or is a single sentence.
   */
  lemma LongPartPacking(p: string, minLen: nat, maxChars: nat)
    requires |p| > maxChars
    ensures PartPieces(p, minLen, maxChars) == LongStripped(Buffers(Sentences(p), maxChars), minLen)
    ensures Concat(Buffers(Sentences(p), maxChars)) == p
    ensures forall k :: 0 <= k < |Buffers(Sentences(p), maxChars)| ==>
      FitsOrSingle(Buffers(Sentences(p), maxChars)[k], Sentences(p), maxChars)
  {
    PartBuffersConcat(p, maxChars);
    PackBound(Sentences(p), maxChars);
  }

  // ---------------------------------------------------------------------
  // Records
  // ---------------------------------------------------------------------

  /** The metadata every piece of the file `fname` carries besides its index. */
  function MistakeMetadata(fname: string): map<string, Value> {
    map["doc_type" := Str("mistake"), "jurisdiction" := Str("JO"), "language" := Str("ar"),
        "source_file" := Str(fname), "severity" := Str("unknown")]
  }

  /**
   * The records of one mistakes file: the pieces numbered from 1 under the id
   * `mistake:{base}:{i}`, the base being the file name without its extension.
   */
  method MistakeRecords(fname: string, chunks: seq<string>) returns (records: seq<Record>)
    ensures |records| == |chunks|
    ensures forall j :: 0 <= j < |chunks| ==>
      records[j] == ChunkRecord("mistake", Stem(fname), MistakeMetadata(fname), chunks[j], j + 1)
    ensures forall a, b :: 0 <= a < b < |records| ==> records[a].id != records[b].id
  {
    records := NumberChunks("mistake", Stem(fname), MistakeMetadata(fname), chunks);
  }
}
