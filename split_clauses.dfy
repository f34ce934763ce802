/**
 * `SplitClauses`: preparing lease texts for retrieval. A lease text is cut
 * into line-based chunks that each open at a clause heading; the chunks of
 * all files are then merged into clauses, continuation chunks joining the
 * open clause of their own file; finally every clause is numbered and written
 * as a record. Whether a line opens a clause is decided by the heading
 * pattern, given here as the function `isStart`.
 */
module SplitClauses {
  import opened Wrappers
  import opened Seqs
  import opened Text
  import opened Records

  // ---------------------------------------------------------------------
  // Lines
  // ---------------------------------------------------------------------

  /** The pieces cleaned by `clean`, those that come out empty dropped, in order. */
  function Cleaned(pieces: seq<string>, clean: string -> string): seq<string> {
    if |pieces| == 0 then []
    else (if clean(pieces[0]) != "" then [clean(pieces[0])] else []) + Cleaned(pieces[1..], clean)
  }

  /** The lines `split_into_chunks` works on: newline runs collapsed, each line stripped, blank lines dropped. */
  function KeptLines(text: string): seq<string> {
    Cleaned(Split(CollapseNewlines(text), '\n'), Strip)
  }

  /** Whatever holds of every non-empty cleaned string holds of every element of `Cleaned`, and none is empty. */
  lemma {:induction false} CleanedHas(pieces: seq<string>, clean: string -> string, good: string -> bool)
    requires forall p :: clean(p) != "" ==> good(clean(p))
    ensures forall k :: 0 <= k < |Cleaned(pieces, clean)| ==> Cleaned(pieces, clean)[k] != "" && good(Cleaned(pieces, clean)[k])
  {
    if |pieces| > 0 {
      CleanedHas(pieces[1..], clean, good);
    }
  }

  /** Every kept line is non-empty and has no surrounding whitespace. */
  lemma KeptLinesTrimmed(text: string)
    ensures forall k :: 0 <= k < |KeptLines(text)| ==> KeptLines(text)[k] != "" && Trimmed(KeptLines(text)[k])
  {
    forall p ensures Trimmed(Strip(p)) {
      StripProps(p);
    }
    CleanedHas(Split(CollapseNewlines(text), '\n'), Strip, Trimmed);
  }

  // ---------------------------------------------------------------------
  // Chunks
  // ---------------------------------------------------------------------

  /** The lines of one chunk joined by single spaces. */
  function JoinWords(g: seq<string>): string {
    Join(g, " ")
  }

  /**
   * The lines grouped as `split_into_chunks` groups them: a clause-start line
   * opens a new group unless it is the very first line; any other line joins
   * the group before it.
   */
  function Groups(lines: seq<string>, isStart: string -> bool): (g: seq<seq<string>>)
    ensures |g| == 0 <==> |lines| == 0
  {
    if |lines| == 0 then []
    else
      var g := Groups(lines[..|lines| - 1], isStart);
      var line := lines[|lines| - 1];
      if |g| == 0 then [[line]]
      else if isStart(line) then g + [[line]]
      else g[..|g| - 1] + [g[|g| - 1] + [line]]
  }

  /** Each group joined by spaces. */
  function JoinEach(gs: seq<seq<string>>): (r: seq<string>)
    ensures |r| == |gs|
  {
    if |gs| == 0 then [] else [JoinWords(gs[0])] + JoinEach(gs[1..])
  }

  lemma {:induction false} JoinEachSnoc(gs: seq<seq<string>>, g: seq<string>)
    ensures JoinEach(gs + [g]) == JoinEach(gs) + [JoinWords(g)]
  {
    if |gs| == 0 {
      assert gs + [g] == [g];
    } else {
      assert (gs + [g])[1..] == gs[1..] + [g];
      JoinEachSnoc(gs[1..], g);
    }
  }

  /** The chunks before the length filter. */
  function RawChunks(lines: seq<string>, isStart: string -> bool): seq<string> {
    JoinEach(Groups(lines, isStart))
  }

  /** The filter of `split_into_chunks`: more than 40 characters. */
  predicate LongEnough(c: string) {
    |c| > 40
  }

  /**
   * `split_into_chunks`: the buffer collects kept lines separated by spaces
   * and is flushed, stripped, whenever a clause-start line arrives while it
   * holds something; the last buffer is flushed at the end, and chunks of 40
   * characters or fewer are dropped.
   */
  method SplitIntoChunks(text: string, isStart: string -> bool) returns (chunks: seq<string>)
    ensures chunks == Filter(RawChunks(KeptLines(text), isStart), LongEnough)
    ensures forall c :: c in chunks ==> |c| > 40
  {
    var lines := KeptLines(text);
    KeptLinesTrimmed(text);
    var raw: seq<string> := [];
    var buffer := "";
    var i := 0;
    while i < |lines|
      invariant 0 <= i <= |lines|
      invariant BufferHolds(lines[..i], isStart, raw, buffer)
    {
      var line := lines[i];
      BufferStep(lines, i, isStart, raw, buffer);
      if isStart(line) && buffer != "" {
        raw := raw + [Strip(buffer)];
        buffer := line;
      } else {
        buffer := buffer + " " + line;
      }
      i := i + 1;
    }
    assert lines[..i] == lines;
    BufferDone(lines, isStart, raw, buffer);
    if buffer != "" {
      raw := raw + [Strip(buffer)];
    }
    chunks := Filter(raw, LongEnough);
  }

  /**
   * After the lines `prefix`, `raw` holds every finished group joined by
   * spaces and the buffer holds the open group joined by spaces, after the
   * single space that precedes the very first line.
   */
  ghost predicate BufferHolds(prefix: seq<string>, isStart: string -> bool, raw: seq<string>, buffer: string) {
    if |prefix| == 0 then buffer == "" && raw == []
    else
      var g := Groups(prefix, isStart);
      && |g| > 0 && raw == JoinEach(g[..|g| - 1])
      && JoinWords(g[|g| - 1]) != "" && Trimmed(JoinWords(g[|g| - 1]))
      && buffer == (if |g| == 1 then " " else "") + JoinWords(g[|g| - 1])
  }

  lemma BufferStep(lines: seq<string>, i: nat, isStart: string -> bool, raw: seq<string>, buffer: string)
    requires i < |lines| && lines[i] != "" && Trimmed(lines[i])
    requires BufferHolds(lines[..i], isStart, raw, buffer)
    ensures isStart(lines[i]) && buffer != "" ==> BufferHolds(lines[..i + 1], isStart, raw + [Strip(buffer)], lines[i])
    ensures !(isStart(lines[i]) && buffer != "") ==> BufferHolds(lines[..i + 1], isStart, raw, buffer + " " + lines[i])
  {
    var prefix := lines[..i + 1];
    assert prefix[..i] == lines[..i] && prefix[i] == lines[i];
    if isStart(lines[i]) && buffer != "" {
      FlushStep(prefix, isStart, raw, buffer);
    } else {
      ExtendStep(prefix, isStart, raw, buffer);
    }
  }

  lemma BufferDone(lines: seq<string>, isStart: string -> bool, raw: seq<string>, buffer: string)
    requires BufferHolds(lines, isStart, raw, buffer)
    ensures (if buffer != "" then raw + [Strip(buffer)] else raw) == RawChunks(lines, isStart)
  {
    if |lines| > 0 {
      FlushLast(Groups(lines, isStart), buffer);
    }
  }

  /** What the buffer flushes is its group's lines joined by spaces. */
  lemma FlushLast(g: seq<seq<string>>, buffer: string)
    requires |g| > 0 && JoinWords(g[|g| - 1]) != "" && Trimmed(JoinWords(g[|g| - 1]))
    requires buffer == (if |g| == 1 then " " else "") + JoinWords(g[|g| - 1])
    ensures JoinEach(g[..|g| - 1]) + [Strip(buffer)] == JoinEach(g)
  {
    StripBuffer(g, buffer);
    JoinEachLast(g);
  }

  lemma StripBuffer(g: seq<seq<string>>, buffer: string)
    requires |g| > 0 && JoinWords(g[|g| - 1]) != "" && Trimmed(JoinWords(g[|g| - 1]))
    requires buffer == (if |g| == 1 then " " else "") + JoinWords(g[|g| - 1])
    ensures Strip(buffer) == JoinWords(g[|g| - 1])
  {
    if |g| == 1 {
      StripSpaceThen(JoinWords(g[0]));
    } else {
      StripTrimmed(buffer);
    }
  }

  lemma JoinEachLast(g: seq<seq<string>>)
    requires |g| > 0
    ensures JoinEach(g[..|g| - 1]) + [JoinWords(g[|g| - 1])] == JoinEach(g)
  {
    var front, last := g[..|g| - 1], g[|g| - 1];
    assert front + [last] == g;
    JoinEachSnoc(front, last);
  }

  /** A clause-start line after a non-empty buffer: the buffer is flushed and the line opens a group. */
  lemma FlushStep(lines: seq<string>, isStart: string -> bool, raw: seq<string>, buffer: string)
    requires |lines| > 0 && isStart(lines[|lines| - 1]) && buffer != ""
    requires var line := lines[|lines| - 1]; line != "" && Trimmed(line)
    requires BufferHolds(lines[..|lines| - 1], isStart, raw, buffer)
    ensures BufferHolds(lines, isStart, raw + [Strip(buffer)], lines[|lines| - 1])
  {
    var g0 := Groups(lines[..|lines| - 1], isStart);
    var line := lines[|lines| - 1];
    FlushLast(g0, buffer);
    var g := Groups(lines, isStart);
    assert g == g0 + [[line]];
    assert g[..|g| - 1] == g0;
  }

  /** Any other line joins the buffer after a space. */
  lemma ExtendStep(lines: seq<string>, isStart: string -> bool, raw: seq<string>, buffer: string)
    requires |lines| > 0
    requires !(isStart(lines[|lines| - 1]) && buffer != "")
    requires var line := lines[|lines| - 1]; line != "" && Trimmed(line)
    requires BufferHolds(lines[..|lines| - 1], isStart, raw, buffer)
    ensures BufferHolds(lines, isStart, raw, buffer + " " + lines[|lines| - 1])
  {
    if |lines| == 1 {
      assert lines[..0] == [];
      assert Groups(lines, isStart) == [[lines[0]]];
    } else {
      ExtendGroup(lines, isStart, raw, buffer);
    }
  }

  lemma ExtendGroup(lines: seq<string>, isStart: string -> bool, raw: seq<string>, buffer: string)
    requires |lines| > 1 && !isStart(lines[|lines| - 1])
    requires var line := lines[|lines| - 1]; line != "" && Trimmed(line)
    requires var g := Groups(lines[..|lines| - 1], isStart);
      && |g| > 0 && raw == JoinEach(g[..|g| - 1])
      && JoinWords(g[|g| - 1]) != "" && Trimmed(JoinWords(g[|g| - 1]))
      && buffer == (if |g| == 1 then " " else "") + JoinWords(g[|g| - 1])
    ensures var g := Groups(lines, isStart);
      && |g| > 0 && raw == JoinEach(g[..|g| - 1])
      && JoinWords(g[|g| - 1]) != "" && Trimmed(JoinWords(g[|g| - 1]))
      && buffer + " " + lines[|lines| - 1] == (if |g| == 1 then " " else "") + JoinWords(g[|g| - 1])
  {
    var line := lines[|lines| - 1];
    var g := Groups(lines, isStart);
    var g0 := Groups(lines[..|lines| - 1], isStart);
    var last := g0[|g0| - 1];
    assert g == g0[..|g0| - 1] + [last + [line]];
    assert g[..|g| - 1] == g0[..|g0| - 1];
    assert |last| > 0;
    JoinSnoc(last, line, " ");
    TrimmedSpaced(JoinWords(last), line);
  }

  /**
   * Every group is non-empty, every group after the first opens with a
   * clause-start line, and no line but a group's first is one.
   */
  predicate CutAtStarts(g: seq<seq<string>>, isStart: string -> bool) {
    && (forall j :: 0 <= j < |g| ==> |g[j]| > 0)
    && (forall j :: 0 < j < |g| ==> isStart(g[j][0]))
    && (forall j, k :: 0 <= j < |g| && 0 < k < |g[j]| ==> !isStart(g[j][k]))
  }

  /**
   * The groups partition the lines in order, cut exactly before the
   * clause-start lines that are not the first line.
   */
  lemma GroupsShape(lines: seq<string>, isStart: string -> bool)
    ensures Concat(Groups(lines, isStart)) == lines
    ensures CutAtStarts(Groups(lines, isStart), isStart)
  {
    GroupsConcat(lines, isStart);
    GroupsStarts(lines, isStart);
  }

  lemma {:induction false} GroupsConcat(lines: seq<string>, isStart: string -> bool)
    ensures Concat(Groups(lines, isStart)) == lines
  {
    if |lines| > 0 {
      var front := lines[..|lines| - 1];
      var line := lines[|lines| - 1];
      GroupsConcat(front, isStart);
      var g0 := Groups(front, isStart);
      assert front + [line] == lines;
      if |g0| == 0 {
        assert Concat([[line]]) == [line] + Concat([[line]][1..]);
      } else if isStart(line) {
        ConcatSnoc(g0, [line]);
      } else {
        var last := g0[|g0| - 1];
        assert g0 == g0[..|g0| - 1] + [last];
        ConcatSnoc(g0[..|g0| - 1], last);
        ConcatSnoc(g0[..|g0| - 1], last + [line]);
      }
    }
  }

  lemma {:induction false} GroupsStarts(lines: seq<string>, isStart: string -> bool)
    ensures CutAtStarts(Groups(lines, isStart), isStart)
  {
    if |lines| > 0 {
      var front := lines[..|lines| - 1];
      var line := lines[|lines| - 1];
      GroupsStarts(front, isStart);
      var g0 := Groups(front, isStart);
      var g := Groups(lines, isStart);
      if |g0| > 0 && isStart(line) {
        assert g == g0 + [[line]];
        forall j | 0 <= j < |g|
          ensures |g[j]| > 0 && (j > 0 ==> isStart(g[j][0]))
          ensures forall k :: 0 < k < |g[j]| ==> !isStart(g[j][k])
        {
          if j < |g0| { assert g[j] == g0[j]; } else { assert g[j] == [line]; }
        }
      } else if |g0| > 0 {
        var last := g0[|g0| - 1];
        assert g == g0[..|g0| - 1] + [last + [line]];
        forall j | 0 <= j < |g|
          ensures |g[j]| > 0 && (j > 0 ==> isStart(g[j][0]))
          ensures forall k :: 0 < k < |g[j]| ==> !isStart(g[j][k])
        {
          if j < |g0| - 1 {
            assert g[j] == g0[j];
          } else {
            assert g[j] == last + [line];
            assert g[j][0] == last[0];
            assert forall k :: 0 < k < |last| ==> g[j][k] == g0[j][k];
          }
        }
      } else {
        assert g == [[line]];
      }
    }
  }

  /** Joining groups of lines and then the results loses no line and adds nothing. */
  lemma {:induction false} JoinNested(gs: seq<seq<string>>)
    requires forall j :: 0 <= j < |gs| ==> |gs[j]| > 0
    ensures Join(JoinEach(gs), " ") == Join(Concat(gs), " ")
  {
    if |gs| == 1 {
      assert JoinEach(gs) == [JoinWords(gs[0])];
      assert gs[1..] == [];
      assert Concat(gs) == gs[0] + Concat(gs[1..]) == gs[0];
    } else if |gs| > 1 {
      JoinNested(gs[1..]);
      assert JoinEach(gs)[1..] == JoinEach(gs[1..]);
      assert |Concat(gs[1..])| > 0 by {
        assert Concat(gs[1..]) == gs[1] + Concat(gs[2..]);
      }
      JoinAppend(gs[0], Concat(gs[1..]), " ");
    }
  }

  /** Before the length filter, the chunks joined by spaces are the kept lines joined by spaces. */
  lemma ChunksKeepText(lines: seq<string>, isStart: string -> bool)
    ensures Join(RawChunks(lines, isStart), " ") == Join(lines, " ")
  {
    GroupsShape(lines, isStart);
    JoinNested(Groups(lines, isStart));
  }

  // ---------------------------------------------------------------------
  // Clauses
  // ---------------------------------------------------------------------

  /** One row of the chunk list: the file it came from and its text. */
  datatype Chunk = Chunk(sourceFile: string, text: string)

  /** One entry of the merged list; `metadata` marks text seen before any clause opened. */
  datatype Clause = Clause(sourceFile: string, text: string, metadata: bool)

  /** The state of the merging loop: the finished entries and the open clause. */
  datatype FixState = FixState(fixed: seq<Clause>, current: Option<Clause>)

  /** The finished entries followed by the open clause, if any. */
  function Flushed(st: FixState): seq<Clause> {
    st.fixed + (if st.current.Some? then [st.current.value] else [])
  }

  /** One chunk of `fix_broken_clauses`. */
  function FixStep(st: FixState, chunk: Chunk, isStart: string -> bool): FixState {
    var text := Strip(chunk.text);
    if text == "" then st
    else if isStart(text) then FixState(Flushed(st), Some(Clause(chunk.sourceFile, text, false)))
    else if st.current.Some? then
      var open := st.current.value;
      if open.sourceFile == chunk.sourceFile then FixState(st.fixed, Some(open.(text := open.text + " " + text)))
      else FixState(st.fixed + [open], Some(Clause(chunk.sourceFile, text, false)))
    else FixState(st.fixed + [Clause(chunk.sourceFile, text, true)], None)
  }

  function FixFold(chunks: seq<Chunk>, isStart: string -> bool): FixState {
    if |chunks| == 0 then FixState([], None)
    else FixStep(FixFold(chunks[..|chunks| - 1], isStart), chunks[|chunks| - 1], isStart)
  }

  /** The list `fix_broken_clauses` returns. */
  function FixBroken(chunks: seq<Chunk>, isStart: string -> bool): seq<Clause> {
    Flushed(FixFold(chunks, isStart))
  }

  /**
   * `fix_broken_clauses`: blank chunks are skipped; a clause-start chunk
   * closes the open clause and opens a new one; a continuation joins the
   * open clause after a space when it comes from the same file and otherwise
   * closes it and opens a new one; before any clause has opened it becomes a
   * metadata entry. The open clause is closed at the end.
   */
  method FixBrokenClauses(chunks: seq<Chunk>, isStart: string -> bool) returns (fixed: seq<Clause>)
    ensures fixed == FixBroken(chunks, isStart)
  {
    fixed := [];
    var current: Option<Clause> := None;
    var i := 0;
    while i < |chunks|
      invariant 0 <= i <= |chunks|
      invariant FixState(fixed, current) == FixFold(chunks[..i], isStart)
    {
      assert chunks[..i + 1][..i] == chunks[..i];
      var chunk := chunks[i];
      var text := Strip(chunk.text);
      if text != "" {
        if isStart(text) {
          if current.Some? {
            fixed := fixed + [current.value];
          }
          current := Some(Clause(chunk.sourceFile, text, false));
        } else if current.Some? {
          if current.value.sourceFile == chunk.sourceFile {
            current := Some(current.value.(text := current.value.text + " " + text));
          } else {
            fixed := fixed + [current.value];
            current := Some(Clause(chunk.sourceFile, text, false));
          }
        } else {
          fixed := fixed + [Clause(chunk.sourceFile, text, true)];
        }
      }
      i := i + 1;
    }
    assert chunks[..i] == chunks;
    if current.Some? {
      fixed := fixed + [current.value];
    }
  }

  /** The non-blank chunks with their text stripped: what the merging works on. */
  function Kept(chunks: seq<Chunk>): (r: seq<Chunk>)
    ensures |r| <= |chunks|
  {
    if |chunks| == 0 then []
    else
      var c := chunks[|chunks| - 1];
      Kept(chunks[..|chunks| - 1]) + (if Strip(c.text) != "" then [Chunk(c.sourceFile, Strip(c.text))] else [])
  }

  function TextOf(c: Chunk): string {
    c.text
  }

  /** The entry `c` is made of the chunks `g`: at least one, all from `c`'s file, their texts joined by spaces. */
  predicate Describes(g: seq<Chunk>, c: Clause) {
    && |g| > 0
    && c.text == Join(Map(g, TextOf), " ")
    && forall k :: 0 <= k < |g| ==> g[k].sourceFile == c.sourceFile
  }

  /** `gs` cuts `items` into consecutive runs, one per entry of `out`, each described by its entry. */
  predicate IsGrouping(gs: seq<seq<Chunk>>, items: seq<Chunk>, out: seq<Clause>) {
    && |gs| == |out|
    && Concat(gs) == items
    && forall j :: 0 <= j < |gs| ==> Describes(gs[j], out[j])
  }

  /** The chunks behind the finished entries and behind the open clause. */
  datatype GroupState = GroupState(closed: seq<seq<Chunk>>, open: seq<Chunk>)

  /** The chunks behind the state after one more chunk, mirroring `FixStep`. */
  ghost function GroupStep(gs: GroupState, st: FixState, chunk: Chunk, isStart: string -> bool): GroupState {
    var item := Chunk(chunk.sourceFile, Strip(chunk.text));
    var prior := if gs.open == [] then [] else [gs.open];
    if item.text == "" then gs
    else if isStart(item.text) then GroupState(gs.closed + prior, [item])
    else if st.current.Some? then
      if st.current.value.sourceFile == chunk.sourceFile then GroupState(gs.closed, gs.open + [item])
      else GroupState(gs.closed + prior, [item])
    else GroupState(gs.closed + [[item]], [])
  }

  ghost function GroupFold(chunks: seq<Chunk>, isStart: string -> bool): GroupState {
    if |chunks| == 0 then GroupState([], [])
    else
      var front := chunks[..|chunks| - 1];
      GroupStep(GroupFold(front, isStart), FixFold(front, isStart), chunks[|chunks| - 1], isStart)
  }

  ghost predicate Agree(st: FixState, gs: GroupState, items: seq<Chunk>) {
    && |gs.closed| == |st.fixed|
    && (st.current.None? <==> gs.open == [])
    && Concat(gs.closed) + gs.open == items
    && (forall j :: 0 <= j < |gs.closed| ==> Describes(gs.closed[j], st.fixed[j]))
    && (st.current.Some? ==> Describes(gs.open, st.current.value))
  }

  lemma DescribesOne(item: Chunk, c: Clause)
    requires c.sourceFile == item.sourceFile && c.text == item.text
    ensures Describes([item], c)
  {
    assert Map([item], TextOf) == [item.text];
  }

  lemma DescribesMore(g: seq<Chunk>, c: Clause, item: Chunk)
    requires Describes(g, c) && item.sourceFile == c.sourceFile
    ensures Describes(g + [item], c.(text := c.text + " " + item.text))
  {
    MapSnoc(g, item, TextOf);
    JoinSnoc(Map(g, TextOf), item.text, " ");
  }

  lemma {:induction false} FoldsAgree(chunks: seq<Chunk>, isStart: string -> bool)
    ensures Agree(FixFold(chunks, isStart), GroupFold(chunks, isStart), Kept(chunks))
  {
    if |chunks| > 0 {
      var front := chunks[..|chunks| - 1];
      FoldsAgree(front, isStart);
      AgreeStep(FixFold(front, isStart), GroupFold(front, isStart), Kept(front), chunks[|chunks| - 1], isStart);
    }
  }

  lemma AgreeStep(st: FixState, gs: GroupState, items: seq<Chunk>, chunk: Chunk, isStart: string -> bool)
    requires Agree(st, gs, items)
    ensures var text := Strip(chunk.text);
      Agree(FixStep(st, chunk, isStart), GroupStep(gs, st, chunk, isStart),
            items + (if text != "" then [Chunk(chunk.sourceFile, text)] else []))
  {
    var item := Chunk(chunk.sourceFile, Strip(chunk.text));
    if item.text == "" {
      assert items + [] == items;
    } else if isStart(item.text) || (st.current.Some? && st.current.value.sourceFile != chunk.sourceFile) {
      DescribesOne(item, Clause(chunk.sourceFile, item.text, false));
      if st.current.Some? {
        AgreeClose(st, gs, items, item, Clause(chunk.sourceFile, item.text, false));
      } else {
        assert gs.open == [] && gs.closed + [] == gs.closed;
        assert Concat(gs.closed) + [item] == items + [item];
      }
    } else if st.current.Some? {
      DescribesMore(gs.open, st.current.value, item);
    } else {
      DescribesOne(item, Clause(chunk.sourceFile, item.text, true));
      AgreeMeta(st, gs, items, item, Clause(chunk.sourceFile, item.text, true));
    }
  }

  /** Closing the open clause and opening a new one on `item`. */
  lemma AgreeClose(st: FixState, gs: GroupState, items: seq<Chunk>, item: Chunk, c: Clause)
    requires Agree(st, gs, items) && st.current.Some? && Describes([item], c)
    ensures Agree(FixState(st.fixed + [st.current.value], Some(c)), GroupState(gs.closed + [gs.open], [item]), items + [item])
  {
    ConcatSnoc(gs.closed, gs.open);
    var closed := gs.closed + [gs.open];
    var fixed := st.fixed + [st.current.value];
    assert forall j :: 0 <= j < |gs.closed| ==> closed[j] == gs.closed[j] && fixed[j] == st.fixed[j];
  }

  /** A metadata entry made of `item` alone. */
  lemma AgreeMeta(st: FixState, gs: GroupState, items: seq<Chunk>, item: Chunk, c: Clause)
    requires Agree(st, gs, items) && st.current.None? && Describes([item], c)
    ensures Agree(FixState(st.fixed + [c], None), GroupState(gs.closed + [[item]], []), items + [item])
  {
    ConcatSnoc(gs.closed, [item]);
    var closed := gs.closed + [[item]];
    var fixed := st.fixed + [c];
    assert forall j :: 0 <= j < |gs.closed| ==> closed[j] == gs.closed[j] && fixed[j] == st.fixed[j];
  }

  /**
   * The merged list is exactly the non-blank chunks, cut into consecutive
   * runs: every entry is one run of chunks of its own file, their stripped
   * texts joined by spaces. Chunks of different files are never merged and
   * nothing is lost or reordered.
   */
  lemma FixIsGrouping(chunks: seq<Chunk>, isStart: string -> bool)
    ensures exists gs :: IsGrouping(gs, Kept(chunks), FixBroken(chunks, isStart))
  {
    FoldsAgree(chunks, isStart);
    var st, g := FixFold(chunks, isStart), GroupFold(chunks, isStart);
    var gs := g.closed + (if g.open == [] then [] else [g.open]);
    if g.open != [] {
      ConcatSnoc(g.closed, g.open);
    } else {
      assert gs == g.closed;
      assert Concat(g.closed) + [] == Concat(g.closed);
    }
    assert IsGrouping(gs, Kept(chunks), FixBroken(chunks, isStart));
  }

  /** There are never more entries than non-blank chunks. */
  lemma FixCount(chunks: seq<Chunk>, isStart: string -> bool)
    ensures |FixBroken(chunks, isStart)| <= |Kept(chunks)| <= |chunks|
  {
    FixIsGrouping(chunks, isStart);
    var gs :| IsGrouping(gs, Kept(chunks), FixBroken(chunks, isStart));
    ConcatLength(gs);
  }

  /** Metadata entries come first: once a clause has opened, every later entry is a clause. */
  predicate MetadataFirst(out: seq<Clause>) {
    forall i, j :: 0 <= i < j < |out| && out[j].metadata ==> out[i].metadata
  }

  predicate MetaInv(st: FixState, isStart: string -> bool) {
    && MetadataFirst(st.fixed)
    && (st.current.None? ==> forall j :: 0 <= j < |st.fixed| ==> st.fixed[j].metadata)
    && (st.current.Some? ==> !st.current.value.metadata)
    && (forall j :: 0 <= j < |st.fixed| && st.fixed[j].metadata ==> !isStart(st.fixed[j].text))
  }

  lemma {:induction false} FixKeepsMetaInv(chunks: seq<Chunk>, isStart: string -> bool)
    ensures MetaInv(FixFold(chunks, isStart), isStart)
  {
    if |chunks| > 0 {
      FixKeepsMetaInv(chunks[..|chunks| - 1], isStart);
    }
  }

  /**
   * Entries marked as metadata all come before the first clause, and none of
   * them opens with a clause heading.
   */
  lemma FixMetadataFirst(chunks: seq<Chunk>, isStart: string -> bool)
    ensures var out := FixBroken(chunks, isStart);
      && MetadataFirst(out)
      && forall j :: 0 <= j < |out| && out[j].metadata ==> !isStart(out[j].text)
  {
    FixKeepsMetaInv(chunks, isStart);
  }

  // ---------------------------------------------------------------------
  // Records
  // ---------------------------------------------------------------------

  /** The record written for the clause numbered `clauseId`; the metadata marker is not written. */
  function LeaseRecord(c: Clause, clauseId: nat): Record {
    Record(RecordId("lease", c.sourceFile, clauseId), c.text,
      map["doc_type" := Str("lease"), "source_file" := Str(c.sourceFile), "clause_id" := Num(clauseId),
          "jurisdiction" := Str("JO"), "language" := Str("ar")])
  }

  /**
   * The numbering loop: clause ids run 1, 2, ... in list order and each
   * clause becomes a record with id `lease:{file}:{clause id}`; no two
   * records share an id.
   */
  method NumberClauses(clauses: seq<Clause>) returns (records: seq<Record>)
    ensures |records| == |clauses|
    ensures forall j :: 0 <= j < |clauses| ==> records[j] == LeaseRecord(clauses[j], j + 1)
    ensures forall a, b :: 0 <= a < b < |records| ==> records[a].id != records[b].id
  {
    records := [];
    var i := 0;
    while i < |clauses|
      invariant 0 <= i <= |clauses| && |records| == i
      invariant forall j :: 0 <= j < i ==> records[j] == LeaseRecord(clauses[j], j + 1)
    {
      records := records + [LeaseRecord(clauses[i], i + 1)];
      i := i + 1;
    }
    forall a, b | 0 <= a < b < |records|
      ensures records[a].id != records[b].id
    {
      RecordIdsDiffer("lease", clauses[a].sourceFile, a + 1, clauses[b].sourceFile, b + 1);
    }
  }
}
