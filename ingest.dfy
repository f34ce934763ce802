/**
 * `Ingest`: loading one prepared JSONL file into its vector table. The rows
 * go in batches of 50; each batch is embedded and every row becomes an upsert
 * record carrying the row's id, text and metadata, the metadata completed with
 * the file's `doc_type` when it has none. The embedding service and the
 * database are parameters: `embed` answers a batch of texts with one vector
 * per text or fails, and `store` says whether an upsert went through.
 */
module Ingest {
  import opened Wrappers
  import opened Seqs
  import opened Records
  import opened Arith

  /** `BATCH_SIZE` */
  const BatchSize: nat := 50

  /** One decoded line of a JSONL file: the keys the migration reads, each present or not. */
  datatype Row = Row(id: Option<string>, text: Option<string>, metadata: Option<map<string, Value>>)

  /** One record sent to the table; `E` is the embedding vector, whose contents are not modelled. */
  datatype Upsert<E> = Upsert(id: string, text: string, embedding: E, metadata: map<string, Value>)

  /** The columns of a batch: its texts, its ids and its metadata objects, index for index. */
  datatype Columns = Columns(texts: seq<string>, ids: seq<string>, metadatas: seq<map<string, Value>>)

  /** What loading one file comes to. */
  datatype FileResult<E> =
    | SchemaRejected
      /** The records upserted, and whether a row without `id` or `text` stopped the run. */
    | Migrated(upserted: seq<Upsert<E>>, stopped: bool)

  // ---------------------------------------------------------------------
  // Batches
  // ---------------------------------------------------------------------

  /** `chunk_list(lst, n)`: consecutive slices of `n` elements, the last one possibly shorter. */
  function ChunkList<T>(lst: seq<T>, n: nat): seq<seq<T>>
    requires n > 0
  {
    Windows(lst, n)
  }

  /** The batches concatenate back to the rows, in order. */
  lemma ChunkListConcat<T>(lst: seq<T>, n: nat)
    requires n > 0
    ensures Concat(ChunkList(lst, n)) == lst
  {
    WindowsConcat(lst, n);
  }

  /**
   * Every batch is non-empty and at most `n` long, all but the last are
   * exactly `n` long, and there are ceil(len / n) of them.
   */
  lemma ChunkListShape<T>(lst: seq<T>, n: nat)
    requires n > 0
    ensures forall i :: 0 <= i < |ChunkList(lst, n)| ==> 0 < |ChunkList(lst, n)[i]| <= n
    ensures forall i :: 0 <= i < |ChunkList(lst, n)| - 1 ==> |ChunkList(lst, n)[i]| == n
    ensures |ChunkList(lst, n)| == (|lst| + n - 1) / n
  {
    WindowsShape(lst, n);
    if |lst| > 0 {
      CeilingDivision(|ChunkList(lst, n)|, |lst|, n);
    }
  }

  /** A count `q` with `(q - 1) * n < m <= q * n` is ceil(m / n). */
  lemma CeilingDivision(q: nat, m: nat, n: nat)
    requires n > 0 && q * n >= m && (q - 1) * n < m
    ensures q == (m + n - 1) / n
  {
    assert (q - 1) * n == q * n - n;
    assert (q + 1) * n == q * n + n;
    DivisionUnique(m + n - 1, n, q);
  }

  // ---------------------------------------------------------------------
  // Schema and columns
  // ---------------------------------------------------------------------

  /** A row has both keys the batch loop reads. */
  predicate HasKeys(r: Row) {
    r.id.Some? && r.text.Some?
  }

  /** The schema check: an empty file passes, otherwise the first row must have `id` and `text`. */
  predicate SchemaOk(rows: seq<Row>) {
    |rows| == 0 || HasKeys(rows[0])
  }

  /** Only the first row is inspected: what follows it never changes the verdict. */
  lemma SchemaFirstRowOnly(first: Row, rest: seq<Row>, other: seq<Row>)
    ensures SchemaOk([first] + rest) == SchemaOk([first] + other) == HasKeys(first)
  {
  }

  /** `row["id"]` of a row that has one. */
  function IdOf(r: Row): string {
    if r.id.Some? then r.id.value else ""
  }

  /** `row["text"]` of a row that has one. */
  function TextOf(r: Row): string {
    if r.text.Some? then r.text.value else ""
  }

  /** `row.get("metadata", {})` */
  function MetadataOf(r: Row): map<string, Value> {
    if r.metadata.Some? then r.metadata.value else map[]
  }

  /**
   * The three columns of a batch, or None when a row lacks `id` or `text`
   * (the key lookup fails outside the batch's error handler and stops the run).
   */
  function ColumnsOf(batch: seq<Row>): (c: Option<Columns>)
    ensures c.Some? <==> forall i :: 0 <= i < |batch| ==> HasKeys(batch[i])
    ensures c.Some? ==>
      && |c.value.texts| == |c.value.ids| == |c.value.metadatas| == |batch|
      && forall i :: 0 <= i < |batch| ==>
        && c.value.texts[i] == TextOf(batch[i])
        && c.value.ids[i] == IdOf(batch[i])
        && c.value.metadatas[i] == MetadataOf(batch[i])
  {
    if forall i :: 0 <= i < |batch| ==> HasKeys(batch[i]) then
      Some(Columns(seq(|batch|, i requires 0 <= i < |batch| => TextOf(batch[i])),
                   seq(|batch|, i requires 0 <= i < |batch| => IdOf(batch[i])),
                   seq(|batch|, i requires 0 <= i < |batch| => MetadataOf(batch[i]))))
    else None
  }

  // ---------------------------------------------------------------------
  // Records of a batch
  // ---------------------------------------------------------------------

  /** A copy of the metadata that names the document type, added only when the metadata has none. */
  function WithDocType(metadata: map<string, Value>, docType: string): (r: map<string, Value>)
    ensures "doc_type" in r
    ensures "doc_type" in metadata ==> r == metadata
    ensures "doc_type" !in metadata ==> r["doc_type"] == Str(docType)
    ensures r.Keys == metadata.Keys + {"doc_type"}
    ensures forall k :: k in metadata ==> r[k] == metadata[k]
  {
    if "doc_type" in metadata then metadata else metadata["doc_type" := Str(docType)]
  }

  /** Completing twice is completing once. */
  lemma WithDocTypeIdempotent(metadata: map<string, Value>, docType: string, other: string)
    ensures WithDocType(WithDocType(metadata, docType), other) == WithDocType(metadata, docType)
  {
  }

  /** The upsert record for the `i`-th row of the batch and its vector. */
  function RecordAt<E>(c: Columns, i: nat, e: E, docType: string): Upsert<E>
    requires i < |c.texts| && i < |c.ids| && i < |c.metadatas|
  {
    Upsert(c.ids[i], c.texts[i], e, WithDocType(c.metadatas[i], docType))
  }

  /**
   * The records of a batch, one per returned vector. More vectors than rows
   * make the metadata lookup fail inside the batch's error handler: the batch
   * is dropped (None).
   */
  function BatchRecords<E>(c: Columns, embeddings: seq<E>, docType: string): Option<seq<Upsert<E>>>
    requires |c.texts| == |c.ids| == |c.metadatas|
  {
    if |embeddings| > |c.metadatas| then None
    else Some(seq(|embeddings|, i requires 0 <= i < |embeddings| => RecordAt(c, i, embeddings[i], docType)))
  }

  /**
   * The loop over `enumerate(emb_response.data)`: record `i` takes the id, the
   * text and the completed metadata of row `i`; the batch fails when there are
   * more vectors than rows.
   */
  method PrepareBatch<E>(c: Columns, embeddings: seq<E>, docType: string) returns (data: Option<seq<Upsert<E>>>)
    requires |c.texts| == |c.ids| == |c.metadatas|
    ensures data == BatchRecords(c, embeddings, docType)
    ensures data.None? <==> |embeddings| > |c.metadatas|
    ensures data.Some? ==> |data.value| == |embeddings|
    ensures data.Some? ==> forall i :: 0 <= i < |embeddings| ==>
      && data.value[i].id == c.ids[i] && data.value[i].text == c.texts[i]
      && data.value[i].embedding == embeddings[i]
      && data.value[i].metadata == WithDocType(c.metadatas[i], docType)
  {
    var out: seq<Upsert<E>> := [];
    var i := 0;
    while i < |embeddings|
      invariant 0 <= i <= |embeddings| && i <= |c.metadatas|
      invariant |out| == i && forall j :: 0 <= j < i ==> out[j] == RecordAt(c, j, embeddings[j], docType)
    {
      if i >= |c.metadatas| {
        return None;
      }
      var metadata := WithDocType(c.metadatas[i], docType);
      out := out + [Upsert(c.ids[i], c.texts[i], embeddings[i], metadata)];
      i := i + 1;
    }
    assert out == seq(|embeddings|, j requires 0 <= j < |embeddings| => RecordAt(c, j, embeddings[j], docType));
    return Some(out);
  }

  // ---------------------------------------------------------------------
  // One file
  // ---------------------------------------------------------------------

  /**
   * The batch loop for the batches seen so far. A batch whose embedding or
   * upsert fails, or that has more vectors than rows, is skipped; a row
   * without `id` or `text` stops the run.
   */
  function MigrateBatches<E>(batches: seq<seq<Row>>, docType: string,
                             embed: seq<string> -> Option<seq<E>>, store: seq<Upsert<E>> -> bool): FileResult<E>
  {
    if |batches| == 0 then Migrated([], false)
    else
      var prior := MigrateBatches(batches[..|batches| - 1], docType, embed, store);
      BatchStep(prior, batches[|batches| - 1], docType, embed, store)
  }

  /** One turn of the batch loop. */
  function BatchStep<E>(prior: FileResult<E>, batch: seq<Row>, docType: string,
                        embed: seq<string> -> Option<seq<E>>, store: seq<Upsert<E>> -> bool): FileResult<E>
  {
    if !prior.Migrated? || prior.stopped then prior
    else
      match ColumnsOf(batch)
      case None => Migrated(prior.upserted, true)
      case Some(c) =>
        match embed(c.texts)
        case None => prior
        case Some(es) =>
          match BatchRecords(c, es, docType)
          case None => prior
          case Some(data) => if store(data) then Migrated(prior.upserted + data, false) else prior
  }

  /** What loading a file does with its rows. */
  function MigrateRows<E>(rows: seq<Row>, docType: string,
                          embed: seq<string> -> Option<seq<E>>, store: seq<Upsert<E>> -> bool): FileResult<E>
  {
    if !SchemaOk(rows) then SchemaRejected else MigrateBatches(ChunkList(rows, BatchSize), docType, embed, store)
  }

  /**
   * The body of the per-file loop: the schema check, then every batch in
   * order; `inserted` is the number of records upserted.
   */
  method MigrateFile<E>(rows: seq<Row>, docType: string,
                        embed: seq<string> -> Option<seq<E>>, store: seq<Upsert<E>> -> bool)
    returns (r: FileResult<E>, inserted: nat)
    ensures r == MigrateRows(rows, docType, embed, store)
    ensures r.Migrated? ==> inserted == |r.upserted|
  {
    if |rows| > 0 && !HasKeys(rows[0]) {
      return SchemaRejected, 0;
    }
    var batches := ChunkList(rows, BatchSize);
    var upserted: seq<Upsert<E>> := [];
    inserted := 0;
    var i := 0;
    while i < |batches|
      invariant 0 <= i <= |batches|
      invariant MigrateBatches(batches[..i], docType, embed, store) == Migrated(upserted, false)
      invariant inserted == |upserted|
    {
      assert batches[..i + 1][..i] == batches[..i];
      var c := ColumnsOf(batches[i]);
      if c.None? {
        assert forall j :: i < j <= |batches| ==> MigrateBatches(batches[..j], docType, embed, store) == Migrated(upserted, true) by {
          StoppedStays(batches, i, docType, embed, store);
        }
        assert batches[..|batches|] == batches;
        return Migrated(upserted, true), inserted;
      }
      var es := embed(c.value.texts);
      if es.Some? {
        var data := PrepareBatch(c.value, es.value, docType);
        if data.Some? && store(data.value) {
          upserted := upserted + data.value;
          inserted := inserted + |data.value|;
        }
      }
      i := i + 1;
    }
    assert batches[..i] == batches;
    r := Migrated(upserted, false);
  }

  /** Once a row without keys has stopped the run, the later batches change nothing. */
  lemma {:induction false} StoppedStays<E>(batches: seq<seq<Row>>, i: nat, docType: string,
                                           embed: seq<string> -> Option<seq<E>>, store: seq<Upsert<E>> -> bool)
    requires i < |batches| && ColumnsOf(batches[i]).None?
    requires MigrateBatches(batches[..i], docType, embed, store).Migrated?
    requires !MigrateBatches(batches[..i], docType, embed, store).stopped
    ensures forall j :: i < j <= |batches| ==>
      MigrateBatches(batches[..j], docType, embed, store)
        == Migrated(MigrateBatches(batches[..i], docType, embed, store).upserted, true)
  {
    var up := MigrateBatches(batches[..i], docType, embed, store).upserted;
    var j := i + 1;
    assert batches[..j][..j - 1] == batches[..i];
    while j < |batches|
      invariant i < j <= |batches|
      invariant forall k :: i < k <= j ==> MigrateBatches(batches[..k], docType, embed, store) == Migrated(up, true)
    {
      assert batches[..j + 1][..j] == batches[..j];
      j := j + 1;
    }
  }

  // ---------------------------------------------------------------------
  // Properties of a file
  // ---------------------------------------------------------------------

  /**
   * The records upserted are never more than the rows read (the count the
   * migration reports as `inserted/len(rows)`), and each names its document type.
   */
  lemma {:induction false} MigrateBatchesBound<E>(batches: seq<seq<Row>>, docType: string,
                                                  embed: seq<string> -> Option<seq<E>>, store: seq<Upsert<E>> -> bool)
    ensures MigrateBatches(batches, docType, embed, store).Migrated?
    ensures |MigrateBatches(batches, docType, embed, store).upserted| <= |Concat(batches)|
    ensures forall k :: 0 <= k < |MigrateBatches(batches, docType, embed, store).upserted| ==>
      "doc_type" in MigrateBatches(batches, docType, embed, store).upserted[k].metadata
  {
    if |batches| > 0 {
      var front, last := batches[..|batches| - 1], batches[|batches| - 1];
      MigrateBatchesBound(front, docType, embed, store);
      assert batches == front + [last];
      ConcatSnoc(front, last);
      var prior := MigrateBatches(front, docType, embed, store);
      if !prior.stopped && ColumnsOf(last).Some? {
        var c := ColumnsOf(last).value;
        if embed(c.texts).Some? && BatchRecords(c, embed(c.texts).value, docType).Some? {
          var data := BatchRecords(c, embed(c.texts).value, docType).value;
          assert |data| <= |last|;
          assert forall k :: 0 <= k < |data| ==> "doc_type" in data[k].metadata;
        }
      }
    }
  }

  /** Loading a file upserts at most as many records as it has rows, each with a `doc_type`. */
  lemma MigratedAtMostRows<E>(rows: seq<Row>, docType: string,
                              embed: seq<string> -> Option<seq<E>>, store: seq<Upsert<E>> -> bool)
    requires MigrateRows(rows, docType, embed, store).Migrated?
    ensures |MigrateRows(rows, docType, embed, store).upserted| <= |rows|
    ensures forall k :: 0 <= k < |MigrateRows(rows, docType, embed, store).upserted| ==>
      "doc_type" in MigrateRows(rows, docType, embed, store).upserted[k].metadata
  {
    MigrateBatchesBound(ChunkList(rows, BatchSize), docType, embed, store);
    ChunkListConcat(rows, BatchSize);
  }

  /** A file whose first row lacks `id` or `text` is skipped whole: nothing is upserted. */
  lemma BadFirstRowSkipsFile<E>(first: Row, rest: seq<Row>, docType: string,
                                embed: seq<string> -> Option<seq<E>>, store: seq<Upsert<E>> -> bool)
    requires !HasKeys(first)
    ensures MigrateRows([first] + rest, docType, embed, store) == SchemaRejected
  {
  }

  /** The records carry the ids and texts of the rows, index for index. */
  predicate UpsertsRows<E>(up: seq<Upsert<E>>, rows: seq<Row>) {
    |up| == |rows| && forall k :: 0 <= k < |rows| ==> up[k].id == IdOf(rows[k]) && up[k].text == TextOf(rows[k])
  }

  lemma UpsertsRowsAppend<E>(p: seq<Upsert<E>>, a: seq<Row>, q: seq<Upsert<E>>, b: seq<Row>)
    requires UpsertsRows(p, a) && UpsertsRows(q, b)
    ensures UpsertsRows(p + q, a + b)
  {
    assert forall k :: |a| <= k < |a| + |b| ==> (p + q)[k] == q[k - |a|] && (a + b)[k] == b[k - |a|];
  }

  /** With nothing failing, a batch of rows with keys upserts one record per row, each with that row's id and text. */
  lemma BatchAllUpserted<E>(prior: FileResult<E>, batch: seq<Row>, docType: string,
                            embed: seq<string> -> Option<seq<E>>, store: seq<Upsert<E>> -> bool)
    requires prior.Migrated? && !prior.stopped
    requires (forall ts :: embed(ts).Some? && |embed(ts).value| == |ts|) && (forall d :: store(d))
    requires forall k :: 0 <= k < |batch| ==> HasKeys(batch[k])
    ensures var r := BatchStep(prior, batch, docType, embed, store);
      && r.Migrated? && !r.stopped && |prior.upserted| <= |r.upserted|
      && r.upserted == prior.upserted + r.upserted[|prior.upserted|..]
      && UpsertsRows(r.upserted[|prior.upserted|..], batch)
  {
    var c := ColumnsOf(batch).value;
    var es := embed(c.texts).value;
    var data := BatchRecords(c, es, docType).value;
    assert BatchStep(prior, batch, docType, embed, store) == Migrated(prior.upserted + data, false);
    assert (prior.upserted + data)[|prior.upserted|..] == data;
    assert forall k :: 0 <= k < |batch| ==> data[k] == RecordAt(c, k, es[k], docType);
  }

  /**
   * When every call succeeds and the service returns one vector per text,
   * every row is upserted, in order, with its own id and text.
   */
  lemma {:induction false} AllRowsWhenAllSucceed<E>(batches: seq<seq<Row>>, docType: string,
                                                    embed: seq<string> -> Option<seq<E>>, store: seq<Upsert<E>> -> bool)
    requires forall k :: 0 <= k < |Concat(batches)| ==> HasKeys(Concat(batches)[k])
    requires (forall ts :: embed(ts).Some? && |embed(ts).value| == |ts|) && (forall d :: store(d))
    ensures MigrateBatches(batches, docType, embed, store).Migrated?
    ensures !MigrateBatches(batches, docType, embed, store).stopped
    ensures UpsertsRows(MigrateBatches(batches, docType, embed, store).upserted, Concat(batches))
  {
    if |batches| > 0 {
      var front, last := batches[..|batches| - 1], batches[|batches| - 1];
      assert batches == front + [last];
      ConcatSnoc(front, last);
      var all := Concat(batches);
      var before := Concat(front);
      assert forall k :: 0 <= k < |before| ==> before[k] == all[k];
      assert forall k :: 0 <= k < |last| ==> last[k] == all[|before| + k];
      AllRowsWhenAllSucceed(front, docType, embed, store);
      var prior := MigrateBatches(front, docType, embed, store);
      BatchAllUpserted(prior, last, docType, embed, store);
      var up := MigrateBatches(batches, docType, embed, store).upserted;
      UpsertsRowsAppend(prior.upserted, before, up[|prior.upserted|..], last);
    }
  }
}
