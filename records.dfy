/**
 * The JSONL records the three splitters write: an id of the form
 * `kind:name:index`, the chunk text and a flat metadata object. Also
 * `os.path.splitext(name)[0]`, which gives the name part of law and mistake
 * ids.
 */
module Records {
  import opened Text

  /** A metadata value: the splitters write only strings and integers. */
  datatype Value = Str(s: string) | Num(n: int)

  /** One line of a prepared JSONL file. */
  datatype Record = Record(id: string, text: string, metadata: map<string, Value>)

  /** `f"{kind}:{name}:{index}"` */
  function RecordId(kind: string, name: string, index: nat): string {
    kind + ":" + name + ":" + NatToString(index)
  }

  lemma NoColonInDigits(n: nat)
    ensures ':' !in NatToString(n)
  {
    var d := NatToString(n);
    assert forall i :: 0 <= i < |d| ==> d[i] != ':';
  }

  /** The kind of an id: what comes before its first colon. */
  function KindOf(id: string): string {
    var c := FirstIndexOf(id, ':');
    if c < 0 then id else id[..c]
  }

  /** The name of an id: what lies between its first and its last colon. */
  function NameOf(id: string): string {
    var c, d := FirstIndexOf(id, ':'), LastIndexOf(id, ':');
    if 0 <= c < d then id[c + 1..d] else ""
  }

  /** The index part of an id: what comes after its last colon. */
  function IndexPartOf(id: string): string {
    id[LastIndexOf(id, ':') + 1..]
  }

  /**
   * Reading an id back: the kind, the name and the decimal index come out as
   * they went in, whatever characters the name holds.
   */
  lemma RecordIdParts(kind: string, name: string, index: nat)
    requires ':' !in kind
    ensures var id := RecordId(kind, name, index);
      KindOf(id) == kind && NameOf(id) == name && IndexPartOf(id) == NatToString(index)
  {
    NoColonInDigits(index);
    ColonFields(kind, name, NatToString(index));
  }

  /** The three fields of `a:b:d` read back when neither `a` nor `d` holds a colon. */
  lemma ColonFields(a: string, b: string, d: string)
    requires ':' !in a && ':' !in d
    ensures KindOf(a + ":" + b + ":" + d) == a
    ensures NameOf(a + ":" + b + ":" + d) == b
    ensures IndexPartOf(a + ":" + b + ":" + d) == d
  {
    var u := a + ":" + b + ":" + d;
    assert u == a + [':'] + (b + ":" + d);
    FirstOfThree(a, ':', b + ":" + d);
    assert u == (a + ":" + b) + [':'] + d;
    LastOfThree(a + ":" + b, ':', d);
    SliceOfThree(a, b + ":" + d);
    SliceOfThree(a + ":" + b, d);
    SliceOfThree(a, b);
  }

  /** The pieces around the colon of `s:t`. */
  lemma SliceOfThree(s: string, t: string)
    ensures (s + ":" + t)[..|s|] == s && (s + ":" + t)[|s| + 1..] == t
  {
  }

  /** The first `c` of `s + [c] + t` is the one after `s` when `s` holds none. */
  lemma FirstOfThree(s: string, c: char, t: string)
    requires c !in s
    ensures FirstIndexOf(s + [c] + t, c) == |s|
  {
    var u := s + [c] + t;
    assert u[|s|] == c;
    assert forall k :: 0 <= k < |s| ==> u[k] == s[k];
  }

  /** The last `c` of `s + [c] + t` is the one before `t` when `t` holds none. */
  lemma {:induction false} LastOfThree(s: string, c: char, t: string)
    requires c !in t
    ensures LastIndexOf(s + [c] + t, c) == |s|
    decreases |t|
  {
    var u := s + [c] + t;
    if |t| > 0 {
      var t' := t[..|t| - 1];
      assert u[|u| - 1] == t[|t| - 1] != c;
      assert u[..|u| - 1] == s + [c] + t';
      LastOfThree(s, c, t');
    }
  }

  /** Record ids of one kind never collide. */
  lemma RecordIdInjective(kind: string, a: string, i: nat, b: string, j: nat)
    requires ':' !in kind
    requires RecordId(kind, a, i) == RecordId(kind, b, j)
    ensures a == b && i == j
  {
    RecordIdParts(kind, a, i);
    RecordIdParts(kind, b, j);
    NatToStringInjective(i, j);
  }

  /** Ids of one kind with different indexes differ, whatever their names. */
  lemma RecordIdsDiffer(kind: string, a: string, i: nat, b: string, j: nat)
    requires ':' !in kind && i != j
    ensures RecordId(kind, a, i) != RecordId(kind, b, j)
  {
    if RecordId(kind, a, i) == RecordId(kind, b, j) {
      RecordIdInjective(kind, a, i, b, j);
    }
  }

  /** Ids of different kinds never collide. */
  lemma KindsNeverCollide(k1: string, a: string, i: nat, k2: string, b: string, j: nat)
    requires ':' !in k1 && ':' !in k2 && k1 != k2
    ensures RecordId(k1, a, i) != RecordId(k2, b, j)
  {
    RecordIdParts(k1, a, i);
    RecordIdParts(k2, b, j);
  }

  /**
   * The record of the `index`-th chunk of a file, as the law and mistake
   * splitters write it: id `kind:name:index`, and the file's fixed metadata
   * with `chunk_index` set to `index`.
   */
  function ChunkRecord(kind: string, name: string, fixed: map<string, Value>, text: string, index: nat): Record {
    Record(RecordId(kind, name, index), text, fixed["chunk_index" := Num(index)])
  }

  /**
   * `enumerate(chunks, start=1)`: the chunks become records numbered 1, 2, ...
   * in order, and no two records share an id.
   */
  method NumberChunks(kind: string, name: string, fixed: map<string, Value>, chunks: seq<string>)
    returns (records: seq<Record>)
    requires ':' !in kind
    ensures |records| == |chunks|
    ensures forall j :: 0 <= j < |chunks| ==> records[j] == ChunkRecord(kind, name, fixed, chunks[j], j + 1)
    ensures forall a, b :: 0 <= a < b < |records| ==> records[a].id != records[b].id
  {
    records := [];
    var i := 0;
    while i < |chunks|
      invariant 0 <= i <= |chunks| && |records| == i
      invariant forall j :: 0 <= j < i ==> records[j] == ChunkRecord(kind, name, fixed, chunks[j], j + 1)
    {
      records := records + [ChunkRecord(kind, name, fixed, chunks[i], i + 1)];
      i := i + 1;
    }
    forall a, b | 0 <= a < b < |records|
      ensures records[a].id != records[b].id
    {
      ChunkIdsDiffer(kind, name, fixed, chunks[a], a + 1, chunks[b], b + 1);
    }
  }

  /** Chunk records of one file with different numbers have different ids. */
  lemma ChunkIdsDiffer(kind: string, name: string, fixed: map<string, Value>, t1: string, i: nat, t2: string, j: nat)
    requires ':' !in kind && i != j
    ensures ChunkRecord(kind, name, fixed, t1, i).id != ChunkRecord(kind, name, fixed, t2, j).id
  {
    RecordIdsDiffer(kind, name, i, name, j);
  }

  /** The first position of `c` in `s`, or -1. */
  function FirstIndexOf(s: string, c: char): (r: int)
    ensures -1 <= r < |s|
    ensures r >= 0 ==> s[r] == c
    ensures forall k :: 0 <= k < |s| && (r < 0 || k < r) ==> s[k] != c
  {
    if |s| == 0 then -1
    else if s[0] == c then 0
    else var r := FirstIndexOf(s[1..], c); if r < 0 then -1 else r + 1
  }

  /** The last position of `c` in `s`, or -1. */
  function LastIndexOf(s: string, c: char): (r: int)
    ensures -1 <= r < |s|
    ensures r >= 0 ==> s[r] == c
    ensures forall k :: r < k < |s| ==> s[k] != c
  {
    if |s| == 0 then -1
    else if s[|s| - 1] == c then |s| - 1
    else LastIndexOf(s[..|s| - 1], c)
  }

  /**
   * `os.path.splitext(path)[0]`: the path without its extension. The extension
   * starts at the last dot of the last path component, provided something
   * other than a dot comes before it in that component.
   */
  function Stem(path: string): string {
    var sep := LastIndexOf(path, '/');
    var dot := LastIndexOf(path, '.');
    if dot > sep && exists k | sep < k < dot :: path[k] != '.' then path[..dot] else path
  }

  /** A file name `name.ext` loses exactly its extension. */
  lemma StemDropsExtension(name: string, ext: string)
    requires '/' !in name + ext && '.' !in ext
    requires exists k | 0 <= k < |name| :: name[k] != '.'
    ensures Stem(name + "." + ext) == name
  {
    var path := name + "." + ext;
    assert path[|name|] == '.';
    assert forall k :: |name| < k < |path| ==> path[k] == ext[k - |name| - 1];
    assert LastIndexOf(path, '.') == |name|;
    assert forall k :: 0 <= k < |path| ==> path[k] != '/' by {
      assert forall k :: 0 <= k < |name| ==> path[k] == (name + ext)[k];
      assert forall k :: |name| < k < |path| ==> path[k] == (name + ext)[k - 1];
    }
    assert LastIndexOf(path, '/') == -1;
    var dot := |name|;
    var k :| 0 <= k < |name| && name[k] != '.';
    assert path[k] == name[k];
    assert path[..dot] == name;
  }

  /** A name without a dot has no extension to drop. */
  lemma StemWithoutExtension(name: string)
    requires '.' !in name
    ensures Stem(name) == name
  {
    assert forall k :: 0 <= k < |name| ==> name[k] != '.';
    assert LastIndexOf(name, '.') == -1;
  }
}
