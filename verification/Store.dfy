/** store/store.go and store/sqlite.go: the tables, the transactions that change them row by row,
    and what every sequence of transactions keeps. */
module Store {
  import opened Seqs
  import opened Wrappers

  // ---------- Hashes ----------

  /** A SHA-256 digest, identified with what was hashed; Unset is the empty string of a missing
      hash. */
  datatype Hash = Unset | Sha(of: string)

  const NUL: char := '\U{0000}'

  function ContentHash(content: string): Hash { Sha(content) }

  function RecordID(filePath: string, content: string): Hash { Sha(filePath + [NUL] + content) }

  /** The separator makes ids determine both path and content, since no path holds a NUL. */
  lemma {:induction false} RecordIDInjective(p: string, c: string, q: string, d: string)
    requires NUL !in p && NUL !in q
    requires RecordID(p, c) == RecordID(q, d)
    ensures p == q && c == d
  {
    var u, v := p + [NUL] + c, q + [NUL] + d;
    assert u[|p|] == NUL && v[|q|] == NUL;
    assert forall i | 0 <= i < |q| :: v[i] == q[i];
    assert forall i | 0 <= i < |p| :: u[i] == p[i];
    assert u[..|p|] == p && v[..|q|] == q;
    assert u[|p| + 1..] == c && v[|q| + 1..] == d;
  }

  // ---------- Records and tables ----------

  type Vector = seq<real>

  datatype Record = Record(id: Hash, filePath: string, language: string, content: string, contentHash: Hash,
                           nodeKind: string, name: string, parent: string, startLine: int, endLine: int,
                           embedding: Vector)
  datatype Edge = Edge(srcID: Hash, filePath: string, srcName: string, kind: string, dstName: string,
                       dstQualifier: string, line: int)
  datatype Import = Import(filePath: string, mod: string, alias: string, line: int)
  datatype FileRecords = FileRecords(filePath: string, records: seq<Record>, fileHash: Hash, mtime: int,
                                     size: int, edges: seq<Edge>, imports: seq<Import>)

  datatype Chunk = Chunk(filePath: string, language: string, content: string, contentHash: Hash,
                         nodeKind: string, name: string, parent: string, startLine: int, endLine: int)
  datatype VecRow = VecRow(language: string, embedding: Vector)
  datatype FtsRow = FtsRow(id: Hash, content: string, name: string, parent: string)
  datatype FileRow = FileRow(hash: Hash, mtime: int, size: int)

  /** chunks, vec_chunks and files have primary keys; chunks_fts, edges and file_imports do not. */
  datatype Tables = Tables(chunks: map<Hash, Chunk>, vec: map<Hash, VecRow>, fts: seq<FtsRow>,
                           files: map<string, FileRow>, edges: seq<Edge>, imports: seq<Import>)

  const EMPTY: Tables := Tables(map[], map[], [], map[], [], [])

  type Tokenizer = string -> string

  function ChunkOf(r: Record): Chunk {
    Chunk(r.filePath, r.language, r.content, r.contentHash, r.nodeKind, r.name, r.parent, r.startLine, r.endLine)
  }

  function FtsFor(tok: Tokenizer, id: Hash, c: Chunk): FtsRow {
    FtsRow(id, tok(c.content), tok(c.name), tok(c.parent))
  }

  // ---------- Statements ----------

  function FtsOf(fts: seq<FtsRow>, id: Hash): seq<FtsRow> {
    Filter((r: FtsRow) => r.id == id, fts)
  }

  function FtsWithout(fts: seq<FtsRow>, ids: set<Hash>): seq<FtsRow> {
    Filter((r: FtsRow) => r.id !in ids, fts)
  }

  function EdgesOf(edges: seq<Edge>, p: string): seq<Edge> {
    Filter((e: Edge) => e.filePath == p, edges)
  }

  function EdgesNotOf(edges: seq<Edge>, p: string): seq<Edge> {
    Filter((e: Edge) => e.filePath != p, edges)
  }

  function ImportsOf(imports: seq<Import>, p: string): seq<Import> {
    Filter((i: Import) => i.filePath == p, imports)
  }

  function ImportsNotOf(imports: seq<Import>, p: string): seq<Import> {
    Filter((i: Import) => i.filePath != p, imports)
  }

  function IdSet(ids: seq<Hash>): set<Hash> {
    set id | id in ids
  }

  /** The ids of a file's chunks. */
  function IdsOf(t: Tables, p: string): set<Hash> {
    set id | id in t.chunks && t.chunks[id].filePath == p
  }

  // ---------- What the transactions compute ----------

  function Put(tok: Tokenizer, t: Tables, r: Record): Tables {
    t.(chunks := t.chunks[r.id := ChunkOf(r)],
       vec := t.vec[r.id := VecRow(r.language, r.embedding)],
       fts := FtsWithout(t.fts, {r.id}) + [FtsFor(tok, r.id, ChunkOf(r))])
  }

  function PutAll(tok: Tokenizer, t: Tables, rs: seq<Record>): Tables {
    if rs == [] then t else Put(tok, PutAll(tok, t, rs[..|rs| - 1]), rs[|rs| - 1])
  }

  function DropIds(t: Tables, ids: set<Hash>): Tables {
    t.(chunks := t.chunks - ids, vec := t.vec - ids, fts := FtsWithout(t.fts, ids))
  }

  /** A file's chunks with their derived rows, its edges and its imports removed. */
  function DropRows(t: Tables, p: string): Tables {
    DropIds(t, IdsOf(t, p)).(edges := EdgesNotOf(t.edges, p), imports := ImportsNotOf(t.imports, p))
  }

  function DropFile(t: Tables, p: string): Tables {
    DropRows(t, p).(files := t.files - {p})
  }

  function Stamped(e: FileRecords): (seq<Edge>, seq<Import>) {
    (seq(|e.edges|, i requires 0 <= i < |e.edges| => e.edges[i].(filePath := e.filePath)),
     seq(|e.imports|, i requires 0 <= i < |e.imports| => e.imports[i].(filePath := e.filePath)))
  }

  function Replace(tok: Tokenizer, t: Tables, e: FileRecords): Tables {
    var u := PutAll(tok, DropRows(t, e.filePath), e.records);
    u.(edges := u.edges + Stamped(e).0, imports := u.imports + Stamped(e).1,
       files := u.files[e.filePath := FileRow(e.fileHash, e.mtime, e.size)])
  }

  function ReplaceAll(tok: Tokenizer, t: Tables, es: seq<FileRecords>): Tables {
    if es == [] then t else Replace(tok, ReplaceAll(tok, t, es[..|es| - 1]), es[|es| - 1])
  }

  // ---------- Rows ----------

  /** Everything stored under one id. */
  datatype Row = Row(chunk: Option<Chunk>, vec: Option<VecRow>, fts: seq<FtsRow>)

  const NOROW: Row := Row(None, None, [])

  function RowAt(t: Tables, id: Hash): Row {
    Row(if id in t.chunks then Some(t.chunks[id]) else None,
        if id in t.vec then Some(t.vec[id]) else None,
        FtsOf(t.fts, id))
  }

  function RowOf(tok: Tokenizer, r: Record): Row {
    Row(Some(ChunkOf(r)), Some(VecRow(r.language, r.embedding)), [FtsFor(tok, r.id, ChunkOf(r))])
  }

  lemma {:induction false} FtsOfWithout(fts: seq<FtsRow>, ids: set<Hash>, id: Hash)
    ensures FtsOf(FtsWithout(fts, ids), id) == if id in ids then [] else FtsOf(fts, id)
  {
    if id in ids {
      FilterTwice((r: FtsRow) => r.id == id, (r: FtsRow) => r.id !in ids, (r: FtsRow) => false, fts);
      FilterNone((r: FtsRow) => false, fts);
    } else {
      FilterTwice((r: FtsRow) => r.id == id, (r: FtsRow) => r.id !in ids, (r: FtsRow) => r.id == id, fts);
    }
  }

  lemma {:induction false} FtsWithoutTwice(fts: seq<FtsRow>, a: set<Hash>, b: set<Hash>)
    ensures FtsWithout(FtsWithout(fts, a), b) == FtsWithout(fts, a + b)
  {
    FilterTwice((r: FtsRow) => r.id !in b, (r: FtsRow) => r.id !in a, (r: FtsRow) => r.id !in a + b, fts);
  }

  lemma {:induction false} FtsOfAppend(xs: seq<FtsRow>, ys: seq<FtsRow>, id: Hash)
    ensures FtsOf(xs + ys, id) == FtsOf(xs, id) + FtsOf(ys, id)
  {
    FilterAppend((r: FtsRow) => r.id == id, xs, ys);
  }

  lemma {:induction false} RowAtPut(tok: Tokenizer, t: Tables, r: Record, id: Hash)
    ensures RowAt(Put(tok, t, r), id) == if id == r.id then RowOf(tok, r) else RowAt(t, id)
  {
    var row := FtsFor(tok, r.id, ChunkOf(r));
    FtsOfAppend(FtsWithout(t.fts, {r.id}), [row], id);
    FtsOfWithout(t.fts, {r.id}, id);
    assert |[row][1..]| == 0 && FtsOf([row][1..], id) == [];
    assert FtsOf([row], id) == if id == r.id then [row] else [];
  }

  lemma {:induction false} RowAtDrop(t: Tables, ids: set<Hash>, id: Hash)
    ensures RowAt(DropIds(t, ids), id) == if id in ids then NOROW else RowAt(t, id)
  {
    FtsOfWithout(t.fts, ids, id);
  }

  /** The last of rs with the given id, or -1: later records win. */
  function LastWith(rs: seq<Record>, id: Hash): (i: int)
    ensures -1 <= i < |rs|
    ensures i >= 0 ==> rs[i].id == id
    ensures forall j | i < j < |rs| :: rs[j].id != id
  {
    if rs == [] then -1
    else if rs[|rs| - 1].id == id then |rs| - 1
    else LastWith(rs[..|rs| - 1], id)
  }

  lemma {:induction false} RowAtPutAll(tok: Tokenizer, t: Tables, rs: seq<Record>, id: Hash)
    ensures RowAt(PutAll(tok, t, rs), id) ==
            if LastWith(rs, id) >= 0 then RowOf(tok, rs[LastWith(rs, id)]) else RowAt(t, id)
    ensures PutAll(tok, t, rs).files == t.files && PutAll(tok, t, rs).edges == t.edges
            && PutAll(tok, t, rs).imports == t.imports
  {
    if rs != [] {
      RowAtPutAll(tok, t, rs[..|rs| - 1], id);
      RowAtPut(tok, PutAll(tok, t, rs[..|rs| - 1]), rs[|rs| - 1], id);
    }
  }

  // ---------- Consistency ----------

  /** One derived row each in vec and fts for a chunk, and none without one. */
  predicate RowOk(tok: Tokenizer, id: Hash, row: Row) {
    match row.chunk
    case None => row == NOROW
    case Some(c) =>
      row.vec.Some? && row.vec.value.language == c.language && row.fts == [FtsFor(tok, id, c)]
  }

  /** chunks, vec and fts hold the same ids, with exactly one derived row each. */
  ghost predicate Consistent(tok: Tokenizer, t: Tables) {
    forall id :: RowOk(tok, id, RowAt(t, id))
  }

  lemma {:induction false} ConsistentMeans(tok: Tokenizer, t: Tables)
    requires Consistent(tok, t)
    ensures t.chunks.Keys == t.vec.Keys
    ensures forall i | 0 <= i < |t.fts| :: t.fts[i].id in t.chunks
    ensures forall i, j | 0 <= i < j < |t.fts| :: t.fts[i].id != t.fts[j].id
  {
    forall id ensures id in t.chunks <==> id in t.vec { assert RowOk(tok, id, RowAt(t, id)); }
    forall i | 0 <= i < |t.fts| ensures t.fts[i].id in t.chunks {
      var id := t.fts[i].id;
      FilterMember((r: FtsRow) => r.id == id, t.fts, t.fts[i]);
      assert RowOk(tok, id, RowAt(t, id));
    }
    forall i, j | 0 <= i < j < |t.fts| ensures t.fts[i].id != t.fts[j].id {
      var id := t.fts[i].id;
      assert |FtsOf(t.fts, id)| <= 1 by { assert RowOk(tok, id, RowAt(t, id)); }
      if t.fts[j].id == id { TwoRows(t.fts, id, i, j); }
    }
  }

  lemma {:induction false} TwoRows(fts: seq<FtsRow>, id: Hash, i: nat, j: nat)
    requires i < j < |fts| && fts[i].id == id == fts[j].id
    ensures |FtsOf(fts, id)| >= 2
  {
    if i == 0 {
      FilterMember((r: FtsRow) => r.id == id, fts[1..], fts[j]);
    } else {
      TwoRows(fts[1..], id, i - 1, j - 1);
    }
  }

  lemma {:induction false} ConsistentPutAll(tok: Tokenizer, t: Tables, rs: seq<Record>)
    requires Consistent(tok, t)
    ensures Consistent(tok, PutAll(tok, t, rs))
  {
    forall id ensures RowOk(tok, id, RowAt(PutAll(tok, t, rs), id)) {
      RowAtPutAll(tok, t, rs, id);
      assert RowOk(tok, id, RowAt(t, id));
    }
  }

  lemma {:induction false} ConsistentDrop(tok: Tokenizer, t: Tables, ids: set<Hash>)
    requires Consistent(tok, t)
    ensures Consistent(tok, DropIds(t, ids))
  {
    forall id ensures RowOk(tok, id, RowAt(DropIds(t, ids), id)) {
      RowAtDrop(t, ids, id);
      assert RowOk(tok, id, RowAt(t, id));
    }
  }

  lemma {:induction false} ConsistentReplace(tok: Tokenizer, t: Tables, e: FileRecords)
    requires Consistent(tok, t)
    ensures Consistent(tok, Replace(tok, t, e))
    ensures Consistent(tok, DropFile(t, e.filePath))
  {
    var p := e.filePath;
    var d, f := DropIds(t, IdsOf(t, p)), DropFile(t, p);
    ConsistentDrop(tok, t, IdsOf(t, p));
    forall id ensures RowAt(DropRows(t, p), id) == RowAt(d, id) == RowAt(f, id) {}
    assert Consistent(tok, f) && Consistent(tok, DropRows(t, p)) by {
      forall id ensures RowOk(tok, id, RowAt(f, id)) { assert RowOk(tok, id, RowAt(d, id)); }
      forall id ensures RowOk(tok, id, RowAt(DropRows(t, p), id)) { assert RowOk(tok, id, RowAt(d, id)); }
    }
    var u := PutAll(tok, DropRows(t, p), e.records);
    ConsistentPutAll(tok, DropRows(t, p), e.records);
    forall id ensures RowOk(tok, id, RowAt(Replace(tok, t, e), id)) {
      assert RowOk(tok, id, RowAt(u, id));
      assert RowAt(Replace(tok, t, e), id) == RowAt(u, id);
    }
  }

  lemma {:induction false} ConsistentReplaceAll(tok: Tokenizer, t: Tables, es: seq<FileRecords>)
    requires Consistent(tok, t)
    ensures Consistent(tok, ReplaceAll(tok, t, es))
  {
    if es != [] {
      ConsistentReplaceAll(tok, t, es[..|es| - 1]);
      ConsistentReplace(tok, ReplaceAll(tok, t, es[..|es| - 1]), es[|es| - 1]);
    }
  }

  lemma {:induction false} DropNothing(t: Tables, ids: seq<Hash>)
    ensures IdSet(ids[..0]) == {}
    ensures DropIds(t, {}) == t && t.vec - {} == t.vec && FtsWithout(t.fts, {}) == t.fts
  {
    var none := IdSet(ids[..0]);
    assert none == {};
    FilterAll((r: FtsRow) => r.id !in none, t.fts);
    assert t.chunks - none == t.chunks && t.vec - none == t.vec;
  }

  // ---------- Transactions ----------

  /** The execution of statements: any of them may fail, for whatever reason outside the model. */
  class Session {
    var executed: nat
    const fails: nat -> bool

    constructor (fails: nat -> bool)
      ensures this.fails == fails && executed == 0
    {
      this.fails, executed := fails, 0;
    }

    ghost predicate Faultless()
    {
      forall n :: !fails(n)
    }

    method Exec() returns (ok: bool)
      modifies this
      ensures Faultless() ==> ok
    {
      ok := !fails(executed);
      executed := executed + 1;
    }
  }

  predicate Fits(dim: nat, rs: seq<Record>) {
    forall i | 0 <= i < |rs| :: |rs[i].embedding| == dim
  }

  /** Every stored vector has the store's dimension. */
  predicate Dims(dim: nat, t: Tables) {
    forall id | id in t.vec :: |t.vec[id].embedding| == dim
  }

  lemma {:induction false} DimsPutAll(tok: Tokenizer, dim: nat, t: Tables, rs: seq<Record>)
    requires Dims(dim, t) && Fits(dim, rs)
    ensures Dims(dim, PutAll(tok, t, rs))
  {
    if rs != [] { DimsPutAll(tok, dim, t, rs[..|rs| - 1]); }
  }

  lemma {:induction false} DimsReplaceAll(tok: Tokenizer, dim: nat, t: Tables, es: seq<FileRecords>)
    requires Dims(dim, t) && forall i | 0 <= i < |es| :: Fits(dim, es[i].records)
    ensures Dims(dim, ReplaceAll(tok, t, es))
  {
    if es != [] {
      var n := |es| - 1;
      DimsReplaceAll(tok, dim, t, es[..n]);
      DimsPutAll(tok, dim, DropRows(ReplaceAll(tok, t, es[..n]), es[n].filePath), es[n].records);
    }
  }

  predicate Supplies(t: Tables, id: Hash, h: Hash, v: Vector)
    requires id in t.chunks
  {
    t.chunks[id].contentHash == h && id in t.vec && t.vec[id].embedding == v
  }

  ghost predicate Cached(t: Tables, hashes: seq<Hash>, result: map<Hash, Vector>) {
    && (forall h :: h in result <==> h in hashes && exists id :: id in t.chunks && t.chunks[id].contentHash == h)
    && (forall h | h in result :: exists id :: id in t.chunks && Supplies(t, id, h, result[h]))
  }

  /** It is the embedding of a chunk of that hash, and no chunk of that hash has a lesser id. */
  ghost predicate FromLeast(order: Hash -> nat, t: Tables, h: Hash, v: Vector) {
    exists id :: id in t.chunks && Supplies(t, id, h, v)
                 && forall other | other in t.chunks && t.chunks[other].contentHash == h :: order(id) <= order(other)
  }

  /** The chunks of one content hash. */
  function WithHash(t: Tables, h: Hash): set<Hash> {
    set id | id in t.chunks && t.chunks[id].contentHash == h
  }

  class SqliteStore {
    var db: Tables          // the committed state
    const dim: nat
    const tok: Tokenizer
    const order: Hash -> nat  // of the ids as text; they are hexadecimal numbers of one length

    constructor (dim: nat, tok: Tokenizer, order: Hash -> nat)
      ensures this.dim == dim && this.tok == tok && this.order == order && db == EMPTY && Valid()
    {
      this.dim, this.tok, this.order, db := dim, tok, order, EMPTY;
    }

    ghost predicate Valid()
      reads this
    {
      Consistent(tok, db) && Dims(dim, db)
    }

    method CheckDims(rs: seq<Record>) returns (ok: bool)
      ensures ok <==> Fits(dim, rs)
    {
      for i := 0 to |rs|
        invariant forall j | 0 <= j < i :: |rs[j].embedding| == dim
      {
        if |rs[i].embedding| != dim {
          return false;
        }
      }
      return true;
    }

    /** The five statements that insert or replace one record. */
    method PutRecord(tx: Tables, r: Record, run: Session) returns (t: Tables, ok: bool)
      modifies run
      ensures ok ==> t == Put(tok, tx, r)
      ensures run.Faultless() ==> ok
    {
      t := tx;
      ok := run.Exec();
      if !ok { return; }
      t := t.(chunks := t.chunks[r.id := ChunkOf(r)]);
      ok := run.Exec();
      if !ok { return; }
      t := t.(vec := t.vec - {r.id});
      ok := run.Exec();
      if !ok || r.id in t.vec { return t, false; }
      t := t.(vec := t.vec[r.id := VecRow(r.language, r.embedding)]);
      ok := run.Exec();
      if !ok { return; }
      t := t.(fts := FtsWithout(t.fts, {r.id}));
      ok := run.Exec();
      if !ok { return; }
      t := t.(fts := t.fts + [FtsRow(r.id, tok(r.content), tok(r.name), tok(r.parent))]);
      assert t.vec == tx.vec[r.id := VecRow(r.language, r.embedding)];
    }

    method PutRecords(tx: Tables, rs: seq<Record>, run: Session) returns (t: Tables, ok: bool)
      modifies run
      ensures ok ==> t == PutAll(tok, tx, rs)
      ensures run.Faultless() ==> ok
    {
      t, ok := tx, true;
      for i := 0 to |rs|
        invariant ok && t == PutAll(tok, tx, rs[..i])
      {
        t, ok := PutRecord(t, rs[i], run);
        if !ok { return; }
        assert rs[..i + 1][..i] == rs[..i];
      }
      assert rs[..|rs|] == rs;
    }

    method Upsert(records: seq<Record>, run: Session) returns (ok: bool)
      requires Valid()
      modifies this, run
      ensures Valid()
      ensures db == if ok then PutAll(tok, old(db), records) else old(db)
      ensures run.Faultless() ==> (ok <==> Fits(dim, records))
    {
      if |records| == 0 {
        return true;
      }
      var fits := CheckDims(records);
      if !fits {
        return false;
      }
      var tx;
      tx, ok := PutRecords(db, records, run);
      if !ok { return; }
      ok := run.Exec();  // commit
      if ok {
        ConsistentPutAll(tok, db, records);
        DimsPutAll(tok, dim, db, records);
        db := tx;
      }
    }

    method Delete(ids: seq<Hash>, run: Session) returns (ok: bool)
      requires Valid()
      modifies this, run
      ensures Valid()
      ensures db == if ok then DropIds(old(db), IdSet(ids)) else old(db)
      ensures run.Faultless() ==> ok
    {
      var tx := db;
      DropNothing(db, ids);
      for i := 0 to |ids|
        invariant tx == DropIds(db, IdSet(ids[..i]))
        invariant db == old(db) && Valid()
      {
        ok := run.Exec();
        if !ok { return; }
        tx := tx.(chunks := tx.chunks - {ids[i]});
        ok := run.Exec();
        if !ok { return; }
        tx := tx.(vec := tx.vec - {ids[i]});
        ok := run.Exec();
        if !ok { return; }
        FtsWithoutTwice(db.fts, IdSet(ids[..i]), {ids[i]});
        assert IdSet(ids[..i + 1]) == IdSet(ids[..i]) + {ids[i]};
        tx := tx.(fts := FtsWithout(tx.fts, {ids[i]}));
      }
      assert ids[..|ids|] == ids;
      ok := run.Exec();
      if ok {
        ConsistentDrop(tok, db, IdSet(ids));
        db := tx;
      }
    }

    /** SELECT id FROM chunks WHERE file_path = ?, in no particular order. */
    method SelectIds(tx: Tables, p: string) returns (ids: seq<Hash>)
      ensures IdSet(ids) == IdsOf(tx, p)
    {
      ids := Elements(IdsOf(tx, p));
    }

    /** The statements DeleteByFile and ReplaceByFiles share: a file's chunks with their derived
        rows, then its edges and imports. */
    method DeleteRows(tx: Tables, p: string, run: Session) returns (t: Tables, ok: bool)
      modifies run
      ensures ok ==> t == DropRows(tx, p)
      ensures run.Faultless() ==> ok
    {
      t := tx;
      ok := run.Exec();
      if !ok { return; }
      var ids := SelectIds(t, p);
      DropNothing(tx, ids);
      for i := 0 to |ids|
        invariant t == tx.(vec := tx.vec - IdSet(ids[..i]), fts := FtsWithout(tx.fts, IdSet(ids[..i])))
        invariant ok
      {
        ok := run.Exec();
        if !ok { return; }
        t := t.(vec := t.vec - {ids[i]});
        ok := run.Exec();
        if !ok { return; }
        FtsWithoutTwice(tx.fts, IdSet(ids[..i]), {ids[i]});
        assert IdSet(ids[..i + 1]) == IdSet(ids[..i]) + {ids[i]};
        t := t.(fts := FtsWithout(t.fts, {ids[i]}));
      }
      assert ids[..|ids|] == ids;
      ok := run.Exec();
      if !ok { return; }
      t := t.(chunks := t.chunks - IdsOf(t, p));
      ok := run.Exec();
      if !ok { return; }
      t := t.(edges := EdgesNotOf(t.edges, p));
      ok := run.Exec();
      if !ok { return; }
      t := t.(imports := ImportsNotOf(t.imports, p));
    }

    method DeleteByFile(p: string, run: Session) returns (ok: bool)
      requires Valid()
      modifies this, run
      ensures Valid()
      ensures db == if ok then DropFile(old(db), p) else old(db)
      ensures run.Faultless() ==> ok
    {
      var tx;
      tx, ok := DeleteRows(db, p, run);
      if !ok { return; }
      ok := run.Exec();
      if !ok { return; }
      tx := tx.(files := tx.files - {p});
      ok := run.Exec();
      if ok {
        ConsistentReplace(tok, db, FileRecords(p, [], Unset, 0, 0, [], []));
        db := tx;
      }
    }

    method InsertEdges(tx: Tables, e: FileRecords, run: Session) returns (t: Tables, ok: bool)
      modifies run
      ensures ok ==> t == tx.(edges := tx.edges + Stamped(e).0)
      ensures run.Faultless() ==> ok
    {
      t, ok := tx, true;
      assert tx.edges + Stamped(e).0[..0] == tx.edges;
      for i := 0 to |e.edges|
        invariant t == tx.(edges := tx.edges + Stamped(e).0[..i]) && ok
      {
        ok := run.Exec();
        if !ok { return; }
        var s := e.edges[i];
        t := t.(edges := t.edges + [Edge(s.srcID, e.filePath, s.srcName, s.kind, s.dstName, s.dstQualifier, s.line)]);
        assert Stamped(e).0[..i + 1] == Stamped(e).0[..i] + [Stamped(e).0[i]];
      }
    }

    method InsertImports(tx: Tables, e: FileRecords, run: Session) returns (t: Tables, ok: bool)
      modifies run
      ensures ok ==> t == tx.(imports := tx.imports + Stamped(e).1)
      ensures run.Faultless() ==> ok
    {
      t, ok := tx, true;
      assert tx.imports + Stamped(e).1[..0] == tx.imports;
      for i := 0 to |e.imports|
        invariant t == tx.(imports := tx.imports + Stamped(e).1[..i]) && ok
      {
        ok := run.Exec();
        if !ok { return; }
        var s := e.imports[i];
        t := t.(imports := t.imports + [Import(e.filePath, s.mod, s.alias, s.line)]);
        assert Stamped(e).1[..i + 1] == Stamped(e).1[..i] + [Stamped(e).1[i]];
      }
    }

    /** One entry of ReplaceByFiles. */
    method ReplaceFile(tx: Tables, e: FileRecords, run: Session) returns (t: Tables, ok: bool)
      modifies run
      ensures ok ==> t == Replace(tok, tx, e)
      ensures run.Faultless() ==> ok
    {
      t, ok := DeleteRows(tx, e.filePath, run);
      if !ok { return; }
      t, ok := PutRecords(t, e.records, run);
      if !ok { return; }
      t, ok := InsertEdges(t, e, run);
      if !ok { return; }
      t, ok := InsertImports(t, e, run);
      if !ok { return; }
      ok := run.Exec();
      if !ok { return; }
      t := t.(files := t.files[e.filePath := FileRow(e.fileHash, e.mtime, e.size)]);
    }

    method CheckEntries(entries: seq<FileRecords>) returns (ok: bool)
      ensures ok <==> forall i | 0 <= i < |entries| :: Fits(dim, entries[i].records)
    {
      for i := 0 to |entries|
        invariant forall j | 0 <= j < i :: Fits(dim, entries[j].records)
      {
        var fits := CheckDims(entries[i].records);
        if !fits {
          return false;
        }
      }
      return true;
    }

    method ReplaceByFiles(entries: seq<FileRecords>, run: Session) returns (ok: bool)
      requires Valid()
      modifies this, run
      ensures Valid()
      ensures db == if ok then ReplaceAll(tok, old(db), entries) else old(db)
      ensures run.Faultless() ==> (ok <==> forall i | 0 <= i < |entries| :: Fits(dim, entries[i].records))
    {
      if |entries| == 0 {
        return true;
      }
      var fits := CheckEntries(entries);
      if !fits {
        return false;
      }
      var tx := db;
      for i := 0 to |entries|
        invariant tx == ReplaceAll(tok, db, entries[..i])
        invariant db == old(db) && Valid()
      {
        tx, ok := ReplaceFile(tx, entries[i], run);
        if !ok { return; }
        assert entries[..i + 1][..i] == entries[..i];
      }
      assert entries[..|entries|] == entries;
      ok := run.Exec();
      if ok {
        ConsistentReplaceAll(tok, db, entries);
        DimsReplaceAll(tok, dim, db, entries);
        db := tx;
      }
    }

    // ---------- Queries ----------

    /** Hashes of the given paths that are indexed, fetched 500 at a time. */
    method FileHashes(paths: seq<string>, run: Session) returns (result: map<string, Hash>, ok: bool)
      modifies run
      ensures ok ==> result == map p | p in paths && p in db.files :: db.files[p].hash
      ensures run.Faultless() ==> ok
    {
      var states;
      states, ok := FileStates(paths, run);
      result := map p | p in states :: states[p].hash;
    }

    method FileStates(paths: seq<string>, run: Session) returns (result: map<string, FileRow>, ok: bool)
      modifies run
      ensures ok ==> result == map p | p in paths && p in db.files :: db.files[p]
      ensures run.Faultless() ==> ok
    {
      result, ok := map[], true;
      var start := 0;
      while start < |paths|
        invariant 0 <= start <= |paths| && ok
        invariant result == map p | p in paths[..start] && p in db.files :: db.files[p]
      {
        var end := if start + 500 < |paths| then start + 500 else |paths|;
        ok := run.Exec();
        if !ok { return; }
        var batch := paths[start..end];
        assert paths[..end] == paths[..start] + batch;
        result := result + map p | p in batch && p in db.files :: db.files[p];
        start := end;
      }
      assert paths[..start] == paths;
    }

    method ListFiles(run: Session) returns (paths: seq<string>, ok: bool)
      modifies run
      ensures ok ==> forall p :: p in paths <==> p in db.files
      ensures run.Faultless() ==> ok
    {
      paths := [];
      ok := run.Exec();
      if !ok { return; }
      paths := Elements(db.files.Keys);
    }

    /** For every given hash that some chunk has, the embedding of the chunk with the least id. */
    method EmbeddingsByContentHash(hashes: seq<Hash>, run: Session) returns (result: map<Hash, Vector>, ok: bool)
      requires Valid()
      modifies run
      ensures ok ==> Cached(db, hashes, result)
      ensures ok ==> forall h | h in result :: FromLeast(order, db, h, result[h])
      ensures run.Faultless() ==> ok
    {
      result, ok := map[], true;
      var start := 0;
      while start < |hashes|
        invariant 0 <= start <= |hashes| && ok
        invariant Cached(db, hashes[..start], result)
        invariant forall h | h in result :: FromLeast(order, db, h, result[h])
      {
        var end := if start + 500 < |hashes| then start + 500 else |hashes|;
        ok := run.Exec();
        if !ok { return; }
        var i := start;
        while i < end
          invariant start <= i <= end
          invariant Cached(db, hashes[..i], result)
          invariant forall h | h in result :: FromLeast(order, db, h, result[h])
        {
          var found := LeastEmbedding(hashes[i]);
          CachedNext(db, hashes, i, result, found);
          if found.Some? {
            result := result[hashes[i] := found.value];
          }
          i := i + 1;
        }
        start := end;
      }
      assert hashes[..start] == hashes;
    }

    /** The embedding of the chunk with the least id among those of one hash. */
    method LeastEmbedding(h: Hash) returns (v: Option<Vector>)
      requires Valid()
      ensures v == None <==> forall id | id in db.chunks :: db.chunks[id].contentHash != h
      ensures v.Some? ==> FromLeast(order, db, h, v.value)
    {
      var ids := Elements(WithHash(db, h));
      if |ids| == 0 {
        forall id | id in db.chunks ensures db.chunks[id].contentHash != h {
          assert id !in WithHash(db, h);
        }
        return None;
      }
      var least := LeastOf(ids);
      assert least in WithHash(db, h);
      ConsistentMeans(tok, db);
      v := Some(db.vec[least].embedding);
      LeastSupplies(order, db, h, least);
    }

    method LeastOf(ids: seq<Hash>) returns (least: Hash)
      requires ids != []
      ensures least in ids && forall id | id in ids :: order(least) <= order(id)
    {
      least := ids[0];
      for k := 1 to |ids|
        invariant least in ids && forall l | 0 <= l < k :: order(least) <= order(ids[l])
      {
        if order(ids[k]) < order(least) {
          least := ids[k];
        }
      }
    }
  }

  lemma {:induction false} LeastSupplies(order: Hash -> nat, t: Tables, h: Hash, least: Hash)
    requires least in WithHash(t, h) && forall id | id in WithHash(t, h) :: order(least) <= order(id)
    requires least in t.vec
    ensures FromLeast(order, t, h, t.vec[least].embedding)
  {
    assert Supplies(t, least, h, t.vec[least].embedding);
  }

  lemma {:induction false} CachedNext(t: Tables, hashes: seq<Hash>, i: nat, result: map<Hash, Vector>,
                                      found: Option<Vector>)
    requires i < |hashes| && Cached(t, hashes[..i], result)
    requires found == None <==> forall id | id in t.chunks :: t.chunks[id].contentHash != hashes[i]
    requires found.Some? ==> exists id :: id in t.chunks && Supplies(t, id, hashes[i], found.value)
    ensures Cached(t, hashes[..i + 1], if found.Some? then result[hashes[i] := found.value] else result)
  {
    SliceNext(hashes, i);
    assert forall h :: h in hashes[..i + 1] <==> h in hashes[..i] || h == hashes[i];
  }

  // ---------- Any sequence of operations ----------

  datatype Op =
    | Upsert(records: seq<Record>)
    | Delete(ids: seq<Hash>)
    | DeleteByFile(path: string)
    | ReplaceByFiles(entries: seq<FileRecords>)

  /** An operation takes effect or fails; the methods above compute exactly this. */
  function Apply(tok: Tokenizer, t: Tables, op: Op, ok: bool): Tables {
    if !ok then t
    else
      match op
      case Upsert(rs) => PutAll(tok, t, rs)
      case Delete(ids) => DropIds(t, IdSet(ids))
      case DeleteByFile(p) => DropFile(t, p)
      case ReplaceByFiles(es) => ReplaceAll(tok, t, es)
  }

  function Run(tok: Tokenizer, ops: seq<(Op, bool)>): Tables {
    if ops == [] then EMPTY
    else Apply(tok, Run(tok, ops[..|ops| - 1]), ops[|ops| - 1].0, ops[|ops| - 1].1)
  }

  /** Every reachable state, failed operations included, has the same ids in chunks, vec and fts
      with exactly one derived row each. */
  lemma {:induction false} ReachableConsistent(tok: Tokenizer, ops: seq<(Op, bool)>)
    ensures Consistent(tok, Run(tok, ops))
  {
    if ops != [] {
      var t, op := Run(tok, ops[..|ops| - 1]), ops[|ops| - 1];
      ReachableConsistent(tok, ops[..|ops| - 1]);
      match op.0
      case Upsert(rs) => ConsistentPutAll(tok, t, rs);
      case Delete(ids) => ConsistentDrop(tok, t, IdSet(ids));
      case DeleteByFile(p) => ConsistentReplace(tok, t, FileRecords(p, [], Unset, 0, 0, [], []));
      case ReplaceByFiles(es) => ConsistentReplaceAll(tok, t, es);
    }
  }

  // ---------- Files do not disturb each other ----------

  /** Everything stored for one file. */
  datatype FileView = FileView(rows: map<Hash, Row>, edges: seq<Edge>, imports: seq<Import>, file: Option<FileRow>)

  const NOVIEW: FileView := FileView(map[], [], [], None)

  function Rows(t: Tables, p: string): map<Hash, Row> {
    map id | id in IdsOf(t, p) :: RowAt(t, id)
  }

  function View(t: Tables, p: string): FileView {
    FileView(Rows(t, p), EdgesOf(t.edges, p), ImportsOf(t.imports, p),
             if p in t.files then Some(t.files[p]) else None)
  }

  /** Ids are record ids, so they determine paths. */
  ghost predicate Keyed(t: Tables) {
    forall id | id in t.chunks ::
      id == RecordID(t.chunks[id].filePath, t.chunks[id].content) && NUL !in t.chunks[id].filePath
  }

  /** An entry as the indexer builds it. */
  predicate EntryOk(e: FileRecords) {
    && NUL !in e.filePath
    && forall i | 0 <= i < |e.records| ::
         e.records[i].filePath == e.filePath && e.records[i].id == RecordID(e.filePath, e.records[i].content)
  }

  function RecordIds(rs: seq<Record>): set<Hash> {
    set i | 0 <= i < |rs| :: rs[i].id
  }

  lemma {:induction false} RecordIdsLast(rs: seq<Record>)
    ensures forall id | id in RecordIds(rs) :: LastWith(rs, id) >= 0
  {}

  /** Of records with one id the last counts. */
  function EntryRows(tok: Tokenizer, rs: seq<Record>): map<Hash, Row> {
    RecordIdsLast(rs);
    map id | id in RecordIds(rs) :: RowOf(tok, rs[LastWith(rs, id)])
  }

  /** What an entry stores for its file. */
  function EntryView(tok: Tokenizer, e: FileRecords): FileView {
    FileView(EntryRows(tok, e.records), Stamped(e).0, Stamped(e).1, Some(FileRow(e.fileHash, e.mtime, e.size)))
  }

  lemma {:induction false} EdgesSplit(xs: seq<Edge>, p: string, q: string)
    ensures EdgesOf(EdgesNotOf(xs, p), q) == if p == q then [] else EdgesOf(xs, q)
  {
    if p == q {
      FilterTwice((e: Edge) => e.filePath == q, (e: Edge) => e.filePath != p, (e: Edge) => false, xs);
      FilterNone((e: Edge) => false, xs);
    } else {
      FilterTwice((e: Edge) => e.filePath == q, (e: Edge) => e.filePath != p, (e: Edge) => e.filePath == q, xs);
    }
  }

  lemma {:induction false} ImportsSplit(xs: seq<Import>, p: string, q: string)
    ensures ImportsOf(ImportsNotOf(xs, p), q) == if p == q then [] else ImportsOf(xs, q)
  {
    if p == q {
      FilterTwice((e: Import) => e.filePath == q, (e: Import) => e.filePath != p, (e: Import) => false, xs);
      FilterNone((e: Import) => false, xs);
    } else {
      FilterTwice((e: Import) => e.filePath == q, (e: Import) => e.filePath != p, (e: Import) => e.filePath == q, xs);
    }
  }

  lemma {:induction false} StampedAppended(t: Tables, e: FileRecords, q: string)
    ensures EdgesOf(t.edges + Stamped(e).0, q) == EdgesOf(t.edges, q) + if q == e.filePath then Stamped(e).0 else []
    ensures ImportsOf(t.imports + Stamped(e).1, q) ==
            ImportsOf(t.imports, q) + if q == e.filePath then Stamped(e).1 else []
  {
    FilterAppend((x: Edge) => x.filePath == q, t.edges, Stamped(e).0);
    FilterAppend((x: Import) => x.filePath == q, t.imports, Stamped(e).1);
    if q == e.filePath {
      FilterAll((x: Edge) => x.filePath == q, Stamped(e).0);
      FilterAll((x: Import) => x.filePath == q, Stamped(e).1);
    } else {
      FilterNone((x: Edge) => x.filePath == q, Stamped(e).0);
      FilterNone((x: Import) => x.filePath == q, Stamped(e).1);
    }
  }

  lemma {:induction false} DroppedRows(t: Tables, p: string, q: string)
    ensures Rows(DropIds(t, IdsOf(t, p)), q) == if q == p then map[] else Rows(t, q)
  {
    var d := DropIds(t, IdsOf(t, p));
    forall id | id in IdsOf(t, q) && q != p ensures RowAt(d, id) == RowAt(t, id) {
      RowAtDrop(t, IdsOf(t, p), id);
    }
    assert IdsOf(d, q) == if q == p then {} else IdsOf(t, q);
  }

  /** Deleting a file removes everything stored for it and nothing else. */
  lemma {:induction false} DropFileView(t: Tables, p: string, q: string)
    ensures View(DropFile(t, p), q) == if q == p then NOVIEW else View(t, q)
    ensures Keyed(t) ==> Keyed(DropFile(t, p))
  {
    EdgesSplit(t.edges, p, q);
    ImportsSplit(t.imports, p, q);
    DroppedRows(t, p, q);
    var d, f := DropIds(t, IdsOf(t, p)), DropFile(t, p);
    assert f.chunks == d.chunks;
    assert forall id :: RowAt(f, id) == RowAt(d, id);
    assert Rows(f, q) == Rows(d, q);
  }

  lemma {:induction false} ReplacedRow(tok: Tokenizer, t: Tables, e: FileRecords, id: Hash)
    ensures RowAt(Replace(tok, t, e), id) ==
            if LastWith(e.records, id) >= 0 then RowOf(tok, e.records[LastWith(e.records, id)])
            else if id in IdsOf(t, e.filePath) then NOROW else RowAt(t, id)
    ensures id in RecordIds(e.records) <==> LastWith(e.records, id) >= 0
  {
    var d := DropRows(t, e.filePath);
    RowAtPutAll(tok, d, e.records, id);
    assert RowAt(Replace(tok, t, e), id) == RowAt(PutAll(tok, d, e.records), id);
    RowAtDrop(t, IdsOf(t, e.filePath), id);
    assert RowAt(d, id) == RowAt(DropIds(t, IdsOf(t, e.filePath)), id);
  }

  lemma {:induction false} ChunkAt(t: Tables, id: Hash)
    ensures id in t.chunks <==> RowAt(t, id).chunk.Some?
    ensures id in t.chunks ==> RowAt(t, id).chunk.value == t.chunks[id]
  {}

  /** An id of another file is not among the entry's. */
  lemma {:induction false} ForeignId(t: Tables, e: FileRecords, id: Hash)
    requires Keyed(t) && EntryOk(e)
    requires id in t.chunks && t.chunks[id].filePath != e.filePath
    ensures LastWith(e.records, id) < 0
  {
    var i, c := LastWith(e.records, id), t.chunks[id];
    if i >= 0 { RecordIDInjective(c.filePath, c.content, e.filePath, e.records[i].content); }
  }

  lemma {:induction false} ReplacedIds(tok: Tokenizer, t: Tables, e: FileRecords, q: string)
    requires Keyed(t) && EntryOk(e)
    ensures var r := Replace(tok, t, e);
            IdsOf(r, q) == if q == e.filePath then RecordIds(e.records) else IdsOf(t, q)
  {
    var r := Replace(tok, t, e);
    forall id ensures id in IdsOf(r, q) <==> if q == e.filePath then id in RecordIds(e.records) else id in IdsOf(t, q) {
      ReplacedRow(tok, t, e, id);
      ChunkAt(r, id);
      ChunkAt(t, id);
      if id in t.chunks && t.chunks[id].filePath != e.filePath { ForeignId(t, e, id); }
    }
  }

  lemma {:induction false} ReplacedKeyed(tok: Tokenizer, t: Tables, e: FileRecords)
    requires Keyed(t) && EntryOk(e)
    ensures Keyed(Replace(tok, t, e))
  {
    var r := Replace(tok, t, e);
    forall id | id in r.chunks
      ensures id == RecordID(r.chunks[id].filePath, r.chunks[id].content) && NUL !in r.chunks[id].filePath
    {
      ReplacedRow(tok, t, e, id);
      ChunkAt(r, id);
      ChunkAt(t, id);
    }
  }

  lemma {:induction false} ReplacedRowAt(tok: Tokenizer, t: Tables, e: FileRecords, q: string, id: Hash)
    requires Keyed(t) && EntryOk(e)
    requires id in if q == e.filePath then RecordIds(e.records) else IdsOf(t, q)
    ensures RowAt(Replace(tok, t, e), id) == if q == e.filePath then EntryRows(tok, e.records)[id] else RowAt(t, id)
  {
    ReplacedRow(tok, t, e, id);
    if q != e.filePath { ForeignId(t, e, id); }
  }

  lemma {:induction false} ReplacedRows(tok: Tokenizer, t: Tables, e: FileRecords, q: string)
    requires Keyed(t) && EntryOk(e)
    ensures Rows(Replace(tok, t, e), q) == if q == e.filePath then EntryRows(tok, e.records) else Rows(t, q)
  {
    var m := if q == e.filePath then EntryRows(tok, e.records) else Rows(t, q);
    ReplacedIds(tok, t, e, q);
    forall id | id in m ensures RowAt(Replace(tok, t, e), id) == m[id] {
      ReplacedRowAt(tok, t, e, q, id);
    }
    RowsAre(Replace(tok, t, e), q, m);
  }

  lemma {:induction false} RowsAre(t: Tables, p: string, m: map<Hash, Row>)
    requires IdsOf(t, p) == m.Keys && forall id | id in m :: RowAt(t, id) == m[id]
    ensures Rows(t, p) == m
  {}

  /** Replacing a file stores its entry and leaves every other file's rows alone. */
  lemma {:induction false} ReplaceView(tok: Tokenizer, t: Tables, e: FileRecords, q: string)
    requires Keyed(t) && EntryOk(e)
    ensures View(Replace(tok, t, e), q) == if q == e.filePath then EntryView(tok, e) else View(t, q)
  {
    ReplacedRows(tok, t, e, q);
    ReplacedGraph(tok, t, e, q);
  }

  lemma {:induction false} ReplacedGraph(tok: Tokenizer, t: Tables, e: FileRecords, q: string)
    ensures var r, mine := Replace(tok, t, e), q == e.filePath;
            && EdgesOf(r.edges, q) == (if mine then Stamped(e).0 else EdgesOf(t.edges, q))
            && ImportsOf(r.imports, q) == (if mine then Stamped(e).1 else ImportsOf(t.imports, q))
            && r.files == t.files[e.filePath := FileRow(e.fileHash, e.mtime, e.size)]
  {
    var d := DropRows(t, e.filePath);
    EdgesSplit(t.edges, e.filePath, q);
    ImportsSplit(t.imports, e.filePath, q);
    RowAtPutAll(tok, d, e.records, Unset);
    StampedAppended(d, e, q);
  }

  /** The last of the entries for a path, or -1. */
  function LastFor(es: seq<FileRecords>, p: string): (i: int)
    ensures -1 <= i < |es|
    ensures i >= 0 ==> es[i].filePath == p
    ensures forall j | i < j < |es| :: es[j].filePath != p
  {
    if es == [] then -1
    else if es[|es| - 1].filePath == p then |es| - 1
    else LastFor(es[..|es| - 1], p)
  }

  lemma {:induction false} ReplaceAllView(tok: Tokenizer, t: Tables, es: seq<FileRecords>, q: string)
    requires Keyed(t) && forall i | 0 <= i < |es| :: EntryOk(es[i])
    ensures Keyed(ReplaceAll(tok, t, es))
    ensures View(ReplaceAll(tok, t, es), q) ==
            if LastFor(es, q) >= 0 then EntryView(tok, es[LastFor(es, q)]) else View(t, q)
  {
    if es != [] {
      var n := |es| - 1;
      ReplaceAllView(tok, t, es[..n], q);
      ReplaceView(tok, ReplaceAll(tok, t, es[..n]), es[n], q);
      ReplacedKeyed(tok, ReplaceAll(tok, t, es[..n]), es[n]);
    }
  }

  // ---------- What the transactions store, column by column ----------

  lemma {:induction false} OnlyFts(fts: seq<FtsRow>, id: Hash, row: FtsRow)
    requires FtsOf(fts, id) == [row]
    ensures forall k | 0 <= k < |fts| && fts[k].id == id :: fts[k] == row
    ensures exists k :: 0 <= k < |fts| && fts[k].id == id
  {
    forall k | 0 <= k < |fts| && fts[k].id == id ensures fts[k] == row {
      FilterMember((r: FtsRow) => r.id == id, fts, fts[k]);
    }
    FilterMember((r: FtsRow) => r.id == id, fts, row);
    assert row in FtsOf(fts, id);
  }

  /** The row of the last record of an id. */
  lemma {:induction false} StoredRow(tok: Tokenizer, t: Tables, r: Record)
    requires RowAt(t, r.id) == RowOf(tok, r)
    ensures r.id in t.chunks && r.id in t.vec
    ensures t.chunks[r.id] == Chunk(r.filePath, r.language, r.content, r.contentHash, r.nodeKind, r.name, r.parent,
                                    r.startLine, r.endLine)
    ensures t.vec[r.id] == VecRow(r.language, r.embedding)
    ensures forall k | 0 <= k < |t.fts| && t.fts[k].id == r.id ::
              t.fts[k] == FtsRow(r.id, tok(r.content), tok(r.name), tok(r.parent))
    ensures exists k :: 0 <= k < |t.fts| && t.fts[k].id == r.id
  {
    OnlyFts(t.fts, r.id, FtsRow(r.id, tok(r.content), tok(r.name), tok(r.parent)));
  }

  /** An upsert stores the last record of each id, in all three tables. */
  lemma {:induction false} UpsertedExactly(tok: Tokenizer, t: Tables, rs: seq<Record>, i: nat)
    requires i < |rs| && forall j | i < j < |rs| :: rs[j].id != rs[i].id
    ensures var r, u := rs[i], PutAll(tok, t, rs);
      && r.id in u.chunks && r.id in u.vec
      && u.chunks[r.id] == Chunk(r.filePath, r.language, r.content, r.contentHash, r.nodeKind, r.name, r.parent,
                                 r.startLine, r.endLine)
      && u.vec[r.id] == VecRow(r.language, r.embedding)
      && (forall k | 0 <= k < |u.fts| && u.fts[k].id == r.id ::
            u.fts[k] == FtsRow(r.id, tok(r.content), tok(r.name), tok(r.parent)))
      && exists k :: 0 <= k < |u.fts| && u.fts[k].id == r.id
  {
    RowAtPutAll(tok, t, rs, rs[i].id);
    assert LastWith(rs, rs[i].id) == i;
    StoredRow(tok, PutAll(tok, t, rs), rs[i]);
  }

  /** A replacement records the last entry for a path: its row, its records, and its edges and imports in
      order, restamped with the path; no other edge or import of the path is left. */
  lemma {:induction false} ReplacedExactly(tok: Tokenizer, t: Tables, es: seq<FileRecords>, i: nat)
    returns (edges: seq<nat>, imports: seq<nat>)
    requires Keyed(t) && forall j | 0 <= j < |es| :: EntryOk(es[j])
    requires i < |es| && forall j | i < j < |es| :: es[j].filePath != es[i].filePath
    ensures var e, p, u := es[i], es[i].filePath, ReplaceAll(tok, t, es);
      && p in u.files && u.files[p] == FileRow(e.fileHash, e.mtime, e.size)
      && Ascending(edges) && |edges| == |e.edges| && (forall k | 0 <= k < |edges| :: edges[k] < |u.edges|)
      && (forall k | 0 <= k < |u.edges| :: k in edges <==> u.edges[k].filePath == p)
      && (forall k | 0 <= k < |edges| :: u.edges[edges[k]] == e.edges[k].(filePath := p))
      && Ascending(imports) && |imports| == |e.imports| && (forall k | 0 <= k < |imports| :: imports[k] < |u.imports|)
      && (forall k | 0 <= k < |u.imports| :: k in imports <==> u.imports[k].filePath == p)
      && (forall k | 0 <= k < |imports| :: u.imports[imports[k]] == e.imports[k].(filePath := p))
  {
    var e, p, u := es[i], es[i].filePath, ReplaceAll(tok, t, es);
    EntryStored(tok, t, es, i);
    edges := FilterPositions((x: Edge) => x.filePath == p, u.edges);
    assert Filter((x: Edge) => x.filePath == p, u.edges) == EdgesOf(u.edges, p) == Stamped(e).0;
    imports := FilterPositions((x: Import) => x.filePath == p, u.imports);
    assert Filter((x: Import) => x.filePath == p, u.imports) == ImportsOf(u.imports, p) == Stamped(e).1;
  }

  /** Of the entry's records the last of each id is stored, */
  lemma {:induction false} ReplacedChunk(tok: Tokenizer, t: Tables, es: seq<FileRecords>, i: nat, j: nat)
    requires Keyed(t) && forall l | 0 <= l < |es| :: EntryOk(es[l])
    requires i < |es| && forall l | i < l < |es| :: es[l].filePath != es[i].filePath
    requires j < |es[i].records|
    requires forall l | j < l < |es[i].records| :: es[i].records[l].id != es[i].records[j].id
    ensures var r, u := es[i].records[j], ReplaceAll(tok, t, es);
      && r.id in u.chunks && r.id in u.vec
      && u.chunks[r.id] == Chunk(r.filePath, r.language, r.content, r.contentHash, r.nodeKind, r.name, r.parent,
                                 r.startLine, r.endLine)
      && u.vec[r.id] == VecRow(r.language, r.embedding)
      && (forall k | 0 <= k < |u.fts| && u.fts[k].id == r.id ::
            u.fts[k] == FtsRow(r.id, tok(r.content), tok(r.name), tok(r.parent)))
      && exists k :: 0 <= k < |u.fts| && u.fts[k].id == r.id
  {
    var e, r, u := es[i], es[i].records[j], ReplaceAll(tok, t, es);
    EntryStored(tok, t, es, i);
    assert LastWith(e.records, r.id) == j && r.id in RecordIds(e.records);
    assert Rows(u, e.filePath)[r.id] == RowAt(u, r.id);
    StoredRow(tok, u, r);
  }

  lemma {:induction false} EntryStored(tok: Tokenizer, t: Tables, es: seq<FileRecords>, i: nat)
    requires Keyed(t) && forall l | 0 <= l < |es| :: EntryOk(es[l])
    requires i < |es| && forall l | i < l < |es| :: es[l].filePath != es[i].filePath
    ensures View(ReplaceAll(tok, t, es), es[i].filePath) == EntryView(tok, es[i])
    ensures Rows(ReplaceAll(tok, t, es), es[i].filePath) == EntryRows(tok, es[i].records)
  {
    ReplaceAllView(tok, t, es, es[i].filePath);
    assert LastFor(es, es[i].filePath) == i;
  }

  /** and no other chunk of the path. */
  lemma {:induction false} ReplacedOnly(tok: Tokenizer, t: Tables, es: seq<FileRecords>, i: nat, id: Hash)
    requires Keyed(t) && forall l | 0 <= l < |es| :: EntryOk(es[l])
    requires i < |es| && forall l | i < l < |es| :: es[l].filePath != es[i].filePath
    ensures var u := ReplaceAll(tok, t, es);
            id in u.chunks && u.chunks[id].filePath == es[i].filePath <==>
            exists j :: 0 <= j < |es[i].records| && es[i].records[j].id == id
  {
    var e, u := es[i], ReplaceAll(tok, t, es);
    EntryStored(tok, t, es, i);
    assert id in Rows(u, e.filePath) <==> id in RecordIds(e.records);
  }

  /** A deletion leaves nothing of the ids and all of every other. */
  lemma {:induction false} DeletedExactly(t: Tables, ids: set<Hash>, id: Hash)
    ensures var u := DropIds(t, ids);
      if id in ids then id !in u.chunks && id !in u.vec && forall k | 0 <= k < |u.fts| :: u.fts[k].id != id
      else
        && (id in u.chunks <==> id in t.chunks) && (id in t.chunks ==> u.chunks[id] == t.chunks[id])
        && (id in u.vec <==> id in t.vec) && (id in t.vec ==> u.vec[id] == t.vec[id])
        && forall row: FtsRow | row.id == id :: row in u.fts <==> row in t.fts
  {
    forall row: FtsRow ensures row in FtsWithout(t.fts, ids) <==> row in t.fts && row.id !in ids {
      FilterMember((r: FtsRow) => r.id !in ids, t.fts, row);
    }
  }

  /** Deleting a file leaves nothing under its path in any table. */
  lemma {:induction false} FileDeletedExactly(t: Tables, p: string)
    ensures var u := DropFile(t, p);
      && p !in u.files
      && (forall id | id in u.chunks :: u.chunks[id].filePath != p)
      && (forall k | 0 <= k < |u.edges| :: u.edges[k].filePath != p)
      && (forall k | 0 <= k < |u.imports| :: u.imports[k].filePath != p)
      && forall id | id in t.chunks && t.chunks[id].filePath == p ::
           id !in u.vec && forall k | 0 <= k < |u.fts| :: u.fts[k].id != id
  {
    var u := DropFile(t, p);
    forall k | 0 <= k < |u.edges| ensures u.edges[k].filePath != p {
      FilterMember((e: Edge) => e.filePath != p, t.edges, u.edges[k]);
    }
    forall k | 0 <= k < |u.imports| ensures u.imports[k].filePath != p {
      FilterMember((i: Import) => i.filePath != p, t.imports, u.imports[k]);
    }
    forall id | id in t.chunks && t.chunks[id].filePath == p
      ensures id !in u.vec && forall k | 0 <= k < |u.fts| :: u.fts[k].id != id
    {
      DeletedExactly(t, IdsOf(t, p), id);
    }
  }
}
