/** indexer/indexer.go: the staged incremental pipeline over the store. */
module Indexer {
  import opened Wrappers
  import opened Seqs
  import opened Store
  import opened Locator

  // ---------- What the pipeline is given ----------

  datatype ParsedChunk = ParsedChunk(content: string, language: string, nodeKind: string, name: string,
                                     parent: string, startLine: int, endLine: int)
  datatype Analysis = Parsed(chunks: seq<ParsedChunk>, edges: seq<ParsedEdge>) | UnsupportedLanguage | Failed

  /** A path on disk, as stat and read find it. */
  datatype DiskFile = Missing | StatError | Unreadable(mtime: int, size: int) | Readable(content: string, mtime: int)

  /** The collaborators, fixed during a run. The embedder may fail on any text of any batch, but
      a vector it does return is the text's. */
  datatype Config = Config(
    chunker: Option<(string, string) -> Analysis>,
    vector: string -> Vector,
    embed: seq<string> -> (seq<Vector>, seq<bool>),
    enableGraph: bool,
    maxFileSize: int,
    inRoot: string -> bool,
    matches: string -> bool,
    disk: string -> DiskFile)

  ghost predicate ConfigOk(c: Config, dim: nat) {
    && (forall s :: |c.vector(s)| == dim)
    && (forall ts, k | 0 <= k < |ts| && Sized(c, ts) && !c.embed(ts).1[k] :: c.embed(ts).0[k] == c.vector(ts[k]))
    && (forall p | c.inRoot(p) :: NUL !in p)
  }

  predicate Sized(c: Config, ts: seq<string>) {
    |c.embed(ts).0| == |ts| && |c.embed(ts).1| == |ts|
  }

  // ---------- What indexing a file from scratch stores ----------

  function AnalysisOf(c: Config, p: string, content: string): Analysis {
    match c.chunker
    case None => Parsed([], [])
    case Some(analyze) => analyze(p, content)
  }

  function ChunksOf(c: Config, p: string, content: string): seq<ParsedChunk> {
    match AnalysisOf(c, p, content)
    case Parsed(chunks, _) => chunks
    case _ => []
  }

  function ParsedEdgesOf(c: Config, p: string, content: string): seq<ParsedEdge> {
    match AnalysisOf(c, p, content)
    case Parsed(_, edges) => if c.enableGraph then edges else []
    case _ => []
  }

  function RecordFor(p: string, ch: ParsedChunk, v: Vector): Record {
    Record(RecordID(p, ch.content), p, ch.language, ch.content, ContentHash(ch.content), ch.nodeKind, ch.name,
           ch.parent, ch.startLine, ch.endLine, v)
  }

  function FreshRecords(c: Config, p: string, chunks: seq<ParsedChunk>): seq<Record> {
    seq(|chunks|, j requires 0 <= j < |chunks| => RecordFor(p, chunks[j], c.vector(chunks[j].content)))
  }

  function FreshEntry(c: Config, p: string, content: string, mtime: int): FileRecords {
    var records := FreshRecords(c, p, ChunksOf(c, p, content));
    var edges := ParsedEdgesOf(c, p, content);
    FileRecords(p, records, ContentHash(content), mtime, |content|, EdgesFor(p, records, edges), ImportsFor(p, edges))
  }

  /** What a from-scratch index of the given content stores for the file. */
  function FreshView(c: Config, tok: Tokenizer, p: string, content: string, mtime: int): FileView {
    EntryView(tok, FreshEntry(c, p, content, mtime))
  }

  /** The file's rows are those of the content whose hash is recorded, and a file without a
      recorded hash has none. */
  ghost predicate Matches(c: Config, tok: Tokenizer, t: Tables, p: string) {
    if p in t.files then
      t.files[p].hash.Sha? && NUL !in p && View(t, p) == FreshView(c, tok, p, t.files[p].hash.of, t.files[p].mtime)
    else View(t, p) == NOVIEW
  }

  /** What every run keeps, however it ends. */
  ghost predicate Inv(c: Config, tok: Tokenizer, t: Tables) {
    Keyed(t) && forall p :: Matches(c, tok, t, p)
  }

  lemma {:induction false} EmptyInv(c: Config, tok: Tokenizer)
    ensures Inv(c, tok, EMPTY)
  {}

  lemma {:induction false} FreshEntryOk(c: Config, p: string, content: string, mtime: int)
    requires NUL !in p
    ensures EntryOk(FreshEntry(c, p, content, mtime))
  {
    var e := FreshEntry(c, p, content, mtime);
    var chunks := ChunksOf(c, p, content);
    assert e.records == FreshRecords(c, p, chunks);
    assert forall i | 0 <= i < |chunks| :: e.records[i] == RecordFor(p, chunks[i], c.vector(chunks[i].content));
  }

  lemma {:induction false} ReplaceFresh(c: Config, tok: Tokenizer, t: Tables, p: string, content: string, mtime: int)
    requires Inv(c, tok, t) && NUL !in p
    ensures Inv(c, tok, Replace(tok, t, FreshEntry(c, p, content, mtime)))
  {
    var e := FreshEntry(c, p, content, mtime);
    var r := Replace(tok, t, e);
    FreshEntryOk(c, p, content, mtime);
    ReplacedKeyed(tok, t, e);
    forall q ensures Matches(c, tok, r, q) {
      ReplaceView(tok, t, e, q);
      ReplacedGraph(tok, t, e, q);
      assert Matches(c, tok, t, q);
    }
  }

  lemma {:induction false} DropInv(c: Config, tok: Tokenizer, t: Tables, p: string)
    requires Inv(c, tok, t)
    ensures Inv(c, tok, DropFile(t, p))
  {
    forall q ensures Matches(c, tok, DropFile(t, p), q) {
      DropFileView(t, p, q);
      assert Matches(c, tok, t, q);
    }
    DropFileView(t, p, p);
  }

  /** Every stored embedding is that of its own chunk's content. */
  lemma {:induction false} StoredEmbedding(c: Config, tok: Tokenizer, t: Tables, id: Hash)
    requires Inv(c, tok, t) && id in t.chunks && id in t.vec
    ensures t.chunks[id].contentHash == ContentHash(t.chunks[id].content)
    ensures t.vec[id].embedding == c.vector(t.chunks[id].content)
  {
    var p, row := t.chunks[id].filePath, RowAt(t, id);
    assert Matches(c, tok, t, p) && id in Rows(t, p) && Rows(t, p)[id] == row;
    var chunks := ChunksOf(c, p, t.files[p].hash.of);
    var rs := FreshRecords(c, p, chunks);
    assert View(t, p).rows == EntryRows(tok, rs);
    RecordIdsLast(rs);
    var i := LastWith(rs, id);
    assert row == RowOf(tok, rs[i]);
    assert rs[i] == RecordFor(p, chunks[i], c.vector(chunks[i].content));
  }

  // ---------- Stages ----------

  datatype FileInfo = FileInfo(path: string, content: string, hash: Hash, mtime: int, size: int)
  datatype ChunkedFile = ChunkedFile(info: FileInfo, chunks: seq<ParsedChunk>, edges: seq<ParsedEdge>,
                                     skipProgress: bool)

  predicate TooLarge(c: Config, content: string) {
    c.maxFileSize > 0 && |content| > c.maxFileSize
  }

  /** What reading a path gives: nothing outside the root or over the size limit. */
  function InfoFor(c: Config, p: string): Option<FileInfo> {
    match c.disk(p)
    case Readable(content, mtime) =>
      if !c.inRoot(p) || TooLarge(c, content) then None
      else Some(FileInfo(p, content, ContentHash(content), mtime, |content|))
    case _ => None
  }

  function Live(infos: seq<Option<FileInfo>>): seq<FileInfo> {
    if infos == [] then []
    else
      var rest := Live(infos[..|infos| - 1]);
      if infos[|infos| - 1].Some? then rest + [infos[|infos| - 1].value] else rest
  }

  /** How many of the files have path q. */
  function Due(fs: seq<FileInfo>, q: string): nat {
    if fs == [] then 0 else Due(fs[..|fs| - 1], q) + One(fs[|fs| - 1].path, q)
  }

  function One(p: string, q: string): nat {
    if p == q then 1 else 0
  }

  lemma {:induction false} DueAppend(fs: seq<FileInfo>, f: FileInfo)
    ensures forall q :: Due(fs + [f], q) == Due(fs, q) + One(f.path, q)
  {}

  lemma {:induction false} LiveAppend(infos: seq<Option<FileInfo>>, info: Option<FileInfo>)
    ensures Live(infos + [info]) == Live(infos) + if info.Some? then [info.value] else []
    ensures forall q :: Due(Live(infos + [info]), q) ==
                        Due(Live(infos), q) + if info.Some? then One(info.value.path, q) else 0
  {}

  /** Since the log was start, each wanted path has been reported or is due. */
  ghost predicate Balanced(c: Config, start: seq<Note>, log: seq<Note>, infos: seq<Option<FileInfo>>,
                           paths: seq<string>) {
    forall q :: Told(log, q) + Due(Live(infos), q) == Told(start, q) + Wanted(c, paths, q)
  }

  lemma {:induction false} BalancedNext(c: Config, start: seq<Note>, log: seq<Note>, log': seq<Note>,
                                        infos: seq<Option<FileInfo>>, info: Option<FileInfo>, paths: seq<string>,
                                        i: nat)
    requires i < |paths| && Balanced(c, start, log, infos, paths[..i]) && info == InfoFor(c, paths[i])
    requires log' == log + if c.inRoot(paths[i]) && info == None then [Skipped(paths[i])] else []
    ensures Balanced(c, start, log', infos + [info], paths[..i + 1])
  {
    assert paths[..i + 1][..i] == paths[..i];
    LiveAppend(infos, info);
    if c.inRoot(paths[i]) && info == None { assert log'[..|log|] == log; } else { assert log' == log; }
  }

  /** How many times q is among the paths, if it is inside the root. */
  function Wanted(c: Config, paths: seq<string>, q: string): nat {
    if paths == [] then 0
    else Wanted(c, paths[..|paths| - 1], q) + if c.inRoot(q) then One(paths[|paths| - 1], q) else 0
  }

  function ChunkedFor(c: Config, f: FileInfo): ChunkedFile {
    var unsupported := AnalysisOf(c, f.path, f.content).UnsupportedLanguage?;
    ChunkedFile(f, ChunksOf(c, f.path, f.content), ParsedEdgesOf(c, f.path, f.content), unsupported)
  }

  function EntryFor(c: Config, f: FileInfo): FileRecords {
    FreshEntry(c, f.path, f.content, f.mtime)
  }

  /** A per-file notification. */
  datatype Note = Processed(path: string) | Skipped(path: string) | FileError(path: string)

  /** How many notifications are about q. */
  function Told(log: seq<Note>, q: string): nat {
    if log == [] then 0 else Told(log[..|log| - 1], q) + One(log[|log| - 1].path, q)
  }

  class Progress {
    var log: seq<Note>

    constructor ()
      ensures log == []
    {
      log := [];
    }

    method FileProcessed(p: string)
      modifies this
      ensures log == old(log) + [Processed(p)] && forall q :: Told(log, q) == Told(old(log), q) + One(p, q)
    {
      log := log + [Processed(p)];
      assert log[..|log| - 1] == old(log);
    }

    method FileSkipped(p: string)
      modifies this
      ensures log == old(log) + [Skipped(p)] && forall q :: Told(log, q) == Told(old(log), q) + One(p, q)
    {
      log := log + [Skipped(p)];
      assert log[..|log| - 1] == old(log);
    }

    method FileFailed(p: string)
      modifies this
      ensures log == old(log) + [FileError(p)] && forall q :: Told(log, q) == Told(old(log), q) + One(p, q)
    {
      log := log + [FileError(p)];
      assert log[..|log| - 1] == old(log);
    }
  }

  /** A cancellation context: from some poll on, or never, it is done, and then stays done. */
  class Context {
    var asked: nat
    const deadline: Option<nat>

    constructor (deadline: Option<nat>)
      ensures this.deadline == deadline && asked == 0
    {
      this.deadline, asked := deadline, 0;
    }

    ghost predicate Never() {
      deadline == None
    }

    predicate Dead()
      reads this
    {
      deadline.Some? && asked >= deadline.value
    }

    method Err() returns (b: bool)
      modifies this
      ensures b == old(Dead()) && asked == old(asked) + 1
    {
      b := Dead();
      asked := asked + 1;
    }
  }

  /** One chunk the embedder was asked for, and whether it failed. */
  datatype Attempt = Attempt(path: string, text: string, failed: bool)

  datatype Outcome = Done | Cancelled | Error

  /** Where a run ended: after its last step, on an error of the walk, in a stage batch (under a dead
      context or not), at the pruning of a store that answered no query; or it noticed that it was
      cancelled while collecting paths or between two batches. */
  datatype Stop = Finished | WalkFailed | InBatch(dead: bool) | AtStore | CutShort | BetweenBatches

  ghost predicate AllReadable(c: Config, paths: seq<string>) {
    && (forall i | 0 <= i < |paths| :: c.inRoot(paths[i]) ==> c.disk(paths[i]).Readable?)
    && (forall i | 0 <= i < |paths| && InfoFor(c, paths[i]).Some? ::
          !AnalysisOf(c, paths[i], InfoFor(c, paths[i]).value.content).Failed?)
  }

  /** Nothing but a failing chunk goes wrong outside the store. */
  ghost predicate Smooth(c: Config, paths: seq<string>) {
    AllReadable(c, paths) && forall ts :: Sized(c, ts)
  }

  /** The failed files are those with a failed chunk, and every chunk tried was the file's own. */
  ghost predicate Explained(c: Config, paths: seq<string>, failed: set<string>, attempts: seq<Attempt>) {
    && (forall q :: q in failed <==> exists k :: 0 <= k < |attempts| && attempts[k].failed && attempts[k].path == q)
    && (forall k | 0 <= k < |attempts| :: OwnChunk(c, paths, attempts[k]))
  }

  /** Each occurrence of a path in the root gets exactly one notification. */
  ghost predicate Reported(c: Config, before: seq<Note>, after: seq<Note>, paths: seq<string>) {
    forall q :: Told(after, q) == Told(before, q) + Wanted(c, paths, q)
  }

  lemma {:induction false} WantedAppend(c: Config, a: seq<string>, b: seq<string>, q: string)
    ensures Wanted(c, a + b, q) == Wanted(c, a, q) + Wanted(c, b, q)
    ensures Wanted(c, a, q) == 0 && c.inRoot(q) ==> q !in a
  {
    if b == [] {
      assert a + b == a;
      if a != [] { WantedAppend(c, a[..|a| - 1], b, q); }
    } else {
      WantedAppend(c, a, b[..|b| - 1], q);
      assert (a + b)[..|a + b| - 1] == a + b[..|b| - 1];
    }
  }

  // ---------- What each notification means ----------

  predicate Unsupported(c: Config, p: string) {
    InfoFor(c, p).Some? && AnalysisOf(c, p, InfoFor(c, p).value.content).UnsupportedLanguage?
  }

  /** A file reported as skipped was unchanged, too large or of no known language; one reported as
      failed, or as processed, was. */
  predicate NoteOk(c: Config, t: Tables, written: set<string>, failed: set<string>, n: Note) {
    match n
    case Skipped(p) => !NeedsIndexing(c, t, p) || Unsupported(c, p)
    case FileError(p) => p in failed
    case Processed(p) => p in written && !Unsupported(c, p)
  }

  ghost predicate Truthful(c: Config, t: Tables, written: set<string>, failed: set<string>, before: seq<Note>,
                           after: seq<Note>) {
    before <= after && forall k | |before| <= k < |after| :: NoteOk(c, t, written, failed, after[k])
  }

  lemma {:induction false} TruthfulNone(c: Config, t: Tables, written: set<string>, failed: set<string>, log: seq<Note>)
    ensures Truthful(c, t, written, failed, log, log)
  {}

  lemma {:induction false} TruthfulAdd(c: Config, t: Tables, written: set<string>, failed: set<string>,
                                       before: seq<Note>, log: seq<Note>, n: Note, after: seq<Note>)
    requires Truthful(c, t, written, failed, before, log)
    requires after == log || (after == log + [n] && NoteOk(c, t, written, failed, n))
    ensures Truthful(c, t, written, failed, before, after)
  {}

  lemma {:induction false} TruthfulJoin(c: Config, t: Tables, written: set<string>, failed: set<string>,
                                        before: seq<Note>, log: seq<Note>, after: seq<Note>)
    requires Truthful(c, t, written, failed, before, log) && Truthful(c, t, written, failed, log, after)
    ensures Truthful(c, t, written, failed, before, after)
  {}

  lemma {:induction false} TruthfulMore(c: Config, t: Tables, written: set<string>, failed: set<string>,
                                        before: seq<Note>, log: seq<Note>, after: seq<Note>)
    requires Truthful(c, t, {}, failed, before, log) && Truthful(c, t, written, {}, log, after)
    ensures Truthful(c, t, written, failed, before, after)
  {}

  function PathsOf(entries: seq<FileRecords>): set<string> {
    set k | 0 <= k < |entries| :: entries[k].filePath
  }

  lemma {:induction false} TruthfulWritten(c: Config, t: Tables, entries: seq<FileRecords>, k: nat, before: seq<Note>,
                                           log: seq<Note>)
    requires k < |entries| && Truthful(c, t, PathsOf(entries[..k]), {}, before, log)
    ensures Truthful(c, t, PathsOf(entries[..k + 1]), {}, before, log)
    ensures !Unsupported(c, entries[k].filePath) ==>
              Truthful(c, t, PathsOf(entries[..k + 1]), {}, before, log + [Processed(entries[k].filePath)])
  {}

  /** The same with what became of the store: a file reported as processed is settled. */
  ghost predicate NotesTrue(c: Config, t: Tables, t': Tables, failed: set<string>, before: seq<Note>,
                            after: seq<Note>) {
    before <= after && forall k | |before| <= k < |after| :: NoteTrue(c, t, t', failed, after[k])
  }

  predicate NoteTrue(c: Config, t: Tables, t': Tables, failed: set<string>, n: Note) {
    match n
    case Skipped(p) => !NeedsIndexing(c, t, p) || Unsupported(c, p)
    case FileError(p) => p in failed
    case Processed(p) => NeedsIndexing(c, t, p) && !Unsupported(c, p) && Settled(c, t', p)
  }

  lemma {:induction false} OnlySkipped(c: Config, t: Tables, before: seq<Note>, after: seq<Note>)
    requires Truthful(c, t, {}, {}, before, after)
    ensures forall t', failed :: NotesTrue(c, t, t', failed, before, after)
  {}

  lemma {:induction false} NotesJoin(c: Config, t: Tables, t': Tables, failed: set<string>, before: seq<Note>,
                                     log: seq<Note>, after: seq<Note>)
    requires NotesTrue(c, t, t', failed, before, log) && NotesTrue(c, t, t', failed, log, after)
    ensures NotesTrue(c, t, t', failed, before, after)
  {}

  lemma {:induction false} NotesAfterWrite(c: Config, t: Tables, t': Tables, written: set<string>, failed: set<string>,
                                           before: seq<Note>, after: seq<Note>)
    requires Truthful(c, t, written, failed, before, after)
    requires forall p | p in written :: NeedsIndexing(c, t, p) && Settled(c, t', p)
    ensures NotesTrue(c, t, t', failed, before, after)
  {}

  /** Over all batches of a run. A file reported as skipped may also be one that a batch before had
      brought up to date; in a run that ended well, one named twice. */
  ghost predicate RunNotes(c: Config, t: Tables, t': Tables, paths: seq<string>, failed: set<string>, whole: bool,
                           before: seq<Note>, after: seq<Note>) {
    before <= after && forall k | |before| <= k < |after| :: RunNote(c, t, t', paths, failed, whole, after[k])
  }

  predicate RunNote(c: Config, t: Tables, t': Tables, paths: seq<string>, failed: set<string>, whole: bool, n: Note) {
    match n
    case Skipped(p) =>
      !NeedsIndexing(c, t, p) || Unsupported(c, p) || (Settled(c, t', p) && (whole ==> Wanted(c, paths, p) >= 2))
    case FileError(p) => p in failed
    case Processed(p) => NeedsIndexing(c, t, p) && !Unsupported(c, p) && Settled(c, t', p)
  }

  lemma {:induction false} RunNotesNone(c: Config, t: Tables, paths: seq<string>, failed: set<string>, whole: bool,
                                        log: seq<Note>)
    ensures RunNotes(c, t, t, paths, failed, whole, log, log)
  {}

  lemma {:induction false} RunNotesMore(c: Config, t: Tables, t': Tables, paths: seq<string>, more: seq<string>,
                                        failed: set<string>, whole: bool, before: seq<Note>, after: seq<Note>)
    requires RunNotes(c, t, t', paths, failed, whole, before, after)
    ensures RunNotes(c, t, t', more, failed, false, before, after)
  {}

  /** What a batch says of a note of the batches before it. */
  lemma {:induction false} EarlierNote(c: Config, tok: Tokenizer, t: Tables, t1: Tables, t2: Tables, a: seq<string>,
                                       b: seq<string>, fa: set<string>, fb: set<string>, whole: bool, n: Note)
    requires RunNote(c, t, t1, a, fa, true, n) && StageView(c, tok, t1, t2, b, n.path)
    ensures RunNote(c, t, t2, a + b, fa + fb, whole, n)
  {
    WantedAppend(c, a, b, n.path);
    FileOf(t1, n.path);
    FileOf(t2, n.path);
  }

  /** What the batches before say of a note of this one. */
  lemma {:induction false} LaterNote(c: Config, tok: Tokenizer, t: Tables, t1: Tables, t2: Tables, a: seq<string>,
                                     b: seq<string>, fa: set<string>, fb: set<string>, whole: bool, n: Note)
    requires NoteTrue(c, t1, t2, fb, n)
    requires StageView(c, tok, t, t1, a, n.path) && StageView(c, tok, t1, t2, b, n.path)
    requires whole ==> Wanted(c, b, n.path) > 0
    ensures RunNote(c, t, t2, a + b, fa + fb, whole, n)
  {
    WantedAppend(c, a, b, n.path);
    FileOf(t, n.path);
    FileOf(t1, n.path);
    FileOf(t2, n.path);
  }

  lemma {:induction false} RunNotesJoin(c: Config, tok: Tokenizer, t: Tables, t1: Tables, t2: Tables, a: seq<string>,
                                        b: seq<string>, fa: set<string>, fb: set<string>, whole: bool,
                                        before: seq<Note>, log: seq<Note>, after: seq<Note>)
    requires RunNotes(c, t, t1, a, fa, true, before, log) && NotesTrue(c, t1, t2, fb, log, after)
    requires StageDone(c, tok, t, t1, a, fa, true) && StageDone(c, tok, t1, t2, b, fb, whole)
    requires whole ==> Reported(c, log, after, b)
    ensures RunNotes(c, t, t2, a + b, fa + fb, whole, before, after)
  {
    forall k | |before| <= k < |after| ensures RunNote(c, t, t2, a + b, fa + fb, whole, after[k]) {
      var p := after[k].path;
      assert StageView(c, tok, t, t1, a, p) && StageView(c, tok, t1, t2, b, p);
      if k < |log| {
        assert after[k] == log[k];
        EarlierNote(c, tok, t, t1, t2, a, b, fa, fb, whole, after[k]);
      } else {
        ToldGrows(log, after[..k], p);
        ToldGrows(after[..k + 1], after, p);
        assert after[..k + 1][..k] == after[..k];
        LaterNote(c, tok, t, t1, t2, a, b, fa, fb, whole, after[k]);
      }
    }
  }

  /** Pruning takes nothing from the files the notes are about. */
  lemma {:induction false} RunNotesThinned(c: Config, tok: Tokenizer, t: Tables, t1: Tables, t2: Tables,
                                           paths: seq<string>, failed: set<string>, whole: bool, before: seq<Note>,
                                           after: seq<Note>)
    requires RunNotes(c, t, t1, paths, failed, whole, before, after)
    requires (forall q :: StageView(c, tok, t, t1, paths, q)) && Thinned(t1, t2, paths)
    ensures RunNotes(c, t, t2, paths, failed, whole, before, after)
  {
    forall k | |before| <= k < |after| ensures RunNote(c, t, t2, paths, failed, whole, after[k]) {
      var p := after[k].path;
      assert RunNote(c, t, t1, paths, failed, whole, after[k]);
      assert StageView(c, tok, t, t1, paths, p) && PruneView(t1, t2, paths, p);
      FileOf(t, p);
      FileOf(t1, p);
      FileOf(t2, p);
    }
  }

  /** Nor does it matter to them that files which are gone were removed before. */
  lemma {:induction false} RunNotesSwept(c: Config, t: Tables, t1: Tables, t2: Tables, given: seq<string>,
                                         paths: seq<string>, failed: set<string>, whole: bool, before: seq<Note>,
                                         after: seq<Note>)
    requires Swept(c, t, t1, given) && RunNotes(c, t1, t2, paths, failed, whole, before, after)
    ensures RunNotes(c, t, t2, paths, failed, whole, before, after)
  {
    forall k | |before| <= k < |after| ensures RunNote(c, t, t2, paths, failed, whole, after[k]) {
      var p := after[k].path;
      assert RunNote(c, t1, t2, paths, failed, whole, after[k]) && SweptView(c, t, t1, given, p);
      FileOf(t, p);
      FileOf(t1, p);
    }
  }

  predicate NeedsIndexing(c: Config, t: Tables, q: string) {
    var info := InfoFor(c, q);
    info.Some? && (if q in t.files then t.files[q].hash else Unset) != info.value.hash
  }

  /** The chunked files are those of the batch whose content hash is not the stored one. */
  ghost predicate Chunked(c: Config, t: Tables, paths: seq<string>, chunked: seq<ChunkedFile>) {
    && (forall i | 0 <= i < |chunked| ::
          var f := chunked[i].info;
          && chunked[i] == ChunkedFor(c, f) && InfoFor(c, f.path) == Some(f)
          && f.path in paths && NeedsIndexing(c, t, f.path) && !AnalysisOf(c, f.path, f.content).Failed?)
    && (forall q | q in paths && NeedsIndexing(c, t, q) :: exists i :: 0 <= i < |chunked| && chunked[i].info.path == q)
  }

  lemma {:induction false} LiveExactly(infos: seq<Option<FileInfo>>, f: FileInfo)
    ensures f in Live(infos) <==> Some(f) in infos
  {
    if infos != [] {
      LiveExactly(infos[..|infos| - 1], f);
      assert infos == infos[..|infos| - 1] + [infos[|infos| - 1]];
    }
  }

  lemma {:induction false} ChangedExactly(c: Config, t: Tables, paths: seq<string>, infos: seq<Option<FileInfo>>,
                                          hashPaths: seq<string>, hashes: map<string, Hash>, changed: seq<FileInfo>)
    requires |infos| == |paths| && forall i | 0 <= i < |paths| :: infos[i] == InfoFor(c, paths[i])
    requires forall i | 0 <= i < |infos| && infos[i].Some? :: infos[i].value.path in hashPaths
    requires hashes == map p | p in hashPaths && p in t.files :: t.files[p].hash
    requires changed == Changed(hashes, Live(infos))
    ensures forall f ::
              f in changed <==> f.path in paths && NeedsIndexing(c, t, f.path) && InfoFor(c, f.path) == Some(f)
  {
    forall f ensures f in changed <==> f.path in paths && NeedsIndexing(c, t, f.path) && InfoFor(c, f.path) == Some(f) {
      FilterMember((f: FileInfo) => Differs(hashes, f), Live(infos), f);
      LiveExactly(infos, f);
      if Some(f) in infos {
        var i :| 0 <= i < |infos| && infos[i] == Some(f);
        assert f.path == paths[i];
      }
      if f.path in paths && InfoFor(c, f.path) == Some(f) {
        var i :| 0 <= i < |paths| && paths[i] == f.path;
        assert infos[i] == Some(f);
      }
    }
  }

  lemma {:induction false} DueLive(c: Config, paths: seq<string>, infos: seq<Option<FileInfo>>, q: string)
    requires |infos| == |paths| && forall i | 0 <= i < |paths| :: infos[i] == InfoFor(c, paths[i])
    ensures Due(Live(infos), q) <= Wanted(c, paths, q)
  {
    if infos != [] {
      var n := |infos| - 1;
      DueLive(c, paths[..n], infos[..n], q);
      LiveAppend(infos[..n], infos[n]);
      assert infos == infos[..n] + [infos[n]];
      assert infos[n] == InfoFor(c, paths[n]);
    }
  }

  lemma {:induction false} DueFilter(keep: FileInfo -> bool, fs: seq<FileInfo>, q: string)
    ensures Due(Filter(keep, fs), q) <= Due(fs, q)
  {
    if fs != [] {
      var n := |fs| - 1;
      DueFilter(keep, fs[..n], q);
      FilterNext(keep, fs, n);
      assert fs[..n + 1] == fs;
      DueAppend(Filter(keep, fs[..n]), fs[n]);
      assert Filter(keep, fs) == if keep(fs[n]) then Filter(keep, fs[..n]) + [fs[n]] else Filter(keep, fs[..n]);
    }
  }

  lemma {:induction false} DuePending(changed: seq<FileInfo>, chunked: seq<ChunkedFile>, q: string)
    requires |chunked| == |changed| && forall i | 0 <= i < |changed| :: chunked[i].info == changed[i]
    ensures Due(Pending(chunked), q) <= Due(changed, q)
  {
    if changed != [] {
      var n := |changed| - 1;
      DuePending(changed[..n], chunked[..n], q);
      PendingAppend(chunked[..n], chunked[n]);
      assert chunked == chunked[..n] + [chunked[n]];
    }
  }

  /** Two files of one path are both due. */
  lemma {:induction false} DueTwice(chunked: seq<ChunkedFile>, i: nat, j: nat, q: string)
    requires i < j < |chunked| && !chunked[i].skipProgress && !chunked[j].skipProgress
    requires chunked[i].info.path == q == chunked[j].info.path
    ensures Due(Pending(chunked), q) >= 2
  {
    var n := |chunked| - 1;
    PendingAppend(chunked[..n], chunked[n]);
    assert chunked == chunked[..n] + [chunked[n]];
    if j < n { DueTwice(chunked[..n], i, j, q); } else { DueOnce(chunked[..n], i, q); }
  }

  lemma {:induction false} DueOnce(chunked: seq<ChunkedFile>, i: nat, q: string)
    requires i < |chunked| && !chunked[i].skipProgress && chunked[i].info.path == q
    ensures Due(Pending(chunked), q) >= 1
  {
    var n := |chunked| - 1;
    PendingAppend(chunked[..n], chunked[n]);
    assert chunked == chunked[..n] + [chunked[n]];
    if i < n { DueOnce(chunked[..n], i, q); }
  }

  // ---------- What a stage batch does to each file ----------

  function FreshOf(c: Config, tok: Tokenizer, q: string): FileView
    requires InfoFor(c, q).Some?
  {
    FreshView(c, tok, q, InfoFor(c, q).value.content, InfoFor(c, q).value.mtime)
  }

  /** The file is as it was, or a file of the batch whose content changed, with its fresh rows. */
  ghost predicate StageView(c: Config, tok: Tokenizer, t: Tables, t': Tables, paths: seq<string>, q: string) {
    View(t', q) == View(t, q) || (q in paths && NeedsIndexing(c, t, q) && View(t', q) == FreshOf(c, tok, q))
  }

  /** The hash recorded for the file is that of its content on disk. */
  predicate Settled(c: Config, t: Tables, q: string) {
    var info := InfoFor(c, q);
    info.Some? && q in t.files && t.files[q].hash == info.value.hash
  }

  /** Every indexable file of the batch is settled unless it failed; a failed one keeps what it
      had, if the batch names it once. */
  ghost predicate StageSettles(c: Config, t: Tables, t': Tables, paths: seq<string>, failed: set<string>, q: string) {
    && (q in paths && InfoFor(c, q).Some? && q !in failed ==> Settled(c, t', q))
    && (q in failed ==> q in paths && NeedsIndexing(c, t, q))
    && (q in failed && Wanted(c, paths, q) == 1 ==> View(t', q) == View(t, q))
  }

  /** The text is one of the path's own chunks. */
  ghost predicate OwnChunk(c: Config, paths: seq<string>, a: Attempt) {
    var info := InfoFor(c, a.path);
    && a.path in paths && info.Some?
    && (exists j :: 0 <= j < |ChunksOf(c, a.path, info.value.content)|
                    && ChunksOf(c, a.path, info.value.content)[j].content == a.text)
    && (a.failed ==> Failing(c, a.text))
  }

  /** Some call of the embedder fails on the text. */
  ghost predicate Failing(c: Config, text: string) {
    exists ts, k :: 0 <= k < |ts| && Sized(c, ts) && ts[k] == text && c.embed(ts).1[k]
  }

  /** Where the embedder fails on no text, no file is withheld. */
  lemma {:induction false} NoneWithheld(c: Config, paths: seq<string>, failed: set<string>, attempts: seq<Attempt>)
    requires Explained(c, paths, failed, attempts)
    requires forall ts, k | 0 <= k < |ts| && Sized(c, ts) :: !c.embed(ts).1[k]
    ensures failed == {}
  {
    forall q ensures q !in failed {}
  }

  /** A cached vector is that of the content looked up, whichever chunk supplied it. */
  lemma {:induction false} CachedVector(c: Config, tok: Tokenizer, t: Tables, hashes: seq<Hash>,
                                        cached: map<Hash, Vector>, content: string)
    requires Inv(c, tok, t) && Cached(t, hashes, cached) && ContentHash(content) in cached
    ensures cached[ContentHash(content)] == c.vector(content)
  {
    var h := ContentHash(content);
    var id :| id in t.chunks && Supplies(t, id, h, cached[h]);
    StoredEmbedding(c, tok, t, id);
  }

  lemma {:induction false} AllDeliverable(c: Config, tok: Tokenizer, t: Tables, paths: seq<string>,
                                          chunked: seq<ChunkedFile>, hashes: seq<Hash>, cached: map<Hash, Vector>,
                                          failedIdx: set<nat>, byFile: map<nat, map<nat, Vector>>,
                                          attempts: seq<Attempt>, origins: seq<(nat, nat)>)
    requires Inv(c, tok, t) && Chunked(c, t, paths, chunked) && Cached(t, hashes, cached)
    requires Embedded(c, chunked, cached, failedIdx, byFile, attempts, origins)
    ensures forall i | 0 <= i < |chunked| :: Deliverable(c, chunked, i, failedIdx, cached, byFile)
  {
    forall i | 0 <= i < |chunked| ensures Deliverable(c, chunked, i, failedIdx, cached, byFile) {
      forall j | 0 <= j < |chunked[i].chunks| && i !in failedIdx
        ensures Available(c, chunked[i], i, j, cached, byFile)
      {
        var content := chunked[i].chunks[j].content;
        if ContentHash(content) in cached {
          CachedVector(c, tok, t, hashes, cached, content);
        } else {
          assert Uncached(chunked, cached, i, j);
        }
      }
      if i in failedIdx {
        var k :| 0 <= k < |attempts| && attempts[k].failed && origins[k].0 == i;
        assert Uncached(chunked, cached, origins[k].0, origins[k].1);
        assert !AnalysisOf(c, chunked[i].info.path, chunked[i].info.content).UnsupportedLanguage?;
      }
    }
  }

  lemma {:induction false} AttemptsOwn(c: Config, t: Tables, paths: seq<string>, chunked: seq<ChunkedFile>,
                                       cached: map<Hash, Vector>, failedIdx: set<nat>,
                                       byFile: map<nat, map<nat, Vector>>, attempts: seq<Attempt>,
                                       origins: seq<(nat, nat)>, failed: set<string>)
    requires Chunked(c, t, paths, chunked)
    requires Embedded(c, chunked, cached, failedIdx, byFile, attempts, origins)
    requires failed == set i | 0 <= i < |chunked| && i in failedIdx :: chunked[i].info.path
    ensures Explained(c, paths, failed, attempts)
  {}

  lemma {:induction false} KeptWritable(c: Config, dim: nat, tok: Tokenizer, t: Tables, paths: seq<string>,
                                        chunked: seq<ChunkedFile>, failedIdx: set<nat>, entries: seq<FileRecords>,
                                        kept: seq<ChunkedFile>)
    requires ConfigOk(c, dim) && Inv(c, tok, t) && Chunked(c, t, paths, chunked)
    requires EntriesOf(c, entries, kept) && KeptOf(chunked, failedIdx, |chunked|, kept)
    ensures Writable(c, dim, tok, t, entries) && InStep(c, entries, kept, Skips(chunked))
  {
    forall k | 0 <= k < |kept|
      ensures NUL !in kept[k].info.path
      ensures entries[k].filePath == kept[k].info.path
      ensures kept[k].skipProgress <==> kept[k].info.path in Skips(chunked)
      ensures kept[k].skipProgress <==> Unsupported(c, kept[k].info.path)
    {
      var j := KeptFrom(chunked, failedIdx, kept, k);
    }
    EntriesWritable(c, dim, tok, t, entries, kept);
  }

  /** What the entries make of one file's view. */
  lemma {:induction false} KeptView(c: Config, tok: Tokenizer, t: Tables, paths: seq<string>,
                                    chunked: seq<ChunkedFile>, failedIdx: set<nat>, entries: seq<FileRecords>,
                                    kept: seq<ChunkedFile>, written: nat, q: string)
    requires Keyed(t) && Chunked(c, t, paths, chunked) && (forall p | c.inRoot(p) :: NUL !in p)
    requires EntriesOf(c, entries, kept) && KeptOf(chunked, failedIdx, |chunked|, kept) && written <= |entries|
    ensures var k, t' := LastFor(entries[..written], q), ReplaceAll(tok, t, entries[..written]);
            if k >= 0 then q in paths && NeedsIndexing(c, t, q) && View(t', q) == FreshOf(c, tok, q)
            else View(t', q) == View(t, q)
  {
    forall k | 0 <= k < written ensures EntryOk(entries[..written][k]) {
      var j := KeptFrom(chunked, failedIdx, kept, k);
      FreshEntryOk(c, kept[k].info.path, kept[k].info.content, kept[k].info.mtime);
    }
    ReplaceAllView(tok, t, entries[..written], q);
    var k := LastFor(entries[..written], q);
    if k >= 0 {
      var j := KeptFrom(chunked, failedIdx, kept, k);
      assert kept[k].info.path == q;
    }
  }

  lemma {:induction false} StageSettled(c: Config, tok: Tokenizer, t: Tables, paths: seq<string>,
                                        chunked: seq<ChunkedFile>, failedIdx: set<nat>, entries: seq<FileRecords>,
                                        kept: seq<ChunkedFile>, failed: set<string>, q: string)
    requires Keyed(t) && Chunked(c, t, paths, chunked) && (forall p | c.inRoot(p) :: NUL !in p)
    requires EntriesOf(c, entries, kept) && KeptOf(chunked, failedIdx, |chunked|, kept)
    requires forall i | 0 <= i < |chunked| && i in failedIdx :: !chunked[i].skipProgress
    requires failed == set i | 0 <= i < |chunked| && i in failedIdx :: chunked[i].info.path
    requires Due(Pending(chunked), q) <= Wanted(c, paths, q)
    ensures StageSettles(c, t, ReplaceAll(tok, t, entries), paths, failed, q)
  {
    assert entries[..|entries|] == entries;
    KeptView(c, tok, t, paths, chunked, failedIdx, entries, kept, |entries|, q);
    if q !in failed {
      if q in paths && InfoFor(c, q).Some? {
        SettledUnlessFailed(c, tok, t, paths, chunked, failedIdx, entries, kept, q);
      }
    } else {
      FailedOwn(c, t, paths, chunked, failedIdx, q);
      if Wanted(c, paths, q) == 1 {
        FailedNotWritten(c, t, paths, chunked, failedIdx, kept, q);
        NotWritten(c, entries, kept, q);
      }
    }
  }

  lemma {:induction false} FailedOwn(c: Config, t: Tables, paths: seq<string>, chunked: seq<ChunkedFile>,
                                     failedIdx: set<nat>, q: string)
    requires Chunked(c, t, paths, chunked)
    requires exists i :: 0 <= i < |chunked| && i in failedIdx && chunked[i].info.path == q
    ensures q in paths && NeedsIndexing(c, t, q)
  {}

  lemma {:induction false} NotWritten(c: Config, entries: seq<FileRecords>, kept: seq<ChunkedFile>, q: string)
    requires EntriesOf(c, entries, kept) && forall k | 0 <= k < |kept| :: kept[k].info.path != q
    ensures LastFor(entries, q) < 0
  {
    forall k | 0 <= k < |entries| ensures entries[k].filePath != q {
      assert entries[k] == EntryFor(c, kept[k].info);
    }
  }

  ghost predicate StageDone(c: Config, tok: Tokenizer, t: Tables, t': Tables, paths: seq<string>,
                            failed: set<string>, whole: bool) {
    && (forall q :: StageView(c, tok, t, t', paths, q))
    && (whole ==> forall q :: StageSettles(c, t, t', paths, failed, q))
  }

  lemma {:induction false} StagePlanned(c: Config, tok: Tokenizer, t: Tables, paths: seq<string>,
                                        chunked: seq<ChunkedFile>, failedIdx: set<nat>, cached: map<Hash, Vector>,
                                        byFile: map<nat, map<nat, Vector>>, entries: seq<FileRecords>,
                                        kept: seq<ChunkedFile>, failed: set<string>)
    requires Keyed(t) && Chunked(c, t, paths, chunked) && (forall p | c.inRoot(p) :: NUL !in p)
    requires forall i | 0 <= i < |chunked| :: Deliverable(c, chunked, i, failedIdx, cached, byFile)
    requires EntriesOf(c, entries, kept) && KeptOf(chunked, failedIdx, |chunked|, kept)
    requires failed == set i | 0 <= i < |chunked| && i in failedIdx :: chunked[i].info.path
    requires forall q :: Due(Pending(chunked), q) <= Wanted(c, paths, q)
    ensures forall n | 0 <= n <= |entries| ::
              StageDone(c, tok, t, ReplaceAll(tok, t, entries[..n]), paths, failed, n == |entries|)
  {
    forall i | 0 <= i < |chunked| && i in failedIdx ensures !chunked[i].skipProgress {
      assert Deliverable(c, chunked, i, failedIdx, cached, byFile);
    }
    forall n | 0 <= n <= |entries|
      ensures StageDone(c, tok, t, ReplaceAll(tok, t, entries[..n]), paths, failed, n == |entries|)
    {
      StageWritten(c, tok, t, paths, chunked, failedIdx, entries, kept, n, failed);
    }
  }

  lemma {:induction false} StageWritten(c: Config, tok: Tokenizer, t: Tables, paths: seq<string>,
                                        chunked: seq<ChunkedFile>, failedIdx: set<nat>, entries: seq<FileRecords>,
                                        kept: seq<ChunkedFile>, n: nat, failed: set<string>)
    requires Keyed(t) && Chunked(c, t, paths, chunked) && (forall p | c.inRoot(p) :: NUL !in p)
    requires EntriesOf(c, entries, kept) && KeptOf(chunked, failedIdx, |chunked|, kept) && n <= |entries|
    requires forall i | 0 <= i < |chunked| && i in failedIdx :: !chunked[i].skipProgress
    requires failed == set i | 0 <= i < |chunked| && i in failedIdx :: chunked[i].info.path
    requires forall q :: Due(Pending(chunked), q) <= Wanted(c, paths, q)
    ensures StageDone(c, tok, t, ReplaceAll(tok, t, entries[..n]), paths, failed, n == |entries|)
  {
    var t' := ReplaceAll(tok, t, entries[..n]);
    forall q ensures StageView(c, tok, t, t', paths, q) {
      KeptView(c, tok, t, paths, chunked, failedIdx, entries, kept, n, q);
    }
    if n == |entries| {
      assert entries[..n] == entries;
      forall q ensures StageSettles(c, t, t', paths, failed, q) {
        StageSettled(c, tok, t, paths, chunked, failedIdx, entries, kept, failed, q);
      }
    }
  }

  /** One batch after another. */
  lemma {:induction false} StageJoin(c: Config, tok: Tokenizer, t: Tables, t1: Tables, t2: Tables, a: seq<string>,
                                     b: seq<string>, fa: set<string>, fb: set<string>, whole: bool)
    requires StageDone(c, tok, t, t1, a, fa, true) && StageDone(c, tok, t1, t2, b, fb, whole)
    ensures StageDone(c, tok, t, t2, a + b, fa + fb, whole)
  {
    forall q ensures StageView(c, tok, t, t2, a + b, q) {
      assert StageView(c, tok, t, t1, a, q) && StageView(c, tok, t1, t2, b, q);
      FileOf(t, q);
      FileOf(t1, q);
    }
    if whole {
      forall q ensures StageSettles(c, t, t2, a + b, fa + fb, q) {
        StageSettleJoin(c, tok, t, t1, t2, a, b, fa, fb, q);
      }
    }
  }

  lemma {:induction false} StageSettleJoin(c: Config, tok: Tokenizer, t: Tables, t1: Tables, t2: Tables,
                                           a: seq<string>, b: seq<string>, fa: set<string>, fb: set<string>, q: string)
    requires StageView(c, tok, t, t1, a, q) && StageView(c, tok, t1, t2, b, q)
    requires StageSettles(c, t, t1, a, fa, q) && StageSettles(c, t1, t2, b, fb, q)
    ensures StageSettles(c, t, t2, a + b, fa + fb, q)
  {
    WantedAppend(c, a, b, q);
    WantedAppend(c, b, [], q);
    FileOf(t, q);
    FileOf(t1, q);
    FileOf(t2, q);
  }

  lemma {:induction false} StageMore(c: Config, tok: Tokenizer, t: Tables, t': Tables, paths: seq<string>, n: nat,
                                     failed: set<string>)
    requires n <= |paths| && StageDone(c, tok, t, t', paths[..n], failed, false)
    ensures StageDone(c, tok, t, t', paths, failed, false)
  {
    forall q ensures StageView(c, tok, t, t', paths, q) {
      assert StageView(c, tok, t, t', paths[..n], q);
    }
  }

  lemma {:induction false} SmoothSlice(c: Config, paths: seq<string>, start: nat, end: nat)
    requires start <= end <= |paths|
    ensures Smooth(c, paths) ==> Smooth(c, paths[start..end])
  {}

  lemma {:induction false} ExplainedJoin(c: Config, a: seq<string>, b: seq<string>, fa: set<string>, fb: set<string>,
                                         ta: seq<Attempt>, tb: seq<Attempt>)
    requires Explained(c, a, fa, ta) && Explained(c, b, fb, tb)
    ensures Explained(c, a + b, fa + fb, ta + tb)
  {
    var ts := ta + tb;
    forall q ensures q in fa + fb <==> exists k :: 0 <= k < |ts| && ts[k].failed && ts[k].path == q {
      if q in fa {
        var k :| 0 <= k < |ta| && ta[k].failed && ta[k].path == q;
        assert ts[k] == ta[k];
      }
      if q in fb {
        var k :| 0 <= k < |tb| && tb[k].failed && tb[k].path == q;
        assert ts[|ta| + k] == tb[k];
      }
    }
    forall k | 0 <= k < |ts| ensures OwnChunk(c, a + b, ts[k]) {
      assert if k < |ta| then OwnChunk(c, a, ta[k]) else OwnChunk(c, b, tb[k - |ta|]);
    }
  }

  lemma {:induction false} ReportedJoin(c: Config, l: seq<Note>, m: seq<Note>, n: seq<Note>, a: seq<string>,
                                        b: seq<string>)
    requires Reported(c, l, m, a) && Reported(c, m, n, b)
    ensures Reported(c, l, n, a + b)
  {
    forall q ensures Told(n, q) == Told(l, q) + Wanted(c, a + b, q) {
      WantedAppend(c, a, b, q);
    }
  }

  /** What a walk yields before its first error. */
  function Yielded(walk: seq<Option<string>>): seq<string> {
    if walk == [] || walk[0] == None then [] else [walk[0].value] + Yielded(walk[1..])
  }

  predicate Complete(walk: seq<Option<string>>) {
    forall i | 0 <= i < |walk| :: walk[i].Some?
  }

  lemma {:induction false} YieldedNext(walk: seq<Option<string>>, i: nat, paths: seq<string>)
    requires i < |walk|
    ensures Complete(walk[i..]) <==> walk[i].Some? && Complete(walk[i + 1..])
    ensures paths + Yielded(walk[i..]) ==
            if walk[i] == None then paths else paths + [walk[i].value] + Yielded(walk[i + 1..])
  {
    var rest := walk[i..];
    assert rest[1..] == walk[i + 1..] && rest == [walk[i]] + walk[i + 1..];
    if walk[i].Some? { Assoc(paths, [walk[i].value], Yielded(walk[i + 1..])); }
  }

  ghost predicate PruneView(t: Tables, t': Tables, paths: seq<string>, q: string) {
    View(t', q) == View(t, q) || (q !in paths && View(t', q) == NOVIEW)
  }

  /** Nothing is stored for the given files except those to keep. */
  ghost predicate Absent(t: Tables, files: seq<string>, keep: seq<string>) {
    forall q | q in files && q !in keep :: View(t, q) == NOVIEW
  }

  ghost predicate Thinned(t: Tables, t': Tables, paths: seq<string>) {
    forall q :: PruneView(t, t', paths, q)
  }

  /** However a run ends, a file is as it was, or has its fresh rows, or is gone because a complete
      walk did not report it. */
  ghost predicate IndexView(c: Config, tok: Tokenizer, t: Tables, t': Tables, walk: seq<Option<string>>, q: string) {
    || StageView(c, tok, t, t', Yielded(walk), q)
    || (Complete(walk) && q !in Yielded(walk) && View(t', q) == NOVIEW)
  }

  /** What a finished run leaves: the files reported are settled or withheld, the others are gone. */
  ghost predicate Indexed(c: Config, t: Tables, t': Tables, paths: seq<string>, failed: set<string>) {
    forall q :: if q in paths then StageSettles(c, t, t', paths, failed, q) else View(t', q) == NOVIEW
  }

  lemma {:induction false} UnprunedView(c: Config, tok: Tokenizer, t: Tables, t1: Tables, walk: seq<Option<string>>,
                                        paths: seq<string>, failed: set<string>)
    requires StageDone(c, tok, t, t1, paths, failed, false) && paths <= Yielded(walk)
    ensures forall q :: StageView(c, tok, t, t1, Yielded(walk), q)
  {
    assert Yielded(walk)[..|paths|] == paths;
    forall q ensures StageView(c, tok, t, t1, Yielded(walk), q) {
      assert StageView(c, tok, t, t1, paths, q);
    }
  }

  lemma {:induction false} PrunedView(c: Config, tok: Tokenizer, t: Tables, t1: Tables, t2: Tables,
                                      walk: seq<Option<string>>, failed: set<string>, whole: bool)
    requires StageDone(c, tok, t, t1, Yielded(walk), failed, whole)
    requires Thinned(t1, t2, Yielded(walk))
    requires Complete(walk)
    ensures forall q :: IndexView(c, tok, t, t2, walk, q)
    ensures whole && (forall q | q !in Yielded(walk) :: View(t2, q) == NOVIEW) ==>
              Indexed(c, t, t2, Yielded(walk), failed)
  {
    forall q ensures IndexView(c, tok, t, t2, walk, q) {
      assert StageView(c, tok, t, t1, Yielded(walk), q) && PruneView(t1, t2, Yielded(walk), q);
    }
    forall q | whole && q in Yielded(walk) ensures StageSettles(c, t, t2, Yielded(walk), failed, q) {
      assert PruneView(t1, t2, Yielded(walk), q) && StageSettles(c, t, t1, Yielded(walk), failed, q);
      FileOf(t1, q);
      FileOf(t2, q);
    }
  }

  /** The path is to be removed rather than indexed. */
  predicate Gone(c: Config, p: string) {
    !c.inRoot(p) || c.disk(p) == Missing
  }

  predicate ToIndex(c: Config, p: string) {
    !Gone(c, p) && c.disk(p) != StatError && c.matches(p)
  }

  function Selected(c: Config, paths: seq<string>): seq<string> {
    Filter((p: string) => ToIndex(c, p), paths)
  }

  /** Nothing is stored for the paths that are gone. */
  ghost predicate NoneGone(c: Config, t: Tables, paths: seq<string>) {
    forall q | q in paths && Gone(c, q) :: View(t, q) == NOVIEW
  }

  lemma {:induction false} SelectedNext(c: Config, paths: seq<string>, i: nat)
    requires i < |paths|
    ensures Selected(c, paths[..i + 1]) == Selected(c, paths[..i]) + if ToIndex(c, paths[i]) then [paths[i]] else []
  {
    FilterNext((p: string) => ToIndex(c, p), paths, i);
  }

  ghost predicate SweptView(c: Config, t: Tables, t': Tables, paths: seq<string>, q: string) {
    View(t', q) == View(t, q) || (q in paths && Gone(c, q) && View(t', q) == NOVIEW)
  }

  ghost predicate Swept(c: Config, t: Tables, t': Tables, paths: seq<string>) {
    forall q :: SweptView(c, t, t', paths, q)
  }

  /** However a run over given paths ends, a file is as it was, or is a selected one with its fresh
      rows, or is a given one that is gone. */
  ghost predicate FilesView(c: Config, tok: Tokenizer, t: Tables, t': Tables, paths: seq<string>, q: string) {
    StageView(c, tok, t, t', Selected(c, paths), q) || (q in paths && Gone(c, q) && View(t', q) == NOVIEW)
  }

  lemma {:induction false} SweptFiles(c: Config, tok: Tokenizer, t: Tables, t1: Tables, t2: Tables, paths: seq<string>,
                                      toIndex: seq<string>, failed: set<string>, whole: bool)
    requires Swept(c, t, t1, paths)
    requires StageDone(c, tok, t1, t2, toIndex, failed, whole) && (toIndex == Selected(c, paths) || toIndex == [])
    ensures forall q :: FilesView(c, tok, t, t2, paths, q)
    ensures whole ==> forall q | q in toIndex :: StageSettles(c, t, t2, toIndex, failed, q)
    ensures NoneGone(c, t1, paths) ==> NoneGone(c, t2, paths)
  {
    forall q
      ensures FilesView(c, tok, t, t2, paths, q)
      ensures q in paths && Gone(c, q) && View(t1, q) == NOVIEW ==> View(t2, q) == NOVIEW
    {
      FilterMember((p: string) => ToIndex(c, p), paths, q);
      assert SweptView(c, t, t1, paths, q) && StageView(c, tok, t1, t2, toIndex, q);
      FileOf(t, q);
      FileOf(t1, q);
    }
    forall q | whole && q in toIndex ensures StageSettles(c, t, t2, toIndex, failed, q) {
      FilterMember((p: string) => ToIndex(c, p), paths, q);
      assert SweptView(c, t, t1, paths, q) && StageSettles(c, t1, t2, toIndex, failed, q);
      FileOf(t, q);
      FileOf(t1, q);
    }
  }

  /** What a staleness check says of a path in the root. */
  predicate IsStale(c: Config, stored: map<string, FileRow>, p: string) {
    c.inRoot(p) &&
    match c.disk(p)
    case Missing => true
    case StatError => true
    case Unreadable(mtime, size) => !(p in stored && stored[p].mtime == mtime && stored[p].size == size)
    case Readable(content, mtime) =>
      && !(p in stored && stored[p].mtime == mtime && stored[p].size == |content|)
      && !TooLarge(c, content)
      && (if p in stored then stored[p].hash else Unset) != ContentHash(content)
  }

  lemma {:induction false} FileOf(t: Tables, q: string)
    ensures View(t, q).file == if q in t.files then Some(t.files[q]) else None
  {}

  /** Whatever was written is settled. */
  lemma {:induction false} WrittenSettled(c: Config, tok: Tokenizer, t: Tables, paths: seq<string>,
                                          chunked: seq<ChunkedFile>, failedIdx: set<nat>, entries: seq<FileRecords>,
                                          kept: seq<ChunkedFile>, written: nat)
    requires Keyed(t) && Chunked(c, t, paths, chunked) && (forall p | c.inRoot(p) :: NUL !in p)
    requires EntriesOf(c, entries, kept) && KeptOf(chunked, failedIdx, |chunked|, kept) && written <= |entries|
    ensures forall p | p in PathsOf(entries[..written]) ::
              NeedsIndexing(c, t, p) && Settled(c, ReplaceAll(tok, t, entries[..written]), p)
  {
    forall p | p in PathsOf(entries[..written])
      ensures NeedsIndexing(c, t, p) && Settled(c, ReplaceAll(tok, t, entries[..written]), p)
    {
      KeptView(c, tok, t, paths, chunked, failedIdx, entries, kept, written, p);
      var k :| 0 <= k < written && entries[..written][k].filePath == p;
      KeptNeeded(c, t, paths, chunked, failedIdx, kept, k);
      assert entries[k].filePath == kept[k].info.path;
      FileOf(ReplaceAll(tok, t, entries[..written]), p);
    }
  }

  lemma {:induction false} KeptNeeded(c: Config, t: Tables, paths: seq<string>, chunked: seq<ChunkedFile>,
                                      failedIdx: set<nat>, kept: seq<ChunkedFile>, k: nat)
    requires Chunked(c, t, paths, chunked) && KeptOf(chunked, failedIdx, |chunked|, kept) && k < |kept|
    ensures NeedsIndexing(c, t, kept[k].info.path)
  {}

  lemma {:induction false} ToldFirst(before: seq<Note>, after: seq<Note>, q: string) returns (k: nat)
    requires before <= after && Told(after, q) > Told(before, q)
    ensures |before| <= k < |after| && after[k].path == q && Told(after[..k], q) == Told(before, q)
  {
    var n := |after| - 1;
    assert before != after;
    if Told(after[..n], q) > Told(before, q) {
      k := ToldFirst(before, after[..n], q);
      assert after[..n][..k] == after[..k];
    } else {
      k := n;
      ToldGrows(before, after[..n], q);
    }
  }

  lemma {:induction false} ToldGrows(before: seq<Note>, after: seq<Note>, q: string)
    requires before <= after
    ensures Told(before, q) <= Told(after, q)
  {
    if before != after { ToldGrows(before, after[..|after| - 1], q); }
  }

  /** In a run that ends well a path named once in the root gets exactly one notification: of a failure
      exactly if one of the file's own chunks failed to embed, of a skip exactly if the file was
      unchanged, unreadable under the limits or of no known language. */
  lemma {:induction false} OneVerdict(c: Config, t: Tables, t': Tables, paths: seq<string>, failed: set<string>,
                                      attempts: seq<Attempt>, before: seq<Note>, after: seq<Note>, q: string)
    returns (k: nat)
    requires RunNotes(c, t, t', paths, failed, true, before, after) && Reported(c, before, after, paths)
    requires StageSettles(c, t, t', paths, failed, q) && Explained(c, paths, failed, attempts)
    requires Wanted(c, paths, q) == 1
    ensures |before| <= k < |after| && after[k].path == q
    ensures forall j | |before| <= j < |after| && after[j].path == q :: j == k
    ensures after[k].FileError? <==> q in failed
    ensures after[k].Skipped? <==> !NeedsIndexing(c, t, q) || Unsupported(c, q)
    ensures after[k].Processed? ==> Settled(c, t', q)
  {
    k := ToldFirst(before, after, q);
    forall j | |before| <= j < |after| && after[j].path == q ensures j == k {
      if j != k {
        ToldGrows(before, after[..if k < j then k else j], q);
        ToldApart(after, q, k, j);
      }
    }
    assert RunNote(c, t, t', paths, failed, true, after[k]);
    if q in failed {
      FailedSupported(c, paths, failed, attempts, q);
      FileOf(t, q);
      FileOf(t', q);
    }
  }

  /** In terms of the disk, the store and the chunker: a failure iff one of the file's chunks failed; a skip
      iff it is unreadable or too large, or its hash is the recorded one, or its language is not known. */
  lemma {:induction false} VerdictExactly(c: Config, t: Tables, t': Tables, paths: seq<string>, failed: set<string>,
                                          attempts: seq<Attempt>, before: seq<Note>, after: seq<Note>, q: string)
    returns (k: nat)
    requires RunNotes(c, t, t', paths, failed, true, before, after) && Reported(c, before, after, paths)
    requires StageSettles(c, t, t', paths, failed, q) && Explained(c, paths, failed, attempts)
    requires Wanted(c, paths, q) == 1
    ensures |before| <= k < |after| && after[k].path == q
    ensures forall j | |before| <= j < |after| && after[j].path == q :: j == k
    ensures after[k].FileError? <==> exists j :: 0 <= j < |attempts| && attempts[j].failed && attempts[j].path == q
    ensures after[k].Skipped? <==>
      || !c.inRoot(q) || !c.disk(q).Readable?
      || (c.maxFileSize > 0 && |c.disk(q).content| > c.maxFileSize)
      || (q in t.files && t.files[q].hash == ContentHash(c.disk(q).content))
      || (c.chunker.Some? && c.chunker.value(q, c.disk(q).content).UnsupportedLanguage?)
    ensures after[k].Processed? ==>
      c.disk(q).Readable? && q in t'.files && t'.files[q].hash == ContentHash(c.disk(q).content)
  {
    k := OneVerdict(c, t, t', paths, failed, attempts, before, after, q);
  }

  lemma {:induction false} ToldApart(after: seq<Note>, q: string, k: nat, j: nat)
    requires k < |after| && j < |after| && after[k].path == q == after[j].path && k != j
    ensures Told(after, q) >= Told(after[..if k < j then k else j], q) + 2
  {
    var a, b := if k < j then k else j, if k < j then j else k;
    assert after[..a + 1][..a] == after[..a] && after[..b + 1][..b] == after[..b];
    ToldGrows(after[..a + 1], after[..b], q);
    ToldGrows(after[..b + 1], after, q);
  }

  /** A file with a failed chunk is of a known language. */
  lemma {:induction false} FailedSupported(c: Config, paths: seq<string>, failed: set<string>, attempts: seq<Attempt>,
                                           q: string)
    requires Explained(c, paths, failed, attempts) && q in failed
    ensures !Unsupported(c, q)
  {}

  lemma {:induction false} SameFile(c: Config, t: Tables, paths: seq<string>, chunked: seq<ChunkedFile>, i: nat, j: nat)
    requires Chunked(c, t, paths, chunked)
    requires i < |chunked| && j < |chunked| && chunked[i].info.path == chunked[j].info.path
    ensures chunked[i] == chunked[j]
  {}

  /** A file named once in the batch is not both failed and written. */
  lemma {:induction false} FailedNotWritten(c: Config, t: Tables, paths: seq<string>, chunked: seq<ChunkedFile>,
                                            failedIdx: set<nat>, kept: seq<ChunkedFile>, q: string)
    requires Chunked(c, t, paths, chunked) && KeptOf(chunked, failedIdx, |chunked|, kept)
    requires forall i | 0 <= i < |chunked| && i in failedIdx :: !chunked[i].skipProgress
    requires exists i :: 0 <= i < |chunked| && i in failedIdx && chunked[i].info.path == q
    requires Due(Pending(chunked), q) <= 1
    ensures forall k | 0 <= k < |kept| :: kept[k].info.path != q
  {
    var i :| 0 <= i < |chunked| && i in failedIdx && chunked[i].info.path == q;
    forall k | 0 <= k < |kept| ensures kept[k].info.path != q {
      var j := KeptFrom(chunked, failedIdx, kept, k);
      if chunked[j].info.path == q {
        SameFile(c, t, paths, chunked, i, j);
        DueTwice(chunked, if i < j then i else j, if i < j then j else i, q);
      }
    }
  }

  lemma {:induction false} SettledUnlessFailed(c: Config, tok: Tokenizer, t: Tables, paths: seq<string>,
                                               chunked: seq<ChunkedFile>, failedIdx: set<nat>,
                                               entries: seq<FileRecords>, kept: seq<ChunkedFile>, q: string)
    requires Chunked(c, t, paths, chunked) && q in paths && InfoFor(c, q).Some?
    requires EntriesOf(c, entries, kept) && KeptOf(chunked, failedIdx, |chunked|, kept)
    requires forall i | 0 <= i < |chunked| && i in failedIdx :: chunked[i].info.path != q
    requires var t' := ReplaceAll(tok, t, entries);
             if LastFor(entries, q) >= 0 then View(t', q) == FreshOf(c, tok, q) else View(t', q) == View(t, q)
    ensures Settled(c, ReplaceAll(tok, t, entries), q)
  {
    var t' := ReplaceAll(tok, t, entries);
    if NeedsIndexing(c, t, q) {
      var i :| 0 <= i < |chunked| && chunked[i].info.path == q;
      var k :| 0 <= k < |kept| && kept[k] == chunked[i];
      assert entries[k].filePath == q;
    }
    assert View(t', q).file == if q in t'.files then Some(t'.files[q]) else None;
    assert View(t, q).file == if q in t.files then Some(t.files[q]) else None;
  }

  /** The entries fit the store, and writing any number of them keeps the invariant. */
  ghost predicate Writable(c: Config, dim: nat, tok: Tokenizer, t: Tables, entries: seq<FileRecords>) {
    && (forall k | 0 <= k < |entries| :: Fits(dim, entries[k].records))
    && (forall n | 0 <= n <= |entries| :: Inv(c, tok, ReplaceAll(tok, t, entries[..n])))
  }

  lemma {:induction false} EntriesWritable(c: Config, dim: nat, tok: Tokenizer, t: Tables, entries: seq<FileRecords>,
                                           kept: seq<ChunkedFile>)
    requires ConfigOk(c, dim) && Inv(c, tok, t) && EntriesOf(c, entries, kept)
    requires forall k | 0 <= k < |kept| :: NUL !in kept[k].info.path
    ensures Writable(c, dim, tok, t, entries)
  {
    EntriesFit(c, dim, entries, kept);
    forall n | 0 <= n <= |entries| ensures Inv(c, tok, ReplaceAll(tok, t, entries[..n])) {
      InvReplaceAll(c, tok, t, entries[..n], kept[..n]);
    }
  }

  /** Entries and the files they were built from, with the skipped ones known by path. */
  ghost predicate InStep(c: Config, entries: seq<FileRecords>, kept: seq<ChunkedFile>, skips: set<string>) {
    |entries| == |kept| && forall k | 0 <= k < |kept| ::
      && entries[k].filePath == kept[k].info.path
      && (kept[k].skipProgress <==> kept[k].info.path in skips)
      && (kept[k].skipProgress <==> Unsupported(c, kept[k].info.path))
  }

  /** The paths already reported as skipped when their file is written. */
  function Skips(chunked: seq<ChunkedFile>): set<string> {
    set i | 0 <= i < |chunked| && chunked[i].skipProgress :: chunked[i].info.path
  }

  lemma {:induction false} ReplaceAllAppend(tok: Tokenizer, t: Tables, xs: seq<FileRecords>, ys: seq<FileRecords>)
    ensures ReplaceAll(tok, ReplaceAll(tok, t, xs), ys) == ReplaceAll(tok, t, xs + ys)
  {
    if ys == [] {
      assert xs + ys == xs;
    } else {
      var less, e := ys[..|ys| - 1], ys[|ys| - 1];
      assert ys == less + [e];
      ReplaceAllAppend(tok, t, xs, less);
      ReplaceAllLast(tok, ReplaceAll(tok, t, xs), less, e);
      ReplaceAllLast(tok, t, xs + less, e);
      Assoc(xs, less, [e]);
    }
  }

  lemma {:induction false} ReplaceAllLast(tok: Tokenizer, t: Tables, es: seq<FileRecords>, e: FileRecords)
    ensures ReplaceAll(tok, t, es + [e]) == Replace(tok, ReplaceAll(tok, t, es), e)
  {
    assert (es + [e])[..|es|] == es;
  }

  lemma {:induction false} EntriesFit(c: Config, dim: nat, entries: seq<FileRecords>, kept: seq<ChunkedFile>)
    requires ConfigOk(c, dim) && EntriesOf(c, entries, kept)
    ensures forall k | 0 <= k < |entries| :: Fits(dim, entries[k].records)
  {
    forall k | 0 <= k < |entries| ensures Fits(dim, entries[k].records) {
      var f := kept[k].info;
      var chunks := ChunksOf(c, f.path, f.content);
      var rs := FreshRecords(c, f.path, chunks);
      assert entries[k].records == rs;
      assert forall j | 0 <= j < |rs| :: rs[j] == RecordFor(f.path, chunks[j], c.vector(chunks[j].content));
    }
  }

  lemma {:induction false} InvReplaceAll(c: Config, tok: Tokenizer, t: Tables, entries: seq<FileRecords>,
                                         kept: seq<ChunkedFile>)
    requires Inv(c, tok, t) && EntriesOf(c, entries, kept)
    requires forall k | 0 <= k < |kept| :: NUL !in kept[k].info.path
    ensures Inv(c, tok, ReplaceAll(tok, t, entries))
  {
    if entries != [] {
      var n := |entries| - 1;
      InvReplaceAll(c, tok, t, entries[..n], kept[..n]);
      var f := kept[n].info;
      ReplaceFresh(c, tok, ReplaceAll(tok, t, entries[..n]), f.path, f.content, f.mtime);
    }
  }

  /** Since the log was start, each file due is either reported or still due among those kept. */
  ghost predicate Accounted(start: seq<Note>, log: seq<Note>, chunked: seq<ChunkedFile>, kept: seq<ChunkedFile>) {
    forall q :: Told(log, q) + Due(Pending(kept), q) == Told(start, q) + Due(Pending(chunked), q)
  }

  lemma {:induction false} AccountedNext(start: seq<Note>, log: seq<Note>, chunked: seq<ChunkedFile>, i: nat,
                                         kept: seq<ChunkedFile>)
    requires i < |chunked| && Accounted(start, log, chunked[..i], kept)
    ensures Accounted(start, log, chunked[..i + 1], kept + [chunked[i]])
    ensures !chunked[i].skipProgress ==>
              Accounted(start, log + [FileError(chunked[i].info.path)], chunked[..i + 1], kept)
  {
    SliceNext(chunked, i);
    PendingAppend(chunked[..i], chunked[i]);
    PendingAppend(kept, chunked[i]);
    var more := log + [FileError(chunked[i].info.path)];
    assert more[..|log|] == log;
  }

  ghost predicate EntriesOf(c: Config, entries: seq<FileRecords>, kept: seq<ChunkedFile>) {
    |entries| == |kept| && forall k | 0 <= k < |kept| :: entries[k] == EntryFor(c, kept[k].info)
  }

  lemma {:induction false} EntriesNext(c: Config, entries: seq<FileRecords>, kept: seq<ChunkedFile>, e: FileRecords,
                                       cf: ChunkedFile)
    requires EntriesOf(c, entries, kept) && e == EntryFor(c, cf.info)
    ensures EntriesOf(c, entries + [e], kept + [cf])
  {}

  /** Exactly the first n files that did not fail. */
  ghost predicate KeptOf(chunked: seq<ChunkedFile>, failedIdx: set<nat>, n: nat, kept: seq<ChunkedFile>)
    requires n <= |chunked|
  {
    && (forall j | 0 <= j < n && j !in failedIdx :: chunked[j] in kept)
    && (forall k | 0 <= k < |kept| :: exists j :: 0 <= j < n && j !in failedIdx && chunked[j] == kept[k])
  }

  lemma {:induction false} KeptFrom(chunked: seq<ChunkedFile>, failedIdx: set<nat>, kept: seq<ChunkedFile>, k: nat)
    returns (j: nat)
    requires KeptOf(chunked, failedIdx, |chunked|, kept) && k < |kept|
    ensures j < |chunked| && j !in failedIdx && chunked[j] == kept[k]
  {
    var cf := kept[k];
    j :| 0 <= j < |chunked| && j !in failedIdx && chunked[j] == cf;
  }

  lemma {:induction false} KeptNext(chunked: seq<ChunkedFile>, failedIdx: set<nat>, n: nat, kept: seq<ChunkedFile>)
    requires n < |chunked| && KeptOf(chunked, failedIdx, n, kept)
    ensures KeptOf(chunked, failedIdx, n + 1, if n in failedIdx then kept else kept + [chunked[n]])
  {
    var more := if n in failedIdx then kept else kept + [chunked[n]];
    forall j | 0 <= j < n + 1 && j !in failedIdx ensures chunked[j] in more {
      if j == n { assert more[|kept|] == chunked[n]; } else { assert chunked[j] in kept; }
    }
    forall k | 0 <= k < |more| ensures exists j :: 0 <= j < n + 1 && j !in failedIdx && chunked[j] == more[k] {
      if k < |kept| {
        var j :| 0 <= j < n && j !in failedIdx && chunked[j] == kept[k];
        assert j < n + 1 && chunked[j] == more[k];
      }
    }
  }

  /** File i can be written unless it failed: all its chunks' embeddings are at hand. */
  ghost predicate Deliverable(c: Config, chunked: seq<ChunkedFile>, i: nat, failedIdx: set<nat>,
                              cached: map<Hash, Vector>, byFile: map<nat, map<nat, Vector>>)
    requires i < |chunked|
  {
    && chunked[i] == ChunkedFor(c, chunked[i].info) && InfoFor(c, chunked[i].info.path) == Some(chunked[i].info)
    && (i in failedIdx ==> !chunked[i].skipProgress)
    && (i !in failedIdx ==>
          forall j | 0 <= j < |chunked[i].chunks| :: Available(c, chunked[i], i, j, cached, byFile))
  }

  /** What stage 3 delivers: a file fails exactly if one of its own uncached chunks failed, and an
      uncached chunk of any other file has its own vector. */
  ghost predicate Embedded(c: Config, chunked: seq<ChunkedFile>, cached: map<Hash, Vector>, failedIdx: set<nat>,
                           byFile: map<nat, map<nat, Vector>>, attempts: seq<Attempt>, origins: seq<(nat, nat)>) {
    && |attempts| == |origins|
    && (forall k | 0 <= k < |origins| ::
          && Uncached(chunked, cached, origins[k].0, origins[k].1)
          && attempts[k].path == chunked[origins[k].0].info.path
          && attempts[k].text == chunked[origins[k].0].chunks[origins[k].1].content
          && (attempts[k].failed ==> Failing(c, attempts[k].text)))
    && (forall i :: i in failedIdx <==> exists k :: 0 <= k < |attempts| && attempts[k].failed && origins[k].0 == i)
    && (forall i: nat, j: nat | Uncached(chunked, cached, i, j) && i !in failedIdx ::
          Holds(byFile, (i, j), c.vector(chunked[i].chunks[j].content)))
  }

  /** The embedding of chunk j of file i is at hand, and it is that chunk's. */
  predicate Available(c: Config, cf: ChunkedFile, i: nat, j: nat, cached: map<Hash, Vector>,
                      byFile: map<nat, map<nat, Vector>>)
    requires j < |cf.chunks|
  {
    var content := cf.chunks[j].content;
    if ContentHash(content) in cached then cached[ContentHash(content)] == c.vector(content)
    else Holds(byFile, (i, j), c.vector(content))
  }

  predicate Holds(byFile: map<nat, map<nat, Vector>>, origin: (nat, nat), v: Vector) {
    origin.0 in byFile && origin.1 in byFile[origin.0] && byFile[origin.0][origin.1] == v
  }

  predicate Uncached(chunked: seq<ChunkedFile>, cached: map<Hash, Vector>, i: nat, j: nat) {
    i < |chunked| && j < |chunked[i].chunks| && ContentHash(chunked[i].chunks[j].content) !in cached
  }

  /** Everything before chunk j of file i has been collected. */
  ghost predicate Collected(chunked: seq<ChunkedFile>, cached: map<Hash, Vector>, i: nat, j: nat,
                            origins: seq<(nat, nat)>, texts: seq<string>) {
    && |origins| == |texts|
    && (forall k | 0 <= k < |origins| ::
          && Uncached(chunked, cached, origins[k].0, origins[k].1)
          && (origins[k].0 < i || (origins[k].0 == i && origins[k].1 < j))
          && texts[k] == chunked[origins[k].0].chunks[origins[k].1].content)
    && (forall a: nat, b: nat | Uncached(chunked, cached, a, b) && (a < i || (a == i && b < j)) :: (a, b) in origins)
    && (forall k, l | 0 <= k < l < |origins| :: origins[k] != origins[l])
  }

  function Changed(hashes: map<string, Hash>, fs: seq<FileInfo>): seq<FileInfo> {
    Filter((f: FileInfo) => Differs(hashes, f), fs)
  }

  lemma {:induction false} ChangedNext(hashes: map<string, Hash>, fs: seq<FileInfo>, f: FileInfo)
    ensures Changed(hashes, fs + [f]) == if Differs(hashes, f) then Changed(hashes, fs) + [f] else Changed(hashes, fs)
    ensures forall q :: Due(fs + [f], q) == Due(fs, q) + One(f.path, q)
    ensures forall q :: Due(Changed(hashes, fs) + [f], q) == Due(Changed(hashes, fs), q) + One(f.path, q)
  {
    FilterAppend((f: FileInfo) => Differs(hashes, f), fs, [f]);
    FilterOne((f: FileInfo) => Differs(hashes, f), f);
    DueAppend(fs, f);
    DueAppend(Changed(hashes, fs), f);
  }

  predicate Differs(hashes: map<string, Hash>, f: FileInfo) {
    (if f.path in hashes then hashes[f.path] else Unset) != f.hash
  }

  /** The files not yet reported. */
  function Pending(chunked: seq<ChunkedFile>): seq<FileInfo> {
    if chunked == [] then []
    else
      var rest := Pending(chunked[..|chunked| - 1]);
      if chunked[|chunked| - 1].skipProgress then rest else rest + [chunked[|chunked| - 1].info]
  }

  lemma {:induction false} PendingAppend(chunked: seq<ChunkedFile>, cf: ChunkedFile)
    ensures forall q :: Due(Pending(chunked + [cf]), q) ==
                        Due(Pending(chunked), q) + if cf.skipProgress then 0 else One(cf.info.path, q)
  {}

  // ---------- The pipeline ----------

  class Indexer {
    const c: Config
    const store: SqliteStore
    const progress: Progress
    const ctx: Context
    const concurrency: nat
    const writeBatchSize: nat
    var onIndexed: nat  // invocations of the callback that invalidates derived caches

    constructor (c: Config, store: SqliteStore, progress: Progress, ctx: Context, concurrency: nat, writeBatchSize: nat)
      requires ConfigOk(c, store.dim) && concurrency > 0 && writeBatchSize > 0
      ensures this.c == c && this.store == store && this.progress == progress && this.ctx == ctx
      ensures this.concurrency == concurrency && this.writeBatchSize == writeBatchSize
      ensures store.Valid() && (store.db == EMPTY || Inv(c, store.tok, store.db)) ==> Valid()
    {
      EmptyInv(c, store.tok);
      this.c, this.store, this.progress, this.ctx := c, store, progress, ctx;
      this.concurrency, this.writeBatchSize, onIndexed := concurrency, writeBatchSize, 0;
    }

    ghost predicate Valid()
      reads this, store
    {
      && ConfigOk(c, store.dim) && concurrency > 0 && writeBatchSize > 0
      && store.Valid() && Inv(c, store.tok, store.db)
    }

    /** One worker of stage 1: stat, read and hash one path. */
    method ReadOne(p: string) returns (info: Option<FileInfo>, ok: bool)
      modifies progress
      ensures ok ==> info == InfoFor(c, p)
      ensures progress.log == old(progress.log) + if ok && c.inRoot(p) && info == None then [Skipped(p)] else []
      ensures ok <==> c.inRoot(p) ==> c.disk(p).Readable?
    {
      info, ok := None, true;
      if !c.inRoot(p) {
        return;
      }
      match c.disk(p)
      case Readable(content, mtime) =>
        if c.maxFileSize > 0 && |content| > c.maxFileSize {
          progress.FileSkipped(p);
          return;
        }
        info := Some(FileInfo(p, content, ContentHash(content), mtime, |content|));
      case _ =>
        ok := false;
    }

    /** Stage 1: read and hash. */
    method ReadAndHash(paths: seq<string>, ghost t: Tables) returns (infos: seq<Option<FileInfo>>, ok: bool)
      modifies progress
      ensures Truthful(c, t, {}, {}, old(progress.log), progress.log)
      ensures ok ==> |infos| == |paths| && forall i | 0 <= i < |paths| :: infos[i] == InfoFor(c, paths[i])
      ensures ok ==> Balanced(c, old(progress.log), progress.log, infos, paths)
      ensures ok <==> forall i | 0 <= i < |paths| :: c.inRoot(paths[i]) ==> c.disk(paths[i]).Readable?
    {
      infos, ok := [], true;
      assert paths[..0] == [];
      TruthfulNone(c, t, {}, {}, progress.log);
      for i := 0 to |paths|
        invariant Truthful(c, t, {}, {}, old(progress.log), progress.log)
        invariant |infos| == i && forall j | 0 <= j < i :: infos[j] == InfoFor(c, paths[j])
        invariant Balanced(c, old(progress.log), progress.log, infos, paths[..i])
        invariant forall j | 0 <= j < i :: c.inRoot(paths[j]) ==> c.disk(paths[j]).Readable?
      {
        ghost var log := progress.log;
        var info, read := ReadOne(paths[i]);
        TruthfulAdd(c, t, {}, {}, old(progress.log), log, Skipped(paths[i]), progress.log);
        if !read {
          return infos, false;
        }
        BalancedNext(c, old(progress.log), log, progress.log, infos, info, paths, i);
        infos := infos + [info];
      }
      assert paths[..|paths|] == paths;
    }

    /** Whether the file's stored hash differs; if not, it is skipped. */
    method KeepOne(f: FileInfo, hashes: map<string, Hash>) returns (keep: bool)
      modifies progress
      ensures keep == Differs(hashes, f)
      ensures progress.log == old(progress.log) + if keep then [] else [Skipped(f.path)]
      ensures forall q :: Told(progress.log, q) == old(Told(progress.log, q)) + if keep then 0 else One(f.path, q)
    {
      keep := (if f.path in hashes then hashes[f.path] else Unset) != f.hash;
      if !keep {
        progress.FileSkipped(f.path);
      }
    }

    /** The files whose stored hash differs. */
    method KeepChanged(infos: seq<Option<FileInfo>>, hashes: map<string, Hash>, ghost t: Tables)
      returns (changed: seq<FileInfo>)
      requires forall i | 0 <= i < |infos| && infos[i].Some? :: InfoFor(c, infos[i].value.path) == infos[i]
      requires forall p | p in hashes :: p in t.files && hashes[p] == t.files[p].hash
      modifies progress
      ensures Truthful(c, t, {}, {}, old(progress.log), progress.log)
      ensures changed == Changed(hashes, Live(infos))
      ensures forall q :: Told(progress.log, q) + Due(changed, q) == old(Told(progress.log, q)) + Due(Live(infos), q)
    {
      changed := [];
      assert Live(infos[..0]) == [];
      TruthfulNone(c, t, {}, {}, progress.log);
      for i := 0 to |infos|
        invariant Truthful(c, t, {}, {}, old(progress.log), progress.log)
        invariant changed == Changed(hashes, Live(infos[..i]))
        invariant forall q ::
                    Told(progress.log, q) + Due(changed, q) == old(Told(progress.log, q)) + Due(Live(infos[..i]), q)
      {
        assert infos[..i + 1][..i] == infos[..i];
        if infos[i] == None {
          continue;
        }
        var f := infos[i].value;
        ChangedNext(hashes, Live(infos[..i]), f);
        ghost var log := progress.log;
        var keep := KeepOne(f, hashes);
        TruthfulAdd(c, t, {}, {}, old(progress.log), log, Skipped(f.path), progress.log);
        if keep {
          changed := changed + [f];
        }
      }
      assert infos[..|infos|] == infos;
    }

    /** One worker of stage 2. */
    method ChunkOne(fi: FileInfo) returns (cf: ChunkedFile, ok: bool)
      modifies progress
      ensures ok <==> !AnalysisOf(c, fi.path, fi.content).Failed?
      ensures ok ==> cf == ChunkedFor(c, fi)
      ensures progress.log == old(progress.log) + if ok && cf.skipProgress then [Skipped(fi.path)] else []
      ensures ok ==> forall q ::
                Told(progress.log, q) == old(Told(progress.log, q)) + if cf.skipProgress then One(fi.path, q) else 0
    {
      cf, ok := ChunkedFile(fi, [], [], false), true;
      match AnalysisOf(c, fi.path, fi.content) {
        case UnsupportedLanguage =>
          progress.FileSkipped(fi.path);
          cf := ChunkedFile(fi, [], [], true);
        case Failed =>
          ok := false;
        case Parsed(chunks, edges) =>
          cf := ChunkedFile(fi, chunks, if c.enableGraph then edges else [], false);
      }
    }

    /** Stage 2: chunk. */
    method ChunkAll(changed: seq<FileInfo>, ghost t: Tables) returns (chunked: seq<ChunkedFile>, ok: bool)
      requires forall i | 0 <= i < |changed| :: InfoFor(c, changed[i].path) == Some(changed[i])
      modifies progress
      ensures Truthful(c, t, {}, {}, old(progress.log), progress.log)
      ensures ok ==> |chunked| == |changed| && forall i | 0 <= i < |changed| :: chunked[i] == ChunkedFor(c, changed[i])
      ensures ok ==> forall q ::
                Told(progress.log, q) + Due(Pending(chunked), q) == old(Told(progress.log, q)) + Due(changed, q)
      ensures ok <==> forall i | 0 <= i < |changed| :: !AnalysisOf(c, changed[i].path, changed[i].content).Failed?
    {
      chunked, ok := [], true;
      assert changed[..0] == [];
      TruthfulNone(c, t, {}, {}, progress.log);
      for i := 0 to |changed|
        invariant Truthful(c, t, {}, {}, old(progress.log), progress.log)
        invariant |chunked| == i && forall j | 0 <= j < i :: chunked[j] == ChunkedFor(c, changed[j])
        invariant forall q ::
                    Told(progress.log, q) + Due(Pending(chunked), q)
                    == old(Told(progress.log, q)) + Due(changed[..i], q)
        invariant forall j | 0 <= j < i :: !AnalysisOf(c, changed[j].path, changed[j].content).Failed?
      {
        SliceNext(changed, i);
        DueAppend(changed[..i], changed[i]);
        ghost var log := progress.log;
        var cf, chunkedOne := ChunkOne(changed[i]);
        TruthfulAdd(c, t, {}, {}, old(progress.log), log, Skipped(changed[i].path), progress.log);
        if !chunkedOne {
          return chunked, false;
        }
        PendingAppend(chunked, cf);
        chunked := chunked + [cf];
      }
      assert changed[..|changed|] == changed;
    }

    /** The content hashes of all chunks, for one cache lookup. */
    method AllHashes(chunked: seq<ChunkedFile>) returns (hashes: seq<Hash>)
      ensures forall i, j | 0 <= i < |chunked| && 0 <= j < |chunked[i].chunks| ::
                ContentHash(chunked[i].chunks[j].content) in hashes
    {
      hashes := [];
      for i := 0 to |chunked|
        invariant forall k, j | 0 <= k < i && 0 <= j < |chunked[k].chunks| ::
                    ContentHash(chunked[k].chunks[j].content) in hashes
      {
        for j := 0 to |chunked[i].chunks|
          invariant forall k, l | 0 <= k < i && 0 <= l < |chunked[k].chunks| ::
                      ContentHash(chunked[k].chunks[l].content) in hashes
          invariant forall l | 0 <= l < j :: ContentHash(chunked[i].chunks[l].content) in hashes
        {
          hashes := hashes + [ContentHash(chunked[i].chunks[j].content)];
        }
      }
    }

    /** The uncached chunks, each with the place it came from. */
    method CollectUncached(chunked: seq<ChunkedFile>, cached: map<Hash, Vector>)
      returns (origins: seq<(nat, nat)>, texts: seq<string>)
      ensures |origins| == |texts|
      ensures forall k | 0 <= k < |origins| ::
                Uncached(chunked, cached, origins[k].0, origins[k].1)
                && texts[k] == chunked[origins[k].0].chunks[origins[k].1].content
      ensures forall i: nat, j: nat | Uncached(chunked, cached, i, j) :: (i, j) in origins
      ensures forall k, l | 0 <= k < l < |origins| :: origins[k] != origins[l]
    {
      origins, texts := [], [];
      for i := 0 to |chunked|
        invariant Collected(chunked, cached, i, 0, origins, texts)
      {
        var cf := chunked[i];
        for j := 0 to |cf.chunks|
          invariant Collected(chunked, cached, i, j, origins, texts)
        {
          if ContentHash(cf.chunks[j].content) !in cached {
            origins := origins + [(i, j)];
            texts := texts + [cf.chunks[j].content];
          }
        }
      }
    }

    /** Hands each result back to the chunk it was computed for; a file with a failed chunk is
        marked failed. */
    method Distribute(origins: seq<(nat, nat)>, vectors: seq<Vector>, errs: seq<bool>)
      returns (failedIdx: set<nat>, byFile: map<nat, map<nat, Vector>>)
      requires |origins| == |vectors| == |errs|
      requires forall k, l | 0 <= k < l < |origins| :: origins[k] != origins[l]
      ensures forall i :: i in failedIdx <==> exists k :: 0 <= k < |errs| && errs[k] && origins[k].0 == i
      ensures forall k | 0 <= k < |errs| && !errs[k] :: Holds(byFile, origins[k], vectors[k])
    {
      failedIdx, byFile := {}, map[];
      for k := 0 to |errs|
        invariant forall i :: i in failedIdx <==> exists l :: 0 <= l < k && errs[l] && origins[l].0 == i
        invariant forall l | 0 <= l < k && !errs[l] :: Holds(byFile, origins[l], vectors[l])
      {
        var origin := origins[k];
        if errs[k] {
          failedIdx := failedIdx + {origin.0};
          continue;
        }
        if origin.0 !in byFile {
          byFile := byFile[origin.0 := map[]];
        }
        byFile := byFile[origin.0 := byFile[origin.0][origin.1 := vectors[k]]];
      }
    }

    /** Stage 3: embed what the cache does not hold, in one batch. */
    method EmbedUncached(chunked: seq<ChunkedFile>, cached: map<Hash, Vector>)
      returns (failedIdx: set<nat>, byFile: map<nat, map<nat, Vector>>, attempts: seq<Attempt>,
               ghost origins: seq<(nat, nat)>, outcome: Outcome)
      requires ConfigOk(c, store.dim)
      modifies ctx
      ensures outcome.Done? ==> Embedded(c, chunked, cached, failedIdx, byFile, attempts, origins)
      ensures outcome.Cancelled? ==> ctx.Dead()
      ensures ctx.asked >= old(ctx.asked)
      ensures outcome.Error? ==> exists ts :: !Sized(c, ts)
    {
      failedIdx, byFile, attempts, outcome := {}, map[], [], Done;
      var places, texts := CollectUncached(chunked, cached);
      origins := places;
      if |texts| == 0 {
        return;
      }
      var (vectors, errs) := c.embed(texts);
      var done := ctx.Err();
      if done {
        return failedIdx, byFile, attempts, origins, Cancelled;
      }
      if |vectors| != |texts| || |errs| != |texts| {
        assert !Sized(c, texts);
        return failedIdx, byFile, attempts, origins, Error;
      }
      failedIdx, byFile := Distribute(places, vectors, errs);
      attempts := seq(|texts|, k requires 0 <= k < |texts| =>
        Attempt(chunked[places[k].0].info.path, texts[k], errs[k]));
    }

    /** The records of one file, each with its cached or its new embedding. */
    method BuildRecords(cf: ChunkedFile, i: nat, cached: map<Hash, Vector>, byFile: map<nat, map<nat, Vector>>)
      returns (records: seq<Record>)
      requires forall j | 0 <= j < |cf.chunks| :: Available(c, cf, i, j, cached, byFile)
      ensures records == FreshRecords(c, cf.info.path, cf.chunks)
    {
      records := [];
      for j := 0 to |cf.chunks|
        invariant records == FreshRecords(c, cf.info.path, cf.chunks)[..j]
      {
        var ch := cf.chunks[j];
        assert Available(c, cf, i, j, cached, byFile);
        var emb: Vector := [];
        if ContentHash(ch.content) in cached {
          emb := cached[ContentHash(ch.content)];
        } else if i in byFile && j in byFile[i] {
          emb := byFile[i][j];
        }
        records := records + [Record(RecordID(cf.info.path, ch.content), cf.info.path, ch.language, ch.content,
                                     ContentHash(ch.content), ch.nodeKind, ch.name, ch.parent, ch.startLine,
                                     ch.endLine, emb)];
      }
    }

    method BuildEntry(chunked: seq<ChunkedFile>, i: nat, ghost failedIdx: set<nat>, cached: map<Hash, Vector>,
                      byFile: map<nat, map<nat, Vector>>)
      returns (entry: FileRecords)
      requires i < |chunked| && i !in failedIdx && Deliverable(c, chunked, i, failedIdx, cached, byFile)
      ensures entry == EntryFor(c, chunked[i].info)
    {
      var cf := chunked[i];
      var records := BuildRecords(cf, i, cached, byFile);
      var edges, imports := MapEdges(cf.info.path, cf.edges, records);
      entry := FileRecords(cf.info.path, records, cf.info.hash, cf.info.mtime, cf.info.size, edges, imports);
    }

    /** One file of stage 4, first half. */
    method BuildNext(chunked: seq<ChunkedFile>, i: nat, failedIdx: set<nat>, cached: map<Hash, Vector>,
                     byFile: map<nat, map<nat, Vector>>, ghost kept: seq<ChunkedFile>, ghost base: seq<Note>,
                     ghost t: Tables, ghost failed: set<string>)
      returns (built: Option<FileRecords>)
      requires i < |chunked| && Deliverable(c, chunked, i, failedIdx, cached, byFile)
      requires i in failedIdx ==> chunked[i].info.path in failed
      requires Accounted(base, progress.log, chunked[..i], kept) && Truthful(c, t, {}, failed, base, progress.log)
      modifies progress
      ensures Truthful(c, t, {}, failed, base, progress.log)
      ensures built == if i in failedIdx then None else Some(EntryFor(c, chunked[i].info))
      ensures Accounted(base, progress.log, chunked[..i + 1], if i in failedIdx then kept else kept + [chunked[i]])
    {
      AccountedNext(base, progress.log, chunked, i, kept);
      ghost var note := FileError(chunked[i].info.path);
      if i in failedIdx {
        TruthfulAdd(c, t, {}, failed, base, progress.log, note, progress.log + [note]);
        progress.FileFailed(chunked[i].info.path);
        built := None;
      } else {
        var entry := BuildEntry(chunked, i, failedIdx, cached, byFile);
        built := Some(entry);
      }
    }

    /** Stage 4, first half: the entries of the files none of whose chunks failed. */
    method BuildEntries(chunked: seq<ChunkedFile>, failedIdx: set<nat>, cached: map<Hash, Vector>,
                        byFile: map<nat, map<nat, Vector>>, ghost t: Tables, ghost failed: set<string>)
      returns (entries: seq<FileRecords>, ghost kept: seq<ChunkedFile>)
      requires forall i | 0 <= i < |chunked| :: Deliverable(c, chunked, i, failedIdx, cached, byFile)
      requires failed == set i | 0 <= i < |chunked| && i in failedIdx :: chunked[i].info.path
      modifies progress
      ensures Truthful(c, t, {}, failed, old(progress.log), progress.log)
      ensures EntriesOf(c, entries, kept) && KeptOf(chunked, failedIdx, |chunked|, kept)
      ensures Accounted(old(progress.log), progress.log, chunked, kept)
    {
      entries, kept := [], [];
      ghost var base := progress.log;
      TruthfulNone(c, t, {}, failed, base);
      for i := 0 to |chunked|
        invariant Truthful(c, t, {}, failed, base, progress.log)
        invariant EntriesOf(c, entries, kept) && KeptOf(chunked, failedIdx, i, kept)
        invariant Accounted(base, progress.log, chunked[..i], kept)
      {
        KeptNext(chunked, failedIdx, i, kept);
        var built := BuildNext(chunked, i, failedIdx, cached, byFile, kept, base, t, failed);
        if built.Some? {
          EntriesNext(c, entries, kept, built.value, chunked[i]);
          kept, entries := kept + [chunked[i]], entries + [built.value];
        }
      }
      assert chunked[..|chunked|] == chunked;
    }

    /** Stage 4, second half: writes the entries in groups. A failed group leaves the groups before
        it written and nothing of itself. */
    method WriteAll(entries: seq<FileRecords>, chunked: seq<ChunkedFile>, ghost kept: seq<ChunkedFile>, run: Session)
      returns (ok: bool, ghost written: nat)
      requires Valid() && Writable(c, store.dim, store.tok, store.db, entries)
      requires InStep(c, entries, kept, Skips(chunked))
      modifies store, progress, run
      ensures Valid() && written <= |entries| && (ok ==> written == |entries|)
      ensures Truthful(c, old(store.db), PathsOf(entries[..written]), {}, old(progress.log), progress.log)
      ensures store.db == ReplaceAll(store.tok, old(store.db), entries[..written])
      ensures ok ==> forall q :: Told(progress.log, q) == old(Told(progress.log, q)) + Due(Pending(kept), q)
      ensures run.Faultless() ==> ok
    {
      ghost var t, base := store.db, progress.log;
      var start := 0;
      ok, written := true, 0;
      TruthfulNone(c, t, PathsOf(entries[..written]), {}, base);
      while ok && start < |entries|
        invariant 0 <= start <= |entries| && written <= |entries| && (ok ==> written == start)
        invariant Truthful(c, t, PathsOf(entries[..written]), {}, base, progress.log)
        invariant Valid() && store.db == ReplaceAll(store.tok, t, entries[..written])
        invariant ok ==> forall q :: Told(progress.log, q) == Told(base, q) + Due(Pending(kept[..start]), q)
        invariant run.Faultless() ==> ok
        decreases |entries| - start
      {
        var end := if start + writeBatchSize < |entries| then start + writeBatchSize else |entries|;
        ok := WriteGroup(entries, start, end, kept, Skips(chunked), run, t, base);
        if ok {
          written := end;
        }
        start := end;
      }
      assert ok ==> entries[..written] == entries && kept[..written] == kept;
    }

    method WriteGroup(entries: seq<FileRecords>, start: nat, end: nat, ghost kept: seq<ChunkedFile>,
                      reported: set<string>, run: Session, ghost t: Tables, ghost base: seq<Note>)
      returns (ok: bool)
      requires start <= end <= |entries| && InStep(c, entries, kept, reported)
      requires Valid() && Writable(c, store.dim, store.tok, t, entries)
      requires store.db == ReplaceAll(store.tok, t, entries[..start])
      requires forall q :: Told(progress.log, q) == Told(base, q) + Due(Pending(kept[..start]), q)
      requires Truthful(c, t, PathsOf(entries[..start]), {}, base, progress.log)
      modifies store, progress, run
      ensures Truthful(c, t, PathsOf(entries[..if ok then end else start]), {}, base, progress.log)
      ensures Valid() && store.db == ReplaceAll(store.tok, t, entries[..if ok then end else start])
      ensures ok ==> forall q :: Told(progress.log, q) == Told(base, q) + Due(Pending(kept[..end]), q)
      ensures run.Faultless() ==> ok
    {
      ok := WriteRows(entries, start, end, run, t);
      if ok {
        ReportWritten(entries, start, end, kept, reported, base, t);
      }
    }

    method WriteRows(entries: seq<FileRecords>, start: nat, end: nat, run: Session, ghost t: Tables)
      returns (ok: bool)
      requires start <= end <= |entries|
      requires Valid() && Writable(c, store.dim, store.tok, t, entries)
      requires store.db == ReplaceAll(store.tok, t, entries[..start])
      modifies store, run
      ensures Valid() && store.db == ReplaceAll(store.tok, t, entries[..if ok then end else start])
      ensures run.Faultless() ==> ok
    {
      ReplaceAllAppend(store.tok, t, entries[..start], entries[start..end]);
      SliceJoin(entries, start, end);
      assert Inv(c, store.tok, ReplaceAll(store.tok, t, entries[..end]));
      ok := store.ReplaceByFiles(entries[start..end], run);
    }

    method ReportWritten(entries: seq<FileRecords>, start: nat, end: nat, ghost kept: seq<ChunkedFile>,
                         reported: set<string>, ghost base: seq<Note>, ghost t: Tables)
      requires start <= end <= |entries| && InStep(c, entries, kept, reported)
      requires Truthful(c, t, PathsOf(entries[..start]), {}, base, progress.log)
      requires forall q :: Told(progress.log, q) == Told(base, q) + Due(Pending(kept[..start]), q)
      modifies progress
      ensures Truthful(c, t, PathsOf(entries[..end]), {}, base, progress.log)
      ensures forall q :: Told(progress.log, q) == Told(base, q) + Due(Pending(kept[..end]), q)
    {
      for k := start to end
        invariant forall q :: Told(progress.log, q) == Told(base, q) + Due(Pending(kept[..k]), q)
        invariant Truthful(c, t, PathsOf(entries[..k]), {}, base, progress.log)
      {
        var p := entries[k].filePath;
        ghost var log := progress.log;
        TruthfulWritten(c, t, entries, k, base, log);
        SliceNext(kept, k);
        PendingAppend(kept[..k], kept[k]);
        if p !in reported {
          progress.FileProcessed(p);
        }
      }
    }

    /** The paths of the files read, for the hash lookup. */
    method HashPaths(infos: seq<Option<FileInfo>>) returns (paths: seq<string>)
      ensures forall i | 0 <= i < |infos| && infos[i].Some? :: infos[i].value.path in paths
    {
      paths := [];
      for i := 0 to |infos|
        invariant forall j | 0 <= j < i && infos[j].Some? :: infos[j].value.path in paths
      {
        if infos[i].Some? {
          paths := paths + [infos[i].value.path];
        }
      }
    }

    /** Stages 1 and 2 with the skip of unchanged files between them. */
    method ReadAndChunk(paths: seq<string>, run: Session) returns (chunked: seq<ChunkedFile>, ok: bool)
      requires Valid()
      modifies progress, run
      ensures Truthful(c, store.db, {}, {}, old(progress.log), progress.log)
      ensures ok ==> Chunked(c, store.db, paths, chunked)
      ensures ok ==> forall q ::
                Told(progress.log, q) + Due(Pending(chunked), q) == old(Told(progress.log, q)) + Wanted(c, paths, q)
      ensures ok ==> forall q :: Due(Pending(chunked), q) <= Wanted(c, paths, q)
      ensures run.Faultless() && AllReadable(c, paths) ==> ok
    {
      chunked := [];
      ghost var t := store.db;
      var infos, read := ReadAndHash(paths, t);
      if !read {
        return chunked, false;
      }
      var hashPaths := HashPaths(infos);
      var hashes;
      hashes, ok := store.FileHashes(hashPaths, run);
      if !ok {
        return;
      }
      ghost var log1 := progress.log;
      var changed := KeepChanged(infos, hashes, t);
      ghost var log2 := progress.log;
      TruthfulJoin(c, t, {}, {}, old(progress.log), log1, log2);
      ChangedExactly(c, t, paths, infos, hashPaths, hashes, changed);
      assert forall i | 0 <= i < |changed| :: changed[i] in changed;
      chunked, ok := ChunkAll(changed, t);
      TruthfulJoin(c, t, {}, {}, old(progress.log), log2, progress.log);
      if ok {
        forall q ensures Due(Pending(chunked), q) <= Wanted(c, paths, q) {
          DueLive(c, paths, infos, q);
          DueFilter((f: FileInfo) => Differs(hashes, f), Live(infos), q);
          DuePending(changed, chunked, q);
        }
      }
    }

    /** Stage 4: write the files none of whose chunks failed. */
    method WriteStage(ghost paths: seq<string>, chunked: seq<ChunkedFile>, failedIdx: set<nat>,
                      cached: map<Hash, Vector>, byFile: map<nat, map<nat, Vector>>, ghost failed: set<string>,
                      run: Session)
      returns (ok: bool)
      requires Valid() && Chunked(c, store.db, paths, chunked)
      requires forall i | 0 <= i < |chunked| :: Deliverable(c, chunked, i, failedIdx, cached, byFile)
      requires failed == set i | 0 <= i < |chunked| && i in failedIdx :: chunked[i].info.path
      requires forall q :: Due(Pending(chunked), q) <= Wanted(c, paths, q)
      modifies store, progress, run
      ensures Valid()
      ensures NotesTrue(c, old(store.db), store.db, failed, old(progress.log), progress.log)
      ensures StageDone(c, store.tok, old(store.db), store.db, paths, failed, ok)
      ensures ok ==> forall q :: Told(progress.log, q) == old(Told(progress.log, q)) + Due(Pending(chunked), q)
      ensures run.Faultless() ==> ok
    {
      ghost var t := store.db;
      var entries;
      ghost var kept;
      entries, kept := BuildEntries(chunked, failedIdx, cached, byFile, t, failed);
      ghost var log := progress.log;
      KeptWritable(c, store.dim, store.tok, t, paths, chunked, failedIdx, entries, kept);
      StagePlanned(c, store.tok, t, paths, chunked, failedIdx, cached, byFile, entries, kept, failed);
      ghost var written;
      ok, written := WriteAll(entries, chunked, kept, run);
      assert StageDone(c, store.tok, t, store.db, paths, failed, ok);
      TruthfulMore(c, t, PathsOf(entries[..written]), failed, old(progress.log), log, progress.log);
      WrittenSettled(c, store.tok, t, paths, chunked, failedIdx, entries, kept, written);
      NotesAfterWrite(c, t, store.db, PathsOf(entries[..written]), failed, old(progress.log), progress.log);
    }

    /** One stage batch. However it ends, only paths of the batch change, and those to their fresh
        rows; if it ends well, every file of the batch is either settled or withheld because one of
        its own chunks failed to embed, and every occurrence of a path in the root was reported
        exactly once. */
    method ProcessStageBatch(paths: seq<string>, run: Session)
      returns (outcome: Outcome, failed: set<string>, attempts: seq<Attempt>)
      requires Valid()
      modifies store, progress, ctx, run
      ensures Valid()
      ensures StageDone(c, store.tok, old(store.db), store.db, paths, failed, outcome.Done?)
      ensures NotesTrue(c, old(store.db), store.db, failed, old(progress.log), progress.log)
      ensures outcome.Done? ==> Explained(c, paths, failed, attempts)
      ensures outcome.Done? ==> Reported(c, old(progress.log), progress.log, paths)
      ensures outcome.Cancelled? ==> ctx.Dead()
      ensures ctx.asked >= old(ctx.asked)
      ensures run.Faultless() && ctx.Never() && Smooth(c, paths) ==> outcome.Done?
    {
      failed, attempts := {}, [];
      var chunked, ok := ReadAndChunk(paths, run);
      ghost var log := progress.log;
      OnlySkipped(c, store.db, old(progress.log), log);
      if !ok {
        return Error, failed, attempts;
      }
      if |chunked| == 0 {
        return Done, failed, attempts;
      }
      var allHashes := AllHashes(chunked);
      var cached;
      cached, ok := store.EmbeddingsByContentHash(allHashes, run);
      if !ok {
        return Error, failed, attempts;
      }
      var failedIdx, byFile;
      ghost var origins;
      failedIdx, byFile, attempts, origins, outcome := EmbedUncached(chunked, cached);
      if !outcome.Done? {
        return outcome, failed, attempts;
      }
      failed := set i | 0 <= i < |chunked| && i in failedIdx :: chunked[i].info.path;
      AllDeliverable(c, store.tok, store.db, paths, chunked, allHashes, cached, failedIdx, byFile, attempts, origins);
      AttemptsOwn(c, store.db, paths, chunked, cached, failedIdx, byFile, attempts, origins, failed);
      ghost var t := store.db;
      ok := WriteStage(paths, chunked, failedIdx, cached, byFile, failed, run);
      NotesJoin(c, t, store.db, failed, old(progress.log), log, progress.log);
      if !ok {
        return Error, failed, attempts;
      }
    }

    /** One stage batch after those of the paths before start. */
    method BatchNext(paths: seq<string>, start: nat, end: nat, before: set<string>, tried: seq<Attempt>, run: Session,
                     ghost t: Tables, ghost base: seq<Note>)
      returns (outcome: Outcome, failed: set<string>, attempts: seq<Attempt>)
      requires Valid() && start <= end <= |paths|
      requires StageDone(c, store.tok, t, store.db, paths[..start], before, true)
      requires Explained(c, paths[..start], before, tried)
      requires Reported(c, base, progress.log, paths[..start])
      requires RunNotes(c, t, store.db, paths[..start], before, true, base, progress.log)
      modifies store, progress, ctx, run
      ensures Valid()
      ensures StageDone(c, store.tok, t, store.db, paths[..end], failed, outcome.Done?)
      ensures RunNotes(c, t, store.db, paths[..end], failed, outcome.Done?, base, progress.log)
      ensures outcome.Done? ==> Explained(c, paths[..end], failed, attempts)
      ensures outcome.Done? ==> Reported(c, base, progress.log, paths[..end])
      ensures outcome.Cancelled? ==> ctx.Dead()
      ensures ctx.asked >= old(ctx.asked)
      ensures run.Faultless() && ctx.Never() && Smooth(c, paths) ==> outcome.Done?
    {
      ghost var t1, log := store.db, progress.log;
      var more, now;
      outcome, more, now := ProcessStageBatch(paths[start..end], run);
      failed, attempts := before + more, tried + now;
      SliceJoin(paths, start, end);
      StageJoin(c, store.tok, t, t1, store.db, paths[..start], paths[start..end], before, more, outcome.Done?);
      RunNotesJoin(c, store.tok, t, t1, store.db, paths[..start], paths[start..end], before, more, outcome.Done?,
                   base, log, progress.log);
      SmoothSlice(c, paths, start, end);
      if outcome.Done? {
        ExplainedJoin(c, paths[..start], paths[start..end], before, more, tried, now);
        ReportedJoin(c, base, log, progress.log, paths[..start], paths[start..end]);
      }
    }

    /** Runs the stage batches, asking before each whether to go on. Told to stop, it reports no
        error, and the rest of the paths is left as it was. */
    method IndexBatch(paths: seq<string>, run: Session)
      returns (ok: bool, ghost whole: bool, failed: set<string>, attempts: seq<Attempt>)
      requires Valid()
      modifies store, progress, ctx, run
      ensures Valid()
      ensures StageDone(c, store.tok, old(store.db), store.db, paths, failed, ok && whole)
      ensures ok && whole ==> Explained(c, paths, failed, attempts)
      ensures ok && whole ==> Reported(c, old(progress.log), progress.log, paths)
      ensures RunNotes(c, old(store.db), store.db, paths, failed, ok && whole, old(progress.log), progress.log)
      ensures ok && !whole ==> ctx.Dead()
      ensures whole ==> ok
      ensures old(ctx.Dead()) ==> ok && (whole <==> paths == [])
      ensures old(ctx.Dead()) ==> store.db == old(store.db) && progress.log == old(progress.log)
      ensures ctx.asked >= old(ctx.asked)
      ensures run.Faultless() && ctx.Never() && Smooth(c, paths) ==> ok && whole
    {
      ok, whole, failed, attempts := true, true, {}, [];
      ghost var t, base := store.db, progress.log;
      var start := 0;
      assert paths[..0] == [];
      RunNotesNone(c, t, paths[..0], failed, true, base);
      while start < |paths|
        invariant 0 <= start <= |paths| && ok && whole && Valid()
        invariant RunNotes(c, t, store.db, paths[..start], failed, true, base, progress.log)
        invariant old(ctx.Dead()) ==> start == 0 && store.db == t && progress.log == base
        invariant StageDone(c, store.tok, t, store.db, paths[..start], failed, true)
        invariant Explained(c, paths[..start], failed, attempts)
        invariant Reported(c, base, progress.log, paths[..start])
        invariant ctx.asked >= old(ctx.asked)
        decreases |paths| - start
      {
        var end := if start + concurrency * 4 < |paths| then start + concurrency * 4 else |paths|;
        var stop := ctx.Err();
        if stop {
          whole := false;
          StageMore(c, store.tok, t, store.db, paths, start, failed);
          RunNotesMore(c, t, store.db, paths[..start], paths, failed, true, base, progress.log);
          return;
        }
        var outcome;
        outcome, failed, attempts := BatchNext(paths, start, end, failed, attempts, run, t, base);
        if !outcome.Done? {
          ok, whole := false, false;
          StageMore(c, store.tok, t, store.db, paths, end, failed);
          RunNotesMore(c, t, store.db, paths[..end], paths, failed, false, base, progress.log);
          return;
        }
        start := end;
      }
      assert paths[..start] == paths;
    }

    /** Collects what the walk yields. The walk asks at each entry whether it was cancelled, and if so
        simply ends. An error it yields ends the run, unless it was cancelled too. */
    method Collect(walk: seq<Option<string>>) returns (paths: seq<string>, ok: bool, ghost cut: bool)
      modifies ctx
      ensures ok ==> paths <= Yielded(walk) && if cut then ctx.Dead() else paths == Yielded(walk) && Complete(walk)
      ensures !ok ==> !Complete(walk)
      ensures old(ctx.Dead()) ==> ok && paths == []
      ensures ctx.Never() && ok ==> !cut
      ensures ctx.asked >= old(ctx.asked)
    {
      paths, ok, cut := [], true, false;
      assert walk[0..] == walk;
      for i := 0 to |walk|
        invariant ok && !cut && Yielded(walk) == paths + Yielded(walk[i..])
        invariant Complete(walk) <==> Complete(walk[i..])
        invariant (old(ctx.Dead()) ==> i == 0) && ctx.asked >= old(ctx.asked)
      {
        YieldedNext(walk, i, paths);
        var stop := ctx.Err();
        if stop {
          cut := true;
          return;
        }
        if walk[i] == None {
          ok := ctx.Err();
          cut := true;
          return;
        }
        paths := paths + [walk[i].value];
      }
    }

    /** Removes every indexed file that the walk did not report. A query under a cancelled context is
        refused. */
    method Prune(paths: seq<string>, run: Session) returns (ok: bool)
      requires Valid()
      modifies store, ctx, run
      ensures Valid()
      ensures Thinned(old(store.db), store.db, paths)
      ensures ok ==> forall q | q !in paths :: View(store.db, q) == NOVIEW
      ensures old(ctx.Dead()) ==> !ok && store.db == old(store.db)
      ensures ctx.asked >= old(ctx.asked)
      ensures run.Faultless() && ctx.Never() ==> ok
    {
      ghost var t := store.db;
      var stop := ctx.Err();
      if stop {
        return false;
      }
      var indexed;
      indexed, ok := store.ListFiles(run);
      if !ok {
        return;
      }
      for i := 0 to |indexed|
        invariant ok && Valid() && Thinned(t, store.db, paths) && Absent(store.db, indexed[..i], paths)
        invariant ctx.asked >= old(ctx.asked)
      {
        SliceNext(indexed, i);
        if indexed[i] !in paths {
          ok := PruneOne(indexed[i], paths, run, t, indexed[..i]);
          if !ok {
            return;
          }
        }
      }
      assert indexed[..|indexed|] == indexed;
      forall q | q !in paths ensures View(store.db, q) == NOVIEW {
        assert PruneView(t, store.db, paths, q) && Matches(c, store.tok, t, q);
        assert q in t.files ==> q in indexed;
      }
    }

    method PruneOne(p: string, paths: seq<string>, run: Session, ghost t: Tables, ghost done: seq<string>)
      returns (ok: bool)
      requires Valid() && p !in paths && Thinned(t, store.db, paths) && Absent(store.db, done, paths)
      modifies store, run
      ensures Valid() && Thinned(t, store.db, paths)
      ensures ok ==> Absent(store.db, done + [p], paths)
      ensures run.Faultless() ==> ok
    {
      ghost var before := store.db;
      ok := Remove(p, run);
      forall q ensures PruneView(t, store.db, paths, q) {
        assert PruneView(t, before, paths, q);
      }
    }

    method Remove(p: string, run: Session) returns (ok: bool)
      requires Valid()
      modifies store, run
      ensures Valid()
      ensures forall q :: View(store.db, q) == if ok && q == p then NOVIEW else View(old(store.db), q)
      ensures run.Faultless() ==> ok
    {
      DropInv(c, store.tok, store.db, p);
      forall q ensures View(DropFile(store.db, p), q) == if q == p then NOVIEW else View(store.db, q) {
        DropFileView(store.db, p, q);
      }
      ok := store.DeleteByFile(p, run);
    }

    /** Brings the store in line with what the walk has to report. Only a run that ended after its
        last step or inside a batch under a dead context reports no error; one that noticed its
        cancellation elsewhere goes on to a query that is refused. Unless its walk was complete and
        its batches done, a run deletes nothing. */
    method Index(walk: seq<Option<string>>, run: Session)
      returns (ok: bool, ghost stop: Stop, failed: set<string>, attempts: seq<Attempt>)
      requires Valid()
      modifies this`onIndexed, store, progress, ctx, run
      ensures Valid()
      ensures forall q :: IndexView(c, store.tok, old(store.db), store.db, walk, q)
      ensures ok <==> stop.Finished? || stop == InBatch(true)
      ensures stop.CutShort? || stop.BetweenBatches? || stop == InBatch(true) ==> ctx.Dead()
      ensures if stop.Finished? || stop.AtStore? then Complete(walk)
              else forall q :: StageView(c, store.tok, old(store.db), store.db, Yielded(walk), q)
      ensures stop.WalkFailed? ==> !Complete(walk) && store.db == old(store.db)
      ensures old(ctx.Dead()) ==> !ok && store.db == old(store.db) && progress.log == old(progress.log)
      ensures stop.Finished? ==> Indexed(c, old(store.db), store.db, Yielded(walk), failed)
      ensures stop.Finished? ==> Explained(c, Yielded(walk), failed, attempts)
      ensures stop.Finished? ==> Reported(c, old(progress.log), progress.log, Yielded(walk))
      ensures RunNotes(c, old(store.db), store.db, Yielded(walk), failed, stop.Finished?, old(progress.log),
                       progress.log)
      ensures onIndexed == old(onIndexed) + if stop.Finished? then 1 else 0
      ensures run.Faultless() && ctx.Never() && Complete(walk) && Smooth(c, Yielded(walk)) ==> stop.Finished?
    {
      ghost var t, base := store.db, progress.log;
      var paths;
      ghost var cut, whole;
      paths, ok, cut := Collect(walk);
      stop, failed, attempts := WalkFailed, {}, [];
      if !ok {
        RunNotesNone(c, t, Yielded(walk), failed, false, base);
        return;
      }
      ok, whole, failed, attempts := IndexBatch(paths, run);
      UnprunedView(c, store.tok, t, store.db, walk, paths, failed);
      RunNotesMore(c, t, store.db, paths, Yielded(walk), failed, ok && whole, base, progress.log);
      if !ok {
        ok := ctx.Err();
        stop := InBatch(ok);
        return;
      }
      ghost var t1 := store.db;
      ok := Prune(paths, run);
      stop := if cut then CutShort else if !whole then BetweenBatches else if ok then Finished else AtStore;
      if !cut && whole {
        PrunedView(c, store.tok, t, t1, store.db, walk, failed, whole);
        RunNotesThinned(c, store.tok, t, t1, store.db, paths, failed, true, base, progress.log);
        RunNotesMore(c, t, store.db, paths, paths, failed, true, base, progress.log);
      }
      if !ok {
        return;
      }
      var checkpointed := run.Exec();  // a failure is only logged
      onIndexed := onIndexed + 1;
    }

    /** Whether to index one of the given paths. One that is gone is removed; a failed removal is only
        logged. */
    method SortOne(paths: seq<string>, i: nat, run: Session, ghost t: Tables) returns (wanted: bool)
      requires Valid() && i < |paths| && Swept(c, t, store.db, paths)
      modifies store, run
      ensures Valid() && Swept(c, t, store.db, paths)
      ensures wanted == ToIndex(c, paths[i])
      ensures run.Faultless() && NoneGone(c, old(store.db), paths[..i]) ==> NoneGone(c, store.db, paths[..i + 1])
    {
      wanted := false;
      assert forall q | q in paths[..i + 1] :: q in paths[..i] || q == paths[i];
      if !c.inRoot(paths[i]) || c.disk(paths[i]) == Missing {
        ghost var before := store.db;
        var removed := Remove(paths[i], run);
        forall q ensures SweptView(c, t, store.db, paths, q) {
          assert SweptView(c, t, before, paths, q);
        }
        return;
      }
      if c.disk(paths[i]) == StatError {
        return;
      }
      wanted := c.matches(paths[i]);
    }

    /** Removes the given paths that are gone and collects those to index. */
    method Sort(paths: seq<string>, run: Session) returns (toIndex: seq<string>, ok: bool)
      requires Valid()
      modifies store, ctx, run
      ensures Valid()
      ensures Swept(c, old(store.db), store.db, paths)
      ensures ok ==> toIndex == Selected(c, paths)
      ensures ok && run.Faultless() ==> NoneGone(c, store.db, paths)
      ensures !ok ==> ctx.Dead()
      ensures ctx.Never() ==> ok
      ensures old(ctx.Dead()) ==> (ok <==> paths == []) && store.db == old(store.db)
    {
      toIndex, ok := [], true;
      ghost var t := store.db;
      assert Swept(c, t, t, paths);
      assert paths[..0] == [];
      for i := 0 to |paths|
        invariant ok && Valid() && Swept(c, t, store.db, paths)
        invariant old(ctx.Dead()) ==> i == 0 && store.db == t && ctx.Dead()
        invariant toIndex == Selected(c, paths[..i])
        invariant run.Faultless() ==> NoneGone(c, store.db, paths[..i])
      {
        var stop := ctx.Err();
        if stop {
          return toIndex, false;
        }
        SelectedNext(c, paths, i);
        var wanted := SortOne(paths, i, run, t);
        if wanted {
          toIndex := toIndex + [paths[i]];
        }
      }
      assert paths[..|paths|] == paths;
    }

    /** Brings the store in line with the given paths. Cancelled between two batches it reports no
        error and calls back all the same. */
    method IndexFiles(paths: seq<string>, run: Session)
      returns (ok: bool, ghost stop: Stop, failed: set<string>, attempts: seq<Attempt>)
      requires Valid()
      modifies this`onIndexed, store, progress, ctx, run
      ensures Valid()
      ensures forall q :: FilesView(c, store.tok, old(store.db), store.db, paths, q)
      ensures !stop.WalkFailed? && !stop.AtStore?
      ensures ok <==> stop.Finished? || stop.BetweenBatches? || stop == InBatch(true)
      ensures stop.CutShort? || stop.BetweenBatches? || stop == InBatch(true) ==> ctx.Dead()
      ensures old(ctx.Dead()) ==> store.db == old(store.db) && if paths == [] then stop.Finished? else stop.CutShort?
      ensures stop.Finished? ==> forall q | q in Selected(c, paths) ::
                StageSettles(c, old(store.db), store.db, Selected(c, paths), failed, q)
      ensures stop.Finished? && run.Faultless() ==> NoneGone(c, store.db, paths)
      ensures stop.Finished? ==> Explained(c, Selected(c, paths), failed, attempts)
      ensures stop.Finished? ==> Reported(c, old(progress.log), progress.log, Selected(c, paths))
      ensures RunNotes(c, old(store.db), store.db, Selected(c, paths), failed, stop.Finished?, old(progress.log),
                       progress.log)
      ensures onIndexed == old(onIndexed) + if stop.Finished? || stop.BetweenBatches? then 1 else 0
      ensures run.Faultless() && ctx.Never() && Smooth(c, Selected(c, paths)) ==> stop.Finished?
    {
      ghost var t, base := store.db, progress.log;
      var toIndex;
      toIndex, ok := Sort(paths, run);
      stop, failed, attempts := CutShort, {}, [];
      ghost var t1, whole := store.db, true;
      if !ok {
        SweptFiles(c, store.tok, t, t1, t1, paths, [], {}, false);
        RunNotesNone(c, t1, Selected(c, paths), {}, false, base);
        RunNotesSwept(c, t, t1, t1, paths, Selected(c, paths), {}, false, base, base);
        return;
      }
      RunNotesNone(c, t1, toIndex, {}, true, base);
      if |toIndex| > 0 {
        ok, whole, failed, attempts := IndexBatch(toIndex, run);
      }
      SweptFiles(c, store.tok, t, t1, store.db, paths, toIndex, failed, whole);
      RunNotesSwept(c, t, t1, store.db, paths, toIndex, failed, ok && whole, base, progress.log);
      stop := if whole then Finished else BetweenBatches;
      if !ok {
        ok := ctx.Err();
        stop := InBatch(ok);
        return;
      }
      onIndexed := onIndexed + 1;
    }

    /** The given paths whose content is not, or cannot be shown to be, the one indexed. */
    method StaleFiles(paths: seq<string>, stored: map<string, FileRow>) returns (stale: set<string>, ok: bool)
      modifies ctx
      ensures ok ==> forall p :: p in stale <==> p in paths && IsStale(c, stored, p)
      ensures ok ==> forall p | p in stale :: p in paths && c.inRoot(p)
      ensures ok ==> forall p | p in paths && c.inRoot(p) && (c.disk(p).Missing? || c.disk(p).StatError?) :: p in stale
      ensures ok ==> forall p | p in paths && c.inRoot(p) && c.disk(p).Unreadable? ::
                p in stale <==> !(p in stored && stored[p].mtime == c.disk(p).mtime && stored[p].size == c.disk(p).size)
      ensures ok ==> forall p | p in paths && c.inRoot(p) && c.disk(p).Readable? ::
                var content := c.disk(p).content;
                p in stale <==>
                  && !(p in stored && stored[p].mtime == c.disk(p).mtime && stored[p].size == |content|)
                  && (c.maxFileSize <= 0 || |content| <= c.maxFileSize)
                  && (p in stored ==> stored[p].hash != ContentHash(content))
      ensures ctx.Never() ==> ok
    {
      stale, ok := {}, true;
      for i := 0 to |paths|
        invariant ok && forall p :: p in stale <==> p in paths[..i] && IsStale(c, stored, p)
      {
        SliceNext(paths, i);
        var path := paths[i];
        var stop := ctx.Err();
        if stop {
          return {}, false;
        }
        if !c.inRoot(path) {
          continue;
        }
        match c.disk(path) {
          case Missing =>
            stale := stale + {path};
          case StatError =>
            stale := stale + {path};
          case Unreadable(mtime, size) =>
            if !(path in stored && stored[path].mtime == mtime && stored[path].size == size) {
              stale := stale + {path};
            }
          case Readable(content, mtime) =>
            if path in stored && stored[path].mtime == mtime && stored[path].size == |content| {
              continue;
            }
            if c.maxFileSize > 0 && |content| > c.maxFileSize {
              continue;
            }
            if (if path in stored then stored[path].hash else Unset) != ContentHash(content) {
              stale := stale + {path};
            }
        }
      }
      assert paths[..|paths|] == paths;
    }
  }

  // ---------- What the runs amount to ----------

  /** A run that is cancelled before it starts reports an error and does nothing, whatever the tree. */
  method CancelledBefore(c: Config, store: SqliteStore, progress: Progress, walk: seq<Option<string>>, run: Session)
    returns (ok: bool)
    requires ConfigOk(c, store.dim) && store.Valid() && Inv(c, store.tok, store.db)
    modifies store, progress, run
    ensures !ok && store.db == old(store.db) && progress.log == old(progress.log)
  {
    var ctx := new Context(Some(0));
    var indexer := new Indexer(c, store, progress, ctx, 1, 50);
    ghost var stop;
    var failed, attempts;
    ok, stop, failed, attempts := indexer.Index(walk, run);
  }

  /** A settled file's rows are those of its content on disk. */
  lemma {:induction false} SettledIsFresh(c: Config, tok: Tokenizer, t: Tables, q: string)
    requires Inv(c, tok, t) && Settled(c, t, q)
    ensures View(t, q) == FreshView(c, tok, q, InfoFor(c, q).value.content, t.files[q].mtime)
  {
    assert Matches(c, tok, t, q);
  }

  // ---------- What is stored for a settled file, from its analysis alone ----------

  /** Its edges: those of the analysis, in order, that are no imports and have a named source or a chunk
      covering their line. Each keeps what the parser found, and starts in the chunk covering its line
      that starts last, of several the last one. */
  lemma {:induction false} SettledEdges(c: Config, tok: Tokenizer, t: Tables, q: string, content: string, mtime: int,
                                        chunks: seq<ParsedChunk>, es: seq<ParsedEdge>)
    returns (at: seq<nat>, rows: seq<nat>)
    requires Inv(c, tok, t) && Settled(c, t, q) && c.disk(q) == Readable(content, mtime)
    requires c.chunker.Some? && c.chunker.value(q, content) == Parsed(chunks, es) && c.enableGraph
    ensures |at| == |rows| && Ascending(at) && Ascending(rows)
    ensures (forall i | 0 <= i < |at| :: at[i] < |es|) && (forall i | 0 <= i < |rows| :: rows[i] < |t.edges|)
    ensures forall k | 0 <= k < |es| ::
              k in at <==> es[k].kind != "import"
                           && (es[k].source != "" || exists j :: 0 <= j < |chunks| && Spans(chunks[j], es[k].line))
    ensures forall k | 0 <= k < |t.edges| :: k in rows <==> t.edges[k].filePath == q
    ensures forall i | 0 <= i < |at| ::
              var e, r := es[at[i]], t.edges[rows[i]];
              && r.srcName == e.source && r.kind == e.kind && r.dstName == e.target
              && r.dstQualifier == e.targetQualifier && r.line == e.line
              && StartsIn(q, chunks, e.line, r.srcID)
  {
    var rs := FreshRecords(c, q, chunks);
    SettledIsFresh(c, tok, t, q);
    FreshGraph(c, tok, q, content, t.files[q].mtime, chunks, es);
    rows := FilterPositions((e: Edge) => e.filePath == q, t.edges);
    assert Filter((e: Edge) => e.filePath == q, t.edges) == EdgesOf(t.edges, q) == EdgesFor(q, rs, es);
    at := FilterPositions((e: ParsedEdge) => e.kind != "import" && !Dropped(rs, e), es);
    assert Filter((e: ParsedEdge) => e.kind != "import" && !Dropped(rs, e), es) == Kept(rs, es);
    forall k | 0 <= k < |es|
      ensures (Find(rs, es[k].line) >= 0 <==> exists j :: 0 <= j < |chunks| && Spans(chunks[j], es[k].line))
              && StartsIn(q, chunks, es[k].line, EdgeFor(q, rs, es[k]).srcID)
    {
      EdgeStart(c, q, chunks, es[k]);
    }
    forall i | 0 <= i < |at| ensures t.edges[rows[i]] == EdgeFor(q, rs, es[at[i]]) {
      assert EdgesOf(t.edges, q)[i] == t.edges[rows[i]] && Kept(rs, es)[i] == es[at[i]];
    }
  }

  predicate Spans(ch: ParsedChunk, line: int) {
    ch.startLine <= line <= ch.endLine
  }

  /** The id is that of the innermost chunk covering the line, or unset if none does. */
  ghost predicate StartsIn(q: string, chunks: seq<ParsedChunk>, line: int, id: Hash) {
    if exists j :: 0 <= j < |chunks| && Spans(chunks[j], line) then
      exists j :: 0 <= j < |chunks| && Spans(chunks[j], line) && id == RecordID(q, chunks[j].content)
                  && forall l | 0 <= l < |chunks| && Spans(chunks[l], line) ::
                       || chunks[l].startLine < chunks[j].startLine
                       || (chunks[l].startLine == chunks[j].startLine && l <= j)
    else id == Unset
  }

  lemma {:induction false} EdgeStart(c: Config, q: string, chunks: seq<ParsedChunk>, e: ParsedEdge)
    ensures var rs := FreshRecords(c, q, chunks);
      && (Find(rs, e.line) >= 0 <==> exists j :: 0 <= j < |chunks| && Spans(chunks[j], e.line))
      && StartsIn(q, chunks, e.line, EdgeFor(q, rs, e).srcID)
  {
    var rs := FreshRecords(c, q, chunks);
    assert forall j | 0 <= j < |chunks| :: rs[j] == RecordFor(q, chunks[j], c.vector(chunks[j].content));
    assert forall j | 0 <= j < |chunks| :: Covers(rs[j], e.line) <==> Spans(chunks[j], e.line);
    var b := Find(rs, e.line);
    if b >= 0 {
      assert Best(rs, e.line, b);
      assert Spans(chunks[b], e.line);
    }
  }

  lemma {:induction false} FreshGraph(c: Config, tok: Tokenizer, q: string, content: string, mtime: int,
                                      chunks: seq<ParsedChunk>, es: seq<ParsedEdge>)
    requires c.chunker.Some? && c.chunker.value(q, content) == Parsed(chunks, es)
    ensures var v, edges := FreshView(c, tok, q, content, mtime), if c.enableGraph then es else [];
            v.edges == EdgesFor(q, FreshRecords(c, q, chunks), edges) && v.imports == ImportsFor(q, edges)
  {}

  /** Its imports: those of the analysis, in order. */
  lemma {:induction false} SettledImports(c: Config, tok: Tokenizer, t: Tables, q: string, content: string, mtime: int,
                                          chunks: seq<ParsedChunk>, es: seq<ParsedEdge>)
    returns (at: seq<nat>, rows: seq<nat>)
    requires Inv(c, tok, t) && Settled(c, t, q) && c.disk(q) == Readable(content, mtime)
    requires c.chunker.Some? && c.chunker.value(q, content) == Parsed(chunks, es) && c.enableGraph
    ensures |at| == |rows| && Ascending(at) && Ascending(rows)
    ensures (forall i | 0 <= i < |at| :: at[i] < |es|) && (forall i | 0 <= i < |rows| :: rows[i] < |t.imports|)
    ensures forall k | 0 <= k < |es| :: k in at <==> es[k].kind == "import"
    ensures forall k | 0 <= k < |t.imports| :: k in rows <==> t.imports[k].filePath == q
    ensures forall i | 0 <= i < |at| ::
              var e := es[at[i]];
              t.imports[rows[i]] == Import(q, e.target, e.targetQualifier, e.line)
  {
    SettledIsFresh(c, tok, t, q);
    FreshGraph(c, tok, q, content, t.files[q].mtime, chunks, es);
    rows := FilterPositions((i: Import) => i.filePath == q, t.imports);
    assert Filter((i: Import) => i.filePath == q, t.imports) == ImportsOf(t.imports, q) == ImportsFor(q, es);
    at := FilterPositions((e: ParsedEdge) => e.kind == "import", es);
    assert Filter((e: ParsedEdge) => e.kind == "import", es) == Imported(es);
  }

  /** With the graph switched off, or without an analysis, it has neither. */
  lemma {:induction false} SettledWithoutGraph(c: Config, tok: Tokenizer, t: Tables, q: string, content: string,
                                               mtime: int)
    requires Inv(c, tok, t) && Settled(c, t, q) && c.disk(q) == Readable(content, mtime)
    requires !c.enableGraph || c.chunker == None || !c.chunker.value(q, content).Parsed?
    ensures forall k | 0 <= k < |t.edges| :: t.edges[k].filePath != q
    ensures forall k | 0 <= k < |t.imports| :: t.imports[k].filePath != q
  {
    SettledIsFresh(c, tok, t, q);
    assert View(t, q).edges == [] && View(t, q).imports == [];
    forall k | 0 <= k < |t.edges| ensures t.edges[k].filePath != q {
      FilterMember((e: Edge) => e.filePath == q, t.edges, t.edges[k]);
    }
    forall k | 0 <= k < |t.imports| ensures t.imports[k].filePath != q {
      FilterMember((i: Import) => i.filePath == q, t.imports, t.imports[k]);
    }
  }

  /** Its chunks: for each of the analysis a row with what the parser found, its own vector and one
      full-text row; of chunks with one content the last counts. */
  lemma {:induction false} SettledChunks(c: Config, tok: Tokenizer, t: Tables, q: string, content: string, mtime: int,
                                         chunks: seq<ParsedChunk>, es: seq<ParsedEdge>, j: nat)
    requires Inv(c, tok, t) && Settled(c, t, q) && c.disk(q) == Readable(content, mtime)
    requires c.chunker.Some? && c.chunker.value(q, content) == Parsed(chunks, es)
    requires j < |chunks| && forall l | j < l < |chunks| :: chunks[l].content != chunks[j].content
    ensures var ch, id := chunks[j], RecordID(q, chunks[j].content);
      && id in t.chunks && id in t.vec
      && t.chunks[id] == Chunk(q, ch.language, ch.content, ContentHash(ch.content), ch.nodeKind, ch.name, ch.parent,
                               ch.startLine, ch.endLine)
      && t.vec[id] == VecRow(ch.language, c.vector(ch.content))
      && (forall k | 0 <= k < |t.fts| && t.fts[k].id == id ::
            t.fts[k] == FtsRow(id, tok(ch.content), tok(ch.name), tok(ch.parent)))
      && exists k :: 0 <= k < |t.fts| && t.fts[k].id == id
  {
    var rs, id := FreshRecords(c, q, chunks), RecordID(q, chunks[j].content);
    SettledIsFresh(c, tok, t, q);
    assert View(t, q).rows == EntryRows(tok, rs);
    assert rs[j] == RecordFor(q, chunks[j], c.vector(chunks[j].content)) && rs[j].id == id;
    LastOfContent(c, q, chunks, j);
    assert id in RecordIds(rs) && Rows(t, q)[id] == RowOf(tok, rs[j]) == RowAt(t, id);
    var row := FtsRow(id, tok(chunks[j].content), tok(chunks[j].name), tok(chunks[j].parent));
    OnlyFts(t.fts, id, row);
  }

  lemma {:induction false} LastOfContent(c: Config, q: string, chunks: seq<ParsedChunk>, j: nat)
    requires j < |chunks| && forall l | j < l < |chunks| :: chunks[l].content != chunks[j].content
    ensures LastWith(FreshRecords(c, q, chunks), RecordID(q, chunks[j].content)) == j
  {
    var rs, id := FreshRecords(c, q, chunks), RecordID(q, chunks[j].content);
    assert forall l | 0 <= l < |chunks| :: rs[l] == RecordFor(q, chunks[l], c.vector(chunks[l].content));
    var k := LastWith(rs, id);
    assert rs[j].id == id;
    if k > j {
      SameContent(q, chunks[k].content, chunks[j].content);
    }
  }

  lemma {:induction false} SameContent(q: string, a: string, b: string)
    requires RecordID(q, a) == RecordID(q, b)
    ensures a == b
  {
    assert q + [NUL] + a == q + [NUL] + b;
    assert (q + [NUL] + a)[|q| + 1..] == a && (q + [NUL] + b)[|q| + 1..] == b;
  }

  /** Nothing else is stored for the file, and its own row records hash and size. */
  lemma {:induction false} SettledOnly(c: Config, tok: Tokenizer, t: Tables, q: string, content: string, mtime: int,
                                       id: Hash)
    requires Inv(c, tok, t) && Settled(c, t, q) && c.disk(q) == Readable(content, mtime)
    ensures q in t.files && t.files[q].hash == ContentHash(content) && t.files[q].size == |content|
    ensures id in t.chunks && t.chunks[id].filePath == q ==>
              && c.chunker.Some? && c.chunker.value(q, content).Parsed?
              && exists j :: 0 <= j < |c.chunker.value(q, content).chunks|
                             && id == RecordID(q, c.chunker.value(q, content).chunks[j].content)
  {
    SettledIsFresh(c, tok, t, q);
    var chunks := ChunksOf(c, q, content);
    var rs := FreshRecords(c, q, chunks);
    assert View(t, q).file == Some(t.files[q]) && View(t, q).rows == EntryRows(tok, rs);
    if id in t.chunks && t.chunks[id].filePath == q {
      assert id in Rows(t, q) && id in RecordIds(rs);
      var j :| 0 <= j < |rs| && rs[j].id == id;
      assert rs[j] == RecordFor(q, chunks[j], c.vector(chunks[j].content));
    }
  }

  // ---------- What the runs index, from disk and walk alone ----------

  /** A finished run has recorded the hash of every reported file that is in the root, readable and
      within the limit, unless one of its own chunks failed to embed; it leaves reported files it
      cannot index as they were, and nothing for files not reported. */
  lemma {:induction false} IndexedExactly(c: Config, tok: Tokenizer, t: Tables, t': Tables,
                                          walk: seq<Option<string>>, failed: set<string>, attempts: seq<Attempt>,
                                          q: string)
    requires Complete(walk) && IndexView(c, tok, t, t', walk, q)
    requires Indexed(c, t, t', Yielded(walk), failed) && Explained(c, Yielded(walk), failed, attempts)
    ensures Some(q) in walk && c.inRoot(q) && c.disk(q).Readable?
            && (c.maxFileSize <= 0 || |c.disk(q).content| <= c.maxFileSize) ==>
              || (q in t'.files && t'.files[q].hash == ContentHash(c.disk(q).content))
              || (exists k :: 0 <= k < |attempts| && attempts[k].failed && attempts[k].path == q)
    ensures Some(q) in walk && (!c.inRoot(q) || !c.disk(q).Readable?
                                || (c.maxFileSize > 0 && |c.disk(q).content| > c.maxFileSize)) ==>
              View(t', q) == View(t, q)
    ensures Some(q) !in walk ==> q !in t'.files && forall id | id in t'.chunks :: t'.chunks[id].filePath != q
  {
    YieldsAll(walk, q);
    if Some(q) in walk {
      assert StageSettles(c, t, t', Yielded(walk), failed, q);
    } else {
      assert View(t', q) == NOVIEW;
      NothingStored(t', q);
    }
  }

  lemma {:induction false} YieldsAll(walk: seq<Option<string>>, q: string)
    requires Complete(walk)
    ensures q in Yielded(walk) <==> Some(q) in walk
  {
    if walk != [] {
      assert walk == [walk[0]] + walk[1..];
      YieldsAll(walk[1..], q);
    }
  }

  lemma {:induction false} NothingStored(t: Tables, q: string)
    requires View(t, q) == NOVIEW
    ensures q !in t.files && forall id | id in t.chunks :: t.chunks[id].filePath != q
  {
    FileOf(t, q);
    forall id | id in t.chunks ensures t.chunks[id].filePath != q {
      assert id !in Rows(t, q);
    }
  }

  /** So has a finished run over given paths, of those that are there and match; those out of the root
      or gone are removed, unless the database fails; all others are as they were. */
  lemma {:induction false} FilesIndexedExactly(c: Config, tok: Tokenizer, t: Tables, t': Tables, paths: seq<string>,
                                               failed: set<string>, attempts: seq<Attempt>, q: string)
    requires FilesView(c, tok, t, t', paths, q)
    requires q in Selected(c, paths) ==> StageSettles(c, t, t', Selected(c, paths), failed, q)
    requires Explained(c, Selected(c, paths), failed, attempts)
    ensures q in paths && c.inRoot(q) && c.disk(q).Readable? && c.matches(q)
            && (c.maxFileSize <= 0 || |c.disk(q).content| <= c.maxFileSize) ==>
              || (q in t'.files && t'.files[q].hash == ContentHash(c.disk(q).content))
              || (exists k :: 0 <= k < |attempts| && attempts[k].failed && attempts[k].path == q)
    ensures NoneGone(c, t', paths) && q in paths && (!c.inRoot(q) || c.disk(q).Missing?) ==>
              q !in t'.files && forall id | id in t'.chunks :: t'.chunks[id].filePath != q
    ensures q !in paths || (c.inRoot(q) && !c.disk(q).Missing? && (!c.disk(q).Readable? || !c.matches(q))) ==>
              View(t', q) == View(t, q)
  {
    FilterMember((p: string) => ToIndex(c, p), paths, q);
    if NoneGone(c, t', paths) && q in paths && Gone(c, q) { NothingStored(t', q); }
  }

  // ---------- Runs against one another ----------

  /** A run leaves alone every reported file whose content did not change, however it ends: doing it
      again on an unchanged disk does nothing. */
  lemma {:induction false} SettledUntouched(c: Config, tok: Tokenizer, t: Tables, t': Tables,
                                            walk: seq<Option<string>>, q: string)
    requires IndexView(c, tok, t, t', walk, q) && q in Yielded(walk) && Settled(c, t, q)
    ensures View(t', q) == View(t, q)
  {}

  /** Equal but for the recorded modification time. */
  predicate SameButMtime(u: FileView, v: FileView) {
    && u.rows == v.rows && u.edges == v.edges && u.imports == v.imports
    && u.file.Some? && v.file.Some? && u.file.value.(mtime := v.file.value.mtime) == v.file.value
  }

  /** A finished incremental run and a finished run from an empty store over the same disk agree on
      every file that both could embed; neither stores anything for a file not reported; what the
      incremental run could not index keeps its old rows. */
  lemma {:induction false} IncrementalEqualsScratch(c: Config, tok: Tokenizer, t: Tables, t': Tables, u: Tables,
                                                    walk: seq<Option<string>>, ft: set<string>, fu: set<string>,
                                                    q: string)
    requires Inv(c, tok, t') && Inv(c, tok, u)
    requires IndexView(c, tok, t, t', walk, q)
    requires Indexed(c, t, t', Yielded(walk), ft) && Indexed(c, EMPTY, u, Yielded(walk), fu)
    ensures q in Yielded(walk) && InfoFor(c, q).Some? && q !in ft && q !in fu ==> SameButMtime(View(t', q), View(u, q))
    ensures q !in Yielded(walk) ==> View(t', q) == NOVIEW == View(u, q)
    ensures q in Yielded(walk) && InfoFor(c, q) == None ==> View(t', q) == View(t, q)
    ensures q in Yielded(walk) && q in ft && Wanted(c, Yielded(walk), q) == 1 ==> View(t', q) == View(t, q)
  {
    if q in Yielded(walk) {
      assert StageSettles(c, t, t', Yielded(walk), ft, q) && StageSettles(c, EMPTY, u, Yielded(walk), fu, q);
      if InfoFor(c, q).Some? && q !in ft && q !in fu {
        SettledIsFresh(c, tok, t', q);
        SettledIsFresh(c, tok, u, q);
      }
    } else {
      assert View(t', q) == NOVIEW && View(u, q) == NOVIEW;
    }
  }

  /** If every file was within the size limit and embedded, the two stores hold the same chunks,
      vectors and full-text rows, and record the same hashes. */
  lemma {:induction false} SameTables(c: Config, tok: Tokenizer, t: Tables, t': Tables, u: Tables,
                                      walk: seq<Option<string>>)
    requires Inv(c, tok, t') && Inv(c, tok, u)
    requires forall q :: IndexView(c, tok, t, t', walk, q)
    requires Indexed(c, t, t', Yielded(walk), {}) && Indexed(c, EMPTY, u, Yielded(walk), {})
    requires forall q | q in Yielded(walk) :: InfoFor(c, q).Some?
    ensures forall id :: RowAt(t', id) == RowAt(u, id) || (id !in t'.chunks && id !in u.chunks)
    ensures t'.chunks == u.chunks && t'.files.Keys == u.files.Keys
    ensures forall q | q in u.files :: t'.files[q].hash == u.files[q].hash
  {
    forall id
      ensures id in t'.chunks || id in u.chunks ==>
                id in t'.chunks && id in u.chunks && RowAt(t', id) == RowAt(u, id)
    {
      if id in t'.chunks { SameRows(c, tok, t, t', u, walk, id, t'.chunks[id].filePath); }
      if id in u.chunks { SameRows(c, tok, t, t', u, walk, id, u.chunks[id].filePath); }
    }
    SameChunks(t', u);
    forall q
      ensures q in t'.files <==> q in u.files
      ensures q in u.files ==> q in t'.files && t'.files[q].hash == u.files[q].hash
    {
      SameFiles(c, tok, t, t', u, walk, q);
    }
  }

  lemma {:induction false} SameChunks(t: Tables, u: Tables)
    requires forall id :: id in t.chunks || id in u.chunks ==>
               id in t.chunks && id in u.chunks && RowAt(t, id) == RowAt(u, id)
    ensures t.chunks == u.chunks
  {
    forall id | id in t.chunks ensures t.chunks[id] == u.chunks[id] {
      ChunkAt(t, id);
      ChunkAt(u, id);
    }
  }

  lemma {:induction false} SameFiles(c: Config, tok: Tokenizer, t: Tables, t': Tables, u: Tables,
                                     walk: seq<Option<string>>, q: string)
    requires Inv(c, tok, t') && Inv(c, tok, u) && IndexView(c, tok, t, t', walk, q)
    requires Indexed(c, t, t', Yielded(walk), {}) && Indexed(c, EMPTY, u, Yielded(walk), {})
    requires q in Yielded(walk) ==> InfoFor(c, q).Some?
    ensures q in t'.files <==> q in u.files
    ensures q in u.files ==> t'.files[q].hash == u.files[q].hash
  {
    IncrementalEqualsScratch(c, tok, t, t', u, walk, {}, {}, q);
    FileOf(t', q);
    FileOf(u, q);
  }

  lemma {:induction false} SameRows(c: Config, tok: Tokenizer, t: Tables, t': Tables, u: Tables,
                                    walk: seq<Option<string>>, id: Hash, q: string)
    requires Inv(c, tok, t') && Inv(c, tok, u)
    requires IndexView(c, tok, t, t', walk, q)
    requires Indexed(c, t, t', Yielded(walk), {}) && Indexed(c, EMPTY, u, Yielded(walk), {})
    requires q in Yielded(walk) ==> InfoFor(c, q).Some?
    requires (id in t'.chunks && t'.chunks[id].filePath == q) || (id in u.chunks && u.chunks[id].filePath == q)
    ensures id in t'.chunks && id in u.chunks && RowAt(t', id) == RowAt(u, id)
  {
    IncrementalEqualsScratch(c, tok, t, t', u, walk, {}, {}, q);
    assert View(t', q).rows == View(u, q).rows;
    assert id in Rows(t', q) || id in Rows(u, q);
    assert Rows(t', q)[id] == RowAt(t', id) && Rows(u, q)[id] == RowAt(u, id);
  }

  /** Equal modification time and size mean equal content. */
  predicate Faithful(c: Config, t: Tables, p: string) {
    match c.disk(p)
    case Readable(content, mtime) =>
      p in t.files && t.files[p].mtime == mtime && t.files[p].size == |content| ==>
        t.files[p].hash == ContentHash(content)
    case _ => true
  }

  function StatesOf(t: Tables, paths: seq<string>): map<string, FileRow> {
    map p | p in paths && p in t.files :: t.files[p]
  }

  /** For a readable file within the limits the staleness check is exact: it reports precisely the
      files whose stored rows are not those of the content on disk. */
  lemma {:induction false} StaleExactly(c: Config, tok: Tokenizer, t: Tables, paths: seq<string>, p: string)
    requires Inv(c, tok, t) && p in paths && InfoFor(c, p).Some? && Faithful(c, t, p)
    ensures !IsStale(c, StatesOf(t, paths), p) <==> Settled(c, t, p)
    ensures !IsStale(c, StatesOf(t, paths), p) <==>
              p in t.files && View(t, p) == FreshView(c, tok, p, InfoFor(c, p).value.content, t.files[p].mtime)
  {
    assert Matches(c, tok, t, p);
    var content := InfoFor(c, p).value.content;
    if Settled(c, t, p) {
      SettledIsFresh(c, tok, t, p);
    } else if p in t.files {
      assert View(t, p).file == Some(t.files[p]);
      assert FreshView(c, tok, p, content, t.files[p].mtime).file ==
             Some(FileRow(ContentHash(content), t.files[p].mtime, |content|));
    }
  }
}
