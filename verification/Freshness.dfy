/** mcp/server.go: what a search returns is reconciled with the disk. */
module Freshness {
  import opened Wrappers
  import opened Seqs
  import opened Store
  import opened Indexer
  import S = Search

  datatype Result = Result(filePath: string, language: string, content: string, nodeKind: string, name: string,
                           parent: string, startLine: int, endLine: int, stale: bool)
  datatype SearchResults = SearchResults(results: seq<Result>, truncated: bool)

  /** A chunk as a search reports it, without its content if only metadata is wanted. */
  function ResultOf(metadataOnly: bool, ch: Chunk): Result {
    Result(ch.filePath, ch.language, if metadataOnly then "" else ch.content, ch.nodeKind, ch.name, ch.parent,
           ch.startLine, ch.endLine, false)
  }

  /** Search, which may fail: whatever it finds in the store, and however it ranks it, each result is
      one of the chunks stored. The number tells one search of a call from the next. */
  type Finder = (Tables, nat) -> Option<seq<Result>>

  ghost predicate FinderOk(find: Finder, metadataOnly: bool) {
    forall t, n, i | find(t, n).Some? && 0 <= i < |find(t, n).value| :: Stored(metadataOnly, t, find(t, n).value[i])
  }

  ghost predicate Stored(metadataOnly: bool, t: Tables, r: Result) {
    exists id | id in t.chunks :: r == ResultOf(metadataOnly, t.chunks[id])
  }

  /** What Search returns is such a finding. */
  lemma {:induction false} HitsAreStored(metadataOnly: bool, t: Tables, q: S.Query, pathOk: string -> bool,
                                         vec: seq<Hash>, fts: seq<Hash>, ranked: seq<(Hash, real)>,
                                         hits: seq<S.Hit>)
    requires S.Ranking(vec, fts, ranked) && q.limit > 0 && hits == S.Page(S.Hits(t, q, pathOk, ranked), q)
    ensures forall i | 0 <= i < |hits| :: Stored(metadataOnly, t, ResultOf(metadataOnly, hits[i].chunk))
  {
    S.PageOk(t, q, pathOk, vec, fts, ranked);
  }

  // ---------- The token budget ----------

  function Tokens(r: Result): nat {
    |r.content| / 4
  }

  function TotalTokens(rs: seq<Result>): nat {
    if rs == [] then 0 else TotalTokens(rs[..|rs| - 1]) + Tokens(rs[|rs| - 1])
  }

  lemma {:induction false} TotalGrows(rs: seq<Result>, i: nat, j: nat)
    requires i <= j <= |rs|
    ensures TotalTokens(rs[..i]) <= TotalTokens(rs[..j])
  {
    if i < j {
      TotalGrows(rs, i, j - 1);
      assert rs[..j][..j - 1] == rs[..j - 1];
    }
  }

  /** Each result costs a quarter of its content's length. */
  lemma {:induction false} TotalNext(rs: seq<Result>, r: Result)
    ensures TotalTokens([]) == 0
    ensures TotalTokens(rs + [r]) == TotalTokens(rs) + |r.content| / 4
  {
    assert (rs + [r])[..|rs|] == rs;
  }

  /** Truncate keeps the longest prefix within the budget, and always the first result. */
  method Truncate(results: seq<Result>, maxTokens: int) returns (out: SearchResults)
    ensures out.results <= results && (out.truncated <==> out.results != results)
    ensures results != [] ==> out.results != []
    ensures |out.results| > 1 ==> TotalTokens(out.results) <= maxTokens
    ensures out.truncated ==> TotalTokens(results[..|out.results| + 1]) > maxTokens
  {
    if |results| == 0 {
      return SearchResults(results, false);
    }
    var kept, used := [], 0;
    for i := 0 to |results|
      invariant kept == results[..i] && used == TotalTokens(kept)
      invariant i > 1 ==> used <= maxTokens
    {
      assert results[..i + 1][..i] == results[..i];
      var tokens := |results[i].content| / 4;
      if i > 0 && used + tokens > maxTokens {
        return SearchResults(kept, true);
      }
      kept := kept + [results[i]];
      used := used + tokens;
    }
    return SearchResults(kept, false);
  }

  // ---------- Staleness ----------

  predicate Mentioned(results: seq<Result>, p: string) {
    exists i | 0 <= i < |results| :: results[i].filePath == p
  }

  /** The distinct files of the results. */
  method ResultFiles(results: seq<Result>) returns (files: seq<string>)
    ensures forall p :: p in files <==> Mentioned(results, p)
    ensures forall i, j | 0 <= i < j < |files| :: files[i] != files[j]
  {
    files := [];
    var seen: set<string> := {};
    for i := 0 to |results|
      invariant forall p :: p in seen <==> p in files
      invariant forall p :: p in files <==> Mentioned(results[..i], p)
      invariant forall j, k | 0 <= j < k < |files| :: files[j] != files[k]
    {
      MentionedNext(results, i);
      var p := results[i].filePath;
      if p in seen {
        continue;
      }
      seen := seen + {p};
      files := files + [p];
    }
    assert results[..|results|] == results;
  }

  lemma {:induction false} MentionedNext(results: seq<Result>, i: nat)
    requires i < |results|
    ensures forall p :: Mentioned(results[..i + 1], p) <==> Mentioned(results[..i], p) || p == results[i].filePath
  {}

  /** The staleness of the results' files, for the store and the disk as they are. */
  ghost predicate Classified(c: Config, t: Tables, results: seq<Result>, stale: set<string>) {
    exists files: seq<string> :: StaleAmong(c, t, results, files, stale)
  }

  /** The classification over a given list of the results' files. */
  ghost predicate StaleAmong(c: Config, t: Tables, results: seq<Result>, files: seq<string>, stale: set<string>) {
    && (forall p :: p in files <==> Mentioned(results, p))
    && (forall p :: p in stale <==> p in files && IsStale(c, StatesOf(t, files), p))
  }

  lemma {:induction false} NothingStale(c: Config, t: Tables, results: seq<Result>)
    requires results == []
    ensures Classified(c, t, results, {})
  {
    assert StaleAmong(c, t, results, [], {});
  }

  method ClassifyStale(idx: Indexer, results: seq<Result>, run: Session)
    returns (stale: set<string>, ok: bool)
    requires idx.Valid()
    modifies idx.ctx, run
    ensures idx.Valid()
    ensures ok ==> Classified(idx.c, idx.store.db, results, stale)
    ensures run.Faultless() && idx.ctx.Never() ==> ok
  {
    if |results| == 0 {
      stale, ok := {}, true;
      NothingStale(idx.c, idx.store.db, results);
      return;
    }
    var files := ResultFiles(results);
    var states;
    states, ok := idx.store.FileStates(files, run);
    stale := {};
    if !ok {
      return;
    }
    assert states == StatesOf(idx.store.db, files);
    stale, ok := idx.StaleFiles(files, states);
    assert ok ==> StaleAmong(idx.c, idx.store.db, results, files, stale);
  }

  /** The result is one that indexing the file's content on disk gives. */
  ghost predicate Current(c: Config, metadataOnly: bool, r: Result)
    requires InfoFor(c, r.filePath).Some?
  {
    var chunks := ChunksOf(c, r.filePath, InfoFor(c, r.filePath).value.content);
    exists i | 0 <= i < |chunks| ::
      r == ResultOf(metadataOnly, ChunkOf(RecordFor(r.filePath, chunks[i], c.vector(chunks[i].content))))
  }

  /** Not silently stale: a result of a file in the root that is not flagged is of a file that is
      there, and if the file can be read and is within the size limit, the result is current. */
  ghost predicate Honest(c: Config, metadataOnly: bool, t: Tables, r: Result) {
    var p := r.filePath;
    c.inRoot(p) && !r.stale ==>
      && !c.disk(p).Missing? && !c.disk(p).StatError?
      && (InfoFor(c, p).Some? && Faithful(c, t, p) ==> Current(c, metadataOnly, r))
  }

  lemma {:induction false} FreshRow(c: Config, tok: Tokenizer, t: Tables, metadataOnly: bool, r: Result)
    requires Inv(c, tok, t) && Stored(metadataOnly, t, r) && Settled(c, t, r.filePath)
    ensures Current(c, metadataOnly, r)
  {
    var p := r.filePath;
    var id :| id in t.chunks && r == ResultOf(metadataOnly, t.chunks[id]);
    var content := InfoFor(c, p).value.content;
    SettledIsFresh(c, tok, t, p);
    var chunks := ChunksOf(c, p, content);
    var rs := FreshRecords(c, p, chunks);
    assert id in Rows(t, p) && Rows(t, p)[id].chunk == Some(t.chunks[id]);
    assert View(t, p).rows == EntryRows(tok, rs);
    RecordIdsLast(rs);
    var i := LastWith(rs, id);
    assert rs[i] == RecordFor(p, chunks[i], c.vector(chunks[i].content));
    assert t.chunks[id] == ChunkOf(rs[i]);
  }

  lemma {:induction false} UnflaggedHonest(c: Config, tok: Tokenizer, t: Tables, metadataOnly: bool,
                                           results: seq<Result>, stale: set<string>, r: Result)
    requires Inv(c, tok, t) && Classified(c, t, results, stale)
    requires r in results && Stored(metadataOnly, t, r)
    ensures r.filePath !in stale ==> Honest(c, metadataOnly, t, r)
  {
    var p := r.filePath;
    var i :| 0 <= i < |results| && results[i] == r;
    assert Mentioned(results, p);
    var files: seq<string> :| StaleAmong(c, t, results, files, stale);
    if p !in stale && InfoFor(c, p).Some? && Faithful(c, t, p) {
      StaleExactly(c, tok, t, files, p);
      FreshRow(c, tok, t, metadataOnly, r);
    }
  }

  /** Marks the results of stale files. */
  function Flagged(results: seq<Result>, stale: set<string>): seq<Result> {
    seq(|results|, i requires 0 <= i < |results| =>
      if results[i].filePath in stale then results[i].(stale := true) else results[i])
  }

  lemma {:induction false} FlaggedHonest(c: Config, tok: Tokenizer, t: Tables, metadataOnly: bool,
                                         results: seq<Result>, stale: set<string>, out: seq<Result>)
    requires Inv(c, tok, t) && Classified(c, t, results, stale)
    requires forall i | 0 <= i < |results| :: Stored(metadataOnly, t, results[i])
    requires out <= Flagged(results, stale)
    ensures forall i | 0 <= i < |out| :: Honest(c, metadataOnly, t, out[i])
    ensures forall i | 0 <= i < |out| :: out[i].stale <==> out[i].filePath in stale
  {
    forall i | 0 <= i < |out|
      ensures Honest(c, metadataOnly, t, out[i]) && (out[i].stale <==> out[i].filePath in stale)
    {
      assert out[i] == Flagged(results, stale)[i];
      UnflaggedHonest(c, tok, t, metadataOnly, results, stale, results[i]);
    }
  }

  // ---------- The reconciled search ----------

  /** One configuration under two states of the disk. */
  ghost predicate SameButDisk(c: Config, d: Config) {
    d == c.(disk := d.disk)
  }

  lemma {:induction false} DisksChain(c: Config, d: Config, e: Config)
    requires SameButDisk(c, d) && SameButDisk(d, e)
    ensures SameButDisk(e, c)
  {}

  lemma {:induction false} InvAnyDisk(c: Config, d: Config, tok: Tokenizer, t: Tables)
    requires SameButDisk(c, d) && Inv(c, tok, t)
    ensures Inv(d, tok, t)
  {
    forall p ensures Matches(d, tok, t, p) {
      assert Matches(c, tok, t, p);
      if p in t.files {
        var content := t.files[p].hash.of;
        assert ChunksOf(d, p, content) == ChunksOf(c, p, content);
        assert ParsedEdgesOf(d, p, content) == ParsedEdgesOf(c, p, content);
        assert FreshRecords(d, p, ChunksOf(d, p, content)) == FreshRecords(c, p, ChunksOf(c, p, content));
      }
    }
  }

  /** Sets the flags of the stale files' results. */
  method Flag(results: seq<Result>, stale: set<string>) returns (out: seq<Result>)
    ensures out == Flagged(results, stale)
  {
    out := results;
    for i := 0 to |out|
      invariant |out| == |results|
      invariant forall j | 0 <= j < |out| :: out[j] == if j < i then Flagged(results, stale)[j] else results[j]
    {
      if out[i].filePath in stale {
        out := out[i := out[i].(stale := true)];
      }
    }
  }

  method Finalize(results: seq<Result>, maxTokens: int) returns (out: SearchResults)
    ensures out.results <= results && (out.truncated <==> out.results != results)
    ensures maxTokens <= 0 ==> out.results == results
    ensures results != [] ==> out.results != []
    ensures maxTokens > 0 && |out.results| > 1 ==> TotalTokens(out.results) <= maxTokens
  {
    if maxTokens > 0 {
      out := Truncate(results, maxTokens);
    } else {
      out := SearchResults(results, false);
    }
  }

  /** A path is stale for the store and the disk as they are. */
  predicate StaleNow(c: Config, t: Tables, p: string) {
    IsStale(c, StatesOf(t, [p]), p)
  }

  /** It is in the root, and gone, or neither its time and size nor its content's hash are the recorded
      ones, unless it is too large to be indexed. */
  lemma {:induction false} StaleNowExactly(c: Config, t: Tables, p: string)
    ensures StaleNow(c, t, p) <==>
      && c.inRoot(p)
      && (c.disk(p).Unreadable? ==> p !in t.files || t.files[p].mtime != c.disk(p).mtime
                                    || t.files[p].size != c.disk(p).size)
      && (c.disk(p).Readable? ==>
            var content := c.disk(p).content;
            && (p !in t.files || t.files[p].mtime != c.disk(p).mtime || t.files[p].size != |content|)
            && (p !in t.files || t.files[p].hash != ContentHash(content))
            && (c.maxFileSize <= 0 || |content| <= c.maxFileSize))
  {}

  lemma {:induction false} ClassifiedExactly(c: Config, t: Tables, results: seq<Result>, stale: set<string>, i: nat)
    requires Classified(c, t, results, stale) && i < |results|
    ensures results[i].filePath in stale <==> StaleNow(c, t, results[i].filePath)
  {}

  lemma {:induction false} ClassifiedAll(c: Config, t: Tables, results: seq<Result>, stale: set<string>)
    requires Classified(c, t, results, stale)
    ensures forall p :: p in stale <==>
              (exists i :: 0 <= i < |results| && results[i].filePath == p) && StaleNow(c, t, p)
  {
    forall p ensures p in stale <==> Mentioned(results, p) && StaleNow(c, t, p) {
      if i :| 0 <= i < |results| && results[i].filePath == p { ClassifiedExactly(c, t, results, stale, i); }
    }
  }

  /** What a reconciled search returns: results that are stored, each flagged exactly if its file is
      stale, so that none is silently stale. */
  ghost predicate Reconciled(c: Config, t: Tables, metadataOnly: bool, out: seq<Result>) {
    forall i | 0 <= i < |out| ::
      && Stored(metadataOnly, t, out[i].(stale := false))
      && (out[i].stale <==> StaleNow(c, t, out[i].filePath))
      && Honest(c, metadataOnly, t, out[i])
  }

  lemma {:induction false} FlaggedReconciled(c: Config, tok: Tokenizer, t: Tables, metadataOnly: bool,
                                             results: seq<Result>, stale: set<string>, out: seq<Result>)
    requires Inv(c, tok, t) && Classified(c, t, results, stale)
    requires forall i | 0 <= i < |results| :: Stored(metadataOnly, t, results[i])
    requires out <= Flagged(results, stale)
    ensures Reconciled(c, t, metadataOnly, out)
  {
    FlaggedHonest(c, tok, t, metadataOnly, results, stale, out);
    forall i | 0 <= i < |out| ensures Stored(metadataOnly, t, out[i].(stale := false))
                              ensures out[i].stale <==> StaleNow(c, t, out[i].filePath)
    {
      assert out[i] == Flagged(results, stale)[i];
      ClassifiedExactly(c, t, results, stale, i);
      var id :| id in t.chunks && results[i] == ResultOf(metadataOnly, t.chunks[id]);
      assert out[i].(stale := false) == results[i];
    }
  }

  /** Indexing the path from the disk as it is would settle it. */
  predicate Refreshable(c: Config, p: string) {
    ToIndex(c, p) && InfoFor(c, p).Some?
  }

  /** Nothing keeps the paths from being indexed but a failing chunk or the store: those in the root that
      match and are there can be read and analysed, and the embedder answers for every text. */
  ghost predicate Undisturbed(c: Config, paths: set<string>) {
    && (forall p | p in paths && c.inRoot(p) && c.matches(p) ::
          && !c.disk(p).Unreadable?
          && (InfoFor(c, p).Some? ==> !AnalysisOf(c, p, InfoFor(c, p).value.content).Failed?))
    && (forall ts :: Sized(c, ts))
  }

  lemma {:induction false} UndisturbedSmooth(c: Config, paths: seq<string>, stale: set<string>)
    requires Undisturbed(c, stale) && forall p :: p in paths <==> p in stale
    ensures Smooth(c, Selected(c, paths))
  {
    var keep := (p: string) => ToIndex(c, p);
    var selected := Selected(c, paths);
    assert selected == Filter(keep, paths);
    forall i | 0 <= i < |selected| ensures selected[i] in stale && ToIndex(c, selected[i]) {
      FilterMember(keep, paths, selected[i]);
    }
  }

  /** What is returned are the first of the results found, whatever their flags, and at least one if there
      are any; a failed finding is passed on. */
  predicate Shows(found: Option<seq<Result>>, out: Option<SearchResults>) {
    match found
    case None => out.None?
    case Some(results) =>
      && out.Some? && |out.value.results| <= |results|
      && (results != [] ==> out.value.results != [])
      && (out.value.truncated <==> |out.value.results| < |results|)
      && forall i | 0 <= i < |out.value.results| :: out.value.results[i].(stale := false) == results[i]
  }

  lemma {:induction false} FlaggedShows(metadataOnly: bool, t: Tables, results: seq<Result>, stale: set<string>,
                                        out: SearchResults)
    requires forall i | 0 <= i < |results| :: Stored(metadataOnly, t, results[i])
    requires var flagged := Flagged(results, stale);
             && out.results <= flagged && (out.truncated <==> out.results != flagged)
             && (flagged != [] ==> out.results != [])
    ensures Shows(Some(results), Some(out))
  {
    forall i | 0 <= i < |out.results| ensures out.results[i].(stale := false) == results[i] {
      assert out.results[i] == Flagged(results, stale)[i];
      var id :| id in t.chunks && results[i] == ResultOf(metadataOnly, t.chunks[id]);
    }
  }

  class Server {
    const find: Finder
    const metadataOnly: bool
    const staleRefreshThreshold: nat

    constructor (find: Finder, metadataOnly: bool, staleRefreshThreshold: nat)
      ensures this.find == find && this.metadataOnly == metadataOnly
      ensures this.staleRefreshThreshold == staleRefreshThreshold
    {
      this.find, this.metadataOnly, this.staleRefreshThreshold := find, metadataOnly, staleRefreshThreshold;
    }

    /** The refresh: re-index the stale files, search again, check again. The disk may have moved on
        each time. If it did not, no file that could be re-indexed is stale any more. */
    method Refresh(during: Indexer, after: Indexer, stale: set<string>, run: Session)
      returns (found: Option<seq<Result>>, indexed: bool, again: set<string>, ghost checked: bool,
               ghost stop: Stop, ghost failed: set<string>)
      requires during.Valid() && after.Valid() && after.store == during.store && SameButDisk(during.c, after.c)
      requires FinderOk(find, metadataOnly)
      modifies during`onIndexed, during.store, during.progress, during.ctx, after.ctx, run
      ensures during.Valid() && after.Valid()
      ensures indexed && found.Some? ==> forall i | 0 <= i < |found.value| ::
                Stored(metadataOnly, after.store.db, found.value[i])
      ensures indexed && found.Some? && checked ==> Classified(after.c, after.store.db, found.value, again)
      ensures !checked ==> again == {}
      ensures indexed && found.Some? && run.Faultless() && after.ctx.Never() ==> checked
      ensures stop.Finished? ==> forall p | p in stale && Refreshable(during.c, p) && p !in failed ::
                Settled(during.c, after.store.db, p)
      ensures indexed <==> stop.Finished? || stop.BetweenBatches? || stop == InBatch(true)
      ensures indexed ==> found == find(after.store.db, 1)
      ensures during.onIndexed == old(during.onIndexed) + if stop.Finished? || stop.BetweenBatches? then 1 else 0
      ensures run.Faultless() && during.ctx.Never() && Undisturbed(during.c, stale) ==> stop.Finished?
      ensures stop.Finished? && (forall ts, k | 0 <= k < |ts| && Sized(during.c, ts) :: !during.c.embed(ts).1[k]) ==>
                failed == {}
    {
      var paths := Elements(stale);
      var tried;
      indexed, stop, failed, tried := during.IndexFiles(paths, run);
      if Undisturbed(during.c, stale) { UndisturbedSmooth(during.c, paths, stale); }
      if stop.Finished? && (forall ts, k | 0 <= k < |ts| && Sized(during.c, ts) :: !during.c.embed(ts).1[k]) {
        NoneWithheld(during.c, Selected(during.c, paths), failed, tried);
      }
      InvAnyDisk(during.c, after.c, after.store.tok, after.store.db);
      checked, again, found := false, {}, None;
      if !indexed {
        return;
      }
      if stop.Finished? {
        forall p | p in stale && Refreshable(during.c, p) && p !in failed ensures Settled(during.c, after.store.db, p) {
          FilterMember((q: string) => ToIndex(during.c, q), paths, p);
          assert p in Selected(during.c, paths);
        }
      }
      found := find(after.store.db, 1);
      if found == None {
        return;
      }
      var sure;
      again, sure := ClassifyStale(after, found.value, run);
      checked := sure;
      if !sure {
        again := {};
      }
    }

    /** Searches and reconciles. Unless a staleness check failed, every result is flagged exactly if its
        file was stale at the last check, and none is silently stale; after a failed check nothing is
        flagged. The token budget only cuts the end off. idx, during and after are the one indexer as
        it meets the disk at the check, at the refresh and at the second check.

        outdated are the files of the first finding that were stale. Of at least one and at most the
        threshold all are re-indexed and the results are those of a second search; otherwise, or if
        that failed, the store is left alone and the results are those of the first. */
    method SearchWithFreshness(idx: Indexer, during: Indexer, after: Indexer, maxTokens: int, run: Session)
      returns (out: Option<SearchResults>, ghost checked: bool, ghost at: Config, ghost t: Tables,
               ghost outdated: set<string>, ghost stop: Stop, ghost failed: set<string>)
      requires idx.Valid() && during.Valid() && after.Valid() && during.store == idx.store && after.store == idx.store
      requires SameButDisk(idx.c, during.c) && SameButDisk(during.c, after.c)
      requires FinderOk(find, metadataOnly)
      modifies idx.ctx, during`onIndexed, idx.store, during.progress, during.ctx, after.ctx, run
      ensures idx.Valid()
      ensures out.Some? && checked ==> Reconciled(at, t, metadataOnly, out.value.results)
      ensures out.Some? && !checked ==> forall i | 0 <= i < |out.value.results| :: !out.value.results[i].stale
      ensures out.Some? && run.Faultless() && idx.ctx.Never() && after.ctx.Never() ==> checked
      ensures at == idx.c || at == after.c
      ensures t == old(idx.store.db) || t == idx.store.db
      ensures out.Some? && maxTokens > 0 && |out.value.results| > 1 ==> TotalTokens(out.value.results) <= maxTokens
      ensures run.Faultless() && idx.ctx.Never() && find(old(idx.store.db), 0).Some? ==>
                var first := find(old(idx.store.db), 0).value;
                forall p :: p in outdated <==>
                  (exists i :: 0 <= i < |first| && first[i].filePath == p) && StaleNow(idx.c, old(idx.store.db), p)
      ensures find(old(idx.store.db), 0).None? ==> outdated == {}
      ensures |outdated| == 0 || |outdated| > staleRefreshThreshold ==>
                && idx.store.db == old(idx.store.db) && during.onIndexed == old(during.onIndexed)
                && Shows(find(old(idx.store.db), 0), out)
      ensures 0 < |outdated| <= staleRefreshThreshold ==>
                && (stop.Finished? ==> forall p | p in outdated && Refreshable(during.c, p) && p !in failed ::
                      Settled(during.c, idx.store.db, p))
                && (stop.Finished? ==> during.onIndexed == old(during.onIndexed) + 1)
                && (if stop.Finished? || stop.BetweenBatches? || stop == InBatch(true)
                    then Shows(find(idx.store.db, 1), out) && (out.Some? ==> at == after.c && t == idx.store.db)
                    else Shows(find(old(idx.store.db), 0), out))
      ensures run.Faultless() && during.ctx.Never() && Undisturbed(during.c, outdated) ==> stop.Finished?
      ensures stop.Finished? && (forall ts, k | 0 <= k < |ts| && Sized(during.c, ts) :: !during.c.embed(ts).1[k]) ==>
                failed == {}
    {
      out, checked, at, t := None, false, idx.c, idx.store.db;
      outdated, stop, failed := {}, Finished, {};
      DisksChain(idx.c, during.c, after.c);
      var found := find(idx.store.db, 0);
      if found == None {
        return;
      }
      var stale, ok := ClassifyStale(idx, found.value, run);
      if ok { ClassifiedAll(idx.c, idx.store.db, found.value, stale); }
      if !ok {
        var unreconciled := Deliver(found.value, {}, maxTokens, at, idx.store.tok, t, false);
        out := Some(unreconciled);
        return;
      }
      checked, outdated := true, stale;
      var results := found.value;
      if stale != {} && |stale| <= staleRefreshThreshold {
        var refreshed, indexed, again;
        ghost var sure;
        refreshed, indexed, again, sure, stop, failed := Refresh(during, after, stale, run);
        InvAnyDisk(after.c, idx.c, idx.store.tok, idx.store.db);
        if indexed {
          if refreshed == None {
            return;
          }
          results, stale, checked, at, t := refreshed.value, again, sure, after.c, after.store.db;
        }
      }
      var final := Deliver(results, stale, maxTokens, at, idx.store.tok, t, checked);
      out := Some(final);
    }

    /** Flags the results and applies the budget. */
    method Deliver(results: seq<Result>, stale: set<string>, maxTokens: int, ghost at: Config, ghost tok: Tokenizer,
                   ghost t: Tables, ghost checked: bool)
      returns (out: SearchResults)
      requires forall i | 0 <= i < |results| :: Stored(metadataOnly, t, results[i])
      requires checked ==> Inv(at, tok, t) && Classified(at, t, results, stale)
      requires !checked ==> stale == {}
      ensures checked ==> Reconciled(at, t, metadataOnly, out.results)
      ensures !checked ==> forall i | 0 <= i < |out.results| :: !out.results[i].stale
      ensures maxTokens > 0 && |out.results| > 1 ==> TotalTokens(out.results) <= maxTokens
      ensures Shows(Some(results), Some(out))
    {
      var flagged := Flag(results, stale);
      out := Finalize(flagged, maxTokens);
      FlaggedShows(metadataOnly, t, results, stale, out);
      if checked {
        FlaggedReconciled(at, tok, t, metadataOnly, results, stale, out.results);
      } else {
        assert forall i | 0 <= i < |out.results| :: out.results[i] == flagged[i] == results[i];
      }
    }
  }
}
