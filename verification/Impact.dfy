/** query/graph.go: who calls a symbol, directly and through others, over a graph of names. */
module Impact {
  import opened Wrappers
  import opened Seqs
  import opened Store
  import opened References

  // ---------- The graph ----------

  /** The definition an edge starts in: the parser's name for it, or else its chunk's. */
  function SourceName(x: Index, e: Edge): string {
    if e.srcName == "" && e.srcID in x.byID then x.byID[e.srcID].name else e.srcName
  }

  /** An edge by which caller refers to the name; nothing refers to the empty name. */
  predicate Refers(x: Index, e: Edge, caller: string, name: string) {
    name != "" && e.dstName == name && caller != "" && SourceName(x, e) == caller
  }

  predicate Calls(x: Index, edges: seq<Edge>, caller: string, name: string) {
    exists i | 0 <= i < |edges| :: Refers(x, edges[i], caller, name)
  }

  /** Such an edge has the name for its target, and is from the caller by the parser's word, or only where
      the parser had no name by its chunk's. */
  lemma {:induction false} CallsExactly(x: Index, edges: seq<Edge>, caller: string, name: string)
    ensures Calls(x, edges, caller, name) <==>
      name != "" && caller != "" && exists i | 0 <= i < |edges| ::
        edges[i].dstName == name
        && (|| edges[i].srcName == caller
            || (edges[i].srcName == "" && edges[i].srcID in x.byID && x.byID[edges[i].srcID].name == caller))
  {
    forall i | 0 <= i < |edges|
      ensures Refers(x, edges[i], caller, name) <==>
              && name != "" && caller != "" && edges[i].dstName == name
              && (|| edges[i].srcName == caller
                  || (edges[i].srcName == "" && edges[i].srcID in x.byID && x.byID[edges[i].srcID].name == caller))
    {}
  }

  /** A chain of callers, from the symbol outwards. */
  ghost predicate Chain(x: Index, edges: seq<Edge>, names: seq<string>) {
    names != [] && forall i | 0 <= i < |names| - 1 :: Calls(x, edges, names[i + 1], names[i])
  }

  ghost predicate Reaches(x: Index, edges: seq<Edge>, symbol: string, name: string, d: nat) {
    exists names :: |names| == d + 1 && names[0] == symbol && names[d] == name && Chain(x, edges, names)
  }

  /** The shortest chain of callers from the symbol to the name has length d. */
  ghost predicate Distance(x: Index, edges: seq<Edge>, symbol: string, name: string, d: nat) {
    Reaches(x, edges, symbol, name, d) && forall k: nat | k < d :: !Reaches(x, edges, symbol, name, k)
  }

  lemma {:induction false} ReachesSelf(x: Index, edges: seq<Edge>, symbol: string, name: string)
    ensures Reaches(x, edges, symbol, name, 0) <==> name == symbol
  {
    if name == symbol { assert Chain(x, edges, [symbol]); }
  }

  lemma {:induction false} ReachesNext(x: Index, edges: seq<Edge>, symbol: string, via: string, name: string, d: nat)
    requires Reaches(x, edges, symbol, via, d) && Calls(x, edges, name, via)
    ensures Reaches(x, edges, symbol, name, d + 1)
  {
    var names :| |names| == d + 1 && names[0] == symbol && names[d] == via && Chain(x, edges, names);
    var more := names + [name];
    assert more[d + 1] == name && more[0] == symbol && Chain(x, edges, more);
  }

  /** The last step of a chain. */
  lemma {:induction false} ReachesVia(x: Index, edges: seq<Edge>, symbol: string, name: string, d: nat)
    requires Reaches(x, edges, symbol, name, d) && d > 0
    ensures exists via :: Reaches(x, edges, symbol, via, d - 1) && Calls(x, edges, name, via)
  {
    var names :| |names| == d + 1 && names[0] == symbol && names[d] == name && Chain(x, edges, names);
    var less := names[..d];
    assert less[0] == symbol && less[d - 1] == names[d - 1] && Chain(x, edges, less);
    assert Reaches(x, edges, symbol, names[d - 1], d - 1);
    assert Calls(x, edges, names[d - 1 + 1], names[d - 1]);
  }

  /** The last but one name of a shortest chain is one nearer. */
  lemma {:induction false} DistanceVia(x: Index, edges: seq<Edge>, symbol: string, name: string, d: nat)
    requires Distance(x, edges, symbol, name, d) && d > 0
    ensures exists via :: Distance(x, edges, symbol, via, d - 1) && Calls(x, edges, name, via)
  {
    ReachesVia(x, edges, symbol, name, d);
    var via :| Reaches(x, edges, symbol, via, d - 1) && Calls(x, edges, name, via);
    forall k: nat | k < d - 1 ensures !Reaches(x, edges, symbol, via, k) {
      if Reaches(x, edges, symbol, via, k) { ReachesNext(x, edges, symbol, via, name, k); }
    }
    assert Distance(x, edges, symbol, via, d - 1);
  }

  // ---------- Direct callers ----------

  /** How an edge is reported as a caller: named by its source, located at the source's definition, at
      its chunk, or at the reference. */
  function RefFor(x: Index, e: Edge): GraphRef {
    var name := SourceName(x, e);
    var ref := GraphRef(name, e.dstQualifier, e.kind, true, e.filePath, "", "", e.line, 0, e.line, e.filePath, 1);
    match Best(Candidates(x, name), Rank(e.filePath, Nowhere))
    case Some(def) => Located(ref, def)
    case None => if e.srcID in x.byID then Located(ref, x.byID[e.srcID]) else ref
  }

  /** The fields of a caller's reference. */
  lemma {:induction false} RefForExactly(x: Index, e: Edge)
    ensures var r := RefFor(x, e);
            && r.name == (if e.srcName == "" && e.srcID in x.byID then x.byID[e.srcID].name else e.srcName)
            && r.qualifier == e.dstQualifier && r.edgeKind == e.kind && r.resolved
            && r.line == e.line && r.refFile == e.filePath && r.depth == 1
            && var defs := if r.name in x.byName then x.byName[r.name] else [];
               && (defs == [] && e.srcID in x.byID ==> LocatedIn(r, x.byID[e.srcID]))
               && (defs == [] && e.srcID !in x.byID ==>
                     && r.filePath == e.filePath && r.nodeKind == "" && r.parent == ""
                     && r.startLine == e.line && r.endLine == 0)
               && (defs != [] && (forall j | 0 <= j < |defs| :: defs[j].filePath != e.filePath) ==>
                     LocatedIn(r, defs[0]))
               && (forall i | 0 <= i < |defs| && defs[i].filePath == e.filePath
                              && (forall j | 0 <= j < i :: defs[j].filePath != e.filePath) :: LocatedIn(r, defs[i]))
  {
    var defs := Candidates(x, SourceName(x, e));
    if defs != [] {
      var i := FirstOfBest(defs, e.filePath, Nowhere);
    }
  }

  predicate LocatedIn(r: GraphRef, s: Symbol) {
    && r.filePath == s.filePath && r.nodeKind == s.nodeKind && r.parent == s.parent
    && r.startLine == s.startLine && r.endLine == s.endLine
  }

  /** The edges to a name, in the store's order. */
  method EdgesByTargetName(edges: seq<Edge>, name: string, run: Session) returns (found: seq<Edge>, ok: bool)
    modifies run
    ensures ok ==> forall e :: e in found <==> e in edges && name != "" && e.dstName == name
    ensures run.Faultless() ==> ok
  {
    if name == "" {
      return [], true;
    }
    ok := run.Exec();
    found := Filter((e: Edge) => e.dstName == name, edges);
    forall e ensures e in found <==> e in edges && e.dstName == name {
      FilterMember((e: Edge) => e.dstName == name, edges, e);
    }
  }

  /** The reference is that of an edge to the symbol. */
  ghost predicate From(x: Index, edges: seq<Edge>, symbol: string, r: GraphRef) {
    exists i :: 0 <= i < |edges| && Refers(x, edges[i], r.name, symbol) && r == RefFor(x, edges[i])
  }

  /** One reference for every edge whose source has a name. */
  function CallerRef(x: Index): Edge -> Option<GraphRef> {
    (e: Edge) => if SourceName(x, e) == "" then None else Some(RefFor(x, e))
  }

  predicate Mentions(out: seq<GraphRef>, name: string) {
    exists i | 0 <= i < |out| :: out[i].name == name
  }

  /** The references to a symbol from named definitions. */
  method CallersOf(x: Index, edges: seq<Edge>, symbol: string, run: Session)
    returns (refs: array<GraphRef>, len: nat, ok: bool)
    modifies run
    ensures fresh(refs) && len <= refs.Length
    ensures ok ==> CallersExactly(x, edges, symbol, refs[..len])
    ensures run.Faultless() ==> ok
  {
    var found;
    found, ok := EdgesByTargetName(edges, symbol, run);
    if ok && |found| > 0 {
      ok := run.Exec();  // the imports of the edges' files
    }
    refs, len := CollectRefs(x, found);
    if ok {
      FoundExactly(x, edges, symbol, found);
    }
  }

  /** The loop of callersOf. */
  method CollectRefs(x: Index, found: seq<Edge>) returns (refs: array<GraphRef>, len: nat)
    ensures fresh(refs) && len <= refs.Length && refs[..len] == Collected(CallerRef(x), found)
  {
    refs := new GraphRef[|found|](i => NOREF);
    len := 0;
    assert found[..0] == [];
    for i := 0 to |found|
      invariant Gathered(CallerRef(x), refs, len, found, i)
    {
      var ref := RefOf(x, found[i]);
      len := Gather(CallerRef(x), refs, len, found, i, ref);
    }
    assert found[..|found|] == found;
  }

  /** One edge of callersOf. */
  method RefOf(x: Index, e: Edge) returns (r: Option<GraphRef>)
    ensures r == CallerRef(x)(e)
  {
    var haveChunk := e.srcID in x.byID;
    var name := e.srcName;
    if name == "" && haveChunk {
      name := x.byID[e.srcID].name;
    }
    if name == "" {
      return None;
    }
    var ref := GraphRef(name, e.dstQualifier, e.kind, true, "", "", "", 0, 0, e.line, e.filePath, 1);
    var def := Resolve(x, [], name, "", e.filePath);
    UnqualifiedNear([]);
    SameRanks(Candidates(x, name), Rank(e.filePath, LeadsTo([], "")), Rank(e.filePath, Nowhere));
    if def.Some? {
      ref := Located(ref, def.value);
    } else if haveChunk {
      ref := Located(ref, x.byID[e.srcID]);
    } else {
      ref := ref.(filePath := e.filePath, startLine := e.line);
    }
    return Some(ref);
  }

  /** The references are those of the edges to the symbol, and every caller has one. */
  ghost predicate CallersExactly(x: Index, edges: seq<Edge>, symbol: string, refs: seq<GraphRef>) {
    && (forall k | 0 <= k < |refs| :: From(x, edges, symbol, refs[k]))
    && (forall caller :: Calls(x, edges, caller, symbol) <==> Mentions(refs, caller))
    && (forall r {:trigger Definition(r)} | From(x, edges, symbol, r) :: SeenIn(Definition, refs, Definition(r)))
  }

  /** So each edge to the symbol from a named source has a reference with its name and file, */
  lemma {:induction false} CallerSeen(x: Index, edges: seq<Edge>, symbol: string, refs: seq<GraphRef>, i: nat)
    requires CallersExactly(x, edges, symbol, refs) && i < |edges|
    requires symbol != "" && edges[i].dstName == symbol && RefFor(x, edges[i]).name != ""
    ensures exists k | 0 <= k < |refs| ::
              refs[k].name == RefFor(x, edges[i]).name && refs[k].filePath == RefFor(x, edges[i]).filePath
  {
    var r := RefFor(x, edges[i]);
    RefForExactly(x, edges[i]);
    assert From(x, edges, symbol, r);
    var k :| 0 <= k < |refs| && Definition(refs[k]) == Definition(r);
  }

  /** each reference is that of such an edge, */
  lemma {:induction false} CallerFrom(x: Index, edges: seq<Edge>, symbol: string, refs: seq<GraphRef>, k: nat)
    returns (i: nat)
    requires CallersExactly(x, edges, symbol, refs) && k < |refs|
    ensures i < |edges| && symbol != "" && edges[i].dstName == symbol && refs[k] == RefFor(x, edges[i])
  {
    assert From(x, edges, symbol, refs[k]);
    i :| 0 <= i < |edges| && Refers(x, edges[i], refs[k].name, symbol) && refs[k] == RefFor(x, edges[i]);
  }

  /** and no two references have the same name and file. */
  lemma {:induction false} CallersApart(refs: seq<GraphRef>)
    requires Distinct(Definition, refs)
    ensures forall k, l | 0 <= k < l < |refs| :: refs[k].name != refs[l].name || refs[k].filePath != refs[l].filePath
  {
    forall k, l | 0 <= k < l < |refs| ensures Definition(refs[k]) != Definition(refs[l]) {}
  }

  lemma {:induction false} FoundExactly(x: Index, edges: seq<Edge>, symbol: string, found: seq<Edge>)
    requires forall e :: e in found <==> e in edges && symbol != "" && e.dstName == symbol
    ensures CallersExactly(x, edges, symbol, Collected(CallerRef(x), found))
  {
    var refs := Collected(CallerRef(x), found);
    forall k | 0 <= k < |refs| ensures From(x, edges, symbol, refs[k]) {
      CollectedFrom(CallerRef(x), found, k);
      var l :| 0 <= l < |found| && CallerRef(x)(found[l]) == Some(refs[k]);
      assert found[l] in edges;
      var i :| 0 <= i < |edges| && edges[i] == found[l];
      assert Refers(x, edges[i], refs[k].name, symbol);
    }
    forall caller ensures Calls(x, edges, caller, symbol) <==> Mentions(refs, caller) {
      if Calls(x, edges, caller, symbol) {
        CallerFound(x, edges, symbol, found, caller);
      }
      if Mentions(refs, caller) {
        var k :| 0 <= k < |refs| && refs[k].name == caller;
        assert From(x, edges, symbol, refs[k]);
      }
    }
    forall r | From(x, edges, symbol, r) ensures SeenIn(Definition, refs, Definition(r)) {
      DefinitionFound(x, edges, symbol, found, r);
    }
  }

  lemma {:induction false} DefinitionFound(x: Index, edges: seq<Edge>, symbol: string, found: seq<Edge>, r: GraphRef)
    requires forall e :: e in found <==> e in edges && symbol != "" && e.dstName == symbol
    requires From(x, edges, symbol, r)
    ensures SeenIn(Definition, Collected(CallerRef(x), found), Definition(r))
  {
    var i :| 0 <= i < |edges| && Refers(x, edges[i], r.name, symbol) && r == RefFor(x, edges[i]);
    assert edges[i] in found;
    var l :| 0 <= l < |found| && found[l] == edges[i];
    CollectedAll(CallerRef(x), found, l);
    var k :| 0 <= k < |Collected(CallerRef(x), found)| && Collected(CallerRef(x), found)[k] == r;
    assert Definition(Collected(CallerRef(x), found)[k]) == Definition(r);
  }

  lemma {:induction false} CallerFound(x: Index, edges: seq<Edge>, symbol: string, found: seq<Edge>, caller: string)
    requires forall e :: e in found <==> e in edges && symbol != "" && e.dstName == symbol
    requires Calls(x, edges, caller, symbol)
    ensures Mentions(Collected(CallerRef(x), found), caller)
  {
    var i :| 0 <= i < |edges| && Refers(x, edges[i], caller, symbol);
    assert edges[i] in found;
    var l :| 0 <= l < |found| && found[l] == edges[i];
    CollectedAll(CallerRef(x), found, l);
    var k :| 0 <= k < |Collected(CallerRef(x), found)| && Collected(CallerRef(x), found)[k] == RefFor(x, found[l]);
    assert Collected(CallerRef(x), found)[k].name == caller;
  }

  /** One reference to each definition that refers to the symbol. */
  method UniqueCallers(x: Index, edges: seq<Edge>, symbol: string, run: Session)
    returns (refs: seq<GraphRef>, ok: bool)
    modifies run
    ensures ok ==> CallersExactly(x, edges, symbol, refs)
    ensures ok ==> Distinct(Definition, refs)
    ensures run.Faultless() ==> ok
  {
    var found, len;
    found, len, ok := CallersOf(x, edges, symbol, run);
    refs := [];
    if !ok {
      return;
    }
    ghost var all := found[..len];
    var n := Dedupe(Definition, found, len);
    refs := found[..n];
    NamesKept(x, edges, symbol, all);
  }

  lemma {:induction false} NamesKept(x: Index, edges: seq<Edge>, symbol: string, all: seq<GraphRef>)
    requires CallersExactly(x, edges, symbol, all)
    ensures CallersExactly(x, edges, symbol, Deduped(Definition, all))
    ensures Distinct(Definition, Deduped(Definition, all))
  {
    DedupedKeeps(Definition, all);
    var d := Deduped(Definition, all);
    forall k | 0 <= k < |d| ensures From(x, edges, symbol, d[k]) {
      DedupedAmong(Definition, all, k);
      var l :| 0 <= l < |all| && all[l] == d[k];
      assert From(x, edges, symbol, all[l]);
    }
    forall caller ensures Calls(x, edges, caller, symbol) <==> Mentions(d, caller) {
      MentionsSeen(all, caller);
      MentionsSeen(d, caller);
      assert Calls(x, edges, caller, symbol) <==> Mentions(all, caller);
    }
  }

  lemma {:induction false} MentionsSeen(refs: seq<GraphRef>, name: string)
    ensures Mentions(refs, name) <==> exists file :: SeenIn(Definition, refs, (name, file))
  {
    if Mentions(refs, name) {
      var k :| 0 <= k < |refs| && refs[k].name == name;
      assert SeenIn(Definition, refs, (name, refs[k].filePath));
    }
  }

  // ---------- Callers at any distance ----------

  /** Distances of the names reached: the symbol's is 0; a caller is at most one further than what it
      calls; and every other name calls one that is exactly one nearer. */
  ghost predicate Distances(x: Index, edges: seq<Edge>, symbol: string, dist: map<string, nat>) {
    && (forall n :: n in dist && dist[n] == 0 <==> n == symbol)
    && (forall n, via | via in dist && Calls(x, edges, n, via) :: n in dist && dist[n] <= dist[via] + 1)
    && (forall n, d: nat {:trigger OneNearer(x, edges, dist, n, d)} | n in dist && dist[n] == d + 1 ::
          OneNearer(x, edges, dist, n, d))
  }

  predicate OneNearer(x: Index, edges: seq<Edge>, dist: map<string, nat>, n: string, d: nat) {
    exists via | via in dist :: dist[via] == d && Calls(x, edges, n, via)
  }

  predicate Near(dist: map<string, nat>, n: string, d: nat) {
    n in dist && dist[n] <= d
  }

  /** The reference is one from a name at its depth to a name one nearer to the symbol. */
  ghost predicate Grounded(x: Index, edges: seq<Edge>, dist: map<string, nat>, r: GraphRef) {
    && r.depth >= 1 && r.name in dist && dist[r.name] == r.depth
    && exists via | via in dist :: dist[via] == r.depth - 1 && From(x, edges, via, r.(depth := 1))
  }

  /** Each name once, all of them visited, nearest first. */
  predicate Listed(d: nat, visited: set<string>, out: seq<GraphRef>) {
    && (forall i | 0 <= i < |out| :: out[i].name in visited && out[i].depth <= d)
    && (forall i, j | 0 <= i < j < |out| :: out[i].name != out[j].name && out[i].depth <= out[j].depth)
  }

  /** The state while the level after d is built; with next empty, the state between levels. */
  ghost predicate Building(x: Index, edges: seq<Edge>, symbol: string, dist: map<string, nat>, d: nat,
                           visited: set<string>, next: seq<string>, out: seq<GraphRef>) {
    && (forall n :: n in visited <==> Near(dist, n, d) || n in next)
    && (forall i | 0 <= i < |next| :: next[i] in dist && dist[next[i]] == d + 1)
    && (forall n {:trigger Mentions(out, n)} | n in visited && n != symbol :: Mentions(out, n))
    && (forall i {:trigger Grounded(x, edges, dist, out[i])} | 0 <= i < |out| :: Grounded(x, edges, dist, out[i]))
    && Listed(d + 1, visited, out)
  }

  ghost predicate Level(x: Index, edges: seq<Edge>, symbol: string, dist: map<string, nat>, d: nat,
                        visited: set<string>, frontier: seq<string>, out: seq<GraphRef>) {
    && Building(x, edges, symbol, dist, d, visited, [], out) && Listed(d, visited, out)
    && (forall n :: n in frontier <==> n in dist && dist[n] == d)
  }

  lemma {:induction false} ListedNext(d: nat, visited: set<string>, out: seq<GraphRef>, ref: GraphRef)
    requires Listed(d, visited, out) && ref.name !in visited && ref.depth == d
    ensures Listed(d, visited + {ref.name}, out + [ref])
    ensures forall n | Mentions(out, n) || n == ref.name :: Mentions(out + [ref], n)
  {
    assert (out + [ref])[|out|] == ref;
    forall n | Mentions(out, n) ensures Mentions(out + [ref], n) {
      var i :| 0 <= i < |out| && out[i].name == n;
      assert (out + [ref])[i].name == n;
    }
  }

  /** One new caller of a name of the level. */
  lemma {:induction false} AddCaller(x: Index, edges: seq<Edge>, symbol: string, dist: map<string, nat>, d: nat,
                                     visited: set<string>, next: seq<string>, out: seq<GraphRef>, via: string,
                                     r: GraphRef)
    requires Distances(x, edges, symbol, dist) && Building(x, edges, symbol, dist, d, visited, next, out)
    requires via in dist && dist[via] == d && From(x, edges, via, r) && r.name !in visited
    ensures Building(x, edges, symbol, dist, d, visited + {r.name}, next + [r.name], out + [r.(depth := d + 1)])
  {
    var ref := r.(depth := d + 1);
    CallerGrounded(x, edges, symbol, dist, d, via, r);
    AddGrounded(x, edges, symbol, dist, d, visited, next, out, ref);
  }

  lemma {:induction false} CallerGrounded(x: Index, edges: seq<Edge>, symbol: string, dist: map<string, nat>, d: nat,
                                          via: string, r: GraphRef)
    requires Distances(x, edges, symbol, dist)
    requires via in dist && dist[via] == d && From(x, edges, via, r) && !Near(dist, r.name, d)
    ensures Grounded(x, edges, dist, r.(depth := d + 1))
  {
    var ref := r.(depth := d + 1);
    assert r.depth == 1 && ref.(depth := 1) == r;
    assert Calls(x, edges, r.name, via);
  }

  lemma {:induction false} AddGrounded(x: Index, edges: seq<Edge>, symbol: string, dist: map<string, nat>, d: nat,
                                       visited: set<string>, next: seq<string>, out: seq<GraphRef>, ref: GraphRef)
    requires Building(x, edges, symbol, dist, d, visited, next, out) && ref.name !in visited
    requires Grounded(x, edges, dist, ref) && ref.depth == d + 1
    ensures Building(x, edges, symbol, dist, d, visited + {ref.name}, next + [ref.name], out + [ref])
  {
    ListedNext(d + 1, visited, out, ref);
    assert (next + [ref.name])[|next|] == ref.name;
    assert forall n :: n in next + [ref.name] <==> n in next || n == ref.name;
  }

  /** Once every name of the level is expanded, the next one is complete. */
  lemma {:induction false} EndBuilding(x: Index, edges: seq<Edge>, symbol: string, dist: map<string, nat>, d: nat,
                                       visited: set<string>, frontier: seq<string>, next: seq<string>,
                                       out: seq<GraphRef>)
    requires Distances(x, edges, symbol, dist) && Building(x, edges, symbol, dist, d, visited, next, out)
    requires forall n :: n in frontier <==> n in dist && dist[n] == d
    requires forall i, n | 0 <= i < |frontier| && Calls(x, edges, n, frontier[i]) :: n in visited
    ensures Level(x, edges, symbol, dist, d + 1, visited, next, out)
  {
    forall n | n in dist && dist[n] == d + 1 ensures n in next {
      assert OneNearer(x, edges, dist, n, d);
      var via :| via in dist && dist[via] == d && Calls(x, edges, n, via);
      assert via in frontier;
      assert !Near(dist, n, d);
    }
    assert forall n :: Near(dist, n, d + 1) <==> Near(dist, n, d) || (n in dist && dist[n] == d + 1);
  }

  /** A caller of a name of the level, unless it was visited before. */
  method VisitCaller(ghost x: Index, ghost edges: seq<Edge>, ghost symbol: string, ghost dist: map<string, nat>,
                     d: nat, visited0: set<string>, next0: seq<string>, out0: seq<GraphRef>, ghost via: string,
                     r: GraphRef)
    returns (visited: set<string>, next: seq<string>, out: seq<GraphRef>)
    requires Distances(x, edges, symbol, dist) && Building(x, edges, symbol, dist, d, visited0, next0, out0)
    requires via in dist && dist[via] == d && From(x, edges, via, r)
    ensures Building(x, edges, symbol, dist, d, visited, next, out) && visited == visited0 + {r.name}
  {
    visited, next, out := visited0, next0, out0;
    if r.name in visited {
      return;
    }
    AddCaller(x, edges, symbol, dist, d, visited, next, out, via, r);
    visited, next, out := visited + {r.name}, next + [r.name], out + [r.(depth := d + 1)];
  }

  /** The callers in the given references. */
  method VisitAll(ghost x: Index, ghost edges: seq<Edge>, ghost symbol: string, ghost dist: map<string, nat>, d: nat,
                  visited0: set<string>, next0: seq<string>, out0: seq<GraphRef>, ghost via: string,
                  refs: seq<GraphRef>)
    returns (visited: set<string>, next: seq<string>, out: seq<GraphRef>)
    requires Distances(x, edges, symbol, dist) && Building(x, edges, symbol, dist, d, visited0, next0, out0)
    requires via in dist && dist[via] == d && forall i | 0 <= i < |refs| :: From(x, edges, via, refs[i])
    ensures Building(x, edges, symbol, dist, d, visited, next, out) && visited0 <= visited
    ensures forall i | 0 <= i < |refs| :: refs[i].name in visited
  {
    visited, next, out := visited0, next0, out0;
    for i := 0 to |refs|
      invariant Building(x, edges, symbol, dist, d, visited, next, out) && visited0 <= visited
      invariant forall j | 0 <= j < i :: refs[j].name in visited
    {
      visited, next, out := VisitCaller(x, edges, symbol, dist, d, visited, next, out, via, refs[i]);
    }
  }

  /** The callers of one name of the level. */
  method ExpandOne(x: Index, edges: seq<Edge>, ghost symbol: string, ghost dist: map<string, nat>, d: nat,
                   name: string, visited0: set<string>, next0: seq<string>, out0: seq<GraphRef>, run: Session)
    returns (visited: set<string>, next: seq<string>, out: seq<GraphRef>, ok: bool)
    requires Distances(x, edges, symbol, dist) && Building(x, edges, symbol, dist, d, visited0, next0, out0)
    requires name in dist && dist[name] == d
    modifies run
    ensures ok ==> Building(x, edges, symbol, dist, d, visited, next, out) && visited0 <= visited
    ensures ok ==> forall caller | Calls(x, edges, caller, name) :: caller in visited
    ensures run.Faultless() ==> ok
  {
    visited, next, out := visited0, next0, out0;
    var refs;
    refs, ok := UniqueCallers(x, edges, name, run);
    if !ok {
      return;
    }
    visited, next, out := VisitAll(x, edges, symbol, dist, d, visited, next, out, name, refs);
    CallersVisited(x, edges, name, refs, visited);
  }

  lemma {:induction false} CallersVisited(x: Index, edges: seq<Edge>, name: string, refs: seq<GraphRef>,
                                          visited: set<string>)
    requires CallersExactly(x, edges, name, refs) && forall i | 0 <= i < |refs| :: refs[i].name in visited
    ensures forall caller | Calls(x, edges, caller, name) :: caller in visited
  {
    forall caller | Calls(x, edges, caller, name) ensures caller in visited {
      assert Mentions(refs, caller);
    }
  }

  method ExpandAll(x: Index, edges: seq<Edge>, ghost symbol: string, ghost dist: map<string, nat>, d: nat,
                   visited0: set<string>, frontier: seq<string>, out0: seq<GraphRef>, run: Session)
    returns (visited: set<string>, next: seq<string>, out: seq<GraphRef>, ok: bool)
    requires Distances(x, edges, symbol, dist) && Level(x, edges, symbol, dist, d, visited0, frontier, out0)
    modifies run
    ensures ok ==> Level(x, edges, symbol, dist, d + 1, visited, next, out)
    ensures run.Faultless() ==> ok
  {
    visited, next, out, ok := visited0, [], out0, true;
    for i := 0 to |frontier|
      invariant ok && Building(x, edges, symbol, dist, d, visited, next, out)
      invariant forall j, n | 0 <= j < i && Calls(x, edges, n, frontier[j]) :: n in visited
    {
      visited, next, out, ok := ExpandOne(x, edges, symbol, dist, d, frontier[i], visited, next, out, run);
      if !ok {
        return;
      }
    }
    EndBuilding(x, edges, symbol, dist, d, visited, frontier, next, out);
  }

  /** Exactly the names at distance 1 to d are reported, each once, nearest first, with its distance and
      with a reference to a name one nearer. */
  ghost predicate Reported(x: Index, edges: seq<Edge>, symbol: string, d: nat, out: seq<GraphRef>) {
    && (forall i | 0 <= i < |out| ::
          && 1 <= out[i].depth <= d && Distance(x, edges, symbol, out[i].name, out[i].depth)
          && exists via ::
               Distance(x, edges, symbol, via, out[i].depth - 1) && From(x, edges, via, out[i].(depth := 1)))
    && (forall name, k | 1 <= k <= d && Distance(x, edges, symbol, name, k) :: Mentions(out, name))
    && (forall i, j | 0 <= i < j < |out| :: out[i].name != out[j].name && out[i].depth <= out[j].depth)
  }

  ghost predicate Reached(x: Index, edges: seq<Edge>, symbol: string, name: string) {
    exists d: nat :: Distance(x, edges, symbol, name, d)
  }

  /** Whatever is reached has a distance. */
  lemma {:induction false} HasDistance(x: Index, edges: seq<Edge>, symbol: string, name: string, d: nat)
    requires Reaches(x, edges, symbol, name, d)
    ensures exists k: nat | k <= d :: Distance(x, edges, symbol, name, k)
    decreases d
  {
    if !Distance(x, edges, symbol, name, d) {
      var k: nat :| k < d && Reaches(x, edges, symbol, name, k);
      HasDistance(x, edges, symbol, name, k);
    }
  }

  function Names(x: Index, edges: seq<Edge>, symbol: string): set<string> {
    {symbol} + set i | 0 <= i < |edges| :: SourceName(x, edges[i])
  }

  ghost function DistanceTo(x: Index, edges: seq<Edge>, symbol: string, name: string): (d: nat)
    requires Reached(x, edges, symbol, name)
    ensures Distance(x, edges, symbol, name, d)
  {
    var d: nat :| Distance(x, edges, symbol, name, d);
    d
  }

  ghost function DistanceMap(x: Index, edges: seq<Edge>, symbol: string): map<string, nat> {
    map n | n in Names(x, edges, symbol) && Reached(x, edges, symbol, n) :: DistanceTo(x, edges, symbol, n)
  }

  lemma {:induction false} MapExact(x: Index, edges: seq<Edge>, symbol: string, name: string, d: nat)
    ensures var m := DistanceMap(x, edges, symbol);
            Distance(x, edges, symbol, name, d) <==> name in m && m[name] == d
  {
    if Distance(x, edges, symbol, name, d) {
      if d == 0 {
        ReachesSelf(x, edges, symbol, name);
      } else {
        ReachesVia(x, edges, symbol, name, d);
      }
      assert name in Names(x, edges, symbol) && Reached(x, edges, symbol, name);
    }
  }

  lemma {:induction false} MapDistances(x: Index, edges: seq<Edge>, symbol: string)
    ensures Distances(x, edges, symbol, DistanceMap(x, edges, symbol))
  {
    var m := DistanceMap(x, edges, symbol);
    forall n ensures n in m && m[n] == 0 <==> n == symbol {
      MapExact(x, edges, symbol, n, 0);
      ReachesSelf(x, edges, symbol, n);
      assert Distance(x, edges, symbol, n, 0) <==> Reaches(x, edges, symbol, n, 0);
    }
    forall n, via | via in m && Calls(x, edges, n, via) ensures n in m && m[n] <= m[via] + 1 {
      CallerDistance(x, edges, symbol, n, via);
    }
    forall n, d: nat | n in m && m[n] == d + 1 ensures OneNearer(x, edges, m, n, d) {
      MapExact(x, edges, symbol, n, d + 1);
      DistanceVia(x, edges, symbol, n, d + 1);
      var via :| Distance(x, edges, symbol, via, d) && Calls(x, edges, n, via);
      MapExact(x, edges, symbol, via, d);
    }
  }

  lemma {:induction false} CallerDistance(x: Index, edges: seq<Edge>, symbol: string, n: string, via: string)
    requires var m := DistanceMap(x, edges, symbol); via in m && Calls(x, edges, n, via)
    ensures var m := DistanceMap(x, edges, symbol); n in m && m[n] <= m[via] + 1
  {
    var d := DistanceMap(x, edges, symbol)[via];
    MapExact(x, edges, symbol, via, d);
    ReachesNext(x, edges, symbol, via, n, d);
    HasDistance(x, edges, symbol, n, d + 1);
    var k: nat :| k <= d + 1 && Distance(x, edges, symbol, n, k);
    MapExact(x, edges, symbol, n, k);
  }

  /** The state after d levels. */
  ghost predicate After(x: Index, edges: seq<Edge>, symbol: string, d: nat, visited: set<string>,
                        frontier: seq<string>, out: seq<GraphRef>) {
    Level(x, edges, symbol, DistanceMap(x, edges, symbol), d, visited, frontier, out)
  }

  lemma {:induction false} StartLevel(x: Index, edges: seq<Edge>, symbol: string)
    ensures After(x, edges, symbol, 0, {symbol}, [symbol], [])
  {
    MapDistances(x, edges, symbol);
  }

  /** One level of the traversal. */
  method ExpandLevel(x: Index, edges: seq<Edge>, symbol: string, d: nat, visited0: set<string>,
                     frontier: seq<string>, out0: seq<GraphRef>, run: Session)
    returns (visited: set<string>, next: seq<string>, out: seq<GraphRef>, ok: bool)
    requires After(x, edges, symbol, d, visited0, frontier, out0)
    modifies run
    ensures ok ==> After(x, edges, symbol, d + 1, visited, next, out)
    ensures run.Faultless() ==> ok
  {
    MapDistances(x, edges, symbol);
    visited, next, out, ok :=
      ExpandAll(x, edges, symbol, DistanceMap(x, edges, symbol), d, visited0, frontier, out0, run);
  }

  /** Stopping at an empty level misses nothing. */
  lemma {:induction false} NothingBeyond(x: Index, edges: seq<Edge>, symbol: string, dist: map<string, nat>, d: nat,
                                         n: string)
    requires Distances(x, edges, symbol, dist) && forall k | k in dist :: dist[k] != d
    requires n in dist
    ensures dist[n] < d
    decreases dist[n]
  {
    if dist[n] > d {
      assert OneNearer(x, edges, dist, n, dist[n] - 1);
      var via :| via in dist && dist[via] == dist[n] - 1 && Calls(x, edges, n, via);
      NothingBeyond(x, edges, symbol, dist, d, via);
    }
  }

  lemma {:induction false} AllReported(x: Index, edges: seq<Edge>, symbol: string, d: nat, most: nat,
                                       visited: set<string>, frontier: seq<string>, out: seq<GraphRef>)
    requires After(x, edges, symbol, d, visited, frontier, out)
    requires d <= most && (d == most || frontier == [])
    ensures Reported(x, edges, symbol, most, out)
  {
    var m := DistanceMap(x, edges, symbol);
    forall i | 0 <= i < |out|
      ensures 1 <= out[i].depth && Distance(x, edges, symbol, out[i].name, out[i].depth)
      ensures exists via ::
                Distance(x, edges, symbol, via, out[i].depth - 1) && From(x, edges, via, out[i].(depth := 1))
    {
      assert Grounded(x, edges, m, out[i]);
      GroundedMeans(x, edges, symbol, out[i]);
    }
    forall name, k | 1 <= k <= most && Distance(x, edges, symbol, name, k) ensures Mentions(out, name) {
      VisitedWithin(x, edges, symbol, d, most, visited, frontier, out, name, k);
    }
  }

  lemma {:induction false} GroundedMeans(x: Index, edges: seq<Edge>, symbol: string, r: GraphRef)
    requires Grounded(x, edges, DistanceMap(x, edges, symbol), r)
    ensures 1 <= r.depth && Distance(x, edges, symbol, r.name, r.depth)
    ensures exists via :: Distance(x, edges, symbol, via, r.depth - 1) && From(x, edges, via, r.(depth := 1))
  {}

  lemma {:induction false} VisitedWithin(x: Index, edges: seq<Edge>, symbol: string, d: nat, most: nat,
                                         visited: set<string>, frontier: seq<string>, out: seq<GraphRef>,
                                         name: string, k: nat)
    requires After(x, edges, symbol, d, visited, frontier, out)
    requires d <= most && (d == most || frontier == [])
    requires 1 <= k <= most && Distance(x, edges, symbol, name, k)
    ensures Mentions(out, name)
  {
    var m := DistanceMap(x, edges, symbol);
    MapDistances(x, edges, symbol);
    MapExact(x, edges, symbol, name, k);
    if k > d { NothingBeyond(x, edges, symbol, m, d, name); }
    assert Near(m, name, d);
  }

  // ---------- The queries ----------

  const DEFAULT_IMPACT_DEPTH := 2
  const MAX_IMPACT_DEPTH := 10

  /** The definitions that refer to the symbol, each once. */
  method Callers(x: Index, edges: seq<Edge>, symbol: string, run: Session) returns (a: Answer)
    modifies run
    ensures a.Refs? ==> CallersExactly(x, edges, symbol, a.refs)
    ensures a.Refs? ==> Distinct(Definition, a.refs)
    ensures a.Refs? ==> forall k, l | 0 <= k < l < |a.refs| ::
              a.refs[k].name != a.refs[l].name || a.refs[k].filePath != a.refs[l].filePath
    ensures a.Refs? ==> forall i | 0 <= i < |edges| && symbol != "" && edges[i].dstName == symbol
                                   && RefFor(x, edges[i]).name != "" ::
              exists k | 0 <= k < |a.refs| ::
                a.refs[k].name == RefFor(x, edges[i]).name && a.refs[k].filePath == RefFor(x, edges[i]).filePath
    ensures a == GraphNotBuilt ==> edges == []
    ensures edges == [] && run.Faultless() ==> a == GraphNotBuilt
    ensures run.Faultless() ==> a != StoreError
  {
    var refs, ok := UniqueCallers(x, edges, symbol, run);
    if !ok {
      return StoreError;
    }
    CallersApart(refs);
    forall i | 0 <= i < |edges| && symbol != "" && edges[i].dstName == symbol && RefFor(x, edges[i]).name != ""
      ensures exists k | 0 <= k < |refs| ::
                refs[k].name == RefFor(x, edges[i]).name && refs[k].filePath == RefFor(x, edges[i]).filePath
    {
      CallerSeen(x, edges, symbol, refs, i);
    }
    if |refs| == 0 {
      a := EmptyReason(edges, run);
      return;
    }
    assert From(x, edges, symbol, refs[0]);
    return Refs(refs);
  }

  /** Level by level, until the depth is reached or a level is empty. */
  method Traverse(x: Index, edges: seq<Edge>, symbol: string, most: nat, run: Session)
    returns (out: seq<GraphRef>, ok: bool)
    modifies run
    ensures ok ==> Reported(x, edges, symbol, most, out)
    ensures run.Faultless() ==> ok
  {
    var visited, frontier := {symbol}, [symbol];
    out, ok := [], true;
    StartLevel(x, edges, symbol);
    var d := 1;
    while d <= most && |frontier| > 0
      invariant ok && 1 <= d <= most + 1
      invariant After(x, edges, symbol, d - 1, visited, frontier, out)
    {
      visited, frontier, out, ok := ExpandLevel(x, edges, symbol, d - 1, visited, frontier, out, run);
      if !ok {
        return;
      }
      d := d + 1;
    }
    AllReported(x, edges, symbol, d - 1, most, visited, frontier, out);
  }

  /** The definitions affected by changing the symbol: exactly those at distance 1 to the depth asked
      for, on cyclic graphs too. */
  method Impact(x: Index, edges: seq<Edge>, symbol: string, depth: int, run: Session) returns (a: Answer)
    modifies run
    ensures a.Refs? ==>
              Reported(x, edges, symbol, if depth <= 0 then 2 else if depth < 10 then depth else 10, a.refs)
    ensures a == GraphNotBuilt ==> edges == []
    ensures edges == [] && run.Faultless() ==> a == GraphNotBuilt
    ensures run.Faultless() ==> a != StoreError
  {
    var most := depth;
    if most <= 0 {
      most := DEFAULT_IMPACT_DEPTH;
    }
    if most > MAX_IMPACT_DEPTH {
      most := MAX_IMPACT_DEPTH;
    }
    var out, ok := Traverse(x, edges, symbol, most, run);
    if !ok {
      return StoreError;
    }
    if |out| == 0 {
      a := EmptyReason(edges, run);
      return;
    }
    ghost var via :| Distance(x, edges, symbol, via, out[0].depth - 1) && From(x, edges, via, out[0].(depth := 1));
    return Refs(out);
  }
}
