/** query/graph.go: what a symbol refers to. */
module Callees {
  import opened Wrappers
  import opened Seqs
  import opened Store
  import opened References

  /** The edge starts in a chunk that defines the symbol. */
  predicate FromDefinition(x: Index, e: Edge, symbol: string) {
    HasId(Candidates(x, symbol), e.srcID)
  }

  /** How an edge is reported as a callee: located at the definition it most likely means, or left
      without one; only an unresolved reference to a type is not reported. */
  ghost function CalleeFor(x: Index, imports: seq<Import>, e: Edge): Option<GraphRef> {
    var ref := GraphRef(e.dstName, e.dstQualifier, e.kind, false, "", "", "", 0, 0, e.line, e.filePath, 1);
    match Best(Candidates(x, e.dstName), Rank(e.filePath, LeadsTo(ImportsOf(imports, e.filePath), e.dstQualifier)))
    case Some(def) => Some(Located(ref.(resolved := true), def))
    case None => if e.kind == EDGE_REFERENCE then None else Some(ref)
  }

  const EDGE_REFERENCE := "reference"

  ghost function CalleeRef(x: Index, imports: seq<Import>): Edge -> Option<GraphRef> {
    (e: Edge) => CalleeFor(x, imports, e)
  }

  /** The references are those of edges from definitions of the symbol, and each of these edges that
      is to be reported has one for its site. */
  ghost predicate CalleesExactly(x: Index, edges: seq<Edge>, imports: seq<Import>, symbol: string,
                                 refs: seq<GraphRef>) {
    && (forall k | 0 <= k < |refs| :: IsCallee(x, edges, imports, symbol, refs[k]))
    && (forall r | IsCallee(x, edges, imports, symbol, r) :: SeenIn(Site, refs, Site(r)))
  }

  ghost predicate IsCallee(x: Index, edges: seq<Edge>, imports: seq<Import>, symbol: string, r: GraphRef) {
    exists i :: 0 <= i < |edges| && FromDefinition(x, edges[i], symbol) && CalleeFor(x, imports, edges[i]) == Some(r)
  }

  /** The edges from the given chunks, in the store's order. */
  method EdgesBySource(edges: seq<Edge>, ids: seq<Hash>, run: Session) returns (found: seq<Edge>, ok: bool)
    modifies run
    ensures ok ==> forall e :: e in found <==> e in edges && e.srcID in ids
    ensures run.Faultless() ==> ok
  {
    if |ids| == 0 {
      return [], true;
    }
    ok := run.Exec();
    found := Filter((e: Edge) => e.srcID in ids, edges);
    forall e ensures e in found <==> e in edges && e.srcID in ids {
      FilterMember((e: Edge) => e.srcID in ids, edges, e);
    }
  }

  method IdsOf(defs: seq<Symbol>) returns (ids: seq<Hash>)
    ensures forall id :: id in ids <==> HasId(defs, id)
  {
    ids := [];
    for i := 0 to |defs|
      invariant |ids| == i && forall j | 0 <= j < i :: ids[j] == defs[j].id
    {
      ids := ids + [defs[i].id];
    }
    forall id ensures id in ids <==> HasId(defs, id) {
      if id in ids {
        var j :| 0 <= j < |ids| && ids[j] == id;
        assert defs[j].id == id;
      }
      if HasId(defs, id) {
        var j :| 0 <= j < |defs| && defs[j].id == id;
        assert ids[j] == id;
      }
    }
  }

  /** One edge of Callees. */
  method RefOf(x: Index, imports: seq<Import>, e: Edge) returns (r: Option<GraphRef>)
    ensures r == CalleeFor(x, imports, e)
  {
    var ref := GraphRef(e.dstName, e.dstQualifier, e.kind, false, "", "", "", 0, 0, e.line, e.filePath, 1);
    var best := Resolve(x, ImportsOf(imports, e.filePath), e.dstName, e.dstQualifier, e.filePath);
    if best.Some? {
      ref := Located(ref.(resolved := true), best.value);
    } else if e.kind == EDGE_REFERENCE {
      return None;
    }
    return Some(ref);
  }

  /** The loop of Callees. */
  method CollectRefs(x: Index, imports: seq<Import>, found: seq<Edge>, ghost of: Edge -> Option<GraphRef>)
    returns (refs: array<GraphRef>, len: nat)
    requires forall e :: of(e) == CalleeFor(x, imports, e)
    ensures fresh(refs) && len <= refs.Length && refs[..len] == Collected(of, found)
  {
    refs := new GraphRef[|found|](i => NOREF);
    len := 0;
    assert found[..0] == [];
    for i := 0 to |found|
      invariant Gathered(of, refs, len, found, i)
    {
      var ref := RefOf(x, imports, found[i]);
      len := Gather(of, refs, len, found, i, ref);
    }
    assert found[..|found|] == found;
  }

  /** What the symbol refers to, each site once. The reason for an empty answer is asked for only if
      there is no definition or no edge. */
  method Callees(x: Index, edges: seq<Edge>, imports: seq<Import>, symbol: string, run: Session) returns (a: Answer)
    modifies run
    ensures a.Refs? ==> CalleesExactly(x, edges, imports, symbol, a.refs)
    ensures a.Refs? ==> Distinct(Site, a.refs)
    ensures a.Refs? ==> forall i | 0 <= i < |edges| && symbol in x.byName
                                   && (exists j :: 0 <= j < |x.byName[symbol]|
                                                   && x.byName[symbol][j].id == edges[i].srcID)
                                   && (edges[i].kind == "reference" ==>
                                         edges[i].dstName in x.byName && x.byName[edges[i].dstName] != []) ::
              exists k :: 0 <= k < |a.refs| && SitedAt(edges[i], a.refs[k])
    ensures a == GraphNotBuilt ==> edges == []
    ensures edges == [] && run.Faultless() ==> a == GraphNotBuilt
    ensures run.Faultless() ==> a != StoreError
  {
    var defs := Candidates(x, symbol);
    if |defs| == 0 {
      a := EmptyReason(edges, run);
      return;
    }
    var ids := IdsOf(defs);
    var found, ok := EdgesBySource(edges, ids, run);
    if !ok {
      return StoreError;
    }
    if |found| == 0 {
      NothingFound(x, edges, imports, symbol, found);
      EverySite(x, edges, imports, symbol, []);
      a := EmptyReason(edges, run);
      return;
    }
    ok := run.Exec();  // the imports of the edges' files
    if !ok {
      return StoreError;
    }
    var refs, len := CollectRefs(x, imports, found, CalleeRef(x, imports));
    ghost var all := refs[..len];
    var n := Dedupe(Site, refs, len);
    AllFound(x, edges, imports, symbol, found);
    SitesKept(x, edges, imports, symbol, all);
    assert found[0] in edges;
    EverySite(x, edges, imports, symbol, refs[..n]);
    return Refs(refs[..n]);
  }

  // ---------- What is reported, field by field ----------

  /** The reference has the edge's name, qualifier, kind, file and line. */
  predicate SitedAt(e: Edge, r: GraphRef) {
    && r.name == e.dstName && r.qualifier == e.dstQualifier && r.edgeKind == e.kind
    && r.refFile == e.filePath && r.line == e.line
  }

  /** Each edge from a chunk that defines the symbol is reported at its site unless it is a reference to a
      type without a definition, and no site is reported twice. */
  lemma {:induction false} EverySite(x: Index, edges: seq<Edge>, imports: seq<Import>, symbol: string,
                                     refs: seq<GraphRef>)
    requires CalleesExactly(x, edges, imports, symbol, refs) && Distinct(Site, refs)
    ensures forall i | 0 <= i < |edges| && symbol in x.byName
                       && (exists j :: 0 <= j < |x.byName[symbol]| && x.byName[symbol][j].id == edges[i].srcID)
                       && (edges[i].kind == "reference" ==>
                             edges[i].dstName in x.byName && x.byName[edges[i].dstName] != []) ::
              exists k :: 0 <= k < |refs| && SitedAt(edges[i], refs[k])
    ensures forall k, l | 0 <= k < l < |refs| ::
              || refs[k].name != refs[l].name || refs[k].qualifier != refs[l].qualifier
              || refs[k].edgeKind != refs[l].edgeKind || refs[k].refFile != refs[l].refFile
              || refs[k].line != refs[l].line
  {
    forall i | 0 <= i < |edges| && FromDefinition(x, edges[i], symbol)
               && (edges[i].kind == "reference" ==>
                     edges[i].dstName in x.byName && x.byName[edges[i].dstName] != [])
      ensures exists k :: 0 <= k < |refs| && SitedAt(edges[i], refs[k])
    {
      var r := CalleeFor(x, imports, edges[i]).value;
      assert IsCallee(x, edges, imports, symbol, r);
      var k :| 0 <= k < |refs| && Site(refs[k]) == Site(r);
      assert SitedAt(edges[i], refs[k]);
    }
    forall k, l | 0 <= k < l < |refs| ensures Site(refs[k]) != Site(refs[l]) {}
  }

  /** Each reference is at the site of an edge from a chunk that defines the symbol. It is resolved exactly
      if a definition has the name; only then has it a location. */
  lemma {:induction false} EachFromEdge(x: Index, edges: seq<Edge>, imports: seq<Import>, symbol: string, r: GraphRef)
    returns (i: nat)
    requires IsCallee(x, edges, imports, symbol, r)
    ensures i < |edges| && CalleeFor(x, imports, edges[i]) == Some(r) && SitedAt(edges[i], r) && r.depth == 1
    ensures symbol in x.byName && exists j :: 0 <= j < |x.byName[symbol]| && x.byName[symbol][j].id == edges[i].srcID
    ensures r.resolved <==> edges[i].dstName in x.byName && x.byName[edges[i].dstName] != []
    ensures !r.resolved ==> edges[i].kind != "reference" && r.filePath == r.nodeKind == r.parent == ""
                            && r.startLine == r.endLine == 0
  {
    i :| 0 <= i < |edges| && FromDefinition(x, edges[i], symbol) && CalleeFor(x, imports, edges[i]) == Some(r);
  }

  /** The location is that of the first definition of the name in the edge's file; without one, of the first
      in the module its qualifier denotes; without either, of the first of all. */
  lemma {:induction false} LocatedAt(x: Index, imports: seq<Import>, e: Edge, r: GraphRef) returns (i: nat)
    requires e.dstName in x.byName && x.byName[e.dstName] != [] && CalleeFor(x, imports, e) == Some(r)
    ensures var defs, near := x.byName[e.dstName], LeadsTo(ImportsOf(imports, e.filePath), e.dstQualifier);
            && i < |defs|
            && r.filePath == defs[i].filePath && r.nodeKind == defs[i].nodeKind && r.parent == defs[i].parent
            && r.startLine == defs[i].startLine && r.endLine == defs[i].endLine
            && (|| (defs[i].filePath == e.filePath && forall j | 0 <= j < i :: defs[j].filePath != e.filePath)
                || ((forall j | 0 <= j < |defs| :: defs[j].filePath != e.filePath)
                    && near(defs[i]) && forall j | 0 <= j < i :: !near(defs[j]))
                || (i == 0 && forall j | 0 <= j < |defs| :: defs[j].filePath != e.filePath && !near(defs[j])))
  {
    i := FirstOfBest(x.byName[e.dstName], e.filePath, LeadsTo(ImportsOf(imports, e.filePath), e.dstQualifier));
  }

  lemma {:induction false} AllFound(x: Index, edges: seq<Edge>, imports: seq<Import>, symbol: string,
                                    found: seq<Edge>)
    requires forall e :: e in found <==> e in edges && FromDefinition(x, e, symbol)
    ensures CalleesExactly(x, edges, imports, symbol, Collected(CalleeRef(x, imports), found))
  {
    var of := CalleeRef(x, imports);
    var refs := Collected(of, found);
    forall k | 0 <= k < |refs| ensures IsCallee(x, edges, imports, symbol, refs[k]) {
      CollectedFrom(of, found, k);
      var l :| 0 <= l < |found| && of(found[l]) == Some(refs[k]);
      assert found[l] in edges;
      var i :| 0 <= i < |edges| && edges[i] == found[l];
    }
    forall r | IsCallee(x, edges, imports, symbol, r) ensures SeenIn(Site, refs, Site(r)) {
      var i :| 0 <= i < |edges| && FromDefinition(x, edges[i], symbol) && CalleeFor(x, imports, edges[i]) == Some(r);
      assert edges[i] in found;
      var l :| 0 <= l < |found| && found[l] == edges[i];
      CollectedAll(of, found, l);
      var k :| 0 <= k < |refs| && refs[k] == of(found[l]).value;
      assert Site(refs[k]) == Site(r);
    }
  }

  lemma {:induction false} NothingFound(x: Index, edges: seq<Edge>, imports: seq<Import>, symbol: string,
                                        found: seq<Edge>)
    requires forall e :: e in found <==> e in edges && FromDefinition(x, e, symbol)
    requires found == []
    ensures CalleesExactly(x, edges, imports, symbol, [])
  {
    AllFound(x, edges, imports, symbol, found);
  }

  lemma {:induction false} SitesKept(x: Index, edges: seq<Edge>, imports: seq<Import>, symbol: string,
                                     all: seq<GraphRef>)
    requires CalleesExactly(x, edges, imports, symbol, all)
    ensures CalleesExactly(x, edges, imports, symbol, Deduped(Site, all)) && Distinct(Site, Deduped(Site, all))
  {
    DedupedKeeps(Site, all);
    var d := Deduped(Site, all);
    forall k | 0 <= k < |d| ensures IsCallee(x, edges, imports, symbol, d[k]) {
      DedupedAmong(Site, all, k);
      var l :| 0 <= l < |all| && all[l] == d[k];
      assert IsCallee(x, edges, imports, symbol, all[l]);
    }
  }
}
