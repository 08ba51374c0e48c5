/** indexer/graph.go: which chunk covers a line, and the translation of parser edges. */
module Locator {
  import opened Seqs
  import opened Store

  /** An edge as the chunker reports it. */
  datatype ParsedEdge = ParsedEdge(kind: string, source: string, target: string, targetQualifier: string, line: int)

  predicate Covers(r: Record, line: int) {
    r.startLine <= line <= r.endLine
  }

  /** Span b covers the line, and no covering span starts later, nor as late and further on in
      the input. */
  predicate Best(rs: seq<Record>, line: int, b: int)
    requires 0 <= b < |rs|
  {
    && Covers(rs[b], line)
    && forall j | 0 <= j < |rs| && Covers(rs[j], line) ::
         rs[j].startLine < rs[b].startLine || (rs[j].startLine == rs[b].startLine && j <= b)
  }

  /** The best covering span, or -1 when none covers the line. */
  function Find(rs: seq<Record>, line: int): (b: int)
    ensures -1 <= b < |rs|
    ensures b >= 0 ==> Best(rs, line, b)
    ensures b < 0 ==> forall j | 0 <= j < |rs| :: !Covers(rs[j], line)
  {
    if rs == [] then -1
    else
      var n := |rs| - 1;
      var b := Find(rs[..n], line);
      if Covers(rs[n], line) && (b < 0 || rs[b].startLine <= rs[n].startLine) then n else b
  }

  /** Spans listed outer-first, any two of them nested or apart. */
  predicate OuterFirst(rs: seq<Record>) {
    forall i, j | 0 <= i < j < |rs| ::
      || rs[i].endLine < rs[j].startLine || rs[j].endLine < rs[i].startLine
      || (rs[i].startLine <= rs[j].startLine && rs[j].endLine <= rs[i].endLine)
  }

  /** Then the span found is the innermost one: it lies within every span covering the line. */
  lemma {:induction false} FindsInnermost(rs: seq<Record>, line: int, j: nat)
    requires OuterFirst(rs) && j < |rs| && Covers(rs[j], line)
    ensures var b := Find(rs, line);
            b >= 0 && rs[j].startLine <= rs[b].startLine && rs[b].endLine <= rs[j].endLine
  {}

  // ---------- The sorted spans ----------

  /** Positions of records before i, by start line and then by position: what the stable sort
      makes of them. */
  predicate Before(rs: seq<Record>, i: nat, j: nat)
    requires i < |rs| && j < |rs|
  {
    rs[i].startLine < rs[j].startLine || (rs[i].startLine == rs[j].startLine && i < j)
  }

  predicate SortedOrder(rs: seq<Record>, order: seq<nat>) {
    && (forall k | 0 <= k < |order| :: order[k] < |rs|)
    && (forall k, l | 0 <= k < l < |order| :: Before(rs, order[k], order[l]))
  }

  function Inserted(order: seq<nat>, at: nat, i: nat): seq<nat>
    requires at <= |order|
  {
    order[..at] + [i] + order[at..]
  }

  /** A later record goes behind those that start no later. */
  lemma {:induction false} InsertSorted(rs: seq<Record>, order: seq<nat>, at: nat, i: nat)
    requires i < |rs| && SortedOrder(rs, order) && at <= |order|
    requires forall k | 0 <= k < |order| :: order[k] < i
    requires at > 0 ==> rs[order[at - 1]].startLine <= rs[i].startLine
    requires forall k | at <= k < |order| :: rs[order[k]].startLine > rs[i].startLine
    ensures SortedOrder(rs, Inserted(order, at, i))
    ensures forall j | j in order || j == i :: j in Inserted(order, at, i)
  {}

  /** The spans of the first i records, in order. */
  ghost predicate Ordered(rs: seq<Record>, spans: seq<(int, int, Hash)>, order: seq<nat>, i: nat) {
    && |order| == |spans| && SortedOrder(rs, order)
    && (forall k | 0 <= k < |order| :: order[k] < i)
    && (forall j | 0 <= j < i :: j in order)
    && (forall k | 0 <= k < |spans| ::
          var r := rs[order[k]]; spans[k] == (r.startLine, r.endLine, r.id))
  }

  /** One turn of a stable insertion, which is what the library's stable sort is taken for. */
  method Insert(rs: seq<Record>, spans: seq<(int, int, Hash)>, ghost order: seq<nat>, i: nat)
    returns (more: seq<(int, int, Hash)>, ghost longer: seq<nat>)
    requires i < |rs| && Ordered(rs, spans, order, i)
    ensures Ordered(rs, more, longer, i + 1)
  {
    var r := rs[i];
    var at := |spans|;
    while at > 0 && spans[at - 1].0 > r.startLine
      invariant 0 <= at <= |spans|
      invariant forall k | at <= k < |spans| :: spans[k].0 > r.startLine
    {
      at := at - 1;
    }
    InsertSorted(rs, order, at, i);
    more := spans[..at] + [(r.startLine, r.endLine, r.id)] + spans[at..];
    longer := Inserted(order, at, i);
  }

  class ChunkLocator {
    const records: seq<Record>
    ghost const order: seq<nat>
    const spans: seq<(int, int, Hash)>  // start, end, id, ascending by start line

    ghost predicate Valid() {
      && SortedOrder(records, order)
      && (forall i | 0 <= i < |records| :: i in order)
      && |spans| == |order|
      && (forall k | 0 <= k < |spans| ::
            var r := records[order[k]]; spans[k] == (r.startLine, r.endLine, r.id))
    }

    /** newChunkLocator. */
    constructor (records: seq<Record>)
      ensures Valid() && this.records == records
    {
      var spans: seq<(int, int, Hash)> := [];
      ghost var order: seq<nat> := [];
      for i := 0 to |records|
        invariant Ordered(records, spans, order, i)
      {
        spans, order := Insert(records, spans, order, i);
      }
      this.records, this.spans, this.order := records, spans, order;
    }

    /** The id of the best covering chunk, if any: a binary search for the last span starting at
        or before the line, then a scan downwards. */
    method At(line: int) returns (id: Hash, ok: bool)
      requires Valid()
      ensures ok <==> Find(records, line) >= 0
      ensures id == if ok then records[Find(records, line)].id else Unset
    {
      var i, j := 0, |spans|;
      while i < j
        invariant 0 <= i <= j <= |spans|
        invariant forall k | 0 <= k < i :: spans[k].0 <= line
        invariant forall k | j <= k < |spans| :: spans[k].0 > line
      {
        var h := (i + j) / 2;
        if spans[h].0 > line {
          j := h;
        } else {
          forall k | 0 <= k <= h ensures spans[k].0 <= line {
            assert k < h ==> Before(records, order[k], order[h]);
          }
          i := h + 1;
        }
        assert j < |spans| ==> forall k | j < k < |spans| :: Before(records, order[j], order[k]);
      }
      var k := i - 1;
      while k >= 0
        invariant -1 <= k < |spans|
        invariant forall l | k < l < |spans| :: !Covers(records[order[l]], line)
      {
        if line <= spans[k].1 {
          CoveringIsBest(records, order, line, k);
          return spans[k].2, true;
        }
        k := k - 1;
      }
      forall b | 0 <= b < |records| ensures !Covers(records[b], line) {
        assert b in order;
      }
      return Unset, false;
    }
  }

  lemma {:induction false} CoveringIsBest(rs: seq<Record>, order: seq<nat>, line: int, k: nat)
    requires SortedOrder(rs, order) && (forall i | 0 <= i < |rs| :: i in order)
    requires k < |order| && Covers(rs[order[k]], line)
    requires forall l | k < l < |order| :: !Covers(rs[order[l]], line)
    ensures order[k] == Find(rs, line)
  {
    var b := Find(rs, line);
    assert b in order;
    var l :| 0 <= l < |order| && order[l] == b;
    assert Best(rs, line, b);
    assert forall x | 0 <= x < k :: Before(rs, order[x], order[k]);
  }

  // ---------- Edges ----------

  /** An edge that neither a chunk nor the parser can attribute. */
  predicate Dropped(rs: seq<Record>, e: ParsedEdge) {
    e.kind != "import" && Find(rs, e.line) < 0 && e.source == ""
  }

  function EdgeFor(filePath: string, rs: seq<Record>, e: ParsedEdge): Edge {
    var b := Find(rs, e.line);
    Edge(if b >= 0 then rs[b].id else Unset, filePath, e.source, e.kind, e.target, e.targetQualifier, e.line)
  }

  function ImportFor(filePath: string, e: ParsedEdge): Import {
    Import(filePath, e.target, e.targetQualifier, e.line)
  }

  function Kept(rs: seq<Record>, edges: seq<ParsedEdge>): seq<ParsedEdge> {
    Filter((e: ParsedEdge) => e.kind != "import" && !Dropped(rs, e), edges)
  }

  function Imported(edges: seq<ParsedEdge>): seq<ParsedEdge> {
    Filter((e: ParsedEdge) => e.kind == "import", edges)
  }

  function EdgesFor(filePath: string, rs: seq<Record>, edges: seq<ParsedEdge>): seq<Edge> {
    var kept := Kept(rs, edges);
    seq(|kept|, i requires 0 <= i < |kept| => EdgeFor(filePath, rs, kept[i]))
  }

  function ImportsFor(filePath: string, edges: seq<ParsedEdge>): seq<Import> {
    var kept := Imported(edges);
    seq(|kept|, i requires 0 <= i < |kept| => ImportFor(filePath, kept[i]))
  }

  /** Every parsed edge goes exactly one way: to the edges, to the imports, or dropped. */
  lemma {:induction false} EachEdgeOnce(rs: seq<Record>, edges: seq<ParsedEdge>)
    ensures multiset(edges) == multiset(Kept(rs, edges)) + multiset(Imported(edges))
                               + multiset(Filter((e: ParsedEdge) => Dropped(rs, e), edges))
  {
    if edges != [] {
      EachEdgeOnce(rs, edges[1..]);
      assert edges == [edges[0]] + edges[1..];
    }
  }

  method MapEdges(filePath: string, edges: seq<ParsedEdge>, records: seq<Record>)
    returns (out: seq<Edge>, imports: seq<Import>)
    ensures out == EdgesFor(filePath, records, edges)
    ensures imports == ImportsFor(filePath, edges)
  {
    out, imports := [], [];
    if |edges| == 0 {
      return;
    }
    var locator := new ChunkLocator(records);
    assert edges[..0] == [];
    for i := 0 to |edges|
      invariant out == EdgesFor(filePath, records, edges[..i])
      invariant imports == ImportsFor(filePath, edges[..i])
    {
      var e := edges[i];
      OneMore(filePath, records, edges, i);
      if e.kind == "import" {
        imports := imports + [Import(filePath, e.target, e.targetQualifier, e.line)];
        continue;
      }
      var srcID, ok := locator.At(e.line);
      if !ok && e.source == "" {
        continue;
      }
      out := out + [Edge(srcID, filePath, e.source, e.kind, e.target, e.targetQualifier, e.line)];
    }
    assert edges[..|edges|] == edges;
  }

  lemma {:induction false} OneMore(filePath: string, rs: seq<Record>, edges: seq<ParsedEdge>, i: nat)
    requires i < |edges|
    ensures var e, some, more := edges[i], edges[..i], edges[..i + 1];
      && EdgesFor(filePath, rs, more) == EdgesFor(filePath, rs, some)
           + (if e.kind != "import" && !Dropped(rs, e) then [EdgeFor(filePath, rs, e)] else [])
      && ImportsFor(filePath, more) == ImportsFor(filePath, some)
           + (if e.kind == "import" then [ImportFor(filePath, e)] else [])
  {
    var e := edges[i];
    assert edges[..i + 1] == edges[..i] + [e];
    FilterAppend((x: ParsedEdge) => x.kind != "import" && !Dropped(rs, x), edges[..i], [e]);
    FilterAppend((x: ParsedEdge) => x.kind == "import", edges[..i], [e]);
    FilterOne((x: ParsedEdge) => x.kind != "import" && !Dropped(rs, x), e);
    FilterOne((x: ParsedEdge) => x.kind == "import", e);
  }
}
