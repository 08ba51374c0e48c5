/** store/sqlite.go, Search: two ranked lists fused into one, filtered and paged. */
module Search {
  import opened Seqs
  import opened Store

  // ---------- Fusion ----------

  const RRF_K := 60

  /** The place of x in a ranking, counted from 1; 0 if it has none. */
  function RankIn<T(==)>(list: seq<T>, x: T): nat {
    if list == [] then 0
    else if list[|list| - 1] == x then |list|
    else RankIn(list[..|list| - 1], x)
  }

  predicate Distinct<T(==)>(list: seq<T>) {
    forall i, j | 0 <= i < j < |list| :: list[i] != list[j]
  }

  lemma {:induction false} RankInMeans<T>(list: seq<T>, x: T)
    ensures RankIn(list, x) <= |list|
    ensures RankIn(list, x) == 0 <==> x !in list
    ensures RankIn(list, x) > 0 ==> list[RankIn(list, x) - 1] == x
  {
    if list != [] {
      var n := |list| - 1;
      RankInMeans(list[..n], x);
      assert list == list[..n] + [list[n]];
    }
  }

  lemma {:induction false} RankInAt<T>(list: seq<T>, i: nat)
    requires Distinct(list) && i < |list|
    ensures RankIn(list, list[i]) == i + 1
  {
    RankInMeans(list, list[i]);
  }

  /** What one list contributes to a score. */
  function Part(rank: nat): real {
    if rank == 0 then 0.0 else 1.0 / ((RRF_K + rank) as real)
  }

  function Fused<T(==)>(vec: seq<T>, fts: seq<T>, x: T): real {
    Part(RankIn(vec, x)) + Part(RankIn(fts, x))
  }

  /** A better place contributes more, and any place contributes something. */
  lemma {:induction false} PartOrder(a: nat, b: nat)
    requires a > 0 && (b == 0 || a <= b)
    ensures Part(a) >= Part(b) >= 0.0
    ensures a != b ==> Part(a) > Part(b)
  {
    var x := (RRF_K + a) as real;
    if b > 0 {
      var y := (RRF_K + b) as real;
      Reciprocal(x, y);
    } else {
      assert 1.0 / x > 0.0;
    }
  }

  lemma {:induction false} Reciprocal(x: real, y: real)
    requires 0.0 < x <= y
    ensures 1.0 / x >= 1.0 / y > 0.0
    ensures x < y ==> 1.0 / x > 1.0 / y
  {
    var u, v := 1.0 / x, 1.0 / y;
    assert u * x == 1.0 && v * y == 1.0;
    assert u > 0.0 && v > 0.0;
    assert (u * v) * (y - x) == u * (v * y) - v * (u * x) == u - v;
    assert u * v > 0.0;
  }

  /** All candidates, best first. */
  ghost predicate Ranking<T(!new)>(vec: seq<T>, fts: seq<T>, ranked: seq<(T, real)>) {
    && (forall x :: Listed(ranked, x) <==> x in vec || x in fts)
    && (forall i | 0 <= i < |ranked| :: ranked[i].1 == Fused(vec, fts, ranked[i].0))
    && (forall i, j | 0 <= i < j < |ranked| :: ranked[i].0 != ranked[j].0 && ranked[i].1 >= ranked[j].1)
  }

  predicate Listed<T(==)>(ranked: seq<(T, real)>, x: T) {
    exists i | 0 <= i < |ranked| :: ranked[i].0 == x
  }

  predicate NoWorse(a: nat, b: nat) {
    b == 0 || 0 < a <= b
  }

  /** A candidate placed no worse in both lists and better in one comes first. */
  lemma {:induction false} DominanceOrder<T(!new)>(vec: seq<T>, fts: seq<T>, ranked: seq<(T, real)>, i: nat, j: nat)
    requires Ranking(vec, fts, ranked) && i < |ranked| && j < |ranked|
    requires NoWorse(RankIn(vec, ranked[i].0), RankIn(vec, ranked[j].0))
    requires NoWorse(RankIn(fts, ranked[i].0), RankIn(fts, ranked[j].0))
    requires RankIn(vec, ranked[i].0) != RankIn(vec, ranked[j].0)
             || RankIn(fts, ranked[i].0) != RankIn(fts, ranked[j].0)
    ensures i < j
  {
    var a, b := ranked[i].0, ranked[j].0;
    PartNoWorse(RankIn(vec, a), RankIn(vec, b));
    PartNoWorse(RankIn(fts, a), RankIn(fts, b));
    assert Fused(vec, fts, a) > Fused(vec, fts, b);
  }

  lemma {:induction false} PartNoWorse(a: nat, b: nat)
    requires NoWorse(a, b)
    ensures Part(a) >= Part(b) && (a != b ==> Part(a) > Part(b))
  {
    if a > 0 { PartOrder(a, b); }
  }

  // ---------- What the fetched lists cannot miss ----------

  /** If n distinct candidates reach a score, the n-th in the ranking does. */
  lemma {:induction false} NthReaches<T(!new)>(vec: seq<T>, fts: seq<T>, ranked: seq<(T, real)>, some: seq<T>,
                                               score: real)
    requires Ranking(vec, fts, ranked) && Distinct(some) && |some| > 0
    requires forall i | 0 <= i < |some| :: (some[i] in vec || some[i] in fts) && Fused(vec, fts, some[i]) >= score
    ensures |ranked| >= |some| && ranked[|some| - 1].1 >= score
  {
    var n := |some|;
    var heads := if |ranked| < n - 1 then |ranked| else n - 1;
    if |ranked| < n || ranked[n - 1].1 < score {
      var first := set k: nat | k < heads :: ranked[k].0;
      forall i | 0 <= i < n ensures some[i] in first {
        assert Listed(ranked, some[i]);
        var k: nat :| k < |ranked| && ranked[k].0 == some[i];
        assert k < heads;
      }
      Pigeons(some, first);
      ImageBound(ranked, heads);
    }
  }

  lemma {:induction false} Pigeons<T>(some: seq<T>, holes: set<T>)
    requires Distinct(some) && forall i | 0 <= i < |some| :: some[i] in holes
    ensures |some| <= |holes|
  {
    if some != [] {
      var n := |some| - 1;
      Pigeons(some[..n], holes - {some[n]});
    }
  }

  lemma {:induction false} ImageBound<T>(ranked: seq<(T, real)>, n: nat)
    requires n <= |ranked|
    ensures |set k: nat | k < n :: ranked[k].0| <= n
  {
    if n > 0 {
      ImageBound(ranked, n - 1);
      assert (set k: nat | k < n :: ranked[k].0) == (set k: nat | k < n - 1 :: ranked[k].0) + {ranked[n - 1].0};
    }
  }

  /** Twice the least contribution outside a window of 3n is no more than the n-th contribution exactly
      from n = 59 on. */
  lemma {:induction false} WideEnough(n: nat)
    requires n > 0
    ensures Part(3 * n + 1) + Part(3 * n + 1) <= Part(n) <==> n >= 59
  {
    var x, y := (RRF_K + n) as real, (RRF_K + 3 * n + 1) as real;
    var u, v := 1.0 / x, 1.0 / y;
    assert u * x == 1.0 && v * y == 1.0;
    var w, d := u * v, (n - 59) as real;
    assert u > 0.0 && v > 0.0 && w > 0.0;
    assert y - 2.0 * x == d;
    assert u - 2.0 * v == w * d by {
      assert w * d == u * (v * y) - 2.0 * v * (u * x);
    }
    if n >= 59 {
      assert w * d >= 0.0;
    } else {
      assert w * d < 0.0;
    }
  }

  /** With n = limit + offset at least 59 and 3n fetched of each list, nothing outside the fetched lists
      could have scored above n of what was fetched. */
  lemma {:induction false} NothingMissed<T(!new)>(vec: seq<T>, fts: seq<T>, ranked: seq<(T, real)>, n: nat, x: T)
    requires Distinct(vec) && Distinct(fts) && n >= 59
    requires Ranking(First(vec, 3 * n), First(fts, 3 * n), ranked)
    requires (x in vec || x in fts) && x !in First(vec, 3 * n) && x !in First(fts, 3 * n)
    ensures |ranked| >= n && ranked[n - 1].1 >= Fused(vec, fts, x)
  {
    OutsideScore(vec, 3 * n, x);
    OutsideScore(fts, 3 * n, x);
    WideEnough(n);
    if x in vec {
      LongList(vec, 3 * n, x);
      TopReaches(vec, fts, vec, 3 * n, n);
      NthReaches(First(vec, 3 * n), First(fts, 3 * n), ranked, vec[..n], Part(n));
    } else {
      LongList(fts, 3 * n, x);
      TopReaches(vec, fts, fts, 3 * n, n);
      NthReaches(First(vec, 3 * n), First(fts, 3 * n), ranked, fts[..n], Part(n));
    }
  }

  /** What a query limited to k rows returns. */
  function First<T>(list: seq<T>, k: nat): seq<T> {
    if |list| < k then list else list[..k]
  }

  lemma {:induction false} LongList<T>(list: seq<T>, k: nat, x: T)
    requires x in list && x !in First(list, k)
    ensures |list| > k
  {}

  lemma {:induction false} InWindow<T>(list: seq<T>, k: nat, i: nat)
    requires i < |list| && i < k
    ensures list[i] in First(list, k)
  {}

  lemma {:induction false} OutsideScore<T>(list: seq<T>, k: nat, x: T)
    requires Distinct(list) && x !in First(list, k)
    ensures Part(RankIn(list, x)) <= Part(k + 1)
  {
    RankInMeans(list, x);
    var r := RankIn(list, x);
    PartOrder(k + 1, 0);
    if r > 0 {
      if r <= k { InWindow(list, k, r - 1); }
      PartOrder(k + 1, r);
    }
  }

  /** The first n of a list that is longer than the window score at least what place n contributes. */
  lemma {:induction false} TopReaches<T>(vec: seq<T>, fts: seq<T>, list: seq<T>, k: nat, n: nat)
    requires Distinct(vec) && Distinct(fts) && (list == vec || list == fts) && 0 < n <= k < |list|
    ensures Distinct(list[..n])
    ensures forall i | 0 <= i < n ::
              && (list[..n][i] in First(vec, k) || list[..n][i] in First(fts, k))
              && Fused(First(vec, k), First(fts, k), list[..n][i]) >= Part(n)
  {
    forall i | 0 <= i < n
      ensures list[..n][i] in First(vec, k) || list[..n][i] in First(fts, k)
      ensures Fused(First(vec, k), First(fts, k), list[..n][i]) >= Part(n)
    {
      var c := list[i];
      assert First(list, k)[i] == c;
      RankInAt(First(list, k), i);
      PartOrder(i + 1, n);
      PartNonNegative(RankIn(First(vec, k), c));
      PartNonNegative(RankIn(First(fts, k), c));
    }
  }

  lemma {:induction false} PartNonNegative(r: nat)
    ensures Part(r) >= 0.0
  {
    if r > 0 { PartOrder(r, 0); }
  }

  /** Below 59 the window is too small: two lists that share their first n - 1 entries and go on
      differently hide one that scores above the n-th of all that were fetched. */
  lemma {:induction false} SmallWindowMisses(n: nat) returns (vec: seq<int>, fts: seq<int>, x: int)
    requires 0 < n < 59
    ensures Distinct(vec) && Distinct(fts) && x in vec && x in fts
    ensures x !in First(vec, 3 * n) && x !in First(fts, 3 * n)
    ensures forall ranked: seq<(int, real)> | Ranking(First(vec, 3 * n), First(fts, 3 * n), ranked) ::
              |ranked| >= n && ranked[n - 1].1 < Fused(vec, fts, x)
  {
    vec, fts, x := seq(3 * n, i => i) + [-1], seq(3 * n, i => if i < n - 1 then i else 3 * n + i) + [-1], -1;
    var v, f := First(vec, 3 * n), First(fts, 3 * n);
    assert vec[3 * n] == x && fts[3 * n] == x;
    RankInAt(vec, 3 * n);
    RankInAt(fts, 3 * n);
    WideEnough(n);
    assert Part(n) < Fused(vec, fts, x);
    forall ranked: seq<(int, real)> | Ranking(v, f, ranked) ensures |ranked| >= n && ranked[n - 1].1 <= Part(n) {
      LongEnough(n, v, f, ranked);
      FewReach(n, v, f, ranked);
    }
  }

  lemma {:induction false} LongEnough(n: nat, v: seq<int>, f: seq<int>, ranked: seq<(int, real)>)
    requires n > 0 && |v| == 3 * n && Distinct(v) && Ranking(v, f, ranked)
    ensures |ranked| >= n
  {
    forall i | 0 <= i < n ensures Fused(v, f, v[..n][i]) >= 0.0 {
      PartNonNegative(RankIn(v, v[i]));
      PartNonNegative(RankIn(f, v[i]));
    }
    NthReaches(v, f, ranked, v[..n], 0.0);
  }

  lemma {:induction false} FewReach(n: nat, v: seq<int>, f: seq<int>, ranked: seq<(int, real)>)
    requires n > 0 && |v| == 3 * n && forall i | 0 <= i < 3 * n :: v[i] == i
    requires |f| == 3 * n && forall i | 0 <= i < 3 * n :: f[i] == if i < n - 1 then i else 3 * n + i
    requires Ranking(v, f, ranked) && |ranked| >= n
    ensures ranked[n - 1].1 <= Part(n)
  {
    if ranked[n - 1].1 > Part(n) {
      var best: seq<int> := seq(n, i requires 0 <= i < n => ranked[i].0);
      var shared := Below(n - 1);
      forall i | 0 <= i < n ensures best[i] in shared {
        assert Listed(ranked, best[i]);
        assert ranked[i].1 >= ranked[n - 1].1;
        if best[i] !in shared { SingleScore(n, v, f, best[i]); }
      }
      Pigeons(best, shared);
    }
  }

  /** An entry of one list only, from place n on, contributes at most what place n does. */
  lemma {:induction false} SingleScore(n: nat, v: seq<int>, f: seq<int>, c: int)
    requires n > 0 && |v| == 3 * n && forall i | 0 <= i < 3 * n :: v[i] == i
    requires |f| == 3 * n && forall i | 0 <= i < 3 * n :: f[i] == if i < n - 1 then i else 3 * n + i
    requires (c in v || c in f) && !(0 <= c < n - 1)
    ensures Fused(v, f, c) <= Part(n)
  {
    RankInMeans(v, c);
    RankInMeans(f, c);
    if RankIn(v, c) > 0 { PartOrder(n, RankIn(v, c)); } else { PartOrder(n, RankIn(f, c)); }
  }

  function Below(n: nat): (s: set<int>)
    ensures |s| == n && forall i :: i in s <==> 0 <= i < n
  {
    if n == 0 then {} else Below(n - 1) + {n - 1}
  }

  // ---------- The query ----------

  datatype Query = Query(limit: int, offset: int, languages: seq<string>, names: seq<string>, nodeKinds: seq<string>,
                         hasPaths: bool)

  datatype Hit = Hit(id: Hash, chunk: Chunk, score: real)

  /** The filters the database applies. */
  predicate Passes(q: Query, ch: Chunk) {
    && (q.languages == [] || ch.language in q.languages)
    && (q.names == [] || ch.name in q.names)
    && (q.nodeKinds == [] || ch.nodeKind in q.nodeKinds)
  }

  predicate HasFilters(q: Query) {
    q.languages != [] || q.hasPaths || q.names != [] || q.nodeKinds != []
  }

  lemma {:induction false} FiltersExactly(q: Query)
    ensures HasFilters(q) <==> !(q.languages == [] && q.names == [] && q.nodeKinds == [] && !q.hasPaths)
  {}

  /** The candidate is stored and passes every filter. */
  predicate Kept(t: Tables, q: Query, pathOk: string -> bool, id: Hash) {
    id in t.chunks && Passes(q, t.chunks[id]) && pathOk(t.chunks[id].filePath)
  }

  /** The candidates that pass, in the order of the ranking. */
  function Hits(t: Tables, q: Query, pathOk: string -> bool, ranked: seq<(Hash, real)>): seq<Hit> {
    if ranked == [] then []
    else
      var n := |ranked| - 1;
      var rest := Hits(t, q, pathOk, ranked[..n]);
      var id := ranked[n].0;
      if Kept(t, q, pathOk, id) then rest + [Hit(id, t.chunks[id], ranked[n].1)] else rest
  }

  function Clip(k: int, n: nat): nat {
    if k < 0 then 0 else if k < n then k else n
  }

  /** At most limit elements, from the offset on. */
  function Page(hits: seq<Hit>, q: Query): seq<Hit>
    requires q.limit > 0
  {
    var start := Clip(q.offset, |hits|);
    hits[start..Clip(start + q.limit, |hits|)]
  }

  lemma {:induction false} HitsPrefix(t: Tables, q: Query, pathOk: string -> bool, ranked: seq<(Hash, real)>, n: nat)
    requires n <= |ranked|
    ensures Hits(t, q, pathOk, ranked[..n]) <= Hits(t, q, pathOk, ranked)
  {
    if n < |ranked| {
      HitsPrefix(t, q, pathOk, ranked[..|ranked| - 1], n);
      assert ranked[..|ranked| - 1][..n] == ranked[..n];
    } else {
      assert ranked[..n] == ranked;
    }
  }

  /** The hits are the candidates that pass. */
  lemma {:induction false} HitsFiltered(t: Tables, q: Query, pathOk: string -> bool, ranked: seq<(Hash, real)>,
                                        keep: ((Hash, real)) -> bool)
    requires forall e :: keep(e) == Kept(t, q, pathOk, e.0)
    ensures |Hits(t, q, pathOk, ranked)| == |Filter(keep, ranked)|
    ensures forall i | 0 <= i < |Filter(keep, ranked)| ::
              IsHit(t, Filter(keep, ranked)[i], Hits(t, q, pathOk, ranked)[i])
  {
    if ranked != [] {
      HitsFiltered(t, q, pathOk, ranked[..|ranked| - 1], keep);
      FilterNext(keep, ranked, |ranked| - 1);
      assert ranked[..|ranked| - 1 + 1] == ranked;
    }
  }

  predicate IsHit(t: Tables, entry: (Hash, real), h: Hit) {
    entry.0 in t.chunks && h == Hit(entry.0, t.chunks[entry.0], entry.1)
  }

  /** The places of the candidates that pass, and the hits there. */
  lemma {:induction false} HitPlaces(t: Tables, q: Query, pathOk: string -> bool, ranked: seq<(Hash, real)>)
    returns (places: seq<nat>)
    ensures Ascending(places) && forall k | 0 <= k < |ranked| :: k in places <==> Kept(t, q, pathOk, ranked[k].0)
    ensures |Hits(t, q, pathOk, ranked)| == |places|
    ensures forall i | 0 <= i < |places| ::
              places[i] < |ranked| && IsHit(t, ranked[places[i]], Hits(t, q, pathOk, ranked)[i])
  {
    var keep := (e: (Hash, real)) => Kept(t, q, pathOk, e.0);
    HitsFiltered(t, q, pathOk, ranked, keep);
    places := FilterPositions(keep, ranked);
  }

  /** A page starts at the offset and is full unless there are no more hits. */
  lemma {:induction false} PageExactly(hits: seq<Hit>, q: Query)
    requires q.limit > 0
    ensures var page, skip := Page(hits, q), if q.offset > 0 then q.offset else 0;
            && |page| <= q.limit && (page != [] ==> skip + |page| <= |hits|)
            && (|page| < q.limit ==> |hits| <= skip + |page|)
            && forall i | 0 <= i < |page| :: skip + i < |hits| && page[i] == hits[skip + i]
  {}

  /** The results on a page: the candidates at the places that pass, without those before the offset and
      beyond the limit. */
  lemma {:induction false} PagePlaces(t: Tables, q: Query, pathOk: string -> bool, vec: seq<Hash>, fts: seq<Hash>,
                                      ranked: seq<(Hash, real)>, results: seq<Hit>)
    returns (places: seq<nat>)
    requires Ranking(vec, fts, ranked) && q.limit > 0 && results == Page(Hits(t, q, pathOk, ranked), q)
    ensures Ascending(places) && forall k: nat :: k in places <==>
              k < |ranked| && ranked[k].0 in t.chunks &&
              var ch := t.chunks[ranked[k].0];
              && (q.languages == [] || ch.language in q.languages)
              && (q.names == [] || ch.name in q.names)
              && (q.nodeKinds == [] || ch.nodeKind in q.nodeKinds)
              && pathOk(ch.filePath)
    ensures var skip := if q.offset > 0 then q.offset else 0;
            && |results| <= q.limit && (results != [] ==> skip + |results| <= |places|)
            && (|results| < q.limit ==> |places| <= skip + |results|)
            && forall i | 0 <= i < |results| ::
                 && places[skip + i] < |ranked| && ranked[places[skip + i]].0 in t.chunks
                 && var id := ranked[places[skip + i]].0;
                    results[i] == Hit(id, t.chunks[id], Fused(vec, fts, id))
  {
    places := HitPlaces(t, q, pathOk, ranked);
    PageExactly(Hits(t, q, pathOk, ranked), q);
    forall k: nat
      ensures k in places <==>
              k < |ranked| && ranked[k].0 in t.chunks &&
              var ch := t.chunks[ranked[k].0];
              && (q.languages == [] || ch.language in q.languages)
              && (q.names == [] || ch.name in q.names)
              && (q.nodeKinds == [] || ch.nodeKind in q.nodeKinds)
              && pathOk(ch.filePath)
    {
      assert forall i | 0 <= i < |places| :: places[i] < |ranked|;
    }
    var skip := if q.offset > 0 then q.offset else 0;
    forall i | 0 <= i < |results|
      ensures IsHit(t, ranked[places[skip + i]], results[i])
      ensures results[i].score == Fused(vec, fts, results[i].id)
    {}
  }

  /** Each hit is a stored candidate that passes, and no id occurs twice. */
  ghost predicate HitsOk(t: Tables, q: Query, pathOk: string -> bool, ranked: seq<(Hash, real)>, hits: seq<Hit>) {
    && (forall i | 0 <= i < |hits| ::
          && Listed(ranked, hits[i].id) && Kept(t, q, pathOk, hits[i].id) && hits[i].chunk == t.chunks[hits[i].id])
    && (forall i, j | 0 <= i < j < |hits| :: hits[i].id != hits[j].id)
  }

  lemma {:induction false} HitsFrom(t: Tables, q: Query, pathOk: string -> bool, ranked: seq<(Hash, real)>)
    requires forall i, j | 0 <= i < j < |ranked| :: ranked[i].0 != ranked[j].0
    ensures HitsOk(t, q, pathOk, ranked, Hits(t, q, pathOk, ranked))
  {
    if ranked != [] {
      var n := |ranked| - 1;
      var rest := Hits(t, q, pathOk, ranked[..n]);
      HitsFrom(t, q, pathOk, ranked[..n]);
      forall i | 0 <= i < |rest| ensures Listed(ranked, rest[i].id) && rest[i].id != ranked[n].0 {
        assert Listed(ranked[..n], rest[i].id);
        var k :| 0 <= k < n && ranked[..n][k].0 == rest[i].id;
        assert ranked[k].0 == rest[i].id;
      }
      assert Listed(ranked, ranked[n].0);
    }
  }

  lemma {:induction false} PageOk(t: Tables, q: Query, pathOk: string -> bool, vec: seq<Hash>, fts: seq<Hash>,
                                  ranked: seq<(Hash, real)>)
    requires Ranking(vec, fts, ranked) && q.limit > 0
    ensures HitsOk(t, q, pathOk, ranked, Page(Hits(t, q, pathOk, ranked), q))
  {
    var hits := Hits(t, q, pathOk, ranked);
    var start := Clip(q.offset, |hits|);
    HitsFrom(t, q, pathOk, ranked);
    HitsOkSlice(t, q, pathOk, ranked, hits, start, Clip(start + q.limit, |hits|));
  }

  lemma {:induction false} HitsOkSlice(t: Tables, q: Query, pathOk: string -> bool, ranked: seq<(Hash, real)>,
                                       hits: seq<Hit>, a: nat, b: nat)
    requires HitsOk(t, q, pathOk, ranked, hits) && a <= b <= |hits|
    ensures HitsOk(t, q, pathOk, ranked, hits[a..b])
  {
    assert forall i | 0 <= i < b - a :: hits[a..b][i] == hits[a + i];
  }

  /** The places of every candidate in the two lists. */
  method Places(vec: seq<Hash>, fts: seq<Hash>) returns (places: map<Hash, (nat, nat)>)
    requires Distinct(vec) && Distinct(fts)
    ensures forall x :: x in places <==> x in vec || x in fts
    ensures forall x | x in places :: places[x] == (RankIn(vec, x), RankIn(fts, x))
  {
    places := map[];
    assert vec[..0] == [] && fts[..0] == [];
    var rank := 1;
    for i := 0 to |vec|
      invariant rank == i + 1
      invariant forall x :: x in places <==> x in vec[..i]
      invariant forall x | x in places :: places[x] == (RankIn(vec[..i], x), 0)
    {
      assert vec[..i + 1][..i] == vec[..i];
      places := places[vec[i] := (rank, 0)];
      rank := rank + 1;
    }
    assert vec[..|vec|] == vec;
    rank := 1;
    for i := 0 to |fts|
      invariant rank == i + 1
      invariant forall x :: x in places <==> x in vec || x in fts[..i]
      invariant forall x | x in places :: places[x] == (RankIn(vec, x), RankIn(fts[..i], x))
    {
      assert fts[..i + 1][..i] == fts[..i];
      RankInMeans(vec, fts[i]);
      if fts[i] in places {
        places := places[fts[i] := (places[fts[i]].0, rank)];
      } else {
        places := places[fts[i] := (0, rank)];
      }
      rank := rank + 1;
    }
    assert fts[..|fts|] == fts;
  }

  /** Scores and sorts the candidates; those of equal score come in any order. */
  method Rank(vec: seq<Hash>, fts: seq<Hash>) returns (ranked: seq<(Hash, real)>)
    requires Distinct(vec) && Distinct(fts)
    ensures Ranking(vec, fts, ranked)
  {
    var places := Places(vec, fts);
    var ids := Elements(places.Keys);
    ranked := [];
    for i := 0 to |ids|
      invariant Sorted(vec, fts, ids[..i], ranked)
    {
      var place := places[ids[i]];
      var score := 0.0;
      if place.0 > 0 {
        score := score + 1.0 / (RRF_K + place.0) as real;
      }
      if place.1 > 0 {
        score := score + 1.0 / (RRF_K + place.1) as real;
      }
      var at := 0;
      while at < |ranked| && ranked[at].1 >= score
        invariant 0 <= at <= |ranked|
        invariant forall k | 0 <= k < at :: ranked[k].1 >= score
      {
        at := at + 1;
      }
      InsertSorted(vec, fts, ids, i, ranked, at, score);
      ranked := ranked[..at] + [(ids[i], score)] + ranked[at..];
    }
    assert ids[..|ids|] == ids;
  }

  /** The given candidates with their scores, best first. */
  ghost predicate Sorted(vec: seq<Hash>, fts: seq<Hash>, ids: seq<Hash>, ranked: seq<(Hash, real)>) {
    && (forall x :: Listed(ranked, x) <==> x in ids)
    && (forall i | 0 <= i < |ranked| :: ranked[i].1 == Fused(vec, fts, ranked[i].0))
    && (forall i, j | 0 <= i < j < |ranked| :: ranked[i].0 != ranked[j].0 && ranked[i].1 >= ranked[j].1)
  }

  lemma {:induction false} InsertSorted(vec: seq<Hash>, fts: seq<Hash>, ids: seq<Hash>, i: nat,
                                        ranked: seq<(Hash, real)>, at: nat, score: real)
    requires i < |ids| && (forall j | 0 <= j < i :: ids[j] != ids[i]) && Sorted(vec, fts, ids[..i], ranked)
    requires score == Fused(vec, fts, ids[i]) && at <= |ranked|
    requires forall k | 0 <= k < at :: ranked[k].1 >= score
    requires at < |ranked| ==> ranked[at].1 < score
    ensures Sorted(vec, fts, ids[..i + 1], ranked[..at] + [(ids[i], score)] + ranked[at..])
  {
    SliceNext(ids, i);
    InsertListed(ranked, at, (ids[i], score));
    forall k | 0 <= k < |ranked| ensures ranked[k].0 != ids[i] {
      assert Listed(ranked, ranked[k].0);
    }
  }

  lemma {:induction false} InsertListed(ranked: seq<(Hash, real)>, at: nat, entry: (Hash, real))
    requires at <= |ranked|
    ensures forall x :: Listed(ranked[..at] + [entry] + ranked[at..], x) <==> Listed(ranked, x) || x == entry.0
  {
    var more := ranked[..at] + [entry] + ranked[at..];
    assert more[at] == entry;
    forall x ensures Listed(more, x) <==> Listed(ranked, x) || x == entry.0 {
      if Listed(ranked, x) {
        var k :| 0 <= k < |ranked| && ranked[k].0 == x;
        assert more[if k < at then k else k + 1] == ranked[k];
      }
      if Listed(more, x) && x != entry.0 {
        var k :| 0 <= k < |more| && more[k].0 == x;
        assert ranked[if k < at then k else k - 1] == more[k];
      }
    }
  }

  /** The rows of the candidates that pass the database's filters, fetched 500 at a time. */
  method FetchRecords(t: Tables, q: Query, ids: seq<Hash>, run: Session) returns (records: map<Hash, Chunk>, ok: bool)
    modifies run
    ensures ok ==> forall id :: id in records <==> id in ids && id in t.chunks && Passes(q, t.chunks[id])
    ensures ok ==> forall id | id in records :: records[id] == t.chunks[id]
    ensures run.Faultless() ==> ok
  {
    records, ok := map[], true;
    var start := 0;
    while start < |ids|
      invariant 0 <= start <= |ids| && ok
      invariant forall id :: id in records <==> id in ids[..start] && id in t.chunks && Passes(q, t.chunks[id])
      invariant forall id | id in records :: records[id] == t.chunks[id]
    {
      var end := if start + 500 < |ids| then start + 500 else |ids|;
      ok := run.Exec();
      if !ok { return; }
      var batch := ids[start..end];
      SliceJoin(ids, start, end);
      records := records + map id | id in batch && id in t.chunks && Passes(q, t.chunks[id]) :: t.chunks[id];
      start := end;
    }
    assert ids[..start] == ids;
  }

  /** The hits of the page: skip what is before the offset, stop at the limit. */
  method Assemble(t: Tables, q: Query, pathOk: string -> bool, ranked: seq<(Hash, real)>, records: map<Hash, Chunk>)
    returns (results: seq<Hit>)
    requires q.limit > 0
    requires forall i | 0 <= i < |ranked| :: ranked[i].0 in records <==>
               ranked[i].0 in t.chunks && Passes(q, t.chunks[ranked[i].0])
    requires forall id | id in records :: id in t.chunks && records[id] == t.chunks[id]
    ensures results == Page(Hits(t, q, pathOk, ranked), q)
  {
    results := [];
    var skipped := 0;
    assert ranked[..0] == [];
    for i := 0 to |ranked|
      invariant Paging(Hits(t, q, pathOk, ranked[..i]), q, skipped, results)
    {
      if |results| >= q.limit {
        HitsPrefix(t, q, pathOk, ranked, i);
        PageFull(Hits(t, q, pathOk, ranked[..i]), Hits(t, q, pathOk, ranked), q, skipped, results);
        return;
      }
      assert ranked[..i + 1][..i] == ranked[..i];
      var id, score := ranked[i].0, ranked[i].1;
      if id !in records {
        continue;
      }
      if !pathOk(records[id].filePath) {
        continue;
      }
      if skipped < q.offset {
        skipped := skipped + 1;
        continue;
      }
      results := results + [Hit(id, records[id], score)];
    }
    assert ranked[..|ranked|] == ranked;
  }

  /** So many hits seen, so many skipped, the others collected. */
  predicate Paging(hits: seq<Hit>, q: Query, skipped: int, results: seq<Hit>)
    requires q.limit > 0
  {
    && skipped == Clip(q.offset, |hits|) && results == hits[skipped..] && |results| <= q.limit
  }

  lemma {:induction false} PageFull(some: seq<Hit>, all: seq<Hit>, q: Query, skipped: int, results: seq<Hit>)
    requires q.limit > 0 && some <= all && Paging(some, q, skipped, results) && |results| >= q.limit
    ensures results == Page(all, q)
  {}

  /** One round: both lists cut at the fetch limit, fused, filtered and paged. */
  method SearchOnce(t: Tables, q: Query, pathOk: string -> bool, vec: seq<Hash>, fts: seq<Hash>, fetchLimit: nat,
                    run: Session)
    returns (results: seq<Hit>, ok: bool, ghost ranked: seq<(Hash, real)>)
    requires q.limit > 0 && Distinct(vec) && Distinct(fts)
    modifies run
    ensures ok ==> Ranking(First(vec, fetchLimit), First(fts, fetchLimit), ranked)
    ensures ok ==> results == Page(Hits(t, q, pathOk, ranked), q)
    ensures run.Faultless() ==> ok
  {
    results, ranked := [], [];
    ok := run.Exec();
    if !ok { return; }
    ok := run.Exec();
    if !ok { return; }
    var order := Rank(First(vec, fetchLimit), First(fts, fetchLimit));
    ranked := order;
    if |order| == 0 {
      return;
    }
    var records;
    var ids := seq(|order|, i requires 0 <= i < |order| => order[i].0);
    records, ok := FetchRecords(t, q, ids, run);
    if !ok { return; }
    assert forall i | 0 <= i < |order| :: ids[i] == order[i].0 && ids[i] in ids;
    results := Assemble(t, q, pathOk, order, records);
  }

  function FetchLimit(q: Query): nat {
    if (q.limit + q.offset) * 3 > 1 then (q.limit + q.offset) * 3 else 1
  }

  /** The rounds. A filtered search that comes out short is repeated with three times as much fetched,
      twice at most. */
  method Rounds(t: Tables, q: Query, pathOk: string -> bool, vec: seq<Hash>, fts: seq<Hash>, run: Session)
    returns (results: seq<Hit>, ok: bool, ghost fetched: nat, ghost ranked: seq<(Hash, real)>)
    requires Distinct(vec) && Distinct(fts) && q.limit > 0
    modifies run
    ensures ok ==>
              && Ranking(First(vec, fetched), First(fts, fetched), ranked)
              && results == Page(Hits(t, q, pathOk, ranked), q)
              && fetched in {FetchLimit(q), 3 * FetchLimit(q), 9 * FetchLimit(q)}
              && (!HasFilters(q) ==> fetched == FetchLimit(q))
              && (HasFilters(q) && |results| < q.limit ==> fetched == 9 * FetchLimit(q))
    ensures run.Faultless() ==> ok
  {
    results, ok, fetched, ranked := [], true, 0, [];
    var fetchLimit := if (q.limit + q.offset) * 3 > 1 then (q.limit + q.offset) * 3 else 1;
    var iteration := 0;
    while true
      invariant 0 <= iteration < 3 && ok
      invariant fetchLimit == (if iteration == 0 then 1 else if iteration == 1 then 3 else 9) * FetchLimit(q)
      invariant iteration > 0 ==> HasFilters(q)
      decreases 3 - iteration
    {
      results, ok, ranked := SearchOnce(t, q, pathOk, vec, fts, fetchLimit, run);
      fetched := fetchLimit;
      if !ok {
        return;
      }
      if |results| >= q.limit || !HasFilters(q) || iteration == 2 {
        return;
      }
      fetchLimit := fetchLimit * 3;
      iteration := iteration + 1;
    }
  }

  /** The whole search. A filtered search that comes out short is repeated with three times as much
      fetched, twice at most. places are those of the ranking whose candidates are stored and pass every
      filter; the results are found there, from the offset on. */
  method Search(t: Tables, q: Query, pathOk: string -> bool, vec: seq<Hash>, fts: seq<Hash>, run: Session)
    returns (results: seq<Hit>, ok: bool, ghost fetched: nat, ghost ranked: seq<(Hash, real)>,
             ghost places: seq<nat>)
    requires Distinct(vec) && Distinct(fts)
    modifies run
    ensures ok && q.limit <= 0 ==> results == []
    ensures ok && q.limit > 0 ==>
              && Ranking(First(vec, fetched), First(fts, fetched), ranked)
              && results == Page(Hits(t, q, pathOk, ranked), q)
              && fetched in {FetchLimit(q), 3 * FetchLimit(q), 9 * FetchLimit(q)}
              && (!HasFilters(q) ==> fetched == FetchLimit(q))
              && (HasFilters(q) && |results| < q.limit ==> fetched == 9 * FetchLimit(q))
    ensures ok ==> |results| <= Clip(q.limit, |ranked|)
    ensures ok && q.limit > 0 ==> Ascending(places) && forall k: nat :: k in places <==>
              k < |ranked| && ranked[k].0 in t.chunks &&
              var ch := t.chunks[ranked[k].0];
              && (q.languages == [] || ch.language in q.languages)
              && (q.names == [] || ch.name in q.names)
              && (q.nodeKinds == [] || ch.nodeKind in q.nodeKinds)
              && pathOk(ch.filePath)
    ensures ok && q.limit > 0 ==>
              var skip := if q.offset > 0 then q.offset else 0;
              && |results| <= q.limit && (results != [] ==> skip + |results| <= |places|)
              && (|results| < q.limit ==> |places| <= skip + |results|)
              && forall i | 0 <= i < |results| ::
                   && places[skip + i] < |ranked| && ranked[places[skip + i]].0 in t.chunks
                   && var id := ranked[places[skip + i]].0;
                      results[i] == Hit(id, t.chunks[id], Fused(First(vec, fetched), First(fts, fetched), id))
    ensures run.Faultless() ==> ok
  {
    results, ok, fetched, ranked, places := [], true, 0, [], [];
    if q.limit <= 0 {
      return;
    }
    results, ok, fetched, ranked := Rounds(t, q, pathOk, vec, fts, run);
    if ok {
      PageSize(t, q, pathOk, ranked);
      places := PagePlaces(t, q, pathOk, First(vec, fetched), First(fts, fetched), ranked, results);
    }
  }

  lemma {:induction false} PageSize(t: Tables, q: Query, pathOk: string -> bool, ranked: seq<(Hash, real)>)
    requires q.limit > 0
    ensures |Hits(t, q, pathOk, ranked)| <= |ranked|
    ensures |Page(Hits(t, q, pathOk, ranked), q)| <= Clip(q.limit, |ranked|)
  {
    if ranked != [] {
      PageSize(t, q, pathOk, ranked[..|ranked| - 1]);
    }
  }

  lemma {:induction false} NotFetched(vec: seq<Hash>, fts: seq<Hash>, ranked: seq<(Hash, real)>, x: Hash)
    requires Ranking(vec, fts, ranked) && !Listed(ranked, x)
    ensures x !in vec && x !in fts
  {}

  lemma {:induction false} InOrder(vec: seq<Hash>, fts: seq<Hash>, ranked: seq<(Hash, real)>, i: nat, j: nat)
    requires Ranking(vec, fts, ranked) && i <= j < |ranked|
    ensures ranked[i].1 >= ranked[j].1
  {}

  /** With at least 59 results in reach, what was not fetched scores no more than any of the first
      places of the ranking. */
  lemma {:induction false} PlacesMissNothing(vec: seq<Hash>, fts: seq<Hash>, q: Query, ranked: seq<(Hash, real)>,
                                             x: Hash, i: nat)
    requires Distinct(vec) && Distinct(fts) && q.limit > 0 && q.offset >= 0 && q.limit + q.offset >= 59
    requires Ranking(First(vec, FetchLimit(q)), First(fts, FetchLimit(q)), ranked)
    requires (x in vec || x in fts) && !Listed(ranked, x) && i < q.limit + q.offset
    ensures i < |ranked| && ranked[i].1 >= Fused(vec, fts, x)
  {
    var n := q.limit + q.offset;
    assert FetchLimit(q) == 3 * n;
    NotFetched(First(vec, 3 * n), First(fts, 3 * n), ranked, x);
    NothingMissed(vec, fts, ranked, n, x);
    InOrder(First(vec, 3 * n), First(fts, 3 * n), ranked, i, n - 1);
  }

  /** Without filters every stored candidate is a hit. */
  lemma {:induction false} HitsAll(t: Tables, q: Query, pathOk: string -> bool, ranked: seq<(Hash, real)>)
    requires !HasFilters(q) && forall p :: pathOk(p)
    requires forall i | 0 <= i < |ranked| :: ranked[i].0 in t.chunks
    ensures var hits := Hits(t, q, pathOk, ranked);
      && |hits| == |ranked|
      && forall i | 0 <= i < |ranked| :: hits[i].id == ranked[i].0 && hits[i].score == ranked[i].1
  {
    if ranked != [] { HitsAll(t, q, pathOk, ranked[..|ranked| - 1]); }
  }

  /** Without filters and with at least 59 results in reach, the page a search returns is as good as if
      both lists had been fetched whole: if a candidate of either list was not fetched, the page is
      full and none of its hits scores less than that candidate. */
  lemma {:induction false} PageMissesNothing(t: Tables, q: Query, pathOk: string -> bool, vec: seq<Hash>,
                                             fts: seq<Hash>, ranked: seq<(Hash, real)>, results: seq<Hit>, x: Hash)
    requires Distinct(vec) && Distinct(fts) && q.limit > 0 && q.offset >= 0 && q.limit + q.offset >= 59
    requires !HasFilters(q) && forall p :: pathOk(p)
    requires forall id | id in vec || id in fts :: id in t.chunks
    requires Ranking(First(vec, FetchLimit(q)), First(fts, FetchLimit(q)), ranked)
    requires results == Page(Hits(t, q, pathOk, ranked), q)
    requires (x in vec || x in fts) && !Listed(ranked, x)
    ensures |results| == q.limit && forall i | 0 <= i < |results| :: results[i].score >= Fused(vec, fts, x)
  {
    var hits := Hits(t, q, pathOk, ranked);
    forall i | 0 <= i < |ranked| ensures ranked[i].0 in t.chunks {
      assert Listed(ranked, ranked[i].0);
    }
    HitsAll(t, q, pathOk, ranked);
    PlacesMissNothing(vec, fts, q, ranked, x, q.limit + q.offset - 1);
    assert results == hits[q.offset..q.offset + q.limit];
    forall i | 0 <= i < |results| ensures results[i].score >= Fused(vec, fts, x) {
      PlacesMissNothing(vec, fts, q, ranked, x, q.offset + i);
    }
  }
}
