/** localembed/bucket.go: the closed set of padded shapes, and the grouping of texts into them. */
module Bucket {
  import opened Wrappers
  import opened Seqs

  datatype Batch = Batch(indices: seq<nat>, rows: int, seqLen: int)

  // ---------- Ladders ----------

  predicate Ladder(s: seq<int>) {
    s != [] && Ascending(s)
  }

  function Last(s: seq<int>): int
    requires s != []
  {
    s[|s| - 1]
  }

  /** The ladder's rung for n is the smallest one that holds it. */
  predicate RungFor(n: int, buckets: seq<int>, b: int) {
    b in buckets && n <= b && forall i | 0 <= i < |buckets| && n <= buckets[i] :: b <= buckets[i]
  }

  /** The rung a length goes to; what exceeds them all goes to the last one. */
  function Rung(n: int, buckets: seq<int>): int
    requires Ladder(buckets)
  {
    if |buckets| == 1 || n <= buckets[0] then buckets[0] else Rung(n, buckets[1..])
  }

  lemma {:induction false} RungMeans(n: int, buckets: seq<int>)
    requires Ladder(buckets)
    ensures n <= Last(buckets) ==> RungFor(n, buckets, Rung(n, buckets))
    ensures n > Last(buckets) ==> Rung(n, buckets) == Last(buckets)
    ensures Rung(n, buckets) in buckets
  {
    if |buckets| > 1 && n > buckets[0] {
      RungMeans(n, buckets[1..]);
      assert buckets == [buckets[0]] + buckets[1..];
    }
  }

  method RoundUp(n: int, buckets: seq<int>) returns (b: int)
    requires Ladder(buckets)
    ensures b == Rung(n, buckets)
  {
    assert buckets[0..] == buckets;
    for i := 0 to |buckets|
      invariant i < |buckets| ==> Rung(n, buckets) == Rung(n, buckets[i..])
      invariant i == |buckets| ==> Rung(n, buckets) == Last(buckets)
    {
      assert buckets[i..][1..] == buckets[i + 1..];
      if n <= buckets[i] {
        return buckets[i];
      }
    }
    return Last(buckets);
  }

  /** 8 doubled i times. */
  function Doubled(i: nat): nat {
    if i == 0 then 8 else 2 * Doubled(i - 1)
  }

  lemma {:induction false} DoubledGrows(i: nat, j: nat)
    requires i < j
    ensures Doubled(i) < Doubled(j) && Doubled(i) >= 8
  {
    if i + 1 < j {
      DoubledGrows(i, j - 1);
    } else if i > 0 {
      DoubledGrows(i - 1, i);
    }
  }

  /** The powers of two from 8 below maxSeqLen, then maxSeqLen itself. */
  predicate SeqLadder(maxSeqLen: int, s: seq<int>) {
    && s != [] && Last(s) == maxSeqLen
    && (forall i: nat | i < |s| - 1 :: s[i] == Doubled(i) && s[i] < maxSeqLen)
    && Doubled(|s| - 1) >= maxSeqLen
  }

  method SeqBuckets(maxSeqLen: int) returns (r: Option<seq<int>>)
    ensures r == None <==> maxSeqLen < 1
    ensures r.Some? ==> SeqLadder(maxSeqLen, r.value)
  {
    if maxSeqLen < 1 {
      return None;
    }
    var out, n := [], 8;
    while n < maxSeqLen
      invariant n == Doubled(|out|) && n > 0
      invariant forall i: nat | i < |out| :: out[i] == Doubled(i) && out[i] < maxSeqLen
      decreases maxSeqLen - n
    {
      out := out + [n];
      n := n * 2;
    }
    return Some(out + [maxSeqLen]);
  }

  lemma {:induction false} SeqLadderIsLadder(maxSeqLen: int, s: seq<int>)
    requires SeqLadder(maxSeqLen, s)
    ensures Ladder(s)
  {
    forall i, j | 0 <= i < j < |s| ensures s[i] < s[j] {
      DoubledGrows(i, j);
    }
  }

  /** It starts at 8 and doubles until the maximum. */
  lemma {:induction false} SeqLadderExactly(maxSeqLen: int, s: seq<int>)
    requires SeqLadder(maxSeqLen, s)
    ensures s[|s| - 1] == maxSeqLen && s[0] == if maxSeqLen <= 8 then maxSeqLen else 8
    ensures forall i | 0 <= i < |s| - 1 ::
              s[i] < maxSeqLen && s[i + 1] == if 2 * s[i] < maxSeqLen then 2 * s[i] else maxSeqLen
  {
    var n := |s| - 1;
    if n > 0 {
      assert s[0] == Doubled(0);
      DoubledGrows(0, n);
    }
    forall i | 0 <= i < n
      ensures s[i] < maxSeqLen && s[i + 1] == if 2 * s[i] < maxSeqLen then 2 * s[i] else maxSeqLen
    {
      assert s[i] == Doubled(i) && 2 * s[i] == Doubled(i + 1);
      if i + 1 < n { assert s[i + 1] == Doubled(i + 1); }
    }
  }

  /** Padding is bounded: a sequence the model accepts is padded to 8 or to less than twice its
      length. */
  lemma {:induction false} PaddingBounded(maxSeqLen: int, s: seq<int>, n: nat, b: int)
    requires SeqLadder(maxSeqLen, s) && n <= maxSeqLen && RungFor(n, s, b)
    ensures n <= b && (b <= 8 || b <= 2 * n - 2)
  {
    var i :| 0 <= i < |s| && s[i] == b;
    if i > 0 {
      assert s[i - 1] == Doubled(i - 1);
      SeqLadderIsLadder(maxSeqLen, s);
      assert s[i - 1] < n;
    }
  }

  /** Insertion in place of the library's sort. */
  method Sorted(s: seq<int>) returns (r: seq<int>)
    requires forall i, j | 0 <= i < j < |s| :: s[i] != s[j]
    ensures Ascending(r) && forall x :: x in r <==> x in s
  {
    r := [];
    for i := 0 to |s|
      invariant Ascending(r) && forall x :: x in r <==> x in s[..i]
    {
      var at := 0;
      while at < |r| && r[at] < s[i]
        invariant 0 <= at <= |r| && forall k | 0 <= k < at :: r[k] < s[i]
      {
        at := at + 1;
      }
      assert s[i] !in r;
      ghost var before := r;
      r := r[..at] + [s[i]] + r[at..];
      assert before == before[..at] + before[at..];
      assert s[..i + 1] == s[..i] + [s[i]];
    }
    assert s[..|s|] == s;
  }

  /** 1, 8 and maxBatch, without duplicates and without what exceeds maxBatch. */
  ghost predicate BatchLadder(maxBatch: int, s: seq<int>) {
    Ladder(s) && Last(s) == maxBatch && s[0] == 1 && forall x :: x in s <==> x <= maxBatch && x in {1, 8, maxBatch}
  }

  lemma {:induction false} BatchLadderExactly(maxBatch: int, s: seq<int>)
    requires BatchLadder(maxBatch, s)
    ensures s == if maxBatch == 1 then [1] else if maxBatch <= 8 then [1, maxBatch] else [1, 8, maxBatch]
  {
    var n := |s| - 1;
    assert forall i | 0 <= i <= n :: s[i] in s;
    if maxBatch > 1 { assert 1 in s && n > 0 && s[0] < s[1]; }
    assert forall i | 0 < i < n :: s[i] == 8;
    if maxBatch > 8 { assert 8 in s; }
    Rises(s);
  }

  lemma {:induction false} Rises(s: seq<int>)
    requires Ascending(s)
    ensures |s| > 3 ==> s[1] < s[2]
  {}

  method BatchBuckets(maxBatch: int) returns (r: Option<seq<int>>)
    ensures r == None <==> maxBatch < 1
    ensures r.Some? ==> BatchLadder(maxBatch, r.value)
  {
    if maxBatch < 1 {
      return None;
    }
    var out := [1];
    var more := [8, maxBatch];
    for i := 0 to |more|
      invariant forall x :: x in out <==> x <= maxBatch && (x == 1 || x in more[..i])
      invariant forall j, k | 0 <= j < k < |out| :: out[j] != out[k]
    {
      assert more[..i + 1] == more[..i] + [more[i]];
      if more[i] <= maxBatch && more[i] !in out {
        out := out + [more[i]];
      }
    }
    assert more[..2] == more;
    var sorted := Sorted(out);
    assert 1 in sorted && maxBatch in sorted;
    assert more == [8, maxBatch];
    assert forall x | x in out :: 1 <= x <= maxBatch;
    assert forall k | 0 <= k < |sorted| :: sorted[k] in sorted;
    return Some(sorted);
  }

  // ---------- Batches ----------

  /** The positions whose sequences pad to length s, ascending. */
  function Group(lengths: seq<int>, seqB: seq<int>, s: int): seq<nat>
    requires Ladder(seqB)
  {
    if lengths == [] then []
    else
      var n := |lengths| - 1;
      var rest := Group(lengths[..n], seqB, s);
      if Rung(lengths[n], seqB) == s then rest + [n] else rest
  }

  lemma {:induction false} GroupExactly(lengths: seq<int>, seqB: seq<int>, s: int)
    requires Ladder(seqB)
    ensures var idx := Group(lengths, seqB, s);
            && Ascending(idx)
            && (forall k | 0 <= k < |idx| :: idx[k] < |lengths| && Rung(lengths[idx[k]], seqB) == s)
            && (forall i: nat | i < |lengths| && Rung(lengths[i], seqB) == s :: i in idx)
  {
    if lengths != [] {
      var n := |lengths| - 1;
      GroupExactly(lengths[..n], seqB, s);
      var rest, idx := Group(lengths[..n], seqB, s), Group(lengths, seqB, s);
      assert idx == rest || idx == rest + [n];
      forall k | 0 <= k < |idx| ensures idx[k] < |lengths| && Rung(lengths[idx[k]], seqB) == s {
        if k < |rest| { assert idx[k] == rest[k] && lengths[..n][rest[k]] == lengths[rest[k]]; }
      }
      forall i: nat | i < |lengths| && Rung(lengths[i], seqB) == s ensures i in idx {
        if i < n { assert lengths[..n][i] == lengths[i] && i in rest; }
      }
    }
  }

  /** Full batches, then the remainder. */
  function Split(idx: seq<nat>, batchB: seq<int>, s: int): seq<Batch>
    requires Ladder(batchB) && Last(batchB) > 0
  {
    if idx == [] then []
    else
      var take := if |idx| < Last(batchB) then |idx| else Last(batchB);
      [Batch(idx[..take], Rung(take, batchB), s)] + Split(idx[take..], batchB, s)
  }

  function Flat(bs: seq<Batch>): seq<nat> {
    if bs == [] then [] else bs[0].indices + Flat(bs[1..])
  }

  function OfLen(bs: seq<Batch>, s: int): seq<Batch> {
    Filter((b: Batch) => b.seqLen == s, bs)
  }

  /** The batch holds at least one text and fits the smallest rung that holds them. */
  predicate Shaped(b: Batch, batchB: seq<int>, seqB: seq<int>) {
    b.indices != [] && RungFor(|b.indices|, batchB, b.rows) && b.seqLen in seqB
  }

  /** For every padded length the batches of that length, one after another, hold exactly the texts
      that pad to it, each once and in order; all shapes come from the ladders; and the batches of
      a length are as few as the largest batch allows. */
  ghost predicate Partitioned(out: seq<Batch>, lengths: seq<int>, batchB: seq<int>, seqB: seq<int>)
    requires Ladder(batchB) && Ladder(seqB)
  {
    && (forall s :: Flat(OfLen(out, s)) == Group(lengths, seqB, s))
    && (forall i | 0 <= i < |out| :: Shaped(out[i], batchB, seqB))
    && (forall s :: Fewest(|OfLen(out, s)|, |Group(lengths, seqB, s)|, Last(batchB)))
    && (forall i, j | 0 <= i < j < |out| :: out[i].seqLen <= out[j].seqLen)
    && FullButLast(out, Last(batchB))
  }

  /** Of the batches of one length all but the last are full. */
  predicate FullButLast(out: seq<Batch>, maxBatch: int) {
    forall i, j | 0 <= i < j < |out| && out[i].seqLen == out[j].seqLen :: |out[i].indices| == maxBatch
  }

  /** So many batches hold so many texts, and one fewer would not. */
  predicate Fewest(batches: nat, texts: nat, maxBatch: int) {
    (batches - 1) * maxBatch < texts <= batches * maxBatch || batches == texts == 0
  }

  lemma {:induction false} SplitSound(idx: seq<nat>, batchB: seq<int>, s: int)
    requires Ladder(batchB) && Last(batchB) > 0
    ensures Flat(Split(idx, batchB, s)) == idx
    ensures Fewest(|Split(idx, batchB, s)|, |idx|, Last(batchB))
    ensures forall i | 0 <= i < |Split(idx, batchB, s)| :: Fitted(Split(idx, batchB, s)[i], batchB, s)
    ensures FullButLast(Split(idx, batchB, s), Last(batchB))
  {
    if idx != [] {
      var most := Last(batchB);
      var take := if |idx| < most then |idx| else most;
      var rest := Split(idx[take..], batchB, s);
      SplitSound(idx[take..], batchB, s);
      RungMeans(take, batchB);
      var first := Batch(idx[..take], Rung(take, batchB), s);
      assert Split(idx, batchB, s) == [first] + rest;
      FlatCons(first, rest);
      assert idx[..take] + idx[take..] == idx;
      FewestNext(|rest|, |idx| - take, take, most);
    }
  }

  /** The batch pads to s and fits the smallest rung that holds its texts. */
  predicate Fitted(b: Batch, batchB: seq<int>, s: int) {
    b.seqLen == s && b.indices != [] && RungFor(|b.indices|, batchB, b.rows)
  }

  lemma {:induction false} FlatCons(b: Batch, bs: seq<Batch>)
    ensures Flat([b] + bs) == b.indices + Flat(bs)
  {
    assert ([b] + bs)[1..] == bs;
  }

  lemma {:induction false} FewestNext(batches: nat, texts: nat, take: nat, most: int)
    requires Fewest(batches, texts, most) && 0 < take <= most && (take < most ==> texts == 0)
    ensures Fewest(batches + 1, texts + take, most)
  {
    assert batches > 0 ==> (batches - 1) * most >= 0;
    assert (batches - 1) * most == batches * most - most;
    assert (batches + 1) * most == batches * most + most;
  }

  lemma {:induction false} OfLenAppend(bs: seq<Batch>, more: seq<Batch>, s: int)
    ensures OfLen(bs + more, s) == OfLen(bs, s) + OfLen(more, s)
  {
    FilterAppend((b: Batch) => b.seqLen == s, bs, more);
  }

  lemma {:induction false} OfLenUniform(bs: seq<Batch>, s: int, t: int)
    requires forall i | 0 <= i < |bs| :: bs[i].seqLen == t
    ensures OfLen(bs, s) == if s == t then bs else []
  {
    if s == t {
      FilterAll((b: Batch) => b.seqLen == s, bs);
    } else {
      FilterNone((b: Batch) => b.seqLen == s, bs);
    }
  }

  /** A missing key reads as the empty list. */
  function Held(groups: map<int, seq<nat>>, s: int): seq<nat> {
    if s in groups then groups[s] else []
  }

  /** Groups positions by padded length. */
  method GroupByLength(lengths: seq<int>, seqB: seq<int>) returns (groups: map<int, seq<nat>>)
    requires Ladder(seqB)
    ensures forall s :: Held(groups, s) == Group(lengths, seqB, s)
    ensures forall s | s in groups :: s in seqB && groups[s] != []
  {
    groups := map[];
    for i := 0 to |lengths|
      invariant forall s :: Held(groups, s) == Group(lengths[..i], seqB, s)
      invariant forall s | s in groups :: s in seqB && groups[s] != []
    {
      var bucket := Last(seqB);
      if lengths[i] <= Last(seqB) {
        bucket := RoundUp(lengths[i], seqB);
      }
      RungMeans(lengths[i], seqB);
      assert bucket == Rung(lengths[i], seqB);
      assert lengths[..i + 1][..i] == lengths[..i];
      groups := groups[bucket := Held(groups, bucket) + [i]];
    }
    assert lengths[..|lengths|] == lengths;
  }

  method KeysOf(groups: map<int, seq<nat>>) returns (keys: seq<int>)
    ensures Ascending(keys) && forall s :: s in keys <==> s in groups
  {
    var found := Elements(groups.Keys);
    keys := Sorted(found);
  }

  /** Cuts one group into batches. */
  method Cut(group: seq<nat>, batchB: seq<int>, seqLen: int) returns (out: seq<Batch>)
    requires Ladder(batchB) && Last(batchB) > 0
    ensures out == Split(group, batchB, seqLen)
  {
    out := [];
    var idx := group;
    while |idx| > 0
      invariant out + Split(idx, batchB, seqLen) == Split(group, batchB, seqLen)
      decreases |idx|
    {
      var take, rows := Last(batchB), Last(batchB);
      RungMeans(take, batchB);
      if |idx| < Last(batchB) {
        take := |idx|;
        rows := RoundUp(take, batchB);
      }
      out := out + [Batch(idx[..take], rows, seqLen)];
      idx := idx[take..];
    }
  }

  method Bucketize(lengths: seq<int>, batchB: seq<int>, seqB: seq<int>) returns (r: Option<seq<Batch>>)
    requires Ascending(batchB) && Ascending(seqB) && (batchB != [] ==> Last(batchB) > 0)
    ensures r == None <==> batchB == [] || seqB == []
    ensures r.Some? ==> Partitioned(r.value, lengths, batchB, seqB)
  {
    if |batchB| == 0 || |seqB| == 0 {
      return None;
    }
    if |lengths| == 0 {
      return Some([]);
    }
    var groups := GroupByLength(lengths, seqB);
    var present := KeysOf(groups);
    var out: seq<Batch> := [];
    for i := 0 to |present|
      invariant Cutting(out, lengths, batchB, seqB, present[..i])
    {
      var s := present[i];
      var cut := Cut(groups[s], batchB, s);
      assert Held(groups, s) == Group(lengths, seqB, s);
      CutAppended(out, cut, lengths, batchB, seqB, present, i);
      out := out + cut;
    }
    assert present[..|present|] == present;
    AllCut(out, lengths, batchB, seqB, present);
    return Some(out);
  }

  /** The groups of the lengths done so far have been cut. */
  ghost predicate Cutting(out: seq<Batch>, lengths: seq<int>, batchB: seq<int>, seqB: seq<int>, done: seq<int>)
    requires Ladder(batchB) && Last(batchB) > 0 && Ladder(seqB)
  {
    && (forall s :: OfLen(out, s) == CutOf(lengths, batchB, seqB, done, s))
    && Tidy(out, batchB, seqB, done) && FullButLast(out, Last(batchB))
  }

  predicate Tidy(out: seq<Batch>, batchB: seq<int>, seqB: seq<int>, done: seq<int>) {
    && (forall j | 0 <= j < |out| :: Shaped(out[j], batchB, seqB) && out[j].seqLen in done)
    && (forall j, k | 0 <= j < k < |out| :: out[j].seqLen <= out[k].seqLen)
  }

  lemma {:induction false} TidyNext(out: seq<Batch>, cut: seq<Batch>, batchB: seq<int>, seqB: seq<int>,
                                    present: seq<int>, i: nat)
    requires Ascending(present) && i < |present| && Tidy(out, batchB, seqB, present[..i])
    requires forall j | 0 <= j < |cut| :: Shaped(cut[j], batchB, seqB) && cut[j].seqLen == present[i]
    ensures Tidy(out + cut, batchB, seqB, present[..i + 1])
  {}

  lemma {:induction false} FullNext(out: seq<Batch>, cut: seq<Batch>, maxBatch: int, present: seq<int>, i: nat)
    requires Ascending(present) && i < |present| && FullButLast(out, maxBatch) && FullButLast(cut, maxBatch)
    requires forall j | 0 <= j < |out| :: out[j].seqLen in present[..i]
    requires forall j | 0 <= j < |cut| :: cut[j].seqLen == present[i]
    ensures FullButLast(out + cut, maxBatch)
  {}

  function CutOf(lengths: seq<int>, batchB: seq<int>, seqB: seq<int>, done: seq<int>, s: int): seq<Batch>
    requires Ladder(batchB) && Last(batchB) > 0 && Ladder(seqB)
  {
    if s in done then Split(Group(lengths, seqB, s), batchB, s) else []
  }

  lemma {:induction false} CutAppended(out: seq<Batch>, cut: seq<Batch>, lengths: seq<int>, batchB: seq<int>,
                                       seqB: seq<int>, present: seq<int>, i: nat)
    requires Ladder(batchB) && Last(batchB) > 0 && Ladder(seqB) && Ascending(present) && i < |present|
    requires Cutting(out, lengths, batchB, seqB, present[..i])
    requires cut == Split(Group(lengths, seqB, present[i]), batchB, present[i]) && present[i] in seqB
    ensures Cutting(out + cut, lengths, batchB, seqB, present[..i + 1])
  {
    SplitSound(Group(lengths, seqB, present[i]), batchB, present[i]);
    SliceNext(present, i);
    forall s ensures OfLen(out + cut, s) == CutOf(lengths, batchB, seqB, present[..i + 1], s) {
      CutOfNext(out, cut, lengths, batchB, seqB, present, i, s);
    }
    TidyNext(out, cut, batchB, seqB, present, i);
    FullNext(out, cut, Last(batchB), present, i);
  }

  lemma {:induction false} CutOfNext(out: seq<Batch>, cut: seq<Batch>, lengths: seq<int>, batchB: seq<int>,
                                     seqB: seq<int>, present: seq<int>, i: nat, s: int)
    requires Ladder(batchB) && Last(batchB) > 0 && Ladder(seqB) && Ascending(present) && i < |present|
    requires OfLen(out, s) == CutOf(lengths, batchB, seqB, present[..i], s)
    requires cut == Split(Group(lengths, seqB, present[i]), batchB, present[i])
    requires forall j | 0 <= j < |cut| :: cut[j].seqLen == present[i]
    ensures OfLen(out + cut, s) == CutOf(lengths, batchB, seqB, present[..i + 1], s)
  {
    SliceNext(present, i);
    OfLenAppend(out, cut, s);
    OfLenUniform(cut, s, present[i]);
  }

  lemma {:induction false} AllCut(out: seq<Batch>, lengths: seq<int>, batchB: seq<int>, seqB: seq<int>,
                                  present: seq<int>)
    requires Ladder(batchB) && Last(batchB) > 0 && Ladder(seqB)
    requires Cutting(out, lengths, batchB, seqB, present)
    requires forall s | s !in present :: Group(lengths, seqB, s) == []
    ensures Partitioned(out, lengths, batchB, seqB)
  {
    forall s
      ensures Flat(OfLen(out, s)) == Group(lengths, seqB, s)
      ensures Fewest(|OfLen(out, s)|, |Group(lengths, seqB, s)|, Last(batchB))
    {
      SplitSound(Group(lengths, seqB, s), batchB, s);
      assert OfLen(out, s) == CutOf(lengths, batchB, seqB, present, s);
    }
  }

  // ---------- What the partition means for one text ----------

  /** How often position i occurs in the batches. */
  function Occurs(bs: seq<Batch>, i: nat): nat {
    if bs == [] then 0 else Count(bs[0].indices, i) + Occurs(bs[1..], i)
  }

  function Count(idx: seq<nat>, i: nat): nat {
    if idx == [] then 0 else (if idx[0] == i then 1 else 0) + Count(idx[1..], i)
  }

  lemma {:induction false} CountAppend(a: seq<nat>, b: seq<nat>, i: nat)
    ensures Count(a + b, i) == Count(a, i) + Count(b, i)
  {
    if a == [] {
      assert a + b == b;
    } else {
      assert (a + b)[1..] == a[1..] + b;
      CountAppend(a[1..], b, i);
    }
  }

  lemma {:induction false} CountAscending(idx: seq<nat>, i: nat)
    requires Ascending(idx)
    ensures Count(idx, i) == if i in idx then 1 else 0
  {
    if idx != [] {
      CountAscending(idx[1..], i);
      assert forall j | i in idx[1..] && 0 <= j < |idx[1..]| :: idx[1..][j] > idx[0];
    }
  }

  /** Batches of another length do not hold i. */
  lemma {:induction false} OccursOfLen(bs: seq<Batch>, lengths: seq<int>, seqB: seq<int>, i: nat)
    requires Ladder(seqB) && i < |lengths|
    requires forall j, k | 0 <= j < |bs| && 0 <= k < |bs[j].indices| ::
               bs[j].indices[k] < |lengths| && Rung(lengths[bs[j].indices[k]], seqB) == bs[j].seqLen
    ensures Occurs(bs, i) == Count(Flat(OfLen(bs, Rung(lengths[i], seqB))), i)
  {
    if bs != [] {
      var s := Rung(lengths[i], seqB);
      OccursOfLen(bs[1..], lengths, seqB, i);
      if bs[0].seqLen == s {
        assert OfLen(bs, s)[1..] == OfLen(bs[1..], s);
        CountAppend(bs[0].indices, Flat(OfLen(bs[1..], s)), i);
      } else {
        CountZero(bs[0].indices, i);
      }
    }
  }

  lemma {:induction false} CountZero(idx: seq<nat>, i: nat)
    requires i !in idx
    ensures Count(idx, i) == 0
  {
    if idx != [] { CountZero(idx[1..], i); }
  }

  lemma {:induction false} FlatHolds(bs: seq<Batch>, j: nat, k: nat)
    requires j < |bs| && k < |bs[j].indices|
    ensures bs[j].indices[k] in Flat(bs)
  {
    if j > 0 { FlatHolds(bs[1..], j - 1, k); }
  }

  /** Every text in a batch pads to that batch's length. */
  lemma {:induction false} InOwnLength(out: seq<Batch>, lengths: seq<int>, batchB: seq<int>, seqB: seq<int>)
    requires Ladder(batchB) && Ladder(seqB) && Partitioned(out, lengths, batchB, seqB)
    ensures forall j, k | 0 <= j < |out| && 0 <= k < |out[j].indices| ::
              out[j].indices[k] < |lengths| && Rung(lengths[out[j].indices[k]], seqB) == out[j].seqLen
  {
    forall j, k | 0 <= j < |out| && 0 <= k < |out[j].indices|
      ensures out[j].indices[k] < |lengths| && Rung(lengths[out[j].indices[k]], seqB) == out[j].seqLen
    {
      var b := out[j];
      FilterMember((x: Batch) => x.seqLen == b.seqLen, out, b);
      var same := OfLen(out, b.seqLen);
      var l :| 0 <= l < |same| && same[l] == b;
      FlatHolds(same, l, k);
      var group := Group(lengths, seqB, b.seqLen);
      GroupExactly(lengths, seqB, b.seqLen);
      var m :| 0 <= m < |group| && group[m] == b.indices[k];
    }
  }

  /** Every text is in exactly one batch, once, and that batch is long enough for it unless it
      exceeds the longest length there is. */
  lemma {:induction false} EachTextOnce(out: seq<Batch>, lengths: seq<int>, batchB: seq<int>, seqB: seq<int>, i: nat)
    requires Ladder(batchB) && Ladder(seqB) && Partitioned(out, lengths, batchB, seqB) && i < |lengths|
    ensures Occurs(out, i) == 1
    ensures forall j, k | 0 <= j < |out| && 0 <= k < |out[j].indices| && out[j].indices[k] == i ::
              out[j].seqLen >= lengths[i] || (lengths[i] > Last(seqB) && out[j].seqLen == Last(seqB))
  {
    InOwnLength(out, lengths, batchB, seqB);
    OccursOfLen(out, lengths, seqB, i);
    GroupExactly(lengths, seqB, Rung(lengths[i], seqB));
    RungMeans(lengths[i], seqB);
    CountAscending(Group(lengths, seqB, Rung(lengths[i], seqB)), i);
  }
}
