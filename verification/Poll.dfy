/** watcher/poll.go: the watcher that compares one scan of the tree with the next. */
module Poll {
  import opened Wrappers
  import opened Seqs

  type Snapshot = map<string, int>  // path to modification time

  /** A file a scan comes across; None when its modification time cannot be read. */
  datatype Seen = Seen(path: string, mtime: Option<int>)

  datatype Op = Create | Write | Remove
  datatype Event = Event(path: string, op: Op)

  // ---------- What a batch of events says ----------

  /** The events are exactly the difference of two snapshots: files that appeared, files that
      disappeared, and files whose modification time is strictly later; no path occurs twice. */
  ghost predicate Diff(before: Snapshot, after: Snapshot, events: seq<Event>) {
    && (forall p :: Event(p, Create) in events <==> p in after && p !in before)
    && (forall p :: Event(p, Write) in events <==> p in after && p in before && after[p] > before[p])
    && (forall p :: Event(p, Remove) in events <==> p in before && p !in after)
    && Once(events)
  }

  predicate Once(events: seq<Event>) {
    forall i, j | 0 <= i < j < |events| :: events[i].path != events[j].path
  }

  /** What a consumer that keeps the set of files makes of one event. */
  function Step(files: set<string>, e: Event): set<string> {
    match e.op
    case Create => files + {e.path}
    case Write => files
    case Remove => files - {e.path}
  }

  function Replay(files: set<string>, events: seq<Event>): set<string> {
    if events == [] then files else Step(Replay(files, events[..|events| - 1]), events[|events| - 1])
  }

  function ReplayAll(files: set<string>, batches: seq<seq<Event>>): set<string> {
    if batches == [] then files else Replay(ReplayAll(files, batches[..|batches| - 1]), batches[|batches| - 1])
  }

  lemma {:induction false} ReplayMember(files: set<string>, events: seq<Event>, p: string)
    requires Once(events)
    ensures p in Replay(files, events) <==>
              Event(p, Create) in events || (p in files && Event(p, Remove) !in events)
  {
    if events != [] {
      var n := |events| - 1;
      ReplayMember(files, events[..n], p);
      assert forall e :: e in events <==> e in events[..n] || e == events[n];
      if events[n].path == p {
        assert forall i | 0 <= i < n :: events[..n][i].path != p;
      }
    }
  }

  /** Replaying a difference on the old files gives the new ones, in whatever order its events come. */
  lemma {:induction false} ReplayDiff(before: Snapshot, after: Snapshot, events: seq<Event>)
    requires Diff(before, after, events)
    ensures Replay(before.Keys, events) == after.Keys
  {
    forall p ensures p in Replay(before.Keys, events) <==> p in after.Keys {
      ReplayMember(before.Keys, events, p);
    }
  }

  /** A watcher's history: the first scan, and then a scan and its batch each time. */
  ghost predicate History(first: Snapshot, scans: seq<Snapshot>, batches: seq<seq<Event>>) {
    if scans == [] then batches == []
    else
      var n := |scans| - 1;
      && |batches| == n + 1 && History(first, scans[..n], batches[..n])
      && Diff(Before(first, scans, n), scans[n], batches[n])
  }

  /** The scan before the i-th. */
  function Before(first: Snapshot, scans: seq<Snapshot>, i: nat): Snapshot
    requires i <= |scans|
  {
    if i == 0 then first else scans[i - 1]
  }

  /** Each batch tells each path of its scan once, against the scan before it: created if it was not there,
      written if its time is later, removed if it is gone, and nothing otherwise. */
  lemma {:induction false} BatchesExactly(first: Snapshot, scans: seq<Snapshot>, batches: seq<seq<Event>>, i: nat)
    requires History(first, scans, batches) && i < |scans|
    ensures |batches| == |scans|
    ensures var before, after := if i == 0 then first else scans[i - 1], scans[i];
            forall p ::
              && (Event(p, Create) in batches[i] <==> p !in before && p in after)
              && (Event(p, Write) in batches[i] <==> p in before && p in after && before[p] < after[p])
              && (Event(p, Remove) in batches[i] <==> p in before && p !in after)
    ensures forall k, l | 0 <= k < l < |batches[i]| :: batches[i][k].path != batches[i][l].path
  {
    var n := |scans| - 1;
    if i < n {
      BatchesExactly(first, scans[..n], batches[..n], i);
    }
  }

  /** Replaying every batch from the first scan's files gives the last scan's files. */
  lemma {:induction false} ReplayHistory(first: Snapshot, scans: seq<Snapshot>, batches: seq<seq<Event>>)
    requires History(first, scans, batches)
    ensures ReplayAll(first.Keys, batches) == Before(first, scans, |scans|).Keys
  {
    if scans != [] {
      var n := |scans| - 1;
      assert Before(first, scans[..n], n) == Before(first, scans, n);
      ReplayHistory(first, scans[..n], batches[..n]);
      ReplayDiff(Before(first, scans, n), scans[n], batches[n]);
    }
  }

  lemma {:induction false} HistoryNext(first: Snapshot, scans: seq<Snapshot>, batches: seq<seq<Event>>, scan: Snapshot,
                                       batch: seq<Event>)
    requires History(first, scans, batches) && |batches| == |scans|
    requires Diff(Before(first, scans, |scans|), scan, batch)
    ensures History(first, scans + [scan], batches + [batch])
  {}

  /** The batches worth sending. */
  function NonEmpty(batches: seq<seq<Event>>): seq<seq<Event>> {
    if batches == [] then []
    else
      var n := |batches| - 1;
      if batches[n] == [] then NonEmpty(batches[..n]) else NonEmpty(batches[..n]) + [batches[n]]
  }

  /** Those are the batches that are not empty, in order. */
  lemma {:induction false} SentExactly(batches: seq<seq<Event>>) returns (at: seq<nat>)
    ensures Ascending(at) && forall k | 0 <= k < |batches| :: k in at <==> batches[k] != []
    ensures |NonEmpty(batches)| == |at|
    ensures forall i | 0 <= i < |at| :: at[i] < |batches| && NonEmpty(batches)[i] == batches[at[i]]
  {
    var keep := (batch: seq<Event>) => batch != [];
    NonEmptyFilters(batches, keep);
    at := FilterPositions(keep, batches);
  }

  lemma {:induction false} NonEmptyFilters(batches: seq<seq<Event>>, keep: seq<Event> -> bool)
    requires forall batch :: keep(batch) <==> batch != []
    ensures NonEmpty(batches) == Filter(keep, batches)
  {
    if batches != [] {
      var n := |batches| - 1;
      NonEmptyFilters(batches[..n], keep);
      FilterNext(keep, batches, n);
      assert batches[..n + 1] == batches;
    }
  }

  /** Empty batches are not missed. */
  lemma {:induction false} ReplayNonEmpty(files: set<string>, batches: seq<seq<Event>>)
    ensures ReplayAll(files, NonEmpty(batches)) == ReplayAll(files, batches)
  {
    if batches != [] {
      var n := |batches| - 1;
      ReplayNonEmpty(files, batches[..n]);
      var sent := NonEmpty(batches[..n]);
      assert (sent + [batches[n]])[..|sent|] == sent;
    }
  }

  // ---------- Scans ----------

  /** What a scan records of the files it comes across. */
  function SnapshotOf(matches: string -> bool, found: seq<Seen>): Snapshot {
    if found == [] then map[]
    else
      var n := |found| - 1;
      var rest := SnapshotOf(matches, found[..n]);
      if matches(found[n].path) && found[n].mtime.Some? then rest[found[n].path := found[n].mtime.value] else rest
  }

  /** It has the files that match and whose time could be read, each with the time read last. */
  lemma {:induction false} SnapshotExactly(matches: string -> bool, found: seq<Seen>, p: string)
    ensures p in SnapshotOf(matches, found) <==>
              matches(p) && exists i :: 0 <= i < |found| && found[i].path == p && found[i].mtime.Some?
    ensures forall i | 0 <= i < |found| && matches(p) && found[i].path == p && found[i].mtime.Some?
                       && (forall j | i < j < |found| && found[j].path == p :: found[j].mtime.None?) ::
              p in SnapshotOf(matches, found) && SnapshotOf(matches, found)[p] == found[i].mtime.value
  {
    if found != [] {
      var n := |found| - 1;
      SnapshotExactly(matches, found[..n], p);
      assert forall i | 0 <= i < n :: found[..n][i] == found[i];
    }
  }

  /** A map, which is passed by reference. */
  class Times {
    var m: Snapshot

    constructor ()
      ensures m == map[]
    {
      m := map[];
    }
  }

  // ---------- Intervals ----------

  function Pow2(n: nat): nat {
    if n == 0 then 1 else 2 * Pow2(n - 1)
  }

  lemma {:induction false} Pow2Grows(n: nat)
    ensures Pow2(n) >= 1 && (n >= 2 ==> Pow2(n) >= 4)
  {
    if n > 0 { Pow2Grows(n - 1); }
  }

  /** How many of the last batches were empty. */
  function Idle(batches: seq<seq<Event>>): nat {
    if batches == [] || batches[|batches| - 1] != [] then 0 else 1 + Idle(batches[..|batches| - 1])
  }

  function Least(a: nat, b: nat): nat {
    if a < b then a else b
  }

  /** The state of the watch loop after some scans. */
  ghost predicate Logged(first: Snapshot, scans: seq<Snapshot>, batches: seq<seq<Event>>, sent: seq<seq<Event>>,
                         last: Snapshot, idle: nat) {
    && History(first, scans, batches) && |batches| == |scans|
    && sent == NonEmpty(batches) && last == Before(first, scans, |scans|) && idle == Idle(batches)
  }

  /** After each scan the wait is the base doubled for every empty batch at the end, four times at most. */
  predicate Backed(base: nat, waits: seq<nat>, batches: seq<seq<Event>>) {
    && |waits| == |batches|
    && forall i | 0 <= i < |waits| :: waits[i] == base * Least(Pow2(Idle(batches[..i + 1])), 4)
  }

  /** So the wait is the base behind a batch with events, twice that behind one empty batch, and four times
      behind more. */
  lemma {:induction false} WaitsExactly(base: nat, waits: seq<nat>, batches: seq<seq<Event>>, i: nat)
    requires Backed(base, waits, batches) && i < |batches|
    ensures |waits| == |batches|
    ensures batches[i] != [] ==> waits[i] == base
    ensures batches[i] == [] && (i == 0 || batches[i - 1] != []) ==> waits[i] == 2 * base
    ensures i > 0 && batches[i] == [] == batches[i - 1] ==> waits[i] == 4 * base
  {
    var upTo := batches[..i + 1];
    assert upTo[..i] == batches[..i] && upTo[i] == batches[i];
    assert Pow2(0) == 1 && Pow2(1) == 2;
    assert Idle(upTo) == if batches[i] != [] then 0 else 1 + Idle(batches[..i]);
    if i > 0 { assert batches[..i][i - 1] == batches[i - 1]; }
    Pow2Grows(Idle(upTo));
    var times := Least(Pow2(Idle(upTo)), 4);
    assert times == if batches[i] != [] then 1 else if i == 0 || batches[i - 1] != [] then 2 else 4;
    assert waits[i] == base * times;
  }

  function Snapshots(matches: string -> bool, scans: seq<seq<Seen>>): seq<Snapshot> {
    seq(|scans|, i requires 0 <= i < |scans| => SnapshotOf(matches, scans[i]))
  }

  function Firsts(paths: seq<string>, i: nat): set<string>
    requires i <= |paths|
  {
    set p | p in paths[..i]
  }

  /** The creations and writes among the given paths of the new snapshot. */
  ghost predicate Changes(before: Snapshot, after: Snapshot, paths: seq<string>, events: seq<Event>) {
    && (forall p :: Event(p, Create) in events <==> p in paths && p !in before)
    && (forall p :: Event(p, Write) in events <==> p in paths && p in after && p in before && after[p] > before[p])
    && (forall i | 0 <= i < |events| :: events[i].op != Remove && events[i].path in paths)
    && Once(events)
  }

  function Removals(paths: seq<string>): seq<Event> {
    if paths == [] then [] else Removals(paths[..|paths| - 1]) + [Event(paths[|paths| - 1], Remove)]
  }

  class PollWatcher {
    const baseInterval: nat
    const matches: string -> bool
    var idleStreak: nat
    var current: Times
    var prev: Times

    constructor (baseInterval: nat, matches: string -> bool)
      ensures Valid() && fresh(current) && fresh(prev) && idleStreak == 0
      ensures this.baseInterval == baseInterval && this.matches == matches
    {
      this.baseInterval, this.matches, idleStreak := baseInterval, matches, 0;
      current := new Times();
      prev := new Times();
    }

    ghost predicate Valid()
      reads this
    {
      current != prev
    }

    /** Doubles with every idle poll, up to four times the base. */
    method NextInterval() returns (d: nat)
      ensures d == baseInterval * Least(Pow2(idleStreak), 4)
      ensures d == if idleStreak == 0 then baseInterval else if idleStreak == 1 then 2 * baseInterval
                   else 4 * baseInterval
    {
      if idleStreak == 0 {
        return baseInterval;
      }
      var shift := Least(idleStreak, 3);
      var multiplier, i := 1, 0;
      while i < shift
        invariant 0 <= i <= shift && multiplier == Pow2(i)
      {
        multiplier, i := 2 * multiplier, i + 1;
      }
      Pow2Grows(idleStreak);
      Pow2Grows(shift);
      return baseInterval * Least(multiplier, 4);
    }

    method Scan(found: seq<Seen>)
      requires current.m == map[]
      modifies current
      ensures current.m == SnapshotOf(matches, found)
    {
      assert found[..0] == [];
      for i := 0 to |found|
        invariant current.m == SnapshotOf(matches, found[..i])
      {
        assert found[..i + 1][..i] == found[..i];
        if !matches(found[i].path) {
          continue;
        }
        if found[i].mtime == None {
          continue;
        }
        current.m := current.m[found[i].path := found[i].mtime.value];
      }
      assert found[..|found|] == found;
    }

    /** Creations and writes; what is still there is deleted from the older map. */
    method Sweep(paths: seq<string>) returns (events: seq<Event>)
      requires Valid() && (forall p :: p in paths <==> p in current.m)
      requires forall i, j | 0 <= i < j < |paths| :: paths[i] != paths[j]
      modifies prev
      ensures Changes(old(prev.m), current.m, paths, events)
      ensures prev.m == old(prev.m) - current.m.Keys
    {
      ghost var before := prev.m;
      events := [];
      for i := 0 to |paths|
        invariant prev.m == before - Firsts(paths, i)
        invariant Changes(before, current.m, paths[..i], events)
      {
        var path := paths[i];
        FirstsNext(paths, i, before);
        ghost var were := events;
        if path !in prev.m {
          events := events + [Event(path, Create)];
        } else if current.m[path] > prev.m[path] {
          events := events + [Event(path, Write)];
        }
        ChangesNext(before, current.m, paths, i, were, events);
        prev.m := prev.m - {path};
      }
      assert paths[..|paths|] == paths && Firsts(paths, |paths|) == current.m.Keys;
    }

    /** Scans again and reports the difference with the last scan. The two maps change places; the
        older one is cleared and filled, the other emptied of what is still there. */
    method Poll(found: seq<Seen>) returns (events: seq<Event>)
      requires Valid()
      modifies this`prev, this`current, prev, current
      ensures Valid() && current == old(prev) && prev == old(current)
      ensures current.m == SnapshotOf(matches, found)
      ensures Diff(old(current.m), current.m, events)
    {
      prev, current := current, prev;
      current.m := map[];
      Scan(found);
      ghost var before := prev.m;
      var paths := Elements(current.m.Keys);
      events := Sweep(paths);
      var gone := Elements(prev.m.Keys);
      ghost var changes := events;
      for i := 0 to |gone|
        invariant events == changes + Removals(gone[..i])
      {
        assert gone[..i + 1][..i] == gone[..i];
        events := events + [Event(gone[i], Remove)];
      }
      assert gone[..|gone|] == gone;
      DiffComplete(before, current.m, paths, changes, gone);
    }

    /** One turn of the watch loop: the batch, and how long to wait before the next scan. */
    method Tick(found: seq<Seen>) returns (events: seq<Event>, d: nat)
      requires Valid()
      modifies this`prev, this`current, this`idleStreak, prev, current
      ensures Valid() && current == old(prev) && prev == old(current)
      ensures current.m == SnapshotOf(matches, found)
      ensures Diff(old(current.m), current.m, events)
      ensures idleStreak == if events == [] then old(idleStreak) + 1 else 0
      ensures d == baseInterval * Least(Pow2(idleStreak), 4)
    {
      events := Poll(found);
      if |events| > 0 {
        idleStreak := 0;
      } else {
        idleStreak := idleStreak + 1;
      }
      d := NextInterval();
    }

    /** The watch loop, for as many scans as there are before it is told to stop: what it sends, and
        how long it waits after each scan. Its first scan is its starting point and sends nothing. */
    method Watch(first: seq<Seen>, scans: seq<seq<Seen>>)
      returns (sent: seq<seq<Event>>, waits: seq<nat>, ghost batches: seq<seq<Event>>)
      requires Valid() && current.m == map[] && idleStreak == 0
      modifies this, prev, current
      ensures History(SnapshotOf(matches, first), Snapshots(matches, scans), batches) && sent == NonEmpty(batches)
      ensures ReplayAll(SnapshotOf(matches, first).Keys, sent) ==
              Before(SnapshotOf(matches, first), Snapshots(matches, scans), |scans|).Keys
      ensures Backed(baseInterval, waits, batches)
    {
      Scan(first);
      prev := new Times();
      sent, waits, batches := [], [], [];
      ghost var start := SnapshotOf(matches, first);
      assert scans[..0] == [];
      for i := 0 to |scans|
        invariant Valid() && fresh({prev, current} - {old(current)})
        invariant Logged(start, Snapshots(matches, scans[..i]), batches, sent, current.m, idleStreak)
        invariant Backed(baseInterval, waits, batches)
      {
        ghost var idle := idleStreak;
        var events, d := Tick(scans[i]);
        SnapshotsNext(matches, scans, i);
        LoggedNext(start, Snapshots(matches, scans[..i]), batches, sent, idle, current.m, events);
        WaitsNext(baseInterval, waits, batches, events, d);
        batches, waits := batches + [events], waits + [d];
        if |events| > 0 {
          sent := sent + [events];
        }
      }
      assert scans[..|scans|] == scans;
      ReplayHistory(start, Snapshots(matches, scans), batches);
      ReplayNonEmpty(start.Keys, batches);
    }
  }

  lemma {:induction false} LoggedNext(first: Snapshot, scans: seq<Snapshot>, batches: seq<seq<Event>>,
                                      sent: seq<seq<Event>>, idle: nat, scan: Snapshot, batch: seq<Event>)
    requires Logged(first, scans, batches, sent, Before(first, scans, |scans|), idle)
    requires Diff(Before(first, scans, |scans|), scan, batch)
    ensures Logged(first, scans + [scan], batches + [batch], if batch == [] then sent else sent + [batch], scan,
                   if batch == [] then idle + 1 else 0)
    ensures Idle(batches + [batch]) == if batch == [] then idle + 1 else 0
  {
    HistoryNext(first, scans, batches, scan, batch);
    assert (batches + [batch])[..|batches|] == batches;
  }

  lemma {:induction false} WaitsNext(base: nat, waits: seq<nat>, batches: seq<seq<Event>>, batch: seq<Event>, d: nat)
    requires Backed(base, waits, batches) && d == base * Least(Pow2(Idle(batches + [batch])), 4)
    ensures Backed(base, waits + [d], batches + [batch])
  {
    var more := batches + [batch];
    assert more[..|more|] == more;
    forall i | 0 <= i < |more| ensures (waits + [d])[i] == base * Least(Pow2(Idle(more[..i + 1])), 4) {
      if i < |batches| { assert more[..i + 1] == batches[..i + 1]; }
    }
  }

  lemma {:induction false} SnapshotsNext(matches: string -> bool, scans: seq<seq<Seen>>, i: nat)
    requires i < |scans|
    ensures Snapshots(matches, scans[..i + 1]) == Snapshots(matches, scans[..i]) + [SnapshotOf(matches, scans[i])]
  {}

  lemma {:induction false} FirstsNext(paths: seq<string>, i: nat, before: Snapshot)
    requires i < |paths| && forall j | 0 <= j < i :: paths[j] != paths[i]
    ensures before - Firsts(paths, i + 1) == (before - Firsts(paths, i)) - {paths[i]}
    ensures paths[i] !in Firsts(paths, i)
  {}

  lemma {:induction false} ChangesNext(before: Snapshot, after: Snapshot, paths: seq<string>, i: nat,
                                       events: seq<Event>, more: seq<Event>)
    requires i < |paths| && paths[i] in after && (forall j | 0 <= j < i :: paths[j] != paths[i])
    requires Changes(before, after, paths[..i], events)
    requires var p := paths[i];
             more == if p !in before then events + [Event(p, Create)]
                     else if after[p] > before[p] then events + [Event(p, Write)] else events
    ensures Changes(before, after, paths[..i + 1], more)
  {
    SliceNext(paths, i);
    ChangesAdd(before, after, paths[..i], paths[i], events, more);
  }

  lemma {:induction false} ChangesAdd(before: Snapshot, after: Snapshot, paths: seq<string>, p: string,
                                      events: seq<Event>, more: seq<Event>)
    requires p in after && p !in paths && Changes(before, after, paths, events)
    requires more == if p !in before then events + [Event(p, Create)]
                     else if after[p] > before[p] then events + [Event(p, Write)] else events
    ensures Changes(before, after, paths + [p], more)
  {
    var op := if p !in before then Create else Write;
    forall e ensures e in more <==> e in events || (more != events && e == Event(p, op)) {
      if more != events { assert more == events + [Event(p, op)]; }
    }
    forall q ensures q in paths + [p] <==> q in paths || q == p {}
    assert forall i | 0 <= i < |events| :: events[i].path != p;
  }

  lemma {:induction false} RemovalsAre(paths: seq<string>)
    ensures |Removals(paths)| == |paths|
    ensures forall i | 0 <= i < |paths| :: Removals(paths)[i] == Event(paths[i], Remove)
  {
    if paths != [] { RemovalsAre(paths[..|paths| - 1]); }
  }

  lemma {:induction false} DiffComplete(before: Snapshot, after: Snapshot, paths: seq<string>, changes: seq<Event>,
                                        gone: seq<string>)
    requires forall p :: p in paths <==> p in after
    requires Changes(before, after, paths, changes)
    requires forall p :: p in gone <==> p in before && p !in after
    requires forall i, j | 0 <= i < j < |gone| :: gone[i] != gone[j]
    ensures Diff(before, after, changes + Removals(gone))
  {
    RemovalsAre(gone);
    var events := changes + Removals(gone);
    forall p, op: Op ensures Event(p, op) in events <==> Event(p, op) in changes || (op == Remove && p in gone) {
      if op == Remove && p in gone {
        var i :| 0 <= i < |gone| && gone[i] == p;
        assert events[|changes| + i] == Event(p, Remove);
      }
      if Event(p, op) in events && Event(p, op) !in changes {
        var i :| 0 <= i < |events| && events[i] == Event(p, op);
        assert Removals(gone)[i - |changes|] == Event(p, op);
      }
    }
    forall i, j | 0 <= i < j < |events| ensures events[i].path != events[j].path {
      if j >= |changes| && i < |changes| { assert gone[j - |changes|] in gone && changes[i].path in paths; }
    }
  }
}
