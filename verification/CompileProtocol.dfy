/** localembed/embedder.go, ensureCompiled and the batch run around it: any number of batches, every
    interleaving of their steps. */
module CompileProtocol {
  import opened Wrappers
  import opened Bucket

  type Proc = nat
  type Shape = (int, int)

  /** Where the goroutine running a batch is. */
  datatype PC =
    | Idle
    | Entering(b: Batch)              // before the read lock
    | Reading(b: Batch)               // holding it
    | Looked(b: Batch, done: bool)    // it has read compiled[key]
    | Wanting(b: Batch)               // before the write lock
    | Holding(b: Batch)               // holding it
    | Compiling(b: Batch)             // the shape was still missing: building the graph
    | Built(b: Batch)                 // built, not yet recorded
    | Unlocking(b: Batch, ok: bool)
    | Ready(b: Batch)                 // ensureCompiled returned nil
    | Executing(b: Batch)

  datatype State = State(
    pcs: map<Proc, PC>,
    readers: set<Proc>,        // compileMu
    writer: Option<Proc>,
    compiled: set<Shape>,      // the map the lock guards
    cache: set<Shape>,         // the runtime's own graphs
    successes: seq<Shape>)     // every successful compilation, in order

  datatype Ladders = Ladders(batchB: seq<int>, seqB: seq<int>)

  function Key(b: Batch): Shape {
    (b.rows, b.seqLen)
  }

  function At(s: State, p: Proc): PC {
    if p in s.pcs then s.pcs[p] else Idle
  }

  function Init(): State {
    State(map[], {}, None, {}, {}, [])
  }

  datatype Action =
    | Begin(p: Proc, b: Batch) | RLock(p: Proc) | Look(p: Proc) | RUnlock(p: Proc)
    | Lock(p: Proc) | Recheck(p: Proc) | Compile(p: Proc) | Fail(p: Proc) | Record(p: Proc) | Unlock(p: Proc)
    | Exec(p: Proc) | Return(p: Proc)

  /** The runtime refuses a new graph when it holds as many as it was sized for. */
  predicate Refuses(l: Ladders, s: State, key: Shape) {
    key !in s.cache && |s.cache| >= |l.seqB| * |l.batchB|
  }

  predicate Enabled(l: Ladders, s: State, a: Action) {
    match a
    case Begin(p, b) => At(s, p) == Idle && Shaped(b, l.batchB, l.seqB)
    case RLock(p) => At(s, p).Entering? && s.writer == None
    case Look(p) => At(s, p).Reading?
    case RUnlock(p) => At(s, p).Looked?
    case Lock(p) => At(s, p).Wanting? && s.writer == None && s.readers == {}
    case Recheck(p) => At(s, p).Holding?
    case Compile(p) => At(s, p).Compiling? && !Refuses(l, s, Key(At(s, p).b))
    case Fail(p) => At(s, p).Compiling?
    case Record(p) => At(s, p).Built?
    case Unlock(p) => At(s, p).Unlocking?
    case Exec(p) => At(s, p).Ready?
    case Return(p) => At(s, p).Executing?
  }

  function Move(s: State, p: Proc, pc: PC): State {
    s.(pcs := s.pcs[p := pc])
  }

  function Next(l: Ladders, s: State, a: Action): State
    requires Enabled(l, s, a)
  {
    match a
    case Begin(p, b) => Move(s, p, Entering(b))
    case RLock(p) => Move(s, p, Reading(At(s, p).b)).(readers := s.readers + {p})
    case Look(p) => Move(s, p, Looked(At(s, p).b, Key(At(s, p).b) in s.compiled))
    case RUnlock(p) =>
      Move(s, p, if At(s, p).done then Ready(At(s, p).b) else Wanting(At(s, p).b)).(readers := s.readers - {p})
    case Lock(p) => Move(s, p, Holding(At(s, p).b)).(writer := Some(p))
    case Recheck(p) =>
      Move(s, p, if Key(At(s, p).b) in s.compiled then Unlocking(At(s, p).b, true) else Compiling(At(s, p).b))
    case Compile(p) =>
      var key := Key(At(s, p).b);
      Move(s, p, Built(At(s, p).b)).(cache := s.cache + {key}, successes := s.successes + [key])
    case Fail(p) => Move(s, p, Unlocking(At(s, p).b, false))
    case Record(p) => Move(s, p, Unlocking(At(s, p).b, true)).(compiled := s.compiled + {Key(At(s, p).b)})
    case Unlock(p) => Move(s, p, if At(s, p).ok then Ready(At(s, p).b) else Idle).(writer := None)
    case Exec(p) => Move(s, p, Executing(At(s, p).b))
    case Return(p) => Move(s, p, Idle)
  }

  ghost predicate Run(l: Ladders, states: seq<State>, actions: seq<Action>) {
    && |states| == |actions| + 1 && states[0] == Init()
    && forall i | 0 <= i < |actions| ::
         Enabled(l, states[i], actions[i]) && states[i + 1] == Next(l, states[i], actions[i])
  }

  // ---------- What every step keeps ----------

  predicate HoldsWrite(pc: PC) {
    pc.Holding? || pc.Compiling? || pc.Built? || pc.Unlocking?
  }

  predicate HoldsRead(pc: PC) {
    pc.Reading? || pc.Looked?
  }

  ghost predicate Mutex(s: State) {
    && (forall p: Proc :: p in s.readers <==> HoldsRead(At(s, p)))
    && (forall p: Proc :: s.writer == Some(p) <==> HoldsWrite(At(s, p)))
    && (s.writer.Some? ==> s.readers == {})
  }

  /** A goroutine knows what it has seen: shapes are only ever added. */
  predicate Knows(l: Ladders, s: State, pc: PC) {
    && (pc != Idle ==> Shaped(pc.b, l.batchB, l.seqB))
    && (pc.Ready? || pc.Executing? || (pc.Looked? && pc.done) || (pc.Unlocking? && pc.ok) ==> Key(pc.b) in s.compiled)
    && (pc.Compiling? ==> Key(pc.b) !in s.compiled)
    && (pc.Built? ==> Key(pc.b) !in s.compiled && Key(pc.b) in s.cache)
  }

  /** The shape built and not yet recorded, if any. */
  predicate Pending(s: State, key: Shape) {
    match s.writer
    case None => false
    case Some(p) => At(s, p).Built? && Key(At(s, p).b) == key
  }

  predicate OnLadders(l: Ladders, key: Shape) {
    key.0 in l.batchB && key.1 in l.seqB
  }

  ghost predicate Inv(l: Ladders, s: State) {
    && Mutex(s)
    && (forall p: Proc :: Knows(l, s, At(s, p)))
    && (forall key :: key in s.cache <==> key in s.compiled || Pending(s, key))
    && (forall key | key in s.cache :: OnLadders(l, key))
    && (forall key :: key in s.successes <==> key in s.cache)
    && (forall i, j | 0 <= i < j < |s.successes| :: s.successes[i] != s.successes[j])
  }

  lemma {:induction false} MutexNext(l: Ladders, s: State, a: Action)
    requires Inv(l, s) && Enabled(l, s, a)
    ensures Mutex(Next(l, s, a))
  {}

  lemma {:induction false} KnowsNext(l: Ladders, s: State, a: Action, p: Proc)
    requires Inv(l, s) && Enabled(l, s, a)
    ensures Knows(l, Next(l, s, a), At(Next(l, s, a), p))
  {
    assert Knows(l, s, At(s, p)) && Knows(l, s, At(s, a.p));
    assert HoldsWrite(At(s, a.p)) && HoldsWrite(At(s, p)) ==> p == a.p;
  }

  /** The double check makes a compilation new. */
  lemma {:induction false} CompileIsNew(l: Ladders, s: State, p: Proc)
    requires Inv(l, s) && At(s, p).Compiling?
    ensures Key(At(s, p).b) !in s.cache && OnLadders(l, Key(At(s, p).b))
  {}

  lemma {:induction false} CacheNext(l: Ladders, s: State, a: Action)
    requires Inv(l, s) && Enabled(l, s, a)
    ensures var t := Next(l, s, a);
            && (forall key :: key in t.cache <==> key in t.compiled || Pending(t, key))
            && (forall key | key in t.cache :: OnLadders(l, key))
            && (forall key :: key in t.successes <==> key in t.cache)
            && (forall i, j | 0 <= i < j < |t.successes| :: t.successes[i] != t.successes[j])
  {
    var t := Next(l, s, a);
    MutexNext(l, s, a);
    assert Knows(l, s, At(s, a.p));
    if a.Compile? { CompileIsNew(l, s, a.p); }
    forall key ensures key in t.cache <==> key in t.compiled || Pending(t, key) {
      assert key in s.cache <==> key in s.compiled || Pending(s, key);
      PendingNext(l, s, a, key);
    }
  }

  lemma {:induction false} PendingNext(l: Ladders, s: State, a: Action, key: Shape)
    requires Inv(l, s) && Enabled(l, s, a)
    ensures Pending(Next(l, s, a), key) <==>
            if a.Compile? then key == Key(At(s, a.p).b) else Pending(s, key) && !a.Record?
  {}

  lemma {:induction false} InvNext(l: Ladders, s: State, a: Action)
    requires Inv(l, s) && Enabled(l, s, a)
    ensures Inv(l, Next(l, s, a))
  {
    MutexNext(l, s, a);
    CacheNext(l, s, a);
    forall p: Proc { KnowsNext(l, s, a, p); }
  }

  // ---------- Every run ----------

  lemma {:induction false} RunInv(l: Ladders, states: seq<State>, actions: seq<Action>, i: nat)
    requires Run(l, states, actions) && i < |states|
    ensures Inv(l, states[i])
  {
    if i > 0 {
      RunInv(l, states, actions, i - 1);
      InvNext(l, states[i - 1], actions[i - 1]);
    }
  }

  /** At most one compilation is in progress. */
  lemma {:induction false} OneCompilation(l: Ladders, states: seq<State>, actions: seq<Action>, i: nat, p: Proc,
                                          q: Proc)
    requires Run(l, states, actions) && i < |states|
    requires At(states[i], p).Compiling? && At(states[i], q).Compiling?
    ensures p == q
  {
    RunInv(l, states, actions, i);
    assert HoldsWrite(At(states[i], p)) && HoldsWrite(At(states[i], q));
  }

  /** Each shape is compiled successfully at most once, and a batch executes only after its own was. */
  lemma {:induction false} CompiledOnceBeforeUse(l: Ladders, states: seq<State>, actions: seq<Action>, i: nat)
    requires Run(l, states, actions) && i < |states|
    ensures forall j, k | 0 <= j < k < |states[i].successes| :: states[i].successes[j] != states[i].successes[k]
    ensures forall p: Proc | At(states[i], p).Executing? :: Key(At(states[i], p).b) in states[i].successes
  {
    RunInv(l, states, actions, i);
    forall p: Proc | At(states[i], p).Executing? ensures Key(At(states[i], p).b) in states[i].successes {
      assert Knows(l, states[i], At(states[i], p));
    }
  }

  function Elems(s: seq<int>): set<int> {
    set x | x in s
  }

  lemma {:induction false} ElemsBound(s: seq<int>)
    ensures |Elems(s)| <= |s|
  {
    if s != [] {
      var n := |s| - 1;
      ElemsBound(s[..n]);
      assert s == s[..n] + [s[n]];
      assert Elems(s) == Elems(s[..n]) + {s[n]};
    }
  }

  /** A set of pairs from the ladders is no larger than their product. */
  lemma {:induction false} ProductBound(shapes: set<Shape>, rows: set<int>, lens: set<int>)
    requires forall key | key in shapes :: key.0 in rows && key.1 in lens
    ensures |shapes| <= |rows| * |lens|
    decreases |rows|
  {
    if rows == {} {
      assert forall key :: key !in shapes;
    } else {
      var r := Pick(rows);
      var here, rest := set key | key in shapes && key.0 == r, set key | key in shapes && key.0 != r;
      ProductBound(rest, rows - {r}, lens);
      RowBound(here, r, lens);
      assert shapes == here + rest;
      assert |rows| * |lens| == (|rows| - 1) * |lens| + |lens|;
    }
  }

  ghost function Pick<T>(s: set<T>): (x: T)
    requires s != {}
    ensures x in s
  {
    var x :| x in s;
    x
  }

  lemma {:induction false} RowBound(shapes: set<Shape>, r: int, lens: set<int>)
    requires forall key | key in shapes :: key.0 == r && key.1 in lens
    ensures |shapes| <= |lens|
    decreases |shapes|
  {
    if shapes != {} {
      var key :| key in shapes;
      RowBound(shapes - {key}, r, lens - {key.1});
    }
  }

  /** The runtime, sized for the product of the ladders, never has to refuse a graph. */
  lemma {:induction false} NeverRefused(l: Ladders, states: seq<State>, actions: seq<Action>, i: nat, p: Proc)
    requires Run(l, states, actions) && i < |states|
    ensures |states[i].compiled| <= |states[i].cache| <= |l.seqB| * |l.batchB|
    ensures At(states[i], p).Compiling? ==> !Refuses(l, states[i], Key(At(states[i], p).b))
  {
    var s := states[i];
    RunInv(l, states, actions, i);
    ElemsBound(l.batchB);
    ElemsBound(l.seqB);
    var rows, lens := Elems(l.batchB), Elems(l.seqB);
    ProductBound(s.cache, rows, lens);
    ProductMonotone(|rows|, |lens|, |l.batchB|, |l.seqB|);
    SubsetBound(s.compiled, s.cache);
    if At(s, p).Compiling? {
      CompileIsNew(l, s, p);
      ProductBound(s.cache + {Key(At(s, p).b)}, rows, lens);
    }
  }

  lemma {:induction false} ProductMonotone(a: nat, b: nat, c: nat, d: nat)
    requires a <= c && b <= d
    ensures a * b <= d * c
  {}

  lemma {:induction false} SubsetBound<T>(a: set<T>, b: set<T>)
    requires a <= b
    ensures |a| <= |b|
  {
    assert b == a + (b - a);
  }
}
