/** localembed/embedder.go, enter, leave and Close: any number of calls, closes and views, every
    interleaving of their steps. */
module DrainProtocol {
  import opened Wrappers

  type Proc = nat

  /** The handles on one model: the one New returned, and views on it. */
  datatype Handle = Owner | View

  /** Where a goroutine is. A call to embed goes down the first row, the one goroutine that got to run
      the body of closeOnce down the second. */
  datatype PC =
    | Idle | Locked | Passed | Added | Refused | Working
    | Closing | WriteLocked | Marked | Waiting | Finalizing(done: nat)

  datatype Once = Fresh | Running(who: Proc, through: Handle) | Done
  datatype CloseResult = Unset | Closed | TimedOut

  datatype State = State(
    pcs: map<Proc, PC>,         // a goroutine not listed is idle
    readers: set<Proc>,         // mu
    writer: Option<Proc>,
    closed: bool,
    inFlight: int,
    drained: bool,              // the channel the waiting goroutine closes
    once: Once,
    result: CloseResult,
    finalized: seq<Proc>)       // who released exec, store and backend, in that order

  function At(s: State, p: Proc): PC {
    if p in s.pcs then s.pcs[p] else Idle
  }

  function Init(): State {
    State(map[], {}, None, false, 0, false, Fresh, Unset, [])
  }

  // ---------- Steps ----------

  datatype Action =
    | RLock(p: Proc) | Check(p: Proc) | Add(p: Proc) | RUnlock(p: Proc) | Leave(p: Proc)
    | Close(p: Proc, h: Handle) | Lock(p: Proc) | Mark(p: Proc) | Unlock(p: Proc)
    | Drain | Timeout(p: Proc) | Proceed(p: Proc) | Release(p: Proc)

  predicate Reading(pc: PC) {
    pc.Locked? || pc.Passed? || pc.Added? || pc.Refused?
  }

  /** Registered and not yet unregistered. */
  predicate InCall(pc: PC) {
    pc.Added? || pc.Working?
  }

  predicate Enabled(s: State, a: Action) {
    match a
    // enter
    case RLock(p) => At(s, p) == Idle && s.writer == None
    case Check(p) => At(s, p) == Locked
    case Add(p) => At(s, p) == Passed
    case RUnlock(p) => At(s, p) == Added || At(s, p) == Refused
    // leave, once the call has done its work
    case Leave(p) => At(s, p) == Working
    // Close: a view returns at once; later closes wait for the first and return its result
    case Close(p, h) => At(s, p) == Idle && (h == View || !s.once.Running?)
    case Lock(p) => At(s, p) == Closing && s.writer == None && s.readers == {}
    case Mark(p) => At(s, p) == WriteLocked
    case Unlock(p) => At(s, p) == Marked
    // the goroutine that waits for the calls in flight, started once the lock is released
    case Drain => s.once.Running? && (At(s, s.once.who).Waiting? || At(s, s.once.who).Finalizing?) && s.inFlight == 0
    case Timeout(p) => At(s, p) == Waiting
    case Proceed(p) => At(s, p) == Waiting && s.drained
    case Release(p) => At(s, p).Finalizing?
  }

  function Move(s: State, p: Proc, pc: PC): State {
    s.(pcs := s.pcs[p := pc])
  }

  function Next(s: State, a: Action): State
    requires Enabled(s, a)
  {
    match a
    case RLock(p) => Move(s, p, Locked).(readers := s.readers + {p})
    case Check(p) => Move(s, p, if s.closed then Refused else Passed)
    case Add(p) => Move(s, p, Added).(inFlight := s.inFlight + 1)
    case RUnlock(p) => Move(s, p, if At(s, p) == Added then Working else Idle).(readers := s.readers - {p})
    case Leave(p) => Move(s, p, Idle).(inFlight := s.inFlight - 1)
    case Close(p, h) => if h == View || s.once == Done then s else Move(s, p, Closing).(once := Running(p, h))
    case Lock(p) => Move(s, p, WriteLocked).(writer := Some(p))
    case Mark(p) => Move(s, p, Marked).(closed := true)
    case Unlock(p) => Move(s, p, Waiting).(writer := None)
    case Drain => s.(drained := true)
    case Timeout(p) => Move(s, p, Idle).(once := Done, result := TimedOut)
    case Proceed(p) => Move(s, p, Finalizing(0))
    case Release(p) =>
      var n := At(s, p).done;
      var t := s.(finalized := s.finalized + [p]);
      if n < 2 then Move(t, p, Finalizing(n + 1)) else Move(t, p, Idle).(once := Done, result := Closed)
  }

  /** The states a run goes through. */
  ghost predicate Run(states: seq<State>, actions: seq<Action>) {
    && |states| == |actions| + 1 && states[0] == Init()
    && forall i {:trigger actions[i]} | 0 <= i < |actions| ::
         Enabled(states[i], actions[i]) && states[i + 1] == Next(states[i], actions[i])
  }

  // ---------- What every step keeps ----------

  function Active(s: State): set<Proc> {
    set p | p in s.pcs && InCall(s.pcs[p])
  }

  ghost predicate Mutex(s: State) {
    && (forall p: Proc :: p in s.readers <==> Reading(At(s, p)))
    && (forall p: Proc :: s.writer == Some(p) <==> Writing(At(s, p)))
    && (s.writer.Some? ==> s.readers == {})
  }

  predicate Writing(pc: PC) {
    pc.WriteLocked? || pc.Marked?
  }

  /** Only the goroutine running closeOnce's body is in it, and it came through the owner. */
  ghost predicate OneCloser(s: State) {
    && (s.once.Running? ==> s.once.through == Owner)
    && (forall p: Proc :: InClose(At(s, p)) <==> s.once.Running? && s.once.who == p)
  }

  predicate InClose(pc: PC) {
    pc.Closing? || pc.WriteLocked? || pc.Marked? || pc.Waiting? || pc.Finalizing?
  }

  /** Past the mark no call is on its way in. */
  ghost predicate Sealed(s: State) {
    && (s.closed ==> forall p: Proc :: At(s, p) != Passed && At(s, p) != Added)
    && (s.closed <==> s.once == Done || (s.once.Running? && PastMark(At(s, s.once.who))))
    && (s.drained ==> s.closed && s.inFlight == 0)
  }

  predicate PastMark(pc: PC) {
    pc.Marked? || pc.Waiting? || pc.Finalizing?
  }

  /** Resources are released after the drain, each once, by the goroutine that closes. */
  ghost predicate Released(s: State) {
    match s.once
    case Fresh => s.finalized == [] && s.result == Unset
    case Running(p, _) =>
      && s.result == Unset
      && (if At(s, p).Finalizing? then s.drained && At(s, p).done < 3 && s.finalized == Times(p, At(s, p).done)
          else s.finalized == [])
    case Done =>
      if s.result == Closed then s.drained && exists p: Proc :: s.finalized == Times(p, 3)
      else s.result == TimedOut && s.finalized == []
  }

  function Times(p: Proc, n: nat): seq<Proc> {
    if n == 0 then [] else Times(p, n - 1) + [p]
  }

  ghost predicate Inv(s: State) {
    Mutex(s) && OneCloser(s) && Sealed(s) && Released(s) && s.inFlight == |Active(s)|
  }

  lemma {:induction false} Counted(s: State, p: Proc, pc: PC)
    ensures |Active(Move(s, p, pc))| ==
            |Active(s)| + (if InCall(pc) then 1 else 0) - (if InCall(At(s, p)) then 1 else 0)
  {
    var before := Active(s);
    ActiveAfter(s, p, pc);
    if p in before {
      assert before + {p} == before;
    } else {
      assert before - {p} == before;
    }
  }

  lemma {:induction false} ActiveAfter(s: State, p: Proc, pc: PC)
    ensures Active(Move(s, p, pc)) == if InCall(pc) then Active(s) + {p} else Active(s) - {p}
    ensures p in Active(s) <==> InCall(At(s, p))
  {}

  lemma {:induction false} NoneActive(s: State, p: Proc)
    requires |Active(s)| == 0
    ensures !InCall(At(s, p))
  {
    assert p !in Active(s);
  }

  /** Whose step it is; Drain moves nobody. */
  function Actor(a: Action): Proc
    requires !a.Drain?
  {
    a.p
  }

  /** Nobody else moves. */
  lemma {:induction false} OthersStay(s: State, a: Action, q: Proc)
    requires Enabled(s, a) && (a.Drain? || q != Actor(a))
    ensures At(Next(s, a), q) == At(s, q)
  {}

  lemma {:induction false} MutexNext(s: State, a: Action)
    requires Mutex(s) && Enabled(s, a)
    ensures Mutex(Next(s, a))
  {
    var t := Next(s, a);
    forall q: Proc ensures q in t.readers <==> Reading(At(t, q)) {
      assert q in s.readers <==> Reading(At(s, q));
      ReaderNext(s, a, q);
    }
    forall q: Proc ensures t.writer == Some(q) <==> Writing(At(t, q)) {
      assert s.writer == Some(q) <==> Writing(At(s, q));
      assert a.Unlock? || a.Lock? ==> (s.writer == Some(a.p) <==> Writing(At(s, a.p)));
      WriterNext(s, a, q);
    }
  }

  lemma {:induction false} ReaderNext(s: State, a: Action, q: Proc)
    requires Enabled(s, a) && (q in s.readers <==> Reading(At(s, q)))
    ensures q in Next(s, a).readers <==> Reading(At(Next(s, a), q))
  {
    if a.Drain? || q != Actor(a) { OthersStay(s, a, q); }
  }

  lemma {:induction false} WriterNext(s: State, a: Action, q: Proc)
    requires Enabled(s, a) && (s.writer == Some(q) <==> Writing(At(s, q)))
    requires a.Unlock? || a.Lock? ==> (s.writer == Some(a.p) <==> Writing(At(s, a.p)))
    ensures Next(s, a).writer == Some(q) <==> Writing(At(Next(s, a), q))
  {
    if a.Drain? || q != Actor(a) { OthersStay(s, a, q); }
  }

  lemma {:induction false} OneCloserNext(s: State, a: Action)
    requires OneCloser(s) && Enabled(s, a)
    ensures OneCloser(Next(s, a))
  {
    var t := Next(s, a);
    forall q: Proc ensures InClose(At(t, q)) <==> t.once.Running? && t.once.who == q {
      assert InClose(At(s, q)) <==> s.once.Running? && s.once.who == q;
      if a.Drain? || q != Actor(a) {
        OthersStay(s, a, q);
        if !a.Drain? { assert InClose(At(s, a.p)) <==> s.once.Running? && s.once.who == a.p; }
      }
    }
  }

  lemma {:induction false} SealedNext(s: State, a: Action)
    requires Mutex(s) && OneCloser(s) && Sealed(s) && s.inFlight == |Active(s)| && Enabled(s, a)
    ensures Sealed(Next(s, a))
  {
    var t := Next(s, a);
    forall q: Proc | t.closed ensures At(t, q) != Passed && At(t, q) != Added {
      assert s.closed ==> At(s, q) != Passed && At(s, q) != Added;
      assert q in s.readers <==> Reading(At(s, q));
      if a.Mark? { assert s.writer == Some(a.p) <==> Writing(At(s, a.p)); }
      BarredNext(s, a, q);
    }
    assert !a.Drain? ==> (InClose(At(s, a.p)) <==> s.once.Running? && s.once.who == a.p);
    ClosedNext(s, a);
    if a.Leave? && s.drained { NoneActive(s, a.p); }
  }

  /** Marking takes the write lock, so nobody reads then; afterwards the check refuses everybody. */
  lemma {:induction false} BarredNext(s: State, a: Action, q: Proc)
    requires Enabled(s, a) && Next(s, a).closed && (s.closed ==> At(s, q) != Passed && At(s, q) != Added)
    requires (Reading(At(s, q)) ==> s.writer == None) && (a.Mark? ==> s.writer == Some(a.p))
    ensures At(Next(s, a), q) != Passed && At(Next(s, a), q) != Added
  {
    if a.Drain? || q != Actor(a) { OthersStay(s, a, q); }
  }

  lemma {:induction false} ClosedNext(s: State, a: Action)
    requires Enabled(s, a) && (s.closed <==> s.once == Done || (s.once.Running? && PastMark(At(s, s.once.who))))
    requires !a.Drain? ==> (InClose(At(s, a.p)) <==> s.once.Running? && s.once.who == a.p)
    ensures var t := Next(s, a);
            t.closed <==> t.once == Done || (t.once.Running? && PastMark(At(t, t.once.who)))
  {
    if s.once.Running? && (a.Drain? || s.once.who != Actor(a)) { OthersStay(s, a, s.once.who); }
  }

  lemma {:induction false} ReleasedNext(s: State, a: Action)
    requires OneCloser(s) && Released(s) && Enabled(s, a)
    ensures Released(Next(s, a))
  {
    if a.Release? && At(s, a.p).done == 2 {
      assert Next(s, a).finalized == Times(a.p, 3);
    }
  }

  lemma {:induction false} CountNext(s: State, a: Action)
    requires s.inFlight == |Active(s)| && Enabled(s, a)
    ensures Next(s, a).inFlight == |Active(Next(s, a))|
  {
    var t := Next(s, a);
    if t.pcs == s.pcs {
      assert Active(t) == Active(s);
      FlightNext(s, a);
    } else {
      var p := Actor(a);
      Counted(s, p, At(t, p));
      FlightNext(s, a);
      assert t.pcs == s.pcs[p := At(t, p)];
      assert Active(t) == Active(Move(s, p, At(t, p)));
    }
  }

  /** The counter moves with the one goroutine that does. */
  lemma {:induction false} FlightNext(s: State, a: Action)
    requires Enabled(s, a)
    ensures var t := Next(s, a);
            if t.pcs == s.pcs then t.inFlight == s.inFlight
            else !a.Drain? && t.inFlight == s.inFlight + (if InCall(At(t, Actor(a))) then 1 else 0)
                                            - (if InCall(At(s, Actor(a))) then 1 else 0)
  {
    if !a.Drain? && Next(s, a).pcs == s.pcs {
      assert At(Next(s, a), a.p) == At(s, a.p);
    }
  }

  lemma {:induction false} InvNext(s: State, a: Action)
    requires Inv(s) && Enabled(s, a)
    ensures Inv(Next(s, a))
  {
    MutexNext(s, a);
    OneCloserNext(s, a);
    SealedNext(s, a);
    ReleasedNext(s, a);
    CountNext(s, a);
  }

  // ---------- Every run ----------

  lemma {:induction false} RunInv(states: seq<State>, actions: seq<Action>, i: nat)
    requires Run(states, actions) && i < |states|
    ensures Inv(states[i])
  {
    if i == 0 {
      assert Active(states[0]) == {};
    } else {
      RunInv(states, actions, i - 1);
      InvNext(states[i - 1], actions[i - 1]);
    }
  }

  lemma {:induction false} StepKeeps(s: State, a: Action)
    requires Inv(s) && Enabled(s, a)
    ensures Kept(s, a, Next(s, a))
  {}

  /** What a step does to the releases, the result and the one who closes. */
  predicate Kept(s: State, a: Action, t: State) {
    && (t.finalized == s.finalized || (s.once.Running? && t.finalized == s.finalized + [s.once.who]))
    && (s.result == TimedOut ==> t.result == TimedOut)
    && (t.once.Running? ==> s.once == t.once || a == Close(t.once.who, Owner))
  }

  lemma {:induction false} RunKeeps(states: seq<State>, actions: seq<Action>, i: nat)
    requires Run(states, actions) && i < |actions|
    ensures Kept(states[i], actions[i], states[i + 1])
  {
    RunInv(states, actions, i);
    StepKeeps(states[i], actions[i]);
  }

  /** A release that has begun is never undone, nor is a timeout. */
  lemma {:induction false} Later(states: seq<State>, actions: seq<Action>, i: nat, j: nat)
    requires Run(states, actions) && i <= j < |states|
    ensures states[i].finalized <= states[j].finalized
    ensures states[i].result == TimedOut ==> states[j].result == TimedOut
  {
    if i < j {
      Later(states, actions, i, j - 1);
      RunKeeps(states, actions, j - 1);
    }
  }

  /** From the moment a resource is released, no call is in flight and none ever enters again. */
  lemma {:induction false} NoCallAfterRelease(states: seq<State>, actions: seq<Action>, i: nat, j: nat, p: Proc)
    requires Run(states, actions) && i <= j < |states| && states[i].finalized != []
    ensures !InCall(At(states[j], p)) && At(states[j], p) != Passed
    ensures j < |actions| ==> actions[j] != Add(p) && actions[j] != Leave(p)
  {
    Later(states, actions, i, j);
    RunInv(states, actions, j);
    NoneActive(states[j], p);
  }

  /** Each resource is released at most once, all by one goroutine that closed the owning handle. */
  lemma {:induction false} ReleasedOnceByOwner(states: seq<State>, actions: seq<Action>, i: nat)
    requires Run(states, actions) && i < |states| && states[i].finalized != []
    ensures exists p: Proc, n: nat ::
              1 <= n <= 3 && states[i].finalized == Times(p, n) && Close(p, Owner) in actions[..i]
  {
    RunInv(states, actions, i);
    CloserCalled(states, actions, i);
    var s := states[i];
    if s.once.Running? {
      var p := s.once.who;
      assert s.finalized == Times(p, At(s, p).done);
    } else {
      var p :| s.finalized == Times(p, 3);
      assert Times(p, 2) == Times(p, 1) + [p] && Times(p, 1) == Times(p, 0) + [p];
      assert s.finalized[0] == p;
    }
  }

  lemma {:induction false} CloserCalled(states: seq<State>, actions: seq<Action>, i: nat)
    requires Run(states, actions) && i < |states|
    ensures CalledIn(states[i], actions[..i])
  {
    if i > 0 {
      CloserCalled(states, actions, i - 1);
      RunKeeps(states, actions, i - 1);
      CalledNext(states[i - 1], actions[..i - 1], actions[i - 1], states[i]);
      assert actions[..i] == actions[..i - 1] + [actions[i - 1]];
    }
  }

  /** Whoever closes, or has released anything, called Close on the owner. */
  predicate CalledIn(s: State, past: seq<Action>) {
    && (s.once.Running? ==> Close(s.once.who, Owner) in past)
    && (forall k | 0 <= k < |s.finalized| :: Close(s.finalized[k], Owner) in past)
  }

  lemma {:induction false} CalledNext(s: State, past: seq<Action>, a: Action, t: State)
    requires CalledIn(s, past) && Kept(s, a, t)
    ensures CalledIn(t, past + [a])
  {}

  /** A close that timed out releases nothing, then or later. */
  lemma {:induction false} TimedOutReleasesNothing(states: seq<State>, actions: seq<Action>, i: nat, j: nat, p: Proc)
    requires Run(states, actions) && i < |actions| && actions[i] == Timeout(p) && j < |states|
    ensures states[j].finalized == []
  {
    assert states[i + 1].result == TimedOut;
    if j <= i {
      RunInv(states, actions, i + 1);
      Later(states, actions, j, i + 1);
    } else {
      Later(states, actions, i + 1, j);
      RunInv(states, actions, j);
    }
  }

  predicate Finishes(a: Action) {
    !a.RLock? && !a.Close?
  }

  /** No step leaves the protocol stuck: while any goroutine is inside it, some goroutine inside it can
      move. */
  lemma {:induction false} NeverStuck(states: seq<State>, actions: seq<Action>, i: nat, p: Proc)
    requires Run(states, actions) && i < |states| && At(states[i], p) != Idle
    ensures exists a: Action :: Finishes(a) && Enabled(states[i], a)
  {
    var s := states[i];
    RunInv(states, actions, i);
    if At(s, p) == Closing && s.writer.Some? {
      CanMove(s, s.writer.value);
    } else if At(s, p) == Closing && s.readers != {} {
      var q :| q in s.readers;
      CanMove(s, q);
    } else {
      CanMove(s, p);
    }
  }

  lemma {:induction false} CanMove(s: State, p: Proc)
    requires At(s, p) != Idle && (At(s, p) == Closing ==> s.writer == None && s.readers == {})
    ensures exists a: Action :: Finishes(a) && Enabled(s, a)
  {
    var a := match At(s, p)
      case Locked => Check(p)
      case Passed => Add(p)
      case Added => RUnlock(p)
      case Refused => RUnlock(p)
      case Working => Leave(p)
      case Closing => Lock(p)
      case WriteLocked => Mark(p)
      case Marked => Unlock(p)
      case Waiting => Timeout(p)
      case Finalizing(_) => Release(p)
      case Idle => Drain;
    assert Finishes(a) && Enabled(s, a);
  }
}
