/** query/query.go and query/graph.go: the lock-free-read, locked-rebuild caches gated by one
    generation counter, under every interleaving of readers, writers and invalidations. */
module GenerationCache {
  import opened Wrappers

  type Proc = nat

  /** Map does not cache an empty listing, symbols does. */
  datatype Kind = Map | Symbols

  /** Where a call is. began is the counter when it began, g what it last loaded, v the version of
      the store the data it holds was read from. */
  datatype PC =
    | Idle
    | Begun(began: nat)
    | Loaded(began: nat, g: nat)
    | Blocked(began: nat)
    | Locked(began: nat)
    | Reloaded(began: nat, g: nat)
    | Listing(began: nat, g: nat)
    | Listed(began: nat, g: nat, v: nat)
    | Leaving(began: nat, answer: Option<nat>)   // still holding the lock
    | Returned(began: nat, answer: Option<nat>)  // None is the error of ListSymbols

  datatype Cached = Cached(gen: nat, v: nat)

  datatype State = State(
    kind: Kind,
    version: nat,            // of the store: bumped by every committed write
    gen: nat,
    atGen: seq<nat>,         // the store's version when the counter reached each value
    cached: Option<Cached>,
    holder: Option<Proc>,
    stores: seq<nat>,        // the generations cached so far, in order
    pcs: map<Proc, PC>)

  function At(s: State, p: Proc): PC {
    if p in s.pcs then s.pcs[p] else Idle
  }

  function Init(kind: Kind): State {
    State(kind, 0, 0, [0], None, None, [], map[])
  }

  datatype Action =
    | Write | Invalidate
    | Begin(p: Proc) | Load(p: Proc) | Look(p: Proc) | Lock(p: Proc) | Reload(p: Proc) | Recheck(p: Proc)
    | List(p: Proc) | ListFails(p: Proc) | Store(p: Proc) | StoreNothing(p: Proc) | Unlock(p: Proc)

  /** Which versions of the store list no symbols. */
  type Emptiness = nat -> bool

  predicate Enabled(empty: Emptiness, s: State, a: Action) {
    match a
    case Write => true
    case Invalidate => true
    case Begin(p) => At(s, p).Idle? || At(s, p).Returned?
    case Load(p) => At(s, p).Begun?
    case Look(p) => At(s, p).Loaded?
    case Lock(p) => At(s, p).Blocked? && s.holder == None
    case Reload(p) => At(s, p).Locked?
    case Recheck(p) => At(s, p).Reloaded?
    case List(p) => At(s, p).Listing?
    case ListFails(p) => At(s, p).Listing?
    case Store(p) => At(s, p).Listed? && !(s.kind == Map && empty(At(s, p).v))
    case StoreNothing(p) => At(s, p).Listed? && s.kind == Map && empty(At(s, p).v)
    case Unlock(p) => At(s, p).Leaving?
  }

  predicate Hit(s: State, g: nat) {
    s.cached.Some? && s.cached.value.gen == g
  }

  function Move(s: State, p: Proc, pc: PC): State {
    s.(pcs := s.pcs[p := pc])
  }

  function Next(empty: Emptiness, s: State, a: Action): State
    requires Enabled(empty, s, a)
  {
    match a
    case Write => s.(version := s.version + 1)
    case Invalidate => s.(gen := s.gen + 1, atGen := s.atGen + [s.version])
    case Begin(p) => Move(s, p, Begun(s.gen))
    case Load(p) => Move(s, p, Loaded(At(s, p).began, s.gen))
    case Look(p) =>
      var pc := At(s, p);
      Move(s, p, if Hit(s, pc.g) then Returned(pc.began, Some(s.cached.value.v)) else Blocked(pc.began))
    case Lock(p) => Move(s, p, Locked(At(s, p).began)).(holder := Some(p))
    case Reload(p) => Move(s, p, Reloaded(At(s, p).began, s.gen))
    case Recheck(p) =>
      var pc := At(s, p);
      Move(s, p, if Hit(s, pc.g) then Leaving(pc.began, Some(s.cached.value.v)) else Listing(pc.began, pc.g))
    case List(p) => Move(s, p, Listed(At(s, p).began, At(s, p).g, s.version))
    case ListFails(p) => Move(s, p, Leaving(At(s, p).began, None))
    case Store(p) =>
      var pc := At(s, p);
      Move(s, p, Leaving(pc.began, Some(pc.v))).(cached := Some(Cached(pc.g, pc.v)), stores := s.stores + [pc.g])
    case StoreNothing(p) => Move(s, p, Leaving(At(s, p).began, Some(At(s, p).v)))
    case Unlock(p) => Move(s, p, Returned(At(s, p).began, At(s, p).answer)).(holder := None)
  }

  ghost predicate Run(empty: Emptiness, kind: Kind, states: seq<State>, actions: seq<Action>) {
    && |states| == |actions| + 1 && states[0] == Init(kind)
    && forall i | 0 <= i < |actions| ::
         Enabled(empty, states[i], actions[i]) && states[i + 1] == Next(empty, states[i], actions[i])
  }

  // ---------- What every step keeps ----------

  predicate Counter(s: State) {
    && |s.atGen| == s.gen + 1
    && (forall i, j | 0 <= i <= j < |s.atGen| :: s.atGen[i] <= s.atGen[j])
    && (forall i | 0 <= i < |s.atGen| :: s.atGen[i] <= s.version)
  }

  /** Data of version v is as new as generation g. */
  predicate NewAs(s: State, v: nat, g: nat) {
    g < |s.atGen| && s.atGen[g] <= v <= s.version
  }

  predicate CacheOk(s: State) {
    && (s.cached.Some? ==> NewAs(s, s.cached.value.v, s.cached.value.gen))
    && (forall i, j | 0 <= i < j < |s.stores| :: s.stores[i] < s.stores[j])
    && (s.stores != [] <==> s.cached.Some?)
    && (s.cached.Some? ==> s.stores[|s.stores| - 1] == s.cached.value.gen)
  }

  predicate Holding(pc: PC) {
    pc.Locked? || pc.Reloaded? || pc.Listing? || pc.Listed? || pc.Leaving?
  }

  predicate CallOk(s: State, pc: PC) {
    && (!pc.Idle? ==> pc.began <= s.gen)
    && (pc.Loaded? || pc.Reloaded? || pc.Listing? || pc.Listed? ==> pc.began <= pc.g <= s.gen)
    && (pc.Reloaded? ==> s.cached.Some? ==> s.cached.value.gen <= pc.g)
    && (pc.Listing? || pc.Listed? ==> s.cached.Some? ==> s.cached.value.gen < pc.g)
    && (pc.Listed? ==> NewAs(s, pc.v, pc.g))
    && ((pc.Leaving? || pc.Returned?) && pc.answer.Some? ==> NewAs(s, pc.answer.value, pc.began))
  }

  ghost predicate Inv(s: State) {
    && Counter(s) && CacheOk(s)
    && (forall p: Proc :: s.holder == Some(p) <==> Holding(At(s, p)))
    && (forall p: Proc :: CallOk(s, At(s, p)))
  }

  lemma {:induction false} CallNext(empty: Emptiness, s: State, a: Action, p: Proc)
    requires Inv(s) && Enabled(empty, s, a)
    ensures CallOk(Next(empty, s, a), At(Next(empty, s, a), p))
  {
    assert CallOk(s, At(s, p)) && (s.holder == Some(p) <==> Holding(At(s, p)));
    if a.Write? || a.Invalidate? {
      OutsideStep(empty, s, a, At(s, p));
    } else {
      assert CallOk(s, At(s, a.p)) && (s.holder == Some(a.p) <==> Holding(At(s, a.p)));
      if a.p != p {
        OtherStep(empty, s, a, At(s, p));
      } else if a.List? || a.ListFails? || a.Store? || a.StoreNothing? || a.Unlock? {
        LateStep(empty, s, a);
      } else {
        EarlyStep(empty, s, a);
      }
    }
  }

  /** A write or an invalidation, for a call anywhere. */
  lemma {:induction false} OutsideStep(empty: Emptiness, s: State, a: Action, pc: PC)
    requires Counter(s) && CallOk(s, pc) && (a.Write? || a.Invalidate?)
    ensures CallOk(Next(empty, s, a), pc)
  {}

  /** A step of another call. */
  lemma {:induction false} OtherStep(empty: Emptiness, s: State, a: Action, pc: PC)
    requires Enabled(empty, s, a) && !a.Write? && !a.Invalidate?
    requires CallOk(s, pc) && (Holding(At(s, a.p)) ==> !Holding(pc))
    ensures CallOk(Next(empty, s, a), pc)
  {}

  /** A step of the call itself, before it lists anything, */
  lemma {:induction false} EarlyStep(empty: Emptiness, s: State, a: Action)
    requires Enabled(empty, s, a) && !a.Write? && !a.Invalidate?
    requires !a.List? && !a.ListFails? && !a.Store? && !a.StoreNothing? && !a.Unlock?
    requires Counter(s) && CacheOk(s) && CallOk(s, At(s, a.p))
    ensures CallOk(Next(empty, s, a), At(Next(empty, s, a), a.p))
  {}

  /** and from there on. */
  lemma {:induction false} LateStep(empty: Emptiness, s: State, a: Action)
    requires Enabled(empty, s, a) && (a.List? || a.ListFails? || a.Store? || a.StoreNothing? || a.Unlock?)
    requires Counter(s) && CallOk(s, At(s, a.p))
    ensures CallOk(Next(empty, s, a), At(Next(empty, s, a), a.p))
  {}

  lemma {:induction false} HolderNext(empty: Emptiness, s: State, a: Action, p: Proc)
    requires Inv(s) && Enabled(empty, s, a)
    ensures var t := Next(empty, s, a); t.holder == Some(p) <==> Holding(At(t, p))
  {}

  lemma {:induction false} CacheNext(empty: Emptiness, s: State, a: Action)
    requires Counter(s) && CacheOk(s) && Enabled(empty, s, a) && (a.Store? ==> CallOk(s, At(s, a.p)))
    ensures Counter(Next(empty, s, a)) && CacheOk(Next(empty, s, a))
  {}

  lemma {:induction false} InvNext(empty: Emptiness, s: State, a: Action)
    requires Inv(s) && Enabled(empty, s, a)
    ensures Inv(Next(empty, s, a))
  {
    var t := Next(empty, s, a);
    if a.Store? { assert CallOk(s, At(s, a.p)); }
    CacheNext(empty, s, a);
    forall p: Proc ensures CallOk(t, At(t, p)) && (t.holder == Some(p) <==> Holding(At(t, p))) {
      CallNext(empty, s, a, p);
      HolderNext(empty, s, a, p);
    }
  }

  // ---------- Every run ----------

  lemma {:induction false} RunInv(empty: Emptiness, kind: Kind, states: seq<State>, actions: seq<Action>, i: nat)
    requires Run(empty, kind, states, actions) && i < |states|
    ensures Inv(states[i])
  {
    if i > 0 {
      RunInv(empty, kind, states, actions, i - 1);
      InvNext(empty, states[i - 1], actions[i - 1]);
    }
  }

  lemma {:induction false} Later(empty: Emptiness, kind: Kind, states: seq<State>, actions: seq<Action>, i: nat, j: nat)
    requires Run(empty, kind, states, actions) && i <= j < |states|
    ensures states[i].gen <= states[j].gen && states[i].version <= states[j].version
    ensures states[i].atGen <= states[j].atGen
    ensures states[i].cached.Some? ==>
              states[j].cached.Some? && states[i].cached.value.gen <= states[j].cached.value.gen
  {
    if i < j {
      Later(empty, kind, states, actions, i, j - 1);
      RunInv(empty, kind, states, actions, j - 1);
      StepKeeps(empty, states[j - 1], actions[j - 1]);
    }
  }

  lemma {:induction false} StepKeeps(empty: Emptiness, s: State, a: Action)
    requires Inv(s) && Enabled(empty, s, a)
    ensures var t := Next(empty, s, a);
            && s.gen <= t.gen && s.version <= t.version && s.atGen <= t.atGen
            && (s.cached.Some? ==> t.cached.Some? && s.cached.value.gen <= t.cached.value.gen)
  {
    if a.Store? { assert CallOk(s, At(s, a.p)); }
  }

  /** The call that p began at step b is the one it is still in. */
  lemma {:induction false} SameCall(empty: Emptiness, kind: Kind, states: seq<State>, actions: seq<Action>, b: nat,
                                    r: nat, p: Proc)
    requires Run(empty, kind, states, actions) && b < r < |states| && actions[b] == Begin(p)
    requires forall m | b < m < r :: actions[m] != Begin(p)
    ensures !At(states[r], p).Idle? && At(states[r], p).began == states[b].gen
  {
    if b + 1 < r { SameCall(empty, kind, states, actions, b, r - 1, p); }
  }

  /** A call that begins after an invalidation never returns data older than the store was when that
      invalidation happened. */
  lemma {:induction false} NeverStale(empty: Emptiness, kind: Kind, states: seq<State>, actions: seq<Action>, k: nat,
                                      b: nat, r: nat, p: Proc)
    requires Run(empty, kind, states, actions) && k < b < r < |states|
    requires actions[k] == Invalidate && actions[b] == Begin(p) && forall m | b < m < r :: actions[m] != Begin(p)
    requires At(states[r], p).Returned? && At(states[r], p).answer.Some?
    ensures states[k].version <= At(states[r], p).answer.value <= states[r].version
  {
    SameCall(empty, kind, states, actions, b, r, p);
    RunInv(empty, kind, states, actions, k);
    RunInv(empty, kind, states, actions, b);
    RunInv(empty, kind, states, actions, r);
    Later(empty, kind, states, actions, k + 1, b);
    Later(empty, kind, states, actions, b, r);
    assert CallOk(states[r], At(states[r], p));
    assert states[k + 1].atGen[states[k + 1].gen] == states[k].version;
  }

  /** The cached generation never decreases, never exceeds the counter, and no generation is rebuilt
      twice. */
  lemma {:induction false} CacheMonotone(empty: Emptiness, kind: Kind, states: seq<State>, actions: seq<Action>, i: nat,
                                         j: nat)
    requires Run(empty, kind, states, actions) && i <= j < |states| && states[i].cached.Some?
    ensures states[j].cached.Some?
    ensures states[i].cached.value.gen <= states[j].cached.value.gen <= states[j].gen
    ensures forall m, n | 0 <= m < n < |states[j].stores| :: states[j].stores[m] < states[j].stores[n]
  {
    Later(empty, kind, states, actions, i, j);
    RunInv(empty, kind, states, actions, j);
  }

  /** A call that hits the cache with no write since the last invalidation answers for the store as it
      is. */
  lemma {:induction false} CurrentIfInvalidated(empty: Emptiness, kind: Kind, states: seq<State>, actions: seq<Action>,
                                                k: nat, b: nat, r: nat, p: Proc)
    requires Run(empty, kind, states, actions) && k < b < r < |states|
    requires actions[k] == Invalidate && actions[b] == Begin(p) && forall m | b < m < r :: actions[m] != Begin(p)
    requires At(states[r], p).Returned? && At(states[r], p).answer.Some?
    requires forall m | k < m < r :: actions[m] != Write
    ensures At(states[r], p).answer.value == states[r].version
  {
    NeverStale(empty, kind, states, actions, k, b, r, p);
    Unwritten(empty, kind, states, actions, k, r);
  }

  lemma {:induction false} Unwritten(empty: Emptiness, kind: Kind, states: seq<State>, actions: seq<Action>, k: nat,
                                     r: nat)
    requires Run(empty, kind, states, actions) && k < r < |states| && actions[k] == Invalidate
    requires forall m | k < m < r :: actions[m] != Write
    ensures states[r].version == states[k].version
  {
    if k + 1 < r { Unwritten(empty, kind, states, actions, k, r - 1); }
  }

  // ---------- Without an invalidation ----------

  /** As long as nothing invalidates, a cache of the present generation stays as it is. */
  lemma {:induction false} CacheStays(empty: Emptiness, kind: Kind, states: seq<State>, actions: seq<Action>, i: nat,
                                      r: nat)
    requires Run(empty, kind, states, actions) && i <= r < |states|
    requires Hit(states[i], states[i].gen) && forall m | i <= m < r :: actions[m] != Invalidate
    ensures states[r].gen == states[i].gen && states[r].cached == states[i].cached
  {
    if i < r {
      CacheStays(empty, kind, states, actions, i, r - 1);
      RunInv(empty, kind, states, actions, r - 1);
      HitStep(empty, states[r - 1], actions[r - 1]);
    }
  }

  lemma {:induction false} HitStep(empty: Emptiness, s: State, a: Action)
    requires Inv(s) && Enabled(empty, s, a) && Hit(s, s.gen) && a != Invalidate
    ensures Next(empty, s, a).gen == s.gen && Next(empty, s, a).cached == s.cached
  {
    if a.Store? { assert CallOk(s, At(s, a.p)); }
  }

  /** The call is on its way to a hit on generation g and version v, or has returned it. */
  predicate Hitting(pc: PC, g: nat, v: nat) {
    pc.Begun? || (pc.Loaded? && pc.g == g) || (pc.Returned? && pc.answer == Some(v))
  }

  lemma {:induction false} HittingStep(empty: Emptiness, s: State, a: Action, p: Proc)
    requires Enabled(empty, s, a) && a != Begin(p) && Hit(s, s.gen)
    requires Hitting(At(s, p), s.gen, s.cached.value.v)
    ensures Hitting(At(Next(empty, s, a), p), s.gen, s.cached.value.v)
  {}

  lemma {:induction false} CallHits(empty: Emptiness, kind: Kind, states: seq<State>, actions: seq<Action>, i: nat,
                                    b: nat, r: nat, p: Proc)
    requires Run(empty, kind, states, actions) && i <= b < r < |states|
    requires Hit(states[i], states[i].gen) && forall m | i <= m < r :: actions[m] != Invalidate
    requires actions[b] == Begin(p) && forall m | b < m < r :: actions[m] != Begin(p)
    ensures Hitting(At(states[r], p), states[i].gen, states[i].cached.value.v)
  {
    CacheStays(empty, kind, states, actions, i, r - 1);
    if b + 1 < r {
      CallHits(empty, kind, states, actions, i, b, r - 1, p);
      HittingStep(empty, states[r - 1], actions[r - 1], p);
    }
  }

  /** Until the next invalidation every call answers with the version cached, whatever is written: the
      answer is the store's present state exactly if nothing was. A run that wrote and then failed,
      and so calls nobody back, leaves the caches in that state. */
  lemma {:induction false} OldUntilInvalidated(empty: Emptiness, kind: Kind, states: seq<State>, actions: seq<Action>,
                                               i: nat, b: nat, r: nat, p: Proc)
    requires Run(empty, kind, states, actions) && i <= b < r < |states|
    requires Hit(states[i], states[i].gen) && states[i].cached.value.v == states[i].version
    requires forall m | i <= m < r :: actions[m] != Invalidate
    requires actions[b] == Begin(p) && forall m | b < m < r :: actions[m] != Begin(p)
    requires At(states[r], p).Returned?
    ensures At(states[r], p).answer == Some(states[i].version)
    ensures At(states[r], p).answer == Some(states[r].version) <==> forall m | i <= m < r :: actions[m] != Write
  {
    CallHits(empty, kind, states, actions, i, b, r, p);
    Versions(empty, kind, states, actions, i, r);
  }

  /** The store's version counts the writes. */
  lemma {:induction false} Versions(empty: Emptiness, kind: Kind, states: seq<State>, actions: seq<Action>, i: nat,
                                    r: nat)
    requires Run(empty, kind, states, actions) && i <= r < |states|
    ensures states[i].version <= states[r].version
    ensures states[i].version == states[r].version <==> forall m | i <= m < r :: actions[m] != Write
  {
    if i < r { Versions(empty, kind, states, actions, i, r - 1); }
  }
}
