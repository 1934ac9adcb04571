/** What callers of the function cache have to see to. */
module FunctionCacheCallers {
  import opened Options
  import opened OrderedMaps
  import opened Epochs
  import opened FunctionCache

  // Exactly when a set() finds its epoch moved and is lost, and a condition on the calls of a run
  // under which that never happens.

  predicate Begins(e: Event, k: Key) { e == BeginSet(k) || e == BeginInvalidate(k) }

  predicate Holds(r: PairRegistry, k: Key) { k in r.epochs.entries }

  /** The epoch of k moves without a new set() or invalidate(): an invalidate() of k completes, or k is
      evicted from the registry. */
  predicate MovesEpoch(limit: nat, s: State, e: Event, k: Key)
    requires Enabled(s, e)
  {
    || (e.DeleteSeen? && s.ops[e.id].Of() == k)
    || (Holds(s.registry, k) && !Holds(Apply(limit, s, e).registry, k))
  }

  ghost predicate Moved(limit: nat, s: State, run: seq<Event>, k: Key)
    requires Legal(limit, s, run)
    decreases |run|
  {
    run != [] && (MovesEpoch(limit, s, run[0], k) || Moved(limit, Apply(limit, s, run[0]), run[1..], k))
  }

  // ---------------------------------------------------------------- one step of the registry

  /** Setting the epochs of one key leaves another key's alone unless it is evicted, which raises them. */
  lemma OthersEpoch(r: PairRegistry, limit: nat, q: Key, pair: EpochPair, k: Key)
    requires r.Valid(limit) && limit >= 1 && q != k && Holds(r, k)
    ensures var r' := r.SetEpochs(limit, q, pair);
      if Holds(r', k) then r'.Invalidation(k) == r.Invalidation(k) else r'.Invalidation(k) > r.Invalidation(k)
  {
    hide Without, Distinct;
    r.epochs.SetLastValid(q, pair);
  }

  /** The key whose epochs were set last is not the one that is evicted. */
  lemma OwnKept(r: PairRegistry, limit: nat, q: Key, pair: EpochPair)
    requires r.Valid(limit) && limit >= 1
    ensures Holds(r.SetEpochs(limit, q, pair), q)
  {
    hide Without, Distinct;
    r.epochs.SetLastValid(q, pair);
    var s := PairRegistry(r.epochs.SetLast(q, pair), r.defaultEpoch);
    if s.epochs.Size() > limit { LastIsNotFirst(s.epochs.order); }
  }

  lemma BumpMovesEpoch(r: PairRegistry, limit: nat, b: PairBump, k: Key)
    requires r.Valid(limit) && limit >= 1 && Holds(r, k)
    ensures var r' := ApplyBump(r, limit, b);
      && r'.Invalidation(k) >= r.Invalidation(k)
      && (r'.Invalidation(k) != r.Invalidation(k) <==> b == Invalidated(k) || !Holds(r', k))
  {
    hide PairRegistry.SetEpochs, PairRegistry.Valid, PairRegistry.Invalidation, PairRegistry.Publication;
    PairBumpRaises(r, limit, b);
    PublicationCoversInvalidation(r, limit, k);
    var pair := if b.Invalidated? then var epoch := Max(r.Invalidation(b.key), r.Publication(b.key)) + 1; EpochPair(epoch, epoch)
      else EpochPair(r.Invalidation(b.key), r.Publication(b.key) + 1);
    assert ApplyBump(r, limit, b) == r.SetEpochs(limit, b.key, pair);
    OwnKept(r, limit, b.key, pair);
    if b.key != k { OthersEpoch(r, limit, b.key, pair, k); }
  }

  /** The bump a step makes, if any. */
  function BumpOf(s: State, e: Event): Option<PairBump>
    requires Enabled(s, e)
  {
    match e
    case StartRefresh(k) => Some(Refreshed(k))
    case BeginSet(k) => Some(Invalidated(k))
    case BeginInvalidate(k) => Some(Invalidated(k))
    case DeleteSeen(id) => Some(Invalidated(s.ops[id].key))
    case SetSeen(id) =>
      var w := s.ops[id].w;
      if Passes(s, w) && w.kind.Refresh? then Some(Refreshed(w.key)) else None
    case _ => None
  }

  lemma RegistryStep(limit: nat, s: State, e: Event)
    requires Enabled(s, e)
    ensures Apply(limit, s, e).registry == if BumpOf(s, e).None? then s.registry else ApplyBump(s.registry, limit, BumpOf(s, e).value)
  {
    hide PairRegistry.BumpInvalidation, PairRegistry.BumpPublication, PairRegistry.Invalidation, PairRegistry.Publication;
  }

  /** While nothing of k begins, its epoch moves in exactly the steps named above. */
  lemma StepMovesEpoch(limit: nat, s: State, e: Event, k: Key)
    requires Inv(limit, s) && Enabled(s, e) && !Begins(e, k) && Holds(s.registry, k)
    ensures var r' := Apply(limit, s, e).registry;
      && r'.Invalidation(k) >= s.registry.Invalidation(k)
      && (r'.Invalidation(k) != s.registry.Invalidation(k) <==> MovesEpoch(limit, s, e, k))
  {
    RegistryStep(limit, s, e);
    hide Apply;
    if BumpOf(s, e).Some? { BumpMovesEpoch(s.registry, limit, BumpOf(s, e).value, k); }
  }

  // ---------------------------------------------------------------- when a set() is overtaken

  ghost predicate BeginsNothing(run: seq<Event>, k: Key) {
    forall m :: 0 <= m < |run| ==> !Begins(run[m], k)
  }

  lemma BegunKept(limit: nat, s: State, e: Event, k: Key)
    requires Enabled(s, e) && !Begins(e, k)
    ensures Apply(limit, s, e).LastBegun(k) == s.LastBegun(k)
  {
    hide PairRegistry.BumpInvalidation, PairRegistry.BumpPublication;
  }

  predicate Calls(e: Event) {
    e.StartGet? || e.StartRefresh? || e.StartBackgroundRefresh? || e.BeginSet? || e.BeginInvalidate? || e.Expire?
  }

  /** The operation a step is about; a new one takes the clock as its id. */
  function Actor(s: State, e: Event): nat { if Calls(e) then s.clock else e.id }

  lemma OthersStayAtCall(limit: nat, s: State, e: Event, id: nat)
    requires Calls(e)
    requires Enabled(s, e) && id != Actor(s, e)
    ensures var s' := Apply(limit, s, e);
      s'.clock == s.clock + 1 && (id in s'.ops <==> id in s.ops) && (id in s.ops ==> s'.ops[id] == s.ops[id])
  {
    hide PairRegistry.BumpInvalidation, PairRegistry.BumpPublication, PairRegistry.Invalidation, PairRegistry.Publication, SetDropped;
    hide DoReadMiss, DoEnqueue, DoStartTurn, DoSetEffect, DoSetSeen, DoCleanEffect, DoDeleteEffect, DoDeleteSeen, EndTurn;
  }

  lemma OthersStay(limit: nat, s: State, e: Event, id: nat)
    requires Enabled(s, e) && id != Actor(s, e)
    ensures var s' := Apply(limit, s, e);
      s'.clock == s.clock + 1 && (id in s'.ops <==> id in s.ops) && (id in s.ops ==> s'.ops[id] == s.ops[id])
  {
    hide PairRegistry.BumpInvalidation, PairRegistry.BumpPublication, PairRegistry.Invalidation, PairRegistry.Publication, SetDropped;
    hide DoStartGet, DoStartRefresh, DoStartBackgroundRefresh, DoBeginSet, DoBeginInvalidate, DoExpire;
    if Calls(e) { OthersStayAtCall(limit, s, e, id); }
  }

  /** What a step does to its operation: a write keeps what it captured, a new operation has the
      clock as its id, and a set() appears only where one is called. */
  predicate ActorMoves(s: State, e: Event, s': State)
    requires Enabled(s, e)
  {
    var id := Actor(s, e);
    && s'.clock == s.clock + 1
    && (id in s'.ops && id in s.ops && s.ops[id].Writing? && id < s.clock ==> s'.ops[id].Writing? && s'.ops[id].w == s.ops[id].w)
    && (id in s'.ops && id !in s.ops ==> id == s.clock)
    && (e.BeginSet? && id in s'.ops && s'.ops[id].Writing? ==> s'.ops[id].w.key == e.key)
    && (id in s'.ops && s'.ops[id].Writing? && s'.ops[id].w.kind.Authoritative? && !e.BeginSet? ==>
          id in s.ops && s.ops[id].Writing? && s'.ops[id].w == s.ops[id].w && (s.ops[id].InSection() ==> s'.ops[id].InSection()))
  }

  lemma ActorCalls(limit: nat, s: State, e: Event)
    requires Calls(e)
    requires Enabled(s, e)
    ensures ActorMoves(s, e, Apply(limit, s, e))
  {
    hide PairRegistry.BumpInvalidation, PairRegistry.BumpPublication, PairRegistry.Invalidation, PairRegistry.Publication, SetDropped;
    hide DoReadMiss, DoEnqueue, DoStartTurn, DoSetEffect, DoSetSeen, DoCleanEffect, DoDeleteEffect, DoDeleteSeen, EndTurn;
  }

  lemma ActorStep(limit: nat, s: State, e: Event)
    requires Enabled(s, e)
    ensures ActorMoves(s, e, Apply(limit, s, e))
  {
    hide PairRegistry.BumpInvalidation, PairRegistry.BumpPublication, PairRegistry.Invalidation, PairRegistry.Publication, SetDropped;
    hide DoStartGet, DoStartRefresh, DoStartBackgroundRefresh, DoBeginSet, DoBeginInvalidate, DoExpire;
    if Calls(e) { ActorCalls(limit, s, e); }
  }

  /** A set() of k that is the latest call of its key and has captured the write w. */
  ghost predicate Latest(s: State, id: nat, w: Write) {
    && id < s.clock && w.kind.Authoritative? && w.started == s.LastBegun(w.key)
    && (id in s.ops ==> s.ops[id].Writing? && s.ops[id].w == w)
  }

  lemma StepKeepsLatest(limit: nat, s: State, e: Event, id: nat, w: Write)
    requires Enabled(s, e) && !Begins(e, w.key) && Latest(s, id, w)
    ensures Latest(Apply(limit, s, e), id, w)
  {
    hide Apply, Enabled, State.LastBegun;
    BegunKept(limit, s, e, w.key);
    if id == Actor(s, e) { ActorStep(limit, s, e); } else { OthersStay(limit, s, e, id); }
  }

  /** From when w is the latest call of its key and its epoch is current: while nothing newer begins,
      the epoch has moved at the end exactly if one of the steps moved it. */
  lemma {:induction false} RunMovesEpoch(limit: nat, s: State, run: seq<Event>, id: nat, w: Write)
    requires Inv(limit, s) && Legal(limit, s, run) && BeginsNothing(run, w.key)
    requires Latest(s, id, w) && Holds(s.registry, w.key)
    ensures var s' := After(limit, s, run);
      && Latest(s', id, w) && s'.registry.Invalidation(w.key) >= s.registry.Invalidation(w.key)
      && (s'.registry.Invalidation(w.key) != s.registry.Invalidation(w.key) <==> Moved(limit, s, run, w.key))
    decreases |run|
  {
    hide Inv, Apply, Enabled, Latest, PairRegistry.Invalidation;
    if run != [] {
      assert !Begins(run[0], w.key) && forall m :: 0 <= m < |run[1..]| ==> run[1..][m] == run[m + 1];
      StepKeepsInv(limit, s, run[0]);
      StepKeepsLatest(limit, s, run[0], id, w);
      StepMovesEpoch(limit, s, run[0], w.key);
      var s1 := Apply(limit, s, run[0]);
      if Holds(s1.registry, w.key) {
        RunMovesEpoch(limit, s1, run[1..], id, w);
      } else {
        RunRaises(limit, s1, run[1..], id, w);
      }
    }
  }

  lemma {:induction false} RunRaises(limit: nat, s: State, run: seq<Event>, id: nat, w: Write)
    requires Inv(limit, s) && Legal(limit, s, run) && BeginsNothing(run, w.key) && Latest(s, id, w)
    ensures var s' := After(limit, s, run);
      Latest(s', id, w) && s'.registry.Invalidation(w.key) >= s.registry.Invalidation(w.key)
    decreases |run|
  {
    hide Inv, Apply, Enabled, Latest, PairRegistry.Invalidation;
    if run != [] {
      assert !Begins(run[0], w.key) && forall m :: 0 <= m < |run[1..]| ==> run[1..][m] == run[m + 1];
      StepKeepsInv(limit, s, run[0]);
      StepKeepsLatest(limit, s, run[0], id, w);
      StepRaises(limit, s, run[0], w.key);
      RunRaises(limit, Apply(limit, s, run[0]), run[1..], id, w);
    }
  }

  lemma StepRaises(limit: nat, s: State, e: Event, k: Key)
    requires Inv(limit, s) && Enabled(s, e)
    ensures Apply(limit, s, e).registry.Invalidation(k) >= s.registry.Invalidation(k)
  {
    RegistryStep(limit, s, e);
    hide Apply, PairRegistry.Invalidation;
    if BumpOf(s, e).Some? { PairBumpRaises(s.registry, limit, BumpOf(s, e).value); }
  }

  lemma BeginSetCaptures(limit: nat, s: State, k: Key)
    requires Inv(limit, s)
    ensures var s' := Apply(limit, s, BeginSet(k));
      && Inv(limit, s') && s.clock in s'.ops && s'.ops[s.clock].Writing? && s'.ops[s.clock].w.key == k
      && Latest(s', s.clock, s'.ops[s.clock].w) && Holds(s'.registry, k) && s'.EpochUnchanged(s'.ops[s.clock].w)
  {
    StepKeepsInv(limit, s, BeginSet(k));
    var epoch := Max(s.registry.Invalidation(k), s.registry.Publication(k)) + 1;
    OwnKept(s.registry, limit, k, EpochPair(epoch, epoch));
  }

  /** Exactly when a set() is dropped: while nothing of its key begins after it, it finds its epoch
      moved at its turn if and only if, since it began, an invalidate() of the key completed (one that
      began before the set) or the key was evicted from the registry. */
  lemma SetOvertakenIffEpochMoved(limit: nat, s: State, k: Key, run: seq<Event>)
    requires Inv(limit, s) && var s1 := Apply(limit, s, BeginSet(k));
      Legal(limit, s1, run) && BeginsNothing(run, k) && Enabled(After(limit, s1, run), StartTurn(s.clock))
    ensures var s1 := Apply(limit, s, BeginSet(k));
      Overtaken(After(limit, s1, run), StartTurn(s.clock), k) <==> Moved(limit, s1, run, k)
  {
    var s1 := Apply(limit, s, BeginSet(k));
    BeginSetCaptures(limit, s, k);
    RunMovesEpoch(limit, s1, run, s.clock, s1.ops[s.clock].w);
  }

  // ---------------------------------------------------------------- which values stay behind

  /** The step writes or removes the adapter entry of k. */
  predicate Touches(s: State, e: Event, k: Key)
    requires Enabled(s, e)
  {
    || e == Expire(k)
    || ((e.SetEffect? || e.CleanEffect? || e.DeleteEffect?) && s.ops[e.id].Of() == k)
  }

  /** An overtaken set() is skipped in front of an entry that started before it. */
  predicate Skips(s: State, e: Event, k: Key)
    requires Enabled(s, e)
  {
    Overtaken(s, e, k) && k in s.adapter && s.adapter[k].started < s.ops[e.id].w.started
  }

  ghost predicate Untouched(limit: nat, s: State, run: seq<Event>, k: Key)
    requires Legal(limit, s, run)
    decreases |run|
  {
    run == [] || (!Touches(s, run[0], k) && Untouched(limit, Apply(limit, s, run[0]), run[1..], k))
  }

  /** Some step of the run skips a set() of k, and no later step touches the entry it left. */
  ghost predicate Lost(limit: nat, s: State, run: seq<Event>, k: Key)
    requires Legal(limit, s, run)
    decreases |run|
  {
    run != [] &&
    (Lost(limit, Apply(limit, s, run[0]), run[1..], k)
     || (Skips(s, run[0], k) && Untouched(limit, Apply(limit, s, run[0]), run[1..], k)))
  }

  lemma DroppedAtCall(limit: nat, s: State, e: Event, k: Key)
    requires Enabled(s, e) && Calls(e)
    ensures k in Apply(limit, s, e).dropped <==> k in s.dropped && !Touches(s, e, k)
  {
    hide PairRegistry.BumpInvalidation, PairRegistry.BumpPublication, PairRegistry.Invalidation, PairRegistry.Publication, SetDropped;
    hide DoReadMiss, DoEnqueue, DoStartTurn, DoSetEffect, DoSetSeen, DoCleanEffect, DoDeleteEffect, DoDeleteSeen, EndTurn;
  }

  lemma DroppedStep(limit: nat, s: State, e: Event, k: Key)
    requires Enabled(s, e)
    ensures k in Apply(limit, s, e).dropped <==> (k in s.dropped && !Touches(s, e, k)) || Skips(s, e, k)
  {
    hide PairRegistry.BumpInvalidation, PairRegistry.BumpPublication, PairRegistry.Invalidation, PairRegistry.Publication;
    hide DoStartGet, DoStartRefresh, DoStartBackgroundRefresh, DoBeginSet, DoBeginInvalidate, DoExpire;
    hide DoReadMiss, DoEnqueue, DoSetEffect, DoSetSeen, DoCleanEffect, DoDeleteEffect, DoDeleteSeen;
    if Calls(e) { DroppedAtCall(limit, s, e, k); }
    else if !e.StartTurn? { DroppedInPlace(limit, s, e, k); }
  }

  lemma DroppedInPlace(limit: nat, s: State, e: Event, k: Key)
    requires Enabled(s, e) && !Calls(e) && !e.StartTurn?
    ensures k in Apply(limit, s, e).dropped <==> k in s.dropped && !Touches(s, e, k)
  {
    hide PairRegistry.BumpInvalidation, PairRegistry.BumpPublication, PairRegistry.Invalidation, PairRegistry.Publication, SetDropped;
    hide DoStartGet, DoStartRefresh, DoStartBackgroundRefresh, DoBeginSet, DoBeginInvalidate, DoExpire, DoStartTurn;
  }

  lemma {:induction false} DroppedIsLost(limit: nat, s: State, run: seq<Event>, k: Key)
    requires Legal(limit, s, run)
    ensures k in After(limit, s, run).dropped <==> (k in s.dropped && Untouched(limit, s, run, k)) || Lost(limit, s, run, k)
    decreases |run|
  {
    hide Apply, Enabled, Touches, Skips;
    if run != [] {
      DroppedStep(limit, s, run[0], k);
      DroppedIsLost(limit, Apply(limit, s, run[0]), run[1..], k);
    }
  }

  /** With nothing of k in flight, its entry is no older than the latest set() or invalidate() if and
      only if no set() of k was skipped in front of an older entry that nothing has touched since. */
  lemma FreshAtRestIffNothingLost(limit: nat, run: seq<Event>, k: Key)
    requires limit >= 1 && Legal(limit, Start(), run) && After(limit, Start(), run).AtRest(k)
    ensures After(limit, Start(), run).FreshAfterWrites(k) <==> !Lost(limit, Start(), run, k)
  {
    FreshAtRestUnlessDropped(limit, run, k);
    DroppedIsLost(limit, Start(), run, k);
  }

  // ---------------------------------------------------------------- the caller's condition

  ghost predicate Sets(s: State, k: Key) {
    exists id :: id in s.ops && IsSet(s.ops[id], k)
  }

  predicate IsInvalidate(op: Op, k: Key) { op.Invalidating? && op.key == k }

  /** A set() of k that has not reached its turn. */
  predicate IsSet(op: Op, k: Key) {
    op.Writing? && op.w.key == k && op.w.kind.Authoritative? && !op.InSection()
  }

  ghost predicate GuardedStep(limit: nat, s: State, e: Event, k: Key)
    requires Enabled(s, e)
  {
    && (e == BeginSet(k) ==> NoInvalidate(s, k))
    && (Sets(s, k) && Holds(s.registry, k) ==> Holds(Apply(limit, s, e).registry, k))
  }

  /** Each set() of k begins while no invalidate() of k is in flight, and k stays in the registry
      until its sets have had their turns. */
  ghost predicate Guarded(limit: nat, s: State, run: seq<Event>, k: Key)
    requires Legal(limit, s, run)
    decreases |run|
  {
    run == [] || (GuardedStep(limit, s, run[0], k) && Guarded(limit, Apply(limit, s, run[0]), run[1..], k))
  }

  ghost predicate NoInvalidate(s: State, k: Key) {
    forall id :: id in s.ops ==> !IsInvalidate(s.ops[id], k)
  }

  /** While the latest call of k is a set() that waits for its turn, nothing can move its epoch. */
  ghost predicate SetsLead(s: State, k: Key) {
    forall id :: id in s.ops && IsSet(s.ops[id], k) && s.ops[id].w.started == s.LastBegun(k) ==>
      s.EpochUnchanged(s.ops[id].w) && NoInvalidate(s, k) && Holds(s.registry, k)
  }

  lemma SetComesFrom(limit: nat, s: State, e: Event, id: nat, k: Key)
    requires Enabled(s, e) && e != BeginSet(k) && id in Apply(limit, s, e).ops && IsSet(Apply(limit, s, e).ops[id], k)
    ensures id in s.ops && IsSet(s.ops[id], k) && Apply(limit, s, e).ops[id].w == s.ops[id].w
  {
    hide Apply, Enabled;
    if id == Actor(s, e) { ActorStep(limit, s, e); } else { OthersStay(limit, s, e, id); }
  }

  lemma NoInvalidateKept(limit: nat, s: State, e: Event, k: Key)
    requires Enabled(s, e) && e != BeginInvalidate(k) && NoInvalidate(s, k)
    ensures NoInvalidate(Apply(limit, s, e), k)
  {
    hide PairRegistry.BumpInvalidation, PairRegistry.BumpPublication;
  }

  /** A new call of k makes every set() before it outdated. */
  lemma EarlierSets(limit: nat, s: State, e: Event, id: nat, k: Key)
    requires Inv(limit, s) && Begins(e, k)
    requires id in Apply(limit, s, e).ops && IsSet(Apply(limit, s, e).ops[id], k)
    requires Apply(limit, s, e).ops[id].w.started == Apply(limit, s, e).LastBegun(k)
    ensures e == BeginSet(k) && id == s.clock
  {
    hide PairRegistry.BumpInvalidation, PairRegistry.BumpPublication;
    if id in s.ops { AtKey(limit, s, id, k); }
  }

  lemma StepKeepsLead(limit: nat, s: State, e: Event, k: Key)
    requires Inv(limit, s) && Enabled(s, e) && SetsLead(s, k) && GuardedStep(limit, s, e, k)
    ensures SetsLead(Apply(limit, s, e), k)
  {
    var s' := Apply(limit, s, e);
    hide Inv, Apply, PairRegistry.Invalidation;
    forall id | id in s'.ops && IsSet(s'.ops[id], k) && s'.ops[id].w.started == s'.LastBegun(k)
      ensures s'.EpochUnchanged(s'.ops[id].w) && NoInvalidate(s', k) && Holds(s'.registry, k)
    {
      if Begins(e, k) {
        EarlierSets(limit, s, e, id, k);
        BeginSetCaptures(limit, s, k);
        NoInvalidateKept(limit, s, e, k);
      } else {
        SetComesFrom(limit, s, e, id, k);
        BegunKept(limit, s, e, k);
        NoInvalidateKept(limit, s, e, k);
        StepMovesEpoch(limit, s, e, k);
      }
    }
  }

  lemma {:induction false} GuardedSetsAreNotOvertaken(limit: nat, s: State, run: seq<Event>, k: Key)
    requires Inv(limit, s) && SetsLead(s, k) && Legal(limit, s, run) && Guarded(limit, s, run, k)
    ensures NoSetOvertaken(limit, s, run, k)
    decreases |run|
  {
    hide Inv, Apply, GuardedStep;
    if run != [] {
      StepKeepsInv(limit, s, run[0]);
      StepKeepsLead(limit, s, run[0], k);
      GuardedSetsAreNotOvertaken(limit, Apply(limit, s, run[0]), run[1..], k);
    }
  }

  /** If no set() of k begins while an invalidate() of k is in flight, and k stays in the registry
      while its sets wait, then at rest nothing older than the latest set() or invalidate() is left. */
  lemma GuardedRunsAreFreshAtRest(limit: nat, run: seq<Event>, k: Key)
    requires limit >= 1 && Legal(limit, Start(), run) && Guarded(limit, Start(), run, k)
    requires After(limit, Start(), run).AtRest(k)
    ensures After(limit, Start(), run).FreshAfterWrites(k)
  {
    GuardedSetsAreNotOvertaken(limit, Start(), run, k);
    FreshAtRest(limit, run, k);
  }

  // ---------------------------------------------------------------- runs of few keys

  predicate Names(e: Event, keys: set<Key>) {
    match e
    case StartGet(k) => k in keys
    case StartRefresh(k) => k in keys
    case StartBackgroundRefresh(k) => k in keys
    case BeginSet(k) => k in keys
    case BeginInvalidate(k) => k in keys
    case _ => true
  }

  ghost predicate Within(s: State, keys: set<Key>) {
    && (forall k :: Holds(s.registry, k) ==> k in keys)
    && (forall id :: id in s.ops ==> s.ops[id].Of() in keys)
  }

  lemma {:induction false} DistinctFits<K(!new)>(order: seq<K>, keys: set<K>)
    requires Distinct(order) && forall k :: k in order ==> k in keys
    ensures |order| <= |keys|
  {
    if order != [] {
      assert forall k :: k in order[1..] ==> k in order;
      DistinctFits(order[1..], keys - {order[0]});
    }
  }

  /** A registry that has room for all keys in use evicts none. */
  lemma RoomForAll(r: PairRegistry, limit: nat, b: PairBump, keys: set<Key>)
    requires r.Valid(limit) && b.key in keys && |keys| <= limit
    requires forall k :: Holds(r, k) ==> k in keys
    ensures var r' := ApplyBump(r, limit, b);
      forall k :: Holds(r', k) <==> Holds(r, k) || k == b.key
  {
    hide Without, Distinct, PairRegistry.Invalidation, PairRegistry.Publication, Max;
    var pair := if b.Invalidated? then var epoch := Max(r.Invalidation(b.key), r.Publication(b.key)) + 1; EpochPair(epoch, epoch)
      else EpochPair(r.Invalidation(b.key), r.Publication(b.key) + 1);
    var s := PairRegistry(r.epochs.SetLast(b.key, pair), r.defaultEpoch);
    r.epochs.SetLastValid(b.key, pair);
    DistinctFits(s.epochs.order, keys);
    assert ApplyBump(r, limit, b) == s.Prune(limit) == s;
  }

  lemma OpsWithin(limit: nat, s: State, e: Event, keys: set<Key>)
    requires Enabled(s, e) && Names(e, keys) && forall id :: id in s.ops ==> s.ops[id].Of() in keys
    ensures forall id :: id in Apply(limit, s, e).ops ==> Apply(limit, s, e).ops[id].Of() in keys
    ensures BumpOf(s, e).Some? ==> BumpOf(s, e).value.key in keys
  {
    hide PairRegistry.BumpInvalidation, PairRegistry.BumpPublication, PairRegistry.Invalidation, PairRegistry.Publication;
  }

  lemma StepWithin(limit: nat, s: State, e: Event, keys: set<Key>, k: Key)
    requires Inv(limit, s) && Enabled(s, e) && Within(s, keys) && Names(e, keys) && |keys| <= limit
    ensures Within(Apply(limit, s, e), keys)
    ensures Holds(s.registry, k) ==> Holds(Apply(limit, s, e).registry, k)
  {
    RegistryStep(limit, s, e);
    OpsWithin(limit, s, e, keys);
    hide Apply;
    if BumpOf(s, e).Some? { RoomForAll(s.registry, limit, BumpOf(s, e).value, keys); }
  }

  /** Each set() of k begins while no invalidate() of k is in flight. */
  ghost predicate SetsBeginAlone(limit: nat, s: State, run: seq<Event>, k: Key)
    requires Legal(limit, s, run)
    decreases |run|
  {
    run == [] || ((run[0] == BeginSet(k) ==> NoInvalidate(s, k)) && SetsBeginAlone(limit, Apply(limit, s, run[0]), run[1..], k))
  }

  lemma {:induction false} FewKeysAreGuarded(limit: nat, s: State, run: seq<Event>, keys: set<Key>, k: Key)
    requires Inv(limit, s) && Legal(limit, s, run) && Within(s, keys) && |keys| <= limit
    requires (forall m :: 0 <= m < |run| ==> Names(run[m], keys)) && SetsBeginAlone(limit, s, run, k)
    ensures Guarded(limit, s, run, k)
    decreases |run|
  {
    hide Inv, Apply, Within;
    if run != [] {
      StepKeepsInv(limit, s, run[0]);
      StepWithin(limit, s, run[0], keys, k);
      FewKeysAreGuarded(limit, Apply(limit, s, run[0]), run[1..], keys, k);
    }
  }

  /** What a caller has to see to: with no more keys in use than the registry holds, and no set() of k
      begun while an invalidate() of k is in flight, nothing older than the latest set() or
      invalidate() of k is left when nothing of k is in flight. */
  lemma FreshForCarefulCallers(limit: nat, run: seq<Event>, keys: set<Key>, k: Key)
    requires limit >= 1 && Legal(limit, Start(), run) && |keys| <= limit
    requires (forall m :: 0 <= m < |run| ==> Names(run[m], keys)) && SetsBeginAlone(limit, Start(), run, k)
    requires After(limit, Start(), run).AtRest(k)
    ensures After(limit, Start(), run).FreshAfterWrites(k)
  {
    FewKeysAreGuarded(limit, Start(), run, keys, k);
    GuardedRunsAreFreshAtRest(limit, run, k);
  }

  lemma OvertakenIsSet(s: State, e: Event, k: Key)
    requires Enabled(s, e)
    ensures Overtaken(s, e, k) ==> Sets(s, k)
  {
    if Overtaken(s, e, k) { assert IsSet(s.ops[e.id], k); }
  }

  /** A run that never calls set() of k loses none. */
  lemma {:induction false} OnlySetsAreOvertaken(limit: nat, s: State, run: seq<Event>, k: Key)
    requires Legal(limit, s, run) && BeginSet(k) !in run && !Sets(s, k)
    ensures NoSetOvertaken(limit, s, run, k)
    decreases |run|
  {
    hide Apply;
    if run != [] {
      assert run[0] in run && forall e :: e in run[1..] ==> e in run;
      var s' := Apply(limit, s, run[0]);
      if Sets(s', k) {
        var id :| id in s'.ops && IsSet(s'.ops[id], k);
        SetComesFrom(limit, s, run[0], id, k);
        assert false;
      }
      OvertakenIsSet(s, run[0], k);
      OnlySetsAreOvertaken(limit, s', run[1..], k);
    }
  }
}
