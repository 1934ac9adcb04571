/** What the function cache holds after its operations. */
module FunctionCacheEntries {
  import opened Options
  import opened OrderedMaps
  import opened Epochs
  import opened FunctionCache
  import opened FunctionCacheCallers

  // The freshness theorems allow an empty cache. Here: what a write has put into the adapter stays there
  // until something else of its key takes effect, and a set(), a get(), a refresh or an invalidate()
  // that runs alone leaves exactly its own result.

  // ---------------------------------------------------------------- entries stay

  predicate Holding(s: State, k: Key, entry: Entry) { k in s.adapter && s.adapter[k] == entry }

  lemma UntouchedStep(limit: nat, s: State, e: Event, k: Key)
    requires Enabled(s, e) && !Touches(s, e, k)
    ensures k in Apply(limit, s, e).adapter <==> k in s.adapter
    ensures k in s.adapter ==> Apply(limit, s, e).adapter[k] == s.adapter[k]
  {
    hide PairRegistry.BumpInvalidation, PairRegistry.BumpPublication, PairRegistry.Invalidation, PairRegistry.Publication, SetDropped;
  }

  lemma {:induction false} EntryStays(limit: nat, s: State, run: seq<Event>, k: Key, entry: Entry)
    requires Legal(limit, s, run) && Untouched(limit, s, run, k) && Holding(s, k, entry)
    ensures Holding(After(limit, s, run), k, entry)
    decreases |run|
  {
    hide Apply, Enabled, Touches;
    if run != [] {
      UntouchedStep(limit, s, run[0], k);
      EntryStays(limit, Apply(limit, s, run[0]), run[1..], k, entry);
    }
  }

  /** Once a write has taken effect, the adapter holds its entry until another write, a delete or an
      expiry of the key takes effect. */
  lemma WrittenEntryStays(limit: nat, s: State, id: nat, run: seq<Event>)
    requires InPhase(s, id, Setting)
    requires var k := s.ops[id].w.key; var s' := Apply(limit, s, SetEffect(id)); Legal(limit, s', run) && Untouched(limit, s', run, k)
    ensures var w := s.ops[id].w; Holding(After(limit, Apply(limit, s, SetEffect(id)), run), w.key, Entry(id, w.kind, w.started))
  {
    var w := s.ops[id].w;
    EntryStays(limit, Apply(limit, s, SetEffect(id)), run, w.key, Entry(id, w.kind, w.started));
  }

  // ---------------------------------------------------------------- operations that run alone

  lemma Then(limit: nat, s: State, e: Event, rest: seq<Event>)
    requires Enabled(s, e) && Legal(limit, Apply(limit, s, e), rest)
    ensures Legal(limit, s, [e] + rest) && After(limit, s, [e] + rest) == After(limit, Apply(limit, s, e), rest)
  {
    hide Enabled, Apply;
    assert ([e] + rest)[1..] == rest;
  }

  lemma Done(limit: nat, s: State)
    ensures Legal(limit, s, []) && After(limit, s, []) == s
  {
  }

  lemma RestHasNoQueue(limit: nat, s: State, k: Key)
    requires Inv(limit, s) && s.AtRest(k)
    ensures s.Queue(k) == []
  {
    AtKey(limit, s, 0, k);
  }

  function WriteRun(id: nat): seq<Event> { [Enqueue(id)] + ([StartTurn(id)] + ([SetEffect(id)] + ([SetSeen(id)] + []))) }

  /** The epochs that the write has captured are the present ones. */
  predicate Current(s: State, w: Write) {
    s.registry.Invalidation(w.key) == w.epoch && (w.kind.Authoritative? || s.registry.Publication(w.key) == w.publication)
  }

  /** What a write without company leaves. */
  ghost predicate Written(limit: nat, s: State, s': State, id: nat, w: Write, now: nat) {
    && s'.adapter == s.adapter[w.key := Entry(id, w.kind, w.started)]
    && s'.ops == s.ops - {id} && s'.Queue(w.key) == []
    && s'.registry == (if w.kind.Refresh? then s.registry.BumpPublication(limit, w.key) else s.registry)
    && s'.published == (if w.kind.Refresh? then s.published[w.key := Publication(now, id)] else s.published)
  }

  /** A write without company has got its turn. */
  ghost predicate InTurn(s: State, s': State, id: nat, w: Write) {
    && s'.ops == s.ops[id := Writing(w, Setting)] && s'.Queue(w.key) == [id] && s'.clock == s.clock + 2
    && s'.adapter == s.adapter && s'.registry == s.registry && s'.published == s.published
  }

  lemma WrittenInTurn(limit: nat, s: State, s2: State, s4: State, id: nat, w: Write)
    requires InTurn(s, s2, id, w) && Written(limit, s2, s4, id, w, s2.clock + 1)
    ensures Written(limit, s, s4, id, w, s.clock + 3)
  {
    hide PairRegistry.BumpPublication;
  }

  lemma TurnAlone(limit: nat, s: State, id: nat, w: Write)
    requires id in s.ops && s.ops[id] == Writing(w, Hooked) && s.Queue(w.key) == [] && Current(s, w)
    ensures var s1 := Apply(limit, s, Enqueue(id));
      && Enabled(s, Enqueue(id)) && Enabled(s1, StartTurn(id))
      && InTurn(s, Apply(limit, s1, StartTurn(id)), id, w)
  {
    hide PairRegistry.Invalidation, PairRegistry.Publication;
  }

  lemma EffectAlone(limit: nat, s: State, id: nat, w: Write)
    requires id in s.ops && s.ops[id] == Writing(w, Setting) && s.Queue(w.key) == [id] && Current(s, w)
    ensures var s1 := Apply(limit, s, SetEffect(id));
      && Enabled(s, SetEffect(id)) && Enabled(s1, SetSeen(id))
      && Written(limit, s, Apply(limit, s1, SetSeen(id)), id, w, s.clock + 1)
  {
    hide PairRegistry.Invalidation, PairRegistry.Publication, PairRegistry.BumpPublication;
  }

  /** Four events in a row. */
  lemma Four(limit: nat, s: State, a: Event, b: Event, c: Event, d: Event)
    requires Enabled(s, a) && Enabled(Apply(limit, s, a), b)
    requires var s2 := Apply(limit, Apply(limit, s, a), b); Enabled(s2, c) && Enabled(Apply(limit, s2, c), d)
    ensures var run := [a] + ([b] + ([c] + ([d] + [])));
      Legal(limit, s, run) && After(limit, s, run) == Apply(limit, Apply(limit, Apply(limit, Apply(limit, s, a), b), c), d)
  {
    hide Enabled, Apply;
    var s1 := Apply(limit, s, a);
    var s2 := Apply(limit, s1, b);
    var s3 := Apply(limit, s2, c);
    Done(limit, Apply(limit, s3, d));
    hide Legal, After;
    Then(limit, s3, d, []);
    Then(limit, s2, c, [d] + []);
    Then(limit, s1, b, [c] + ([d] + []));
    Then(limit, s, a, [b] + ([c] + ([d] + [])));
  }

  lemma WriteAlone(limit: nat, s: State, id: nat, w: Write)
    requires id in s.ops && s.ops[id] == Writing(w, Hooked) && s.Queue(w.key) == [] && Current(s, w)
    ensures Legal(limit, s, WriteRun(id)) && Written(limit, s, After(limit, s, WriteRun(id)), id, w, s.clock + 3)
  {
    hide Enabled, Apply, PairRegistry.Invalidation, PairRegistry.Publication, Legal, After, Written;
    TurnAlone(limit, s, id, w);
    var s2 := Apply(limit, Apply(limit, s, Enqueue(id)), StartTurn(id));
    EffectAlone(limit, s2, id, w);
    WrittenInTurn(limit, s, s2, Apply(limit, Apply(limit, s2, SetEffect(id)), SetSeen(id)), id, w);
    Four(limit, s, Enqueue(id), StartTurn(id), SetEffect(id), SetSeen(id));
  }

  /** A set() of a key at rest, run alone, leaves its own value. */
  lemma SetIsStored(limit: nat, s: State, k: Key)
    requires Inv(limit, s) && s.AtRest(k)
    ensures var run := [BeginSet(k)] + WriteRun(s.clock);
      && Legal(limit, s, run)
      && var s' := After(limit, s, run);
         && s'.adapter == s.adapter[k := Entry(s.clock, Authoritative, s.clock)] && s'.ops == s.ops
         && s'.registry == s.registry.BumpInvalidation(limit, k)
  {
    hide PairRegistry.BumpInvalidation, PairRegistry.Invalidation, PairRegistry.Publication, PairRegistry.Valid;
    RestHasNoQueue(limit, s, k);
    ClockIsNew(limit, s);
    var s1 := Apply(limit, s, BeginSet(k));
    var w := s1.ops[s.clock].w;
    assert s1.ops == s.ops[s.clock := Writing(w, Hooked)] && w.key == k && w.kind == Authoritative && w.started == s.clock;
    assert s1.Queue(k) == [] && Current(s1, w);
    hide Apply, Inv, Current, State.AtRest;
    assert Enabled(s, BeginSet(k));
    WriteAlone(limit, s1, s.clock, w);
    Then(limit, s, BeginSet(k), WriteRun(s.clock));
    hide Legal, After, WriteRun;
    assert s.ops[s.clock := Writing(w, Hooked)] - {s.clock} == s.ops;
  }

  lemma ClockIsNew(limit: nat, s: State)
    requires Inv(limit, s)
    ensures s.clock !in s.ops
  {
    if s.clock in s.ops { AtKey(limit, s, s.clock, s.ops[s.clock].Of()); }
  }

  // ---------------------------------------------------------------- reads, refreshes and invalidations

  function ComputeRun(id: nat): seq<Event> { [ReadMiss(id)] + ([FactoryDone(id)] + WriteRun(id)) }

  /** A read that finds nothing calls the factory and stores what it answers, also when an invalidation has
      come in between. */
  lemma ComputeAlone(limit: nat, s: State, id: nat, k: Key, refresh: bool)
    requires Inv(limit, s) && id in s.ops && s.Queue(k) == []
    requires s.ops[id].Reading? && s.ops[id].key == k && s.ops[id].refresh == refresh
    requires s.ops[id].epoch == s.registry.Invalidation(k) ==> s.ops[id].publication == s.registry.Publication(k)
    ensures var kind := if refresh then Refresh else Backfill;
      && Legal(limit, s, ComputeRun(id))
      && var s' := After(limit, s, ComputeRun(id));
         && s'.adapter == s.adapter[k := Entry(id, kind, s.clock)] && s'.ops == s.ops - {id}
         && s'.registry == if refresh then s.registry.BumpPublication(limit, k) else s.registry
  {
    hide PairRegistry.Invalidation, PairRegistry.Publication, PairRegistry.BumpPublication;
    var w := Write(k, if refresh then Refresh else Backfill, s.registry.Invalidation(k), s.registry.Publication(k), s.clock);
    var s1 := Apply(limit, s, ReadMiss(id));
    assert s1.ops == s.ops[id := Writing(w, Computing)];
    var s2 := Apply(limit, s1, FactoryDone(id));
    assert s2.ops == s.ops[id := Writing(w, Hooked)] && s2.Queue(k) == [] && Current(s2, w);
    assert Enabled(s, ReadMiss(id)) && Enabled(s1, FactoryDone(id));
    hide Apply, Inv, Current, Enabled;
    WriteAlone(limit, s2, id, w);
    Then(limit, s1, FactoryDone(id), WriteRun(id));
    Then(limit, s, ReadMiss(id), [FactoryDone(id)] + WriteRun(id));
    hide Legal, After, WriteRun;
    assert s.ops[id := Writing(w, Hooked)] - {id} == s.ops - {id};
  }

  /** A get() of a key at rest that misses, run alone, leaves what its factory answered. */
  lemma MissIsBackfilled(limit: nat, s: State, k: Key)
    requires Inv(limit, s) && s.AtRest(k)
    ensures var run := [StartGet(k)] + ComputeRun(s.clock);
      && Legal(limit, s, run)
      && var s' := After(limit, s, run);
         s'.adapter == s.adapter[k := Entry(s.clock, Backfill, s.clock + 1)] && s'.ops == s.ops && s'.registry == s.registry
  {
    hide PairRegistry.Invalidation, PairRegistry.Publication, PairRegistry.Valid;
    RestHasNoQueue(limit, s, k);
    ClockIsNew(limit, s);
    StepKeepsInv(limit, s, StartGet(k));
    var s1 := Apply(limit, s, StartGet(k));
    assert s1.ops == s.ops[s.clock := Reading(k, s.registry.Invalidation(k), s.registry.Publication(k), false)] && s1.Queue(k) == [];
    assert Enabled(s, StartGet(k));
    hide Inv, Apply, State.AtRest;
    ComputeAlone(limit, s1, s.clock, k, false);
    Then(limit, s, StartGet(k), ComputeRun(s.clock));
    hide Legal, After, ComputeRun;
    assert s1.ops - {s.clock} == s.ops;
  }

  lemma RefreshBegins(limit: nat, s: State, k: Key)
    requires Inv(limit, s) && s.AtRest(k)
    ensures var s1 := Apply(limit, s, StartRefresh(k));
      && Inv(limit, s1) && s1.Queue(k) == [] && s1.registry == s.registry.BumpPublication(limit, k) && s1.clock == s.clock + 1
      && s1.ops == s.ops[s.clock := Reading(k, s1.registry.Invalidation(k), s1.registry.Publication(k), true)]
      && s1.adapter == s.adapter && s.clock in s1.ops && s1.ops - {s.clock} == s.ops
  {
    RestHasNoQueue(limit, s, k);
    ClockIsNew(limit, s);
    PublicationBumpRaises(s.registry, limit, k);
    StepKeepsInv(limit, s, StartRefresh(k));
    hide PairRegistry.Invalidation, PairRegistry.Publication, PairRegistry.Valid, PairRegistry.BumpPublication, Inv, State.AtRest;
  }

  /** So does a refresh, which moves the publication epoch when it starts and when it is done. */
  lemma RefreshIsStored(limit: nat, s: State, k: Key)
    requires Inv(limit, s) && s.AtRest(k)
    ensures var run := [StartRefresh(k)] + ComputeRun(s.clock);
      && Legal(limit, s, run)
      && var s' := After(limit, s, run);
         && s'.adapter == s.adapter[k := Entry(s.clock, Refresh, s.clock + 1)] && s'.ops == s.ops
         && s'.registry == s.registry.BumpPublication(limit, k).BumpPublication(limit, k)
  {
    assert Enabled(s, StartRefresh(k));
    hide PairRegistry.BumpPublication, PairRegistry.Invalidation, PairRegistry.Publication, Inv, Apply, Enabled, State.AtRest, Legal, After, ComputeRun;
    RefreshBegins(limit, s, k);
    var s1 := Apply(limit, s, StartRefresh(k));
    ComputeAlone(limit, s1, s.clock, k, true);
    hide *;
    Then(limit, s, StartRefresh(k), ComputeRun(s.clock));
  }

  /** A background refresh run alone leaves what its factory answered. */
  lemma BackgroundRefreshIsStored(limit: nat, s: State, k: Key)
    requires Inv(limit, s) && s.AtRest(k)
    ensures var run := [StartBackgroundRefresh(k)] + ([FactoryDone(s.clock)] + WriteRun(s.clock));
      && Legal(limit, s, run)
      && var s' := After(limit, s, run);
         && s'.adapter == s.adapter[k := Entry(s.clock, Refresh, s.clock)] && s'.ops == s.ops
         && s'.registry == s.registry.BumpPublication(limit, k)
  {
    hide PairRegistry.BumpPublication, PairRegistry.Invalidation, PairRegistry.Publication, PairRegistry.Valid;
    RestHasNoQueue(limit, s, k);
    ClockIsNew(limit, s);
    var id := s.clock;
    var w := Write(k, Refresh, s.registry.Invalidation(k), s.registry.Publication(k), id);
    var s1 := Apply(limit, s, StartBackgroundRefresh(k));
    assert s1.ops == s.ops[id := Writing(w, Computing)];
    var s2 := Apply(limit, s1, FactoryDone(id));
    assert s2.ops == s.ops[id := Writing(w, Hooked)] && s2.Queue(k) == [] && Current(s2, w);
    assert Enabled(s, StartBackgroundRefresh(k)) && Enabled(s1, FactoryDone(id));
    hide Apply, Inv, Current, Enabled, State.AtRest;
    WriteAlone(limit, s2, id, w);
    Then(limit, s1, FactoryDone(id), WriteRun(id));
    Then(limit, s, StartBackgroundRefresh(k), [FactoryDone(id)] + WriteRun(id));
    hide Legal, After, WriteRun;
    assert s.ops[id := Writing(w, Hooked)] - {id} == s.ops;
  }

  lemma InvalidateSteps(limit: nat, s: State, k: Key)
    requires s.clock !in s.ops
    ensures var id := s.clock;
      var s1 := Apply(limit, s, BeginInvalidate(k));
      && Enabled(s, BeginInvalidate(k)) && Enabled(s1, DeleteEffect(id))
      && var s2 := Apply(limit, s1, DeleteEffect(id));
         && Enabled(s2, DeleteSeen(id))
         && var s3 := Apply(limit, s2, DeleteSeen(id));
            && s3.adapter == s.adapter - {k} && s3.ops == s.ops && s3.queues == s.queues
            && s3.registry == s.registry.BumpInvalidation(limit, k).BumpInvalidation(limit, k)
  {
    hide PairRegistry.BumpInvalidation;
    var id := s.clock;
    assert s.ops[id := Invalidating(k, false)][id := Invalidating(k, true)] - {id} == s.ops;
  }

  /** An invalidate() run alone leaves nothing under its key and the invalidation epoch raised twice. */
  lemma InvalidateRemoves(limit: nat, s: State, k: Key)
    requires Inv(limit, s)
    ensures var run := [BeginInvalidate(k)] + ([DeleteEffect(s.clock)] + ([DeleteSeen(s.clock)] + []));
      && Legal(limit, s, run)
      && var s' := After(limit, s, run);
         && s'.adapter == s.adapter - {k} && s'.ops == s.ops && s'.queues == s.queues
         && s'.registry == s.registry.BumpInvalidation(limit, k).BumpInvalidation(limit, k)
  {
    ClockIsNew(limit, s);
    hide PairRegistry.BumpInvalidation, Inv, Apply, Enabled;
    InvalidateSteps(limit, s, k);
    var id := s.clock;
    var s1 := Apply(limit, s, BeginInvalidate(k));
    var s2 := Apply(limit, s1, DeleteEffect(id));
    Done(limit, Apply(limit, s2, DeleteSeen(id)));
    hide Legal, After;
    Then(limit, s2, DeleteSeen(id), []);
    Then(limit, s1, DeleteEffect(id), [DeleteSeen(id)] + []);
    Then(limit, s, BeginInvalidate(k), [DeleteEffect(id)] + ([DeleteSeen(id)] + []));
  }

  // ---------------------------------------------------------------- gets beside refreshes

  /** The get() with this id, or the backfill it has become, has captured publication p of k. */
  predicate Captured(s: State, id: nat, k: Key, p: nat) {
    && id in s.ops
    && match s.ops[id]
       case Reading(key, _, publication, refresh) => key == k && publication == p && !refresh
       case Writing(w, _) => w.key == k && w.kind.Backfill? && w.publication == p
       case _ => false
  }

  /** An invalidation came between the start of the get() and that of its factory. */
  predicate Recaptures(s: State, e: Event, id: nat) {
    e == ReadMiss(id) && id in s.ops && s.ops[id].Reading? && s.registry.Invalidation(s.ops[id].key) != s.ops[id].epoch
  }

  ghost predicate NeverRecaptures(limit: nat, s: State, run: seq<Event>, id: nat)
    requires Legal(limit, s, run)
    decreases |run|
  {
    run == [] || (!Recaptures(s, run[0], id) && NeverRecaptures(limit, Apply(limit, s, run[0]), run[1..], id))
  }

  /** The publication epoch of k has moved since the get() captured it. */
  predicate Outdated(s: State, id: nat, k: Key, p: nat) {
    id < s.clock && p < s.registry.Publication(k) && (id in s.ops ==> Captured(s, id, k, p))
  }

  lemma PublicationRises(limit: nat, s: State, e: Event, k: Key)
    requires Inv(limit, s) && Enabled(s, e)
    ensures Apply(limit, s, e).registry.Publication(k) >= s.registry.Publication(k)
    ensures BumpOf(s, e).Some? && BumpOf(s, e).value.key == k ==>
      Apply(limit, s, e).registry.Publication(k) > s.registry.Publication(k)
  {
    RegistryStep(limit, s, e);
    hide Apply, PairRegistry.Publication, BumpOf;
    if BumpOf(s, e).Some? { PairBumpRaises(s.registry, limit, BumpOf(s, e).value); }
  }

  lemma CapturedStep(limit: nat, s: State, e: Event, id: nat, k: Key, p: nat)
    requires Enabled(s, e) && id < s.clock && !Recaptures(s, e, id) && (id in s.ops ==> Captured(s, id, k, p))
    ensures id in Apply(limit, s, e).ops ==> Captured(Apply(limit, s, e), id, k, p)
    ensures id < Apply(limit, s, e).clock
  {
    if id != Actor(s, e) {
      OthersStay(limit, s, e, id);
      hide Apply, Enabled, Recaptures;
    } else {
      ActorStep(limit, s, e);
      hide DoStartGet, DoStartRefresh, DoStartBackgroundRefresh, DoEnqueue, DoStartTurn, DoSetEffect, DoSetSeen, DoCleanEffect, DoBeginSet,
        DoBeginInvalidate, DoDeleteEffect, DoDeleteSeen, DoExpire, PairRegistry.Invalidation, PairRegistry.Publication;
    }
  }

  lemma {:induction false} StaysOutdated(limit: nat, s: State, run: seq<Event>, id: nat, k: Key, p: nat)
    requires Inv(limit, s) && Legal(limit, s, run) && NeverRecaptures(limit, s, run, id) && Outdated(s, id, k, p)
    ensures Outdated(After(limit, s, run), id, k, p)
    decreases |run|
  {
    hide Inv, Apply, Enabled, Recaptures, PairRegistry.Publication, Captured;
    if run != [] {
      StepKeepsInv(limit, s, run[0]);
      CapturedStep(limit, s, run[0], id, k, p);
      PublicationRises(limit, s, run[0], k);
      StaysOutdated(limit, Apply(limit, s, run[0]), run[1..], id, k, p);
    }
  }

  /** When a refresh of the key starts or is published while a get() of it is under way, the get() does not
      write its value into the adapter (unless an invalidation came between its start and its factory's). */
  lemma RefreshSuppressesBackfill(limit: nat, s: State, id: nat, k: Key, e: Event, run: seq<Event>)
    requires Inv(limit, s) && id in s.ops && Captured(s, id, k, s.registry.Publication(k))
    requires Enabled(s, e) && e != ReadMiss(id) && BumpOf(s, e).Some? && BumpOf(s, e).value.key == k
    requires Legal(limit, Apply(limit, s, e), run) && NeverRecaptures(limit, Apply(limit, s, e), run, id)
    requires Enabled(After(limit, Apply(limit, s, e), run), StartTurn(id))
    ensures var s' := After(limit, Apply(limit, s, e), run);
      id !in Apply(limit, s', StartTurn(id)).ops && Apply(limit, s', StartTurn(id)).adapter == s'.adapter
  {
    var p := s.registry.Publication(k);
    assert id < s.clock by { AtKey(limit, s, id, k); }
    hide Inv, PairRegistry.Publication, PairRegistry.Invalidation, PairRegistry.BumpInvalidation, PairRegistry.BumpPublication;
    CapturedStep(limit, s, e, id, k, p);
    PublicationRises(limit, s, e, k);
    StepKeepsInv(limit, s, e);
    StaysOutdated(limit, Apply(limit, s, e), run, id, k, p);
    OutdatedIsDropped(limit, After(limit, Apply(limit, s, e), run), id, k, p);
  }

  lemma OutdatedIsDropped(limit: nat, s: State, id: nat, k: Key, p: nat)
    requires Outdated(s, id, k, p) && Enabled(s, StartTurn(id))
    ensures id !in Apply(limit, s, StartTurn(id)).ops && Apply(limit, s, StartTurn(id)).adapter == s.adapter
  {
  }

  // ---------------------------------------------------------------- operations that write nothing

  lemma EndedStep(limit: nat, s: State, e: Event, id: nat)
    requires Enabled(s, e) && id < s.clock && id !in s.ops
    ensures id < Apply(limit, s, e).clock && id !in Apply(limit, s, e).ops
    ensures e != SetEffect(id)
  {
    OthersStay(limit, s, e, id);
    hide Apply;
  }

  lemma {:induction false} EndedForGood(limit: nat, s: State, run: seq<Event>, id: nat)
    requires Legal(limit, s, run) && id < s.clock && id !in s.ops
    ensures id !in After(limit, s, run).ops && SetEffect(id) !in run
    decreases |run|
  {
    hide Apply, Enabled;
    if run != [] {
      EndedStep(limit, s, run[0], id);
      EndedForGood(limit, Apply(limit, s, run[0]), run[1..], id);
      assert run == [run[0]] + run[1..];
    }
  }

  /** A get() that finds its value, and a read whose factory fails, is over at that moment and never writes. */
  lemma HitsAndFailuresWriteNothing(limit: nat, s: State, e: Event, id: nat, run: seq<Event>)
    requires Inv(limit, s) && Enabled(s, e) && (e == ReadHit(id) || e == FactoryFailed(id))
    requires Legal(limit, Apply(limit, s, e), run)
    ensures Apply(limit, s, e).adapter == s.adapter && Apply(limit, s, e).registry == s.registry
    ensures id !in After(limit, Apply(limit, s, e), run).ops && SetEffect(id) !in run
  {
    AtKey(limit, s, id, s.ops[id].Of());
    hide Inv;
    EndedForGood(limit, Apply(limit, s, e), run, id);
  }
}
