/** What failed deletes leave in the entity cache. */
module EntityCacheFailures {
  import opened OrderedMaps
  import opened Epochs
  import F = FailureRegistry
  import opened Options
  import opened Rows
  import opened EntityCache

  // A key whose delete failed is marked, and a marked key is not served. The mark is cleared by every
  // successful invalidation or write-back of the key, also by one whose own effect on the cache was
  // over before the delete failed, and then the stale entry is served again.

  /** The step marks k: a delete of k fails. */
  predicate Marks(c: Config, s: State, e: Event, k: Key)
    requires Enabled(c, s, e)
  {
    || (e.DeleteFails? && s.writers[e.id].key == k)
    || ((e.CleanFails? || e.PoisonFails?) && s.readers[e.id].key == k)
  }

  /** The step clears the mark of k: an invalidation or an undisturbed write-back of k is over. */
  predicate Clears(c: Config, s: State, e: Event, k: Key)
    requires Enabled(c, s, e)
  {
    || (e.DeleteSeen? && s.writers[e.id].key == k)
    || (e.PoisonSeen? && s.readers[e.id].key == k)
    || (e.CacheWriteSeen? && s.readers[e.id].key == k && s.Unchanged(s.readers[e.id]))
  }

  /** The step removes or replaces the entry of k. */
  predicate Touches(c: Config, s: State, e: Event, k: Key)
    requires Enabled(c, s, e)
  {
    || e == Expire(k)
    || (e.DeleteEffect? && s.writers[e.id].key == k)
    || ((e.CacheWriteEffect? || e.CleanEffect? || e.PoisonEffect?) && s.readers[e.id].key == k)
  }

  predicate OfWriter(e: Event) {
    e.ChangeStore? || e.FirstBump? || e.DeleteEffect? || e.DeleteSeen? || e.DeleteFails? || e.Expire?
  }

  predicate OfCleanUp(e: Event) {
    e.CleanEffect? || e.CleanFails? || e.PoisonEffect? || e.PoisonSeen? || e.PoisonFails? || e.CacheWriteEffect? || e.CacheWriteSeen?
  }

  predicate OfEffect(e: Event) { e.CleanEffect? || e.PoisonEffect? || e.CacheWriteEffect? }

  lemma TaintedByWriter(c: Config, s: State, e: Event, k: Key)
    requires Enabled(c, s, e) && OfWriter(e)
    ensures var s' := Apply(c, s, e);
      && (k in s'.tainted <==> Marks(c, s, e, k) || (k in s.tainted && !Touches(c, s, e, k)))
      && (k in s'.overlooked <==>
            !Marks(c, s, e, k) && !Touches(c, s, e, k) && (k in s.overlooked || (k in s.tainted && Clears(c, s, e, k))))
  {
    hide F.Failures.Clear, F.Failures.Mark, Registry.Bump, State.StaleWriteBack, F.Failures.Reported;
  }

  lemma TaintedByEffect(c: Config, s: State, e: Event, k: Key)
    requires Enabled(c, s, e) && OfEffect(e)
    ensures var s' := Apply(c, s, e);
      && (k in s'.tainted <==> Marks(c, s, e, k) || (k in s.tainted && !Touches(c, s, e, k)))
      && (k in s'.overlooked <==>
            !Marks(c, s, e, k) && !Touches(c, s, e, k) && (k in s.overlooked || (k in s.tainted && Clears(c, s, e, k))))
  {
    hide F.Failures.Clear, F.Failures.Mark, Registry.Bump, State.StaleWriteBack, F.Failures.Reported;
  }

  lemma TaintedByFailure(c: Config, s: State, e: Event, k: Key)
    requires Enabled(c, s, e) && (e.CleanFails? || e.PoisonFails?)
    ensures var s' := Apply(c, s, e);
      && (k in s'.tainted <==> Marks(c, s, e, k) || (k in s.tainted && !Touches(c, s, e, k)))
      && (k in s'.overlooked <==>
            !Marks(c, s, e, k) && !Touches(c, s, e, k) && (k in s.overlooked || (k in s.tainted && Clears(c, s, e, k))))
  {
    hide F.Failures.Clear, F.Failures.Mark, Registry.Bump, State.StaleWriteBack, F.Failures.Reported, Registry.Epoch;
  }

  lemma TaintedByCompletion(c: Config, s: State, e: Event, k: Key)
    requires Enabled(c, s, e) && (e.PoisonSeen? || e.CacheWriteSeen?)
    ensures var s' := Apply(c, s, e);
      && (k in s'.tainted <==> Marks(c, s, e, k) || (k in s.tainted && !Touches(c, s, e, k)))
      && (k in s'.overlooked <==>
            !Marks(c, s, e, k) && !Touches(c, s, e, k) && (k in s.overlooked || (k in s.tainted && Clears(c, s, e, k))))
  {
    hide F.Failures.Clear, F.Failures.Mark, Registry.Bump, State.StaleWriteBack, F.Failures.Reported, Registry.Epoch;
  }

  lemma TaintedByReader(c: Config, s: State, e: Event, k: Key)
    requires Enabled(c, s, e) && !OfWriter(e) && !OfCleanUp(e)
    ensures var s' := Apply(c, s, e);
      && (k in s'.tainted <==> Marks(c, s, e, k) || (k in s.tainted && !Touches(c, s, e, k)))
      && (k in s'.overlooked <==>
            !Marks(c, s, e, k) && !Touches(c, s, e, k) && (k in s.overlooked || (k in s.tainted && Clears(c, s, e, k))))
  {
    hide F.Failures.Clear, F.Failures.Mark, Registry.Bump, State.StaleWriteBack, F.Failures.Reported;
  }

  lemma TaintedStep(c: Config, s: State, e: Event, k: Key)
    requires Enabled(c, s, e)
    ensures var s' := Apply(c, s, e);
      && (k in s'.tainted <==> Marks(c, s, e, k) || (k in s.tainted && !Touches(c, s, e, k)))
      && (k in s'.overlooked <==>
            !Marks(c, s, e, k) && !Touches(c, s, e, k) && (k in s.overlooked || (k in s.tainted && Clears(c, s, e, k))))
  {
    hide Apply, Enabled, Marks, Clears, Touches;
    if OfWriter(e) { TaintedByWriter(c, s, e, k); }
    else if OfEffect(e) { TaintedByEffect(c, s, e, k); }
    else if e.CleanFails? || e.PoisonFails? { TaintedByFailure(c, s, e, k); }
    else if e.PoisonSeen? || e.CacheWriteSeen? { TaintedByCompletion(c, s, e, k); }
    else { TaintedByReader(c, s, e, k); }
  }

  ghost predicate Untouched(c: Config, s: State, run: seq<Event>, k: Key)
    requires Legal(c, s, run)
    decreases |run|
  {
    run == [] || (!Touches(c, s, run[0], k) && Untouched(c, Apply(c, s, run[0]), run[1..], k))
  }

  ghost predicate Unmarked(c: Config, s: State, run: seq<Event>, k: Key)
    requires Legal(c, s, run)
    decreases |run|
  {
    run == [] || (!Marks(c, s, run[0], k) && Unmarked(c, Apply(c, s, run[0]), run[1..], k))
  }

  ghost predicate ClearedIn(c: Config, s: State, run: seq<Event>, k: Key)
    requires Legal(c, s, run)
    decreases |run|
  {
    run != [] && (Clears(c, s, run[0], k) || ClearedIn(c, Apply(c, s, run[0]), run[1..], k))
  }

  /** A delete of k fails, and nothing removes or replaces the entry afterwards. */
  ghost predicate LeftBehind(c: Config, s: State, run: seq<Event>, k: Key)
    requires Legal(c, s, run)
    decreases |run|
  {
    run != [] &&
    var s' := Apply(c, s, run[0]);
    LeftBehind(c, s', run[1..], k) || (Marks(c, s, run[0], k) && Untouched(c, s', run[1..], k))
  }

  /** The last failed delete of k is followed by the completion of an invalidation or write-back of k,
      and nothing has removed or replaced the entry since the failure. */
  ghost predicate Overlooked(c: Config, s: State, run: seq<Event>, k: Key)
    requires Legal(c, s, run)
    decreases |run|
  {
    run != [] &&
    var s' := Apply(c, s, run[0]);
    || Overlooked(c, s', run[1..], k)
    || (Marks(c, s, run[0], k) && Untouched(c, s', run[1..], k) && Unmarked(c, s', run[1..], k) && ClearedIn(c, s', run[1..], k))
  }

  lemma {:induction false} HistoryTellsTheRun(c: Config, s: State, run: seq<Event>, k: Key)
    requires Legal(c, s, run) && (k in s.overlooked ==> k in s.tainted)
    ensures k in After(c, s, run).tainted <==> (k in s.tainted && Untouched(c, s, run, k)) || LeftBehind(c, s, run, k)
    ensures k in After(c, s, run).overlooked <==>
      || (k in s.tainted && Untouched(c, s, run, k) && Unmarked(c, s, run, k) && (k in s.overlooked || ClearedIn(c, s, run, k)))
      || Overlooked(c, s, run, k)
    decreases |run|
  {
    hide Apply, Enabled, Marks, Clears, Touches;
    if run != [] {
      TaintedStep(c, s, run[0], k);
      HistoryTellsTheRun(c, Apply(c, s, run[0]), run[1..], k);
    }
  }

  /** With nothing of k in flight, an entry that differs from the store was left by a failed delete, and
      its key is reported as failed if and only if the last failure was not overlooked. (Once the
      registry has overflowed it reports keys that did not fail, so then an overlooked one may be
      reported too.) */
  lemma StaleAtRestIsReportedIffNotOverlooked(c: Config, store: map<Key, Row>, run: seq<Event>, k: Key)
    requires LimitsOk(c) && Legal(c, Start(store), run)
    requires var s := After(c, Start(store), run); k in s.cache && s.cache[k] != s.Stored(k) && !s.InFlight(k)
    ensures LeftBehind(c, Start(store), run, k)
    ensures var s := After(c, Start(store), run);
      && (!Overlooked(c, Start(store), run, k) ==> s.failures.Reported(k))
      && (!Overflowed(s.failures) ==> (s.failures.Reported(k) <==> !Overlooked(c, Start(store), run, k)))
  {
    StaleEntriesAreCovered(c, store, run, k);
    HistoryTellsTheRun(c, Start(store), run, k);
    RunKeepsInv(c, Start(store), run);
    InvParts(c, After(c, Start(store), run));
    hide Legal, After, Untouched, Unmarked, ClearedIn, LeftBehind, Overlooked;
  }

  predicate DeleteFailure(e: Event) { e.CleanFails? || e.PoisonFails? || e.DeleteFails? }

  lemma {:induction false} NothingLeftBehind(c: Config, s: State, run: seq<Event>, k: Key)
    requires Legal(c, s, run) && forall e :: e in run ==> !DeleteFailure(e)
    ensures !LeftBehind(c, s, run, k)
    decreases |run|
  {
    hide Apply, Enabled, Touches;
    if run != [] {
      assert run[0] in run && forall e :: e in run[1..] ==> e in run;
      NothingLeftBehind(c, Apply(c, s, run[0]), run[1..], k);
    }
  }

  /** If no delete failed, then once nothing of a key is in flight its cached entry equals the store. */
  lemma FreshAtRestUnlessADeleteFailed(c: Config, store: map<Key, Row>, run: seq<Event>, k: Key)
    requires LimitsOk(c) && Legal(c, Start(store), run) && forall e :: e in run ==> !DeleteFailure(e)
    ensures var s := After(c, Start(store), run);
      k in s.cache && !s.InFlight(k) ==> s.cache[k] == s.Stored(k)
  {
    NothingLeftBehind(c, Start(store), run, k);
    StaleEntriesAreCovered(c, store, run, k);
    HistoryTellsTheRun(c, Start(store), run, k);
  }

  // ---------------------------------------------------------------- who overlooks a failure

  /** The operation's own effect on the entry of k is over, its completion is not yet seen. */
  predicate Spent(s: State, e: Event, k: Key) {
    || (e.DeleteSeen? && e.id in s.writers && s.writers[e.id] == Deleted(k))
    || (e.PoisonSeen? && e.id in s.readers && s.readers[e.id].Poisoned? && s.readers[e.id].key == k)
    || (e.CacheWriteSeen? && e.id in s.readers && s.readers[e.id].Wrote? && s.readers[e.id].key == k)
  }

  lemma SpentBeforeWriter(c: Config, s: State, e: Event, done: Event, k: Key)
    requires Enabled(c, s, e) && OfWriter(e) && !Touches(c, s, e, k) && Spent(Apply(c, s, e), done, k)
    ensures Spent(s, done, k)
  {
    hide F.Failures.Clear, F.Failures.Mark, Registry.Bump, State.StaleWriteBack, F.Failures.Reported, Registry.Epoch;
  }

  lemma SpentBeforeEffect(c: Config, s: State, e: Event, done: Event, k: Key)
    requires Enabled(c, s, e) && OfEffect(e) && !Touches(c, s, e, k) && Spent(Apply(c, s, e), done, k)
    ensures Spent(s, done, k)
  {
    hide F.Failures.Clear, F.Failures.Mark, Registry.Bump, State.StaleWriteBack, F.Failures.Reported, Registry.Epoch;
  }

  lemma SpentBeforeCleanUp(c: Config, s: State, e: Event, done: Event, k: Key)
    requires Enabled(c, s, e) && OfCleanUp(e) && !OfEffect(e) && !Touches(c, s, e, k) && Spent(Apply(c, s, e), done, k)
    ensures Spent(s, done, k)
  {
    hide F.Failures.Clear, F.Failures.Mark, Registry.Bump, State.StaleWriteBack, F.Failures.Reported, Registry.Epoch;
  }

  lemma SpentBeforeReader(c: Config, s: State, e: Event, done: Event, k: Key)
    requires Enabled(c, s, e) && !OfWriter(e) && !OfCleanUp(e) && !Touches(c, s, e, k) && Spent(Apply(c, s, e), done, k)
    ensures Spent(s, done, k)
  {
    hide F.Failures.Clear, F.Failures.Mark, Registry.Bump, State.StaleWriteBack, F.Failures.Reported, Registry.Epoch;
  }

  lemma SpentBefore(c: Config, s: State, e: Event, done: Event, k: Key)
    requires Enabled(c, s, e) && !Touches(c, s, e, k) && Spent(Apply(c, s, e), done, k)
    ensures Spent(s, done, k)
  {
    hide Apply, Enabled, Touches, Spent;
    if OfWriter(e) { SpentBeforeWriter(c, s, e, done, k); }
    else if OfEffect(e) { SpentBeforeEffect(c, s, e, done, k); }
    else if OfCleanUp(e) { SpentBeforeCleanUp(c, s, e, done, k); }
    else { SpentBeforeReader(c, s, e, done, k); }
  }

  /** What clears the mark of an untouched entry was under way, with its own effect over, all along. */
  lemma {:induction false} ClearerWasSpent(c: Config, s: State, run: seq<Event>, k: Key) returns (done: Event)
    requires Legal(c, s, run) && Untouched(c, s, run, k) && ClearedIn(c, s, run, k)
    ensures Spent(s, done, k)
    decreases |run|
  {
    if Clears(c, s, run[0], k) {
      done := run[0];
    } else {
      done := ClearerWasSpent(c, Apply(c, s, run[0]), run[1..], k);
      SpentBefore(c, s, run[0], done, k);
    }
  }

  /** Whenever a delete of k fails, no other operation of k has its own effect behind it and its
      completion before it. */
  ghost predicate FailsAlone(c: Config, s: State, run: seq<Event>, k: Key)
    requires Legal(c, s, run)
    decreases |run|
  {
    run == [] ||
    var s' := Apply(c, s, run[0]);
    (Marks(c, s, run[0], k) ==> forall done :: !Spent(s', done, k)) && FailsAlone(c, s', run[1..], k)
  }

  lemma {:induction false} AloneIsNotOverlooked(c: Config, s: State, run: seq<Event>, k: Key)
    requires Legal(c, s, run) && FailsAlone(c, s, run, k)
    ensures !Overlooked(c, s, run, k)
    decreases |run|
  {
    hide Apply, Enabled, Marks, Clears, Touches, Spent;
    if run != [] {
      var s' := Apply(c, s, run[0]);
      AloneIsNotOverlooked(c, s', run[1..], k);
      if Marks(c, s, run[0], k) && Untouched(c, s', run[1..], k) && ClearedIn(c, s', run[1..], k) {
        var done := ClearerWasSpent(c, s', run[1..], k);
      }
    }
  }

  /** So if deletes of k fail only while no such operation is under way, a stale entry at rest is
      always reported, and never served. */
  lemma StaleAtRestIsReported(c: Config, store: map<Key, Row>, run: seq<Event>, k: Key)
    requires LimitsOk(c) && Legal(c, Start(store), run) && FailsAlone(c, Start(store), run, k)
    requires var s := After(c, Start(store), run); k in s.cache && s.cache[k] != s.Stored(k) && !s.InFlight(k)
    ensures After(c, Start(store), run).failures.Reported(k)
  {
    AloneIsNotOverlooked(c, Start(store), run, k);
    StaleAtRestIsReportedIffNotOverlooked(c, store, run, k);
  }

  // ---------------------------------------------------------------- an overlooked failure

  const TWO_WRITERS: Config := Config(4096, 4096, false)

  /** Writer 2 has deleted; reader 1 loads its row and writes it back; writer 3 changes the row and its
      delete fails, so the key is marked; writer 2 completes, and the mark is cleared. */
  function OverlookedRun(k: Key, second: Row, third: Row): (run: seq<Event>)
    ensures |run| == 15
  {
    [ChangeStore(2, k, Some(second)), FirstBump(2), DeleteEffect(2),
     StartRead(1, k), CacheReadEffect(1), CacheReadSeen(1), StoreReadEffect(1), StoreReadSeen(1), HookSeen(1), CacheWriteEffect(1), CacheWriteSeen(1),
     ChangeStore(3, k, Some(third)), FirstBump(3), DeleteFails(3),
     DeleteSeen(2)]
  }

  /** The registry after n bumps of k alone. */
  function Bumps(k: Key, n: nat): Registry { if n == 0 then EmptyRegistry() else Registry(OrderedMap([k], map[k := n]), 0) }

  lemma OneMoreBump(k: Key, n: nat)
    ensures Bumps(k, n).Bump(4096, k) == Bumps(k, n + 1)
  {
    assert Without([k], k) == [];
    assert map[k := n] - {k} == map[];
  }

  /** The states of the run: i events have happened. */
  function OverlookedState(k: Key, second: Row, third: Row, i: nat): State {
    var n := if i < 2 then 0 else if i < 13 then 1 else if i < 15 then 2 else 3;
    var store := if i == 0 then map[] else map[k := if i < 12 then second else third];
    var reader := if i == 4 then map[1 := Asked(k, 1)] else if i == 5 then map[1 := Got(k, 1, None, false, 0)]
      else if i == 6 then map[1 := Missed(k, 1)] else if i == 7 then map[1 := Loaded(k, 1, Some(second))]
      else if i == 8 then map[1 := Hooked(k, 1, Some(second))] else if i == 9 then map[1 := Setting(k, 1, Some(second))]
      else if i == 10 then map[1 := Wrote(k, 1)] else map[];
    var writer := if i == 0 || i == 15 then map[] else map[2 := if i == 1 then Changed(k) else if i == 2 then Bumped(k) else Deleted(k)];
    var other := if i == 12 then map[3 := Changed(k)] else if i == 13 then map[3 := Bumped(k)] else map[];
    State(store, if i < 10 then map[] else map[k := Some(second)], Bumps(k, n),
          if i == 14 then F.Failures.Failures({k}, 0, Empty()) else F.Failures.NoEntry, reader, writer + other,
          if i < 14 then {} else {k}, if i < 15 then {} else {k}, if i < 14 then map[] else map[k := 1])
  }

  ghost predicate SameState(s: State, s': State) {
    && s.store == s'.store && s.cache == s'.cache && s.registry == s'.registry && s.failures == s'.failures
    && s.readers == s'.readers && s.writers == s'.writers
    && s.tainted == s'.tainted && s.overlooked == s'.overlooked && s.failed == s'.failed
  }

  ghost predicate Steps(k: Key, second: Row, third: Row, i: nat)
    requires i < 15
  {
    var s, e := OverlookedState(k, second, third, i), OverlookedRun(k, second, third)[i];
    Enabled(TWO_WRITERS, s, e) && Apply(TWO_WRITERS, s, e) == OverlookedState(k, second, third, i + 1)
  }

  lemma BumpsOfKey(k: Key)
    ensures forall n :: 0 <= n < 3 ==> Bumps(k, n).Epoch(k) == n && Bumps(k, n).Bump(4096, k) == Bumps(k, n + 1)
    ensures forall f: F.Failures :: f.NoEntry? ==> !f.Reported(k) && f.Clear(4096, k) == F.Failures.NoEntry
    ensures F.Failures.NoEntry.Mark(4096, k) == F.Failures.Failures({k}, 0, Empty()) && F.Failures.Failures({k}, 0, Empty()).Clear(4096, k) == F.Failures.NoEntry
  {
    OneMoreBump(k, 0);
    OneMoreBump(k, 1);
    OneMoreBump(k, 2);
    var none: OrderedMap<Key, nat> := Empty();
    assert {} + {k} == {k} && {k} - {k} == {} && none.Delete(k) == none;
  }

  lemma ChangeSteps(k: Key, second: Row, third: Row, i: nat)
    requires i < 3
    ensures Steps(k, second, third, i)
  {
    hide Registry.Bump, F.Failures.Reported, F.Failures.Mark, F.Failures.Clear, Bumps;
    BumpsOfKey(k);
    var s, e := OverlookedState(k, second, third, i), OverlookedRun(k, second, third)[i];
    assert SameState(Apply(TWO_WRITERS, s, e), OverlookedState(k, second, third, i + 1));
  }

  lemma AskSteps(k: Key, second: Row, third: Row, i: nat)
    requires 3 <= i < 6
    ensures Steps(k, second, third, i)
  {
    hide Registry.Bump, F.Failures.Reported, F.Failures.Mark, F.Failures.Clear, Bumps;
    BumpsOfKey(k);
    var s, e := OverlookedState(k, second, third, i), OverlookedRun(k, second, third)[i];
    assert SameState(Apply(TWO_WRITERS, s, e), OverlookedState(k, second, third, i + 1));
  }

  lemma LoadSteps(k: Key, second: Row, third: Row, i: nat)
    requires 6 <= i < 9
    ensures Steps(k, second, third, i)
  {
    hide Registry.Bump, F.Failures.Reported, F.Failures.Mark, F.Failures.Clear, Bumps;
    BumpsOfKey(k);
    var s, e := OverlookedState(k, second, third, i), OverlookedRun(k, second, third)[i];
    assert SameState(Apply(TWO_WRITERS, s, e), OverlookedState(k, second, third, i + 1));
  }

  lemma WriteSteps(k: Key, second: Row, third: Row, i: nat)
    requires 9 <= i < 11
    ensures Steps(k, second, third, i)
  {
    hide Registry.Bump, F.Failures.Reported, F.Failures.Mark, F.Failures.Clear, Bumps;
    BumpsOfKey(k);
    var s, e := OverlookedState(k, second, third, i), OverlookedRun(k, second, third)[i];
    assert SameState(Apply(TWO_WRITERS, s, e), OverlookedState(k, second, third, i + 1));
  }

  lemma SecondChangeSteps(k: Key, second: Row, third: Row, i: nat)
    requires 11 <= i < 13
    ensures Steps(k, second, third, i)
  {
    hide Registry.Bump, F.Failures.Reported, F.Failures.Mark, F.Failures.Clear, Bumps;
    BumpsOfKey(k);
    var s, e := OverlookedState(k, second, third, i), OverlookedRun(k, second, third)[i];
    assert SameState(Apply(TWO_WRITERS, s, e), OverlookedState(k, second, third, i + 1));
  }

  lemma FailStep(k: Key, second: Row, third: Row, i: nat)
    requires i == 13
    ensures Steps(k, second, third, i)
  {
    hide Registry.Bump, F.Failures.Reported, F.Failures.Mark, F.Failures.Clear, Bumps;
    BumpsOfKey(k);
    var s, e := OverlookedState(k, second, third, i), OverlookedRun(k, second, third)[i];
    assert SameState(Apply(TWO_WRITERS, s, e), OverlookedState(k, second, third, i + 1));
  }

  lemma ClearStep(k: Key, second: Row, third: Row, i: nat)
    requires i == 14
    ensures Steps(k, second, third, i)
  {
    hide Registry.Bump, F.Failures.Reported, F.Failures.Mark, F.Failures.Clear, Bumps;
    BumpsOfKey(k);
    var s, e := OverlookedState(k, second, third, i), OverlookedRun(k, second, third)[i];
    assert SameState(Apply(TWO_WRITERS, s, e), OverlookedState(k, second, third, i + 1));
  }

  lemma {:induction false} Prepend(s: State, run: seq<Event>, i: nat)
    requires i < |run| && Enabled(TWO_WRITERS, s, run[i]) && Legal(TWO_WRITERS, Apply(TWO_WRITERS, s, run[i]), run[i + 1..])
    ensures Legal(TWO_WRITERS, s, run[i..])
    ensures After(TWO_WRITERS, s, run[i..]) == After(TWO_WRITERS, Apply(TWO_WRITERS, s, run[i]), run[i + 1..])
  {
    hide Apply, Enabled;
    assert run[i..][1..] == run[i + 1..];
  }

  lemma {:induction false} OverlookedFrom(k: Key, second: Row, third: Row, i: nat)
    requires i <= 15
    ensures Legal(TWO_WRITERS, OverlookedState(k, second, third, i), OverlookedRun(k, second, third)[i..])
    ensures After(TWO_WRITERS, OverlookedState(k, second, third, i), OverlookedRun(k, second, third)[i..]) == OverlookedState(k, second, third, 15)
    decreases 15 - i
  {
    hide OverlookedState, OverlookedRun, Apply, Enabled;
    if i < 15 {
      if i < 3 { ChangeSteps(k, second, third, i); } else if i < 6 { AskSteps(k, second, third, i); }
      else if i < 9 { LoadSteps(k, second, third, i); } else if i < 11 { WriteSteps(k, second, third, i); }
      else if i < 13 { SecondChangeSteps(k, second, third, i); } else if i == 13 { FailStep(k, second, third, i); } else { ClearStep(k, second, third, i); }
      OverlookedFrom(k, second, third, i + 1);
      Prepend(OverlookedState(k, second, third, i), OverlookedRun(k, second, third), i);
    }
  }

  /** The stale entry is not reported, and nothing of the key is in flight. */
  lemma SuccessHidesAFailure(k: Key, second: Row, third: Row)
    requires second != third
    ensures Legal(TWO_WRITERS, Start(map[]), OverlookedRun(k, second, third))
    ensures var s := After(TWO_WRITERS, Start(map[]), OverlookedRun(k, second, third));
      k in s.cache && s.cache[k] != s.Stored(k) && !s.InFlight(k) && !s.failures.Reported(k)
  {
    OverlookedFrom(k, second, third, 0);
    assert OverlookedRun(k, second, third)[0..] == OverlookedRun(k, second, third);
    assert OverlookedState(k, second, third, 0) == Start(map[]);
    hide Legal, After, OverlookedRun;
  }
}
