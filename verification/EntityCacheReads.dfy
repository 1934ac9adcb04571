/** What readers of the entity cache get. */
module EntityCacheReads {
  import opened Epochs
  import F = FailureRegistry
  import opened Options
  import opened Rows
  import opened EntityCache
  import opened EntityCacheFailures

  // Between the failure of a delete and the next completed invalidation or undisturbed write-back of the
  // key, no read of the key returns what is cached. Operations that run alone do what they are for: a
  // hit is returned, a miss is cached, an invalidation removes the entry.

  // ---------------------------------------------------------------- marked keys

  lemma MarkIsReported(c: Config, s: State, e: Event, k: Key)
    requires Inv(c, s) && Enabled(c, s, e) && Marks(c, s, e, k)
    ensures Apply(c, s, e).failures.Reported(k)
  {
    F.MarkReports(s.failures, c.failureLimit, k, k);
  }

  /** What a step does to the registry of failures. */
  lemma FailuresStep(c: Config, s: State, e: Event)
    requires Enabled(c, s, e)
    ensures var f' := Apply(c, s, e).failures;
      || f' == s.failures
      || (exists q :: Marks(c, s, e, q) && f' == s.failures.Mark(c.failureLimit, q))
      || (exists q :: Clears(c, s, e, q) && f' == s.failures.Clear(c.failureLimit, q))
  {
    hide F.Failures.Clear, F.Failures.Mark, F.Failures.Reported, Registry.Bump, Registry.Epoch, State.StaleWriteBack;
    if e.DeleteFails? { assert Marks(c, s, e, s.writers[e.id].key); }
    else if e.CleanFails? || e.PoisonFails? { assert Marks(c, s, e, s.readers[e.id].key); }
    else if e.DeleteSeen? { assert Clears(c, s, e, s.writers[e.id].key); }
    else if e.PoisonSeen? || (e.CacheWriteSeen? && s.Unchanged(s.readers[e.id])) { assert Clears(c, s, e, s.readers[e.id].key); }
  }

  lemma ReportKept(c: Config, s: State, e: Event, k: Key)
    requires Inv(c, s) && Enabled(c, s, e) && s.failures.Reported(k) && !Clears(c, s, e, k)
    ensures Apply(c, s, e).failures.Reported(k)
  {
    InvParts(c, s);
    FailuresStep(c, s, e);
    hide Apply, Enabled, Inv, F.Failures.Clear, F.Failures.Mark, F.Failures.Reported, Clears, Marks;
    var f' := Apply(c, s, e).failures;
    if q :| Marks(c, s, e, q) && f' == s.failures.Mark(c.failureLimit, q) {
      F.MarkReports(s.failures, c.failureLimit, q, k);
    } else if q :| Clears(c, s, e, q) && f' == s.failures.Clear(c.failureLimit, q) {
      F.ClearOfOtherKey(s.failures, c.failureLimit, q, k);
    }
  }

  lemma {:induction false} ReportLasts(c: Config, s: State, run: seq<Event>, k: Key)
    requires Inv(c, s) && Legal(c, s, run) && s.failures.Reported(k) && !ClearedIn(c, s, run, k)
    ensures After(c, s, run).failures.Reported(k)
    decreases |run|
  {
    hide Inv, Apply, Enabled, Clears, F.Failures.Reported;
    if run != [] {
      StepKeepsInv(c, s, run[0]);
      ReportKept(c, s, run[0], k);
      ReportLasts(c, Apply(c, s, run[0]), run[1..], k);
    }
  }

  /** A read of a reported key goes to the store: when it starts, and when it has read the cache. */
  lemma ReportedIsNotRead(c: Config, s: State, e: Event, k: Key)
    requires Enabled(c, s, e) && s.failures.Reported(k)
    ensures e.StartRead? && e.key == k ==> Apply(c, s, e).readers[e.id].Missed?
    ensures e.CacheReadSeen? && s.readers[e.id].key == k ==> e.id in Apply(c, s, e).readers && Apply(c, s, e).readers[e.id].Missed?
  {
  }

  /** From the failure of a delete of k until an invalidation or an undisturbed write-back of k is over,
      every read of k that starts goes to the store, and none that has read the cache ends with what it
      found there. */
  lemma FailedKeysAreReadFromTheStore(c: Config, store: map<Key, Row>, before: seq<Event>, failure: Event, between: seq<Event>, e: Event, k: Key)
    requires LimitsOk(c) && Legal(c, Start(store), before)
    requires var s := After(c, Start(store), before);
      && Enabled(c, s, failure) && Marks(c, s, failure, k)
      && Legal(c, Apply(c, s, failure), between) && !ClearedIn(c, Apply(c, s, failure), between, k)
      && Enabled(c, After(c, Apply(c, s, failure), between), e)
    ensures var s := After(c, Apply(c, After(c, Start(store), before), failure), between);
      && (e.StartRead? && e.key == k ==> Apply(c, s, e).readers[e.id].Missed?)
      && (e.CacheReadSeen? && s.readers[e.id].key == k ==> e.id in Apply(c, s, e).readers && Apply(c, s, e).readers[e.id].Missed?)
  {
    var s := After(c, Start(store), before);
    RunKeepsInv(c, Start(store), before);
    MarkIsReported(c, s, failure, k);
    StepKeepsInv(c, s, failure);
    ReportLasts(c, Apply(c, s, failure), between, k);
    ReportedIsNotRead(c, After(c, Apply(c, s, failure), between), e, k);
  }

  // ---------------------------------------------------------------- stale entries at rest

  /** No reader is about to take, or has taken, an entry of k from the cache. */
  ghost predicate NobodyLooks(s: State, k: Key) {
    forall id :: id in s.readers && s.readers[id].key == k ==> !s.readers[id].Asked? && !s.readers[id].Got?
  }

  lemma NobodyLooksAfterWriter(c: Config, s: State, e: Event, k: Key)
    requires Enabled(c, s, e) && OfWriter(e) && s.failures.Reported(k) && NobodyLooks(s, k)
    ensures NobodyLooks(Apply(c, s, e), k)
  {
    hide F.Failures.Clear, F.Failures.Mark, F.Failures.Reported, Registry.Bump, Registry.Epoch, State.StaleWriteBack, State.Unchanged;
  }

  lemma NobodyLooksAfterCleanUp(c: Config, s: State, e: Event, k: Key)
    requires Enabled(c, s, e) && OfCleanUp(e) && s.failures.Reported(k) && NobodyLooks(s, k)
    ensures NobodyLooks(Apply(c, s, e), k)
  {
    hide F.Failures.Clear, F.Failures.Mark, F.Failures.Reported, Registry.Bump, Registry.Epoch, State.StaleWriteBack, State.Unchanged;
  }

  lemma NobodyLooksAfterReader(c: Config, s: State, e: Event, k: Key)
    requires Enabled(c, s, e) && !OfWriter(e) && !OfCleanUp(e) && s.failures.Reported(k) && NobodyLooks(s, k)
    ensures NobodyLooks(Apply(c, s, e), k)
  {
    hide F.Failures.Clear, F.Failures.Mark, F.Failures.Reported, Registry.Bump, Registry.Epoch, State.StaleWriteBack, State.Unchanged;
  }

  lemma NobodyLooksStep(c: Config, s: State, e: Event, k: Key)
    requires Enabled(c, s, e) && s.failures.Reported(k) && NobodyLooks(s, k)
    ensures NobodyLooks(Apply(c, s, e), k)
  {
    hide Apply, Enabled, NobodyLooks, F.Failures.Reported;
    if OfWriter(e) { NobodyLooksAfterWriter(c, s, e, k); }
    else if OfCleanUp(e) { NobodyLooksAfterCleanUp(c, s, e, k); }
    else { NobodyLooksAfterReader(c, s, e, k); }
  }

  lemma {:induction false} NobodyLooksMeanwhile(c: Config, s: State, run: seq<Event>, k: Key)
    requires Inv(c, s) && Legal(c, s, run) && s.failures.Reported(k) && NobodyLooks(s, k) && !ClearedIn(c, s, run, k)
    ensures NobodyLooks(After(c, s, run), k)
    decreases |run|
  {
    hide Inv, Apply, Enabled, Clears, F.Failures.Reported, NobodyLooks;
    if run != [] {
      StepKeepsInv(c, s, run[0]);
      ReportKept(c, s, run[0], k);
      NobodyLooksStep(c, s, run[0], k);
      NobodyLooksMeanwhile(c, Apply(c, s, run[0]), run[1..], k);
    }
  }

  /** With nothing of k in flight nothing clears the mark before something replaces the entry. */
  lemma UntouchedIsNotCleared(c: Config, s: State, run: seq<Event>, k: Key)
    requires Legal(c, s, run) && !s.InFlight(k) && Untouched(c, s, run, k)
    ensures !ClearedIn(c, s, run, k)
  {
    if ClearedIn(c, s, run, k) {
      var done := ClearerWasSpent(c, s, run, k);
      SpentIsInFlight(s, done, k);
    }
  }

  lemma SpentIsInFlight(s: State, done: Event, k: Key)
    requires Spent(s, done, k)
    ensures s.InFlight(k)
  {
    if done.DeleteSeen? { assert s.writers[done.id].key == k; } else { assert s.readers[done.id].key == k; }
  }

  /** A stale entry at rest that is not overlooked is never returned: whatever happens afterwards, as
      long as nothing has removed or replaced it, no read of the key looks at the cache. */
  lemma StaleAtRestIsNeverReturned(c: Config, store: map<Key, Row>, run: seq<Event>, k: Key, rest: seq<Event>)
    requires LimitsOk(c) && Legal(c, Start(store), run) && !Overlooked(c, Start(store), run, k)
    requires var s := After(c, Start(store), run);
      k in s.cache && s.cache[k] != s.Stored(k) && !s.InFlight(k) && Legal(c, s, rest) && Untouched(c, s, rest, k)
    ensures NobodyLooks(After(c, After(c, Start(store), run), rest), k)
  {
    var s := After(c, Start(store), run);
    StaleAtRestIsReportedIffNotOverlooked(c, store, run, k);
    RunKeepsInv(c, Start(store), run);
    UntouchedIsNotCleared(c, s, rest, k);
    assert NobodyLooks(s, k);
    NobodyLooksMeanwhile(c, s, rest, k);
  }

  // ---------------------------------------------------------------- operations that run alone

  lemma Then(c: Config, s: State, e: Event, rest: seq<Event>)
    requires Enabled(c, s, e) && Legal(c, Apply(c, s, e), rest)
    ensures Legal(c, s, [e] + rest) && After(c, s, [e] + rest) == After(c, Apply(c, s, e), rest)
  {
    hide Enabled, Apply;
    assert ([e] + rest)[1..] == rest;
  }

  /** A reader without company finds what is cached, and returns it unless the key is marked or the
      entry is a missing row that the model does not cache. */
  lemma CachedRowIsReturned(c: Config, s: State, id: nat, k: Key)
    requires id !in s.readers && k in s.cache && !s.failures.Reported(k) && (s.cache[k].Some? || c.negatives)
    ensures Legal(c, s, [StartRead(id, k)] + [CacheReadEffect(id)])
    ensures var s2 := After(c, s, [StartRead(id, k)] + [CacheReadEffect(id)]);
      && id in s2.readers && s2.readers[id].Got? && s2.readers[id].seen == Some(s.cache[k])
      && Enabled(c, s2, CacheReadSeen(id)) && Apply(c, s2, CacheReadSeen(id)) == s
  {
    hide F.Failures.Reported, State.StaleWriteBack;
    var s1 := Apply(c, s, StartRead(id, k));
    var s2 := Apply(c, s1, CacheReadEffect(id));
    assert [CacheReadEffect(id)] + [] == [CacheReadEffect(id)];
    Then(c, s1, CacheReadEffect(id), []);
    Then(c, s, StartRead(id, k), [CacheReadEffect(id)]);
    assert s2.readers - {id} == s.readers;
  }

  lemma LoadAlone(c: Config, s: State, id: nat, k: Key)
    requires id in s.readers && s.readers[id] == Missed(k, s.registry.Epoch(k)) && (s.Stored(k).Some? || c.negatives)
    ensures var s1, s2 := SetReader(s, id, Loaded(k, s.registry.Epoch(k), s.Stored(k))), SetReader(s, id, Hooked(k, s.registry.Epoch(k), s.Stored(k)));
      var s3 := SetReader(s, id, Setting(k, s.registry.Epoch(k), s.Stored(k)));
      && Enabled(c, s, StoreReadEffect(id)) && Apply(c, s, StoreReadEffect(id)) == s1
      && Enabled(c, s1, StoreReadSeen(id)) && Apply(c, s1, StoreReadSeen(id)) == s2
      && Enabled(c, s2, HookSeen(id)) && Apply(c, s2, HookSeen(id)) == s3
  {
    hide Registry.Epoch, State.Stored;
    var s1 := SetReader(s, id, Loaded(k, s.registry.Epoch(k), s.Stored(k)));
    var s2 := Apply(c, s1, StoreReadSeen(id));
    assert s1.Unchanged(s1.readers[id]) && s2.readers == SetReader(s, id, Hooked(k, s.registry.Epoch(k), s.Stored(k))).readers;
    assert s2.Unchanged(s2.readers[id]);
    assert Apply(c, s2, HookSeen(id)).readers == SetReader(s, id, Setting(k, s.registry.Epoch(k), s.Stored(k))).readers;
  }

  lemma WriteAlone(c: Config, s: State, id: nat, k: Key, row: Answer)
    requires id in s.readers && s.readers[id] == Setting(k, s.registry.Epoch(k), row)
    ensures var s4 := WithEntry(SetReader(s, id, Wrote(k, s.registry.Epoch(k))), k, Some(row));
      && Enabled(c, s, CacheWriteEffect(id)) && Apply(c, s, CacheWriteEffect(id)) == s4
      && Enabled(c, s4, CacheWriteSeen(id)) && Apply(c, s4, CacheWriteSeen(id)) == Cleared(c, EndReader(s4, id), k)
  {
    hide Registry.Epoch, F.Failures.Clear;
  }

  /** The state after a load without company. */
  function AfterLoad(c: Config, s: State, id: nat, k: Key): State {
    var s4 := WithEntry(SetReader(s, id, Wrote(k, s.registry.Epoch(k))), k, Some(s.Stored(k)));
    Cleared(c, EndReader(s4, id), k)
  }

  function LoadRun(id: nat): seq<Event> {
    [StoreReadEffect(id)] + ([StoreReadSeen(id)] + ([HookSeen(id)] + ([CacheWriteEffect(id)] + ([CacheWriteSeen(id)] + []))))
  }

  lemma LoadRunAlone(c: Config, s: State, id: nat, k: Key)
    requires id in s.readers && s.readers[id] == Missed(k, s.registry.Epoch(k)) && (s.Stored(k).Some? || c.negatives)
    ensures Legal(c, s, LoadRun(id)) && After(c, s, LoadRun(id)) == AfterLoad(c, s, id, k)
  {
    var e, row := s.registry.Epoch(k), s.Stored(k);
    var s1, s2, s3 := SetReader(s, id, Loaded(k, e, row)), SetReader(s, id, Hooked(k, e, row)), SetReader(s, id, Setting(k, e, row));
    var s4 := WithEntry(SetReader(s3, id, Wrote(k, e)), k, Some(row));
    var s5 := Cleared(c, EndReader(s4, id), k);
    hide Apply, Enabled, F.Failures.Clear, Registry.Epoch, State.Stored;
    assert SetReader(s3, id, Wrote(k, e)) == SetReader(s, id, Wrote(k, e));
    LoadAlone(c, s, id, k);
    WriteAlone(c, s3, id, k, row);
    Done(c, s5);
    hide Legal, After, WithEntry, Cleared, SetReader, EndReader;
    Then(c, s4, CacheWriteSeen(id), []);
    Then(c, s3, CacheWriteEffect(id), [CacheWriteSeen(id)] + []);
    Then(c, s2, HookSeen(id), [CacheWriteEffect(id)] + ([CacheWriteSeen(id)] + []));
    Then(c, s1, StoreReadSeen(id), [HookSeen(id)] + ([CacheWriteEffect(id)] + ([CacheWriteSeen(id)] + [])));
    Then(c, s, StoreReadEffect(id), [StoreReadSeen(id)] + ([HookSeen(id)] + ([CacheWriteEffect(id)] + ([CacheWriteSeen(id)] + []))));
  }

  /** A reader without company that did not find its row in the cache leaves the store's row there and
      clears the mark of the key, if it had one. */
  lemma LoadedRowIsCached(c: Config, s: State, id: nat, k: Key)
    requires Inv(c, s) && id in s.readers && s.readers[id] == Missed(k, s.registry.Epoch(k)) && (s.Stored(k).Some? || c.negatives)
    ensures Legal(c, s, LoadRun(id))
    ensures var s' := After(c, s, LoadRun(id));
      && s'.cache == s.cache[k := s.Stored(k)] && s'.store == s.store && s'.registry == s.registry
      && s'.readers == s.readers - {id} && s'.writers == s.writers && !s'.failures.Reported(k)
  {
    InvParts(c, s);
    F.ClearedKeyIsReadable(s.failures, c.failureLimit, k);
    hide Inv, F.Failures.Clear, F.Failures.Reported, Registry.Epoch, Legal, After, Apply, Enabled;
    LoadRunAlone(c, s, id, k);
    assert s.readers[id := Wrote(k, s.registry.Epoch(k))] - {id} == s.readers - {id};
  }

  lemma Done(c: Config, s: State)
    ensures Legal(c, s, []) && After(c, s, []) == s
  {
  }

  /** A reader that starts without finding its row in the cache comes to look for it in the store. */
  lemma MissGoesToTheStore(c: Config, s: State, id: nat, k: Key)
    requires id !in s.readers && k !in s.cache && !s.failures.Reported(k)
    ensures var run := [StartRead(id, k)] + ([CacheReadEffect(id)] + [CacheReadSeen(id)]);
      Legal(c, s, run) && After(c, s, run) == SetReader(s, id, Missed(k, s.registry.Epoch(k)))
  {
    hide F.Failures.Reported, State.StaleWriteBack;
    var s1 := Apply(c, s, StartRead(id, k));
    var s2 := Apply(c, s1, CacheReadEffect(id));
    var s3 := Apply(c, s2, CacheReadSeen(id));
    assert s3 == SetReader(s, id, Missed(k, s.registry.Epoch(k)));
    assert [CacheReadSeen(id)] + [] == [CacheReadSeen(id)];
    Then(c, s2, CacheReadSeen(id), []);
    Then(c, s1, CacheReadEffect(id), [CacheReadSeen(id)]);
    Then(c, s, StartRead(id, k), [CacheReadEffect(id)] + [CacheReadSeen(id)]);
  }

  lemma InvalidateAlone(c: Config, s: State, id: nat, k: Key)
    requires id in s.writers && s.writers[id] == Changed(k) && !s.registry.Exhausted(k) && !s.registry.Bump(c.limit, k).Exhausted(k)
    ensures var s2 := WithBump(c, SetWriter(s, id, Bumped(k)), k);
      var s3 := WithEntry(SetWriter(s2, id, Deleted(k)), k, None);
      && Enabled(c, s, FirstBump(id)) && Apply(c, s, FirstBump(id)) == s2
      && Enabled(c, s2, DeleteEffect(id)) && Apply(c, s2, DeleteEffect(id)) == s3
      && Enabled(c, s3, DeleteSeen(id)) && Apply(c, s3, DeleteSeen(id)) == Cleared(c, WithBump(c, EndWriter(s3, id), k), k)
  {
    hide Registry.Bump, Registry.Epoch, Registry.Exhausted, F.Failures.Clear;
  }

  /** The state after a change without company. */
  function AfterChange(c: Config, s: State, id: nat, k: Key, row: Answer): State {
    var s1 := SetWriter(s, id, Changed(k)).(store := PutRow(s.store, k, row));
    var s2 := WithBump(c, SetWriter(s1, id, Bumped(k)), k);
    var s3 := WithEntry(SetWriter(s2, id, Deleted(k)), k, None);
    Cleared(c, WithBump(c, EndWriter(s3, id), k), k)
  }

  lemma ChangeAlone(c: Config, s: State, id: nat, k: Key, row: Answer)
    requires id !in s.writers && !s.registry.Exhausted(k) && !s.registry.Bump(c.limit, k).Exhausted(k)
    ensures var run := [ChangeStore(id, k, row)] + ([FirstBump(id)] + ([DeleteEffect(id)] + ([DeleteSeen(id)] + [])));
      Legal(c, s, run) && After(c, s, run) == AfterChange(c, s, id, k, row)
  {
    var s1 := SetWriter(s, id, Changed(k)).(store := PutRow(s.store, k, row));
    assert Enabled(c, s, ChangeStore(id, k, row)) && Apply(c, s, ChangeStore(id, k, row)) == s1;
    var s2 := WithBump(c, SetWriter(s1, id, Bumped(k)), k);
    var s3 := WithEntry(SetWriter(s2, id, Deleted(k)), k, None);
    var s4 := Cleared(c, WithBump(c, EndWriter(s3, id), k), k);
    hide Apply, Enabled, F.Failures.Clear, Registry.Bump, Registry.Exhausted;
    InvalidateAlone(c, s1, id, k);
    Done(c, s4);
    hide Legal, After, WithEntry, WithBump, Cleared, SetWriter, EndWriter;
    Then(c, s3, DeleteSeen(id), []);
    Then(c, s2, DeleteEffect(id), [DeleteSeen(id)] + []);
    Then(c, s1, FirstBump(id), [DeleteEffect(id)] + ([DeleteSeen(id)] + []));
    Then(c, s, ChangeStore(id, k, row), [FirstBump(id)] + ([DeleteEffect(id)] + ([DeleteSeen(id)] + [])));
  }

  lemma ChangedState(c: Config, s: State, id: nat, k: Key, row: Answer)
    requires Inv(c, s) && id !in s.writers && s.registry.Epoch(k) + 1 < MAX_SAFE_INTEGER - 1
    ensures !s.registry.Exhausted(k) && !s.registry.Bump(c.limit, k).Exhausted(k)
    ensures var s' := AfterChange(c, s, id, k, row);
      && s'.store == PutRow(s.store, k, row) && s'.cache == s.cache - {k} && s'.registry.Epoch(k) == s.registry.Epoch(k) + 2
      && s'.readers == s.readers && s'.writers == s.writers && !s'.failures.Reported(k)
  {
    InvParts(c, s);
    F.ClearedKeyIsReadable(s.failures, c.failureLimit, k);
    BumpRaises(s.registry, c.limit, k);
    BumpRaises(s.registry.Bump(c.limit, k), c.limit, k);
    hide Inv, Registry.Bump, Registry.Epoch, F.Failures.Clear, F.Failures.Reported;
    assert s.writers[id := Changed(k)][id := Bumped(k)][id := Deleted(k)] - {id} == s.writers;
  }

  /** A change without company leaves the new row in the store, nothing in the cache and no mark, and
      the epoch of the key raised twice. */
  lemma ChangeInvalidates(c: Config, s: State, id: nat, k: Key, row: Answer)
    requires Inv(c, s) && id !in s.writers && s.registry.Epoch(k) + 1 < MAX_SAFE_INTEGER - 1
    ensures var run := [ChangeStore(id, k, row)] + ([FirstBump(id)] + ([DeleteEffect(id)] + ([DeleteSeen(id)] + [])));
      && Legal(c, s, run)
      && var s' := After(c, s, run);
         && s'.Stored(k) == row && (forall q :: q != k ==> s'.Stored(q) == s.Stored(q))
         && s'.cache == s.cache - {k} && s'.registry.Epoch(k) == s.registry.Epoch(k) + 2
         && s'.readers == s.readers && s'.writers == s.writers && !s'.failures.Reported(k)
  {
    hide AfterChange, Inv, Registry.Bump, Registry.Epoch, Registry.Exhausted, F.Failures.Reported, Legal, After, Apply, Enabled;
    ChangedState(c, s, id, k, row);
    ChangeAlone(c, s, id, k, row);
  }

  // ---------------------------------------------------------------- what is cached

  /** No missing row is cached or on its way to the cache. */
  predicate NoNegatives(s: State) {
    && (forall k :: k in s.cache ==> s.cache[k].Some?)
    && (forall id :: id in s.readers && (s.readers[id].Hooked? || s.readers[id].Setting?) ==> s.readers[id].answer.Some?)
  }

  lemma NoNegativesWrite(c: Config, s: State, e: Event)
    requires Enabled(c, s, e) && NoNegatives(s) && OfWriter(e)
    ensures NoNegatives(Apply(c, s, e))
  {
    hide F.Failures.Clear, F.Failures.Mark, F.Failures.Reported, Registry.Bump, Registry.Epoch, Registry.Exhausted, State.StaleWriteBack, State.Unchanged;
  }

  lemma NoNegativesCleanUp(c: Config, s: State, e: Event)
    requires Enabled(c, s, e) && NoNegatives(s) && OfCleanUp(e)
    ensures NoNegatives(Apply(c, s, e))
  {
    hide F.Failures.Clear, F.Failures.Mark, F.Failures.Reported, Registry.Bump, Registry.Epoch, Registry.Exhausted, State.StaleWriteBack, State.Unchanged;
  }

  lemma NoNegativesRead(c: Config, s: State, e: Event)
    requires Enabled(c, s, e) && !c.negatives && NoNegatives(s) && !OfWriter(e) && !OfCleanUp(e)
    ensures NoNegatives(Apply(c, s, e))
  {
    hide F.Failures.Clear, F.Failures.Mark, F.Failures.Reported, Registry.Bump, Registry.Epoch, Registry.Exhausted, State.StaleWriteBack, State.Unchanged, Served;
  }

  /** Missing rows are cached only by models that ask for it. */
  lemma {:induction false} MissingRowsAreCachedOnlyWhenAllowed(c: Config, s: State, run: seq<Event>)
    requires Legal(c, s, run) && !c.negatives && NoNegatives(s)
    ensures NoNegatives(After(c, s, run))
    decreases |run|
  {
    hide Apply, Enabled, NoNegatives;
    if run != [] {
      if OfWriter(run[0]) {
        NoNegativesWrite(c, s, run[0]);
      } else if OfCleanUp(run[0]) {
        NoNegativesCleanUp(c, s, run[0]);
      } else {
        NoNegativesRead(c, s, run[0]);
      }
      MissingRowsAreCachedOnlyWhenAllowed(c, Apply(c, s, run[0]), run[1..]);
    }
  }

  // ---------------------------------------------------------------- nobody is stuck

  /** How far a reader is from its end. */
  function ReaderSteps(r: Reader): nat {
    match r
    case Asked(_, _) => 9
    case Got(_, _, _, _, _) => 8
    case Missed(_, _) => 7
    case Loaded(_, _, _) => 6
    case Hooked(_, _, _) => 5
    case Setting(_, _, _) => 4
    case Wrote(_, _) => 3
    case Cleaning(_, _) => 2
    case Cleaned(_, _) => 1
    case Poisoning(_, _) => 2
    case Poisoned(_, _) => 1
  }

  predicate OfReader(e: Event, id: nat) {
    match e
    case StartRead(i, _) => i == id
    case CacheReadEffect(i) => i == id
    case CacheReadSeen(i) => i == id
    case StoreReadEffect(i) => i == id
    case ReadFailed(i) => i == id
    case StoreReadSeen(i) => i == id
    case HookSeen(i) => i == id
    case CacheWriteEffect(i) => i == id
    case CacheWriteSeen(i) => i == id
    case CacheWriteFails(i) => i == id
    case CleanEffect(i) => i == id
    case CleanSeen(i) => i == id
    case CleanFails(i) => i == id
    case PoisonEffect(i) => i == id
    case PoisonSeen(i) => i == id
    case PoisonFails(i) => i == id
    case _ => false
  }

  lemma CleanUpGoesOn(c: Config, s: State, e: Event, id: nat)
    requires id in s.readers && Enabled(c, s, e) && OfReader(e, id) && OfCleanUp(e)
    ensures id !in Apply(c, s, e).readers || ReaderSteps(Apply(c, s, e).readers[id]) < ReaderSteps(s.readers[id])
  {
    hide F.Failures.Clear, F.Failures.Mark, F.Failures.Reported, Registry.Bump, Registry.Epoch, Registry.Exhausted, State.StaleWriteBack,
      State.Unchanged, Served;
  }

  lemma ReadGoesOn(c: Config, s: State, e: Event, id: nat)
    requires id in s.readers && Enabled(c, s, e) && OfReader(e, id) && !OfCleanUp(e)
    ensures id !in Apply(c, s, e).readers || ReaderSteps(Apply(c, s, e).readers[id]) < ReaderSteps(s.readers[id])
  {
    hide F.Failures.Clear, F.Failures.Mark, F.Failures.Reported, Registry.Bump, Registry.Epoch, Registry.Exhausted, State.StaleWriteBack,
      State.Unchanged, Served;
  }

  function NextOf(r: Reader, id: nat): Event {
    match r
    case Asked(_, _) => CacheReadEffect(id)
    case Got(_, _, _, _, _) => CacheReadSeen(id)
    case Missed(_, _) => StoreReadEffect(id)
    case Loaded(_, _, _) => StoreReadSeen(id)
    case Hooked(_, _, _) => HookSeen(id)
    case Setting(_, _, _) => CacheWriteEffect(id)
    case Wrote(_, _) => CacheWriteSeen(id)
    case Cleaning(_, _) => CleanEffect(id)
    case Cleaned(_, _) => CleanSeen(id)
    case Poisoning(_, _) => PoisonEffect(id)
    case Poisoned(_, _) => PoisonSeen(id)
  }

  /** A reader that has not ended can go on, whatever others do, and each step of its own brings it nearer
      to its end: it takes nine of them at most. */
  lemma ReadersGoOn(c: Config, s: State, id: nat)
    requires id in s.readers
    ensures Enabled(c, s, NextOf(s.readers[id], id)) && OfReader(NextOf(s.readers[id], id), id)
    ensures ReaderSteps(s.readers[id]) <= 9
    ensures forall e :: Enabled(c, s, e) && OfReader(e, id) ==>
      id !in Apply(c, s, e).readers || ReaderSteps(Apply(c, s, e).readers[id]) < ReaderSteps(s.readers[id])
  {
    forall e | Enabled(c, s, e) && OfReader(e, id)
      ensures id !in Apply(c, s, e).readers || ReaderSteps(Apply(c, s, e).readers[id]) < ReaderSteps(s.readers[id])
    {
      hide Apply, ReaderSteps, Enabled, OfReader;
      if OfCleanUp(e) { CleanUpGoesOn(c, s, e, id); } else { ReadGoesOn(c, s, e, id); }
    }
    hide Apply;
  }

  // ---------------------------------------------------------------- outdated reads

  /** The read, if it goes on, has not asked for a cache write (nor, before the hook, for the hook), and the
      epoch has moved since it captured it. */
  predicate Behind(s: State, id: nat, hooked: bool) {
    id in s.readers ==>
      var r := s.readers[id];
      (r.Missed? || r.Loaded? || (hooked && r.Hooked?)) && r.epoch < s.registry.Epoch(r.key)
  }

  lemma RegistryRises(c: Config, s: State, e: Event, k: Key)
    requires Inv(c, s) && Enabled(c, s, e)
    ensures Apply(c, s, e).registry.Epoch(k) >= s.registry.Epoch(k)
  {
    hide F.Failures.Clear, F.Failures.Mark, F.Failures.Reported, Registry.Bump, Registry.Epoch, State.StaleWriteBack, State.Unchanged, MarksOk, KeyOk, ReaderOk;
    forall q | !s.registry.Exhausted(q) ensures s.registry.Bump(c.limit, q).Epoch(k) >= s.registry.Epoch(k) {
      BumpRaises(s.registry, c.limit, q);
    }
  }

  lemma BehindOwnStep(c: Config, s: State, e: Event, id: nat, hooked: bool)
    requires Enabled(c, s, e) && OfReader(e, id) && !e.StartRead? && Behind(s, id, hooked)
    ensures Behind(Apply(c, s, e), id, hooked)
  {
    hide F.Failures.Clear, F.Failures.Mark, F.Failures.Reported, Registry.Bump, Registry.Epoch, State.StaleWriteBack, Served;
  }

  lemma OtherReaderStaysInRead(c: Config, s: State, e: Event, id: nat)
    requires Enabled(c, s, e) && !OfReader(e, id) && !OfWriter(e) && !OfCleanUp(e)
    ensures id in Apply(c, s, e).readers <==> id in s.readers
    ensures id in s.readers ==> Apply(c, s, e).readers[id] == s.readers[id]
  {
    hide F.Failures.Clear, F.Failures.Mark, F.Failures.Reported, Registry.Bump, Registry.Epoch, Registry.Exhausted, State.StaleWriteBack,
      State.Unchanged, Served;
  }

  lemma OtherReaderStays(c: Config, s: State, e: Event, id: nat)
    requires Enabled(c, s, e) && !OfReader(e, id)
    ensures id in Apply(c, s, e).readers <==> id in s.readers
    ensures id in s.readers ==> Apply(c, s, e).readers[id] == s.readers[id]
  {
    if !OfWriter(e) && !OfCleanUp(e) {
      hide *;
      OtherReaderStaysInRead(c, s, e, id);
    } else {
      hide F.Failures.Clear, F.Failures.Mark, F.Failures.Reported, Registry.Bump, Registry.Epoch, Registry.Exhausted, State.StaleWriteBack,
        State.Unchanged;
    }
  }

  /** A read whose epoch moves before it has asked for its cache write never asks for it, and if the epoch
      moves before the hook runs, that is not run either. */
  lemma {:induction false} OutdatedReadsWriteNothing(c: Config, s: State, run: seq<Event>, id: nat, hooked: bool)
    requires Inv(c, s) && Legal(c, s, run) && Behind(s, id, hooked)
    requires forall k :: StartRead(id, k) !in run
    ensures Behind(After(c, s, run), id, hooked)
    decreases |run|
  {
    hide Inv, Apply, Enabled, Registry.Epoch, OfReader;
    if run != [] {
      var e := run[0];
      StepKeepsInv(c, s, e);
      if OfReader(e, id) {
        assert !e.StartRead? by { hide *; assert e in run; if e.StartRead? { StartOfReader(e, id); } }
        BehindOwnStep(c, s, e, id, hooked);
      } else {
        OtherReaderStays(c, s, e, id);
        if id in s.readers { RegistryRises(c, s, e, s.readers[id].key); }
      }
      OutdatedReadsWriteNothing(c, Apply(c, s, e), run[1..], id, hooked);
    }
  }

  lemma StartOfReader(e: Event, id: nat)
    requires e.StartRead? && OfReader(e, id)
    ensures e == StartRead(id, e.key)
  {
  }

  /** A call into the cache may fail before or after it has taken effect, a read of the cache or the store too. */
  lemma EveryCallMayFail(c: Config, s: State, id: nat)
    ensures id in s.readers ==>
      var r := s.readers[id];
      && (r.Asked? || r.Got? || r.Missed? || r.Hooked? ==> Enabled(c, s, ReadFailed(id)))
      && ((r.Setting? || r.Wrote?) && !s.registry.Exhausted(r.key) ==> Enabled(c, s, CacheWriteFails(id)))
      && (r.Cleaning? || r.Cleaned? ==> Enabled(c, s, CleanFails(id)))
      && (r.Poisoning? || r.Poisoned? ==> Enabled(c, s, PoisonFails(id)))
    ensures id in s.writers && (s.writers[id].Bumped? || s.writers[id].Deleted?) ==> Enabled(c, s, DeleteFails(id))
  {
  }
}
