/** The entity cache against the store, within one process. */
module EntityCache {
  import opened Epochs
  import opened FailureRegistry
  import opened Options
  import opened Rows

  // Readers load on a miss and write back; writers change the store and then invalidate. Every
  // adapter call is split into the moment it takes effect and the moment its completion is seen, and
  // the steps of all readers and writers interleave freely. A reader of a batch is several readers
  // of one key here: the batch runs are among the interleavings. Cache writes and deletes may fail,
  // with or without taking effect; the key of a failed delete is marked, and hits of marked keys are
  // not served. Hooks leave payloads unchanged.

  datatype Reader =
    | Asked(key: Key, epoch: nat)                               // cache read issued
    | Got(key: Key, epoch: nat, seen: Option<Answer>, besideStale: bool, failed: nat) // cache read took effect
    | Missed(key: Key, epoch: nat)                              // store read issued
    | Loaded(key: Key, epoch: nat, answer: Answer)              // store read took effect
    | Hooked(key: Key, epoch: nat, answer: Answer)              // beforeCacheSet hook running
    | Setting(key: Key, epoch: nat, answer: Answer)             // cache write issued
    | Wrote(key: Key, epoch: nat)                               // cache write took effect
    | Cleaning(key: Key, epoch: nat)                            // clean-up delete issued
    | Cleaned(key: Key, epoch: nat)                             // clean-up delete took effect
    | Poisoning(key: Key, epoch: nat)                           // delete after a failed write issued
    | Poisoned(key: Key, epoch: nat)                            // that delete took effect

  datatype Writer =
    | Changed(key: Key)   // the store holds the new row; the epoch is not yet bumped
    | Bumped(key: Key)    // first bump done, delete issued
    | Deleted(key: Key)   // the delete took effect, its completion is not yet seen

  /** History: `tainted` are the keys with an entry that a delete failed to remove and that nothing has
      removed or replaced since; `overlooked` are those of them whose mark was cleared all the same;
      `failed` counts the failed deletes of a key. */
  datatype State = State(
    store: map<Key, Row>,
    cache: map<Key, Answer>,
    registry: Registry,
    failures: Failures,
    readers: map<nat, Reader>,
    writers: map<nat, Writer>,
    tainted: set<Key>,
    overlooked: set<Key>,
    failed: map<Key, nat>) {

    function Stored(k: Key): Answer { if k in store then Some(store[k]) else None }

    function FailedDeletes(k: Key): nat { if k in failed then failed[k] else 0 }

    /** cacheEpochUnchanged */
    predicate Unchanged(r: Reader) { registry.Epoch(r.key) == r.epoch }

    ghost predicate PendingDelete(k: Key) {
      exists w :: w in writers && Deletes(writers[w], k)
    }

    ghost predicate ChangePending(k: Key) {
      exists w :: w in writers && writers[w] == Changed(k)
    }

    ghost predicate Invalidating(k: Key) {
      exists w :: w in writers && writers[w].key == k
    }

    /** A reader that has written an outdated row, or whose write failed, and is going to delete it. */
    predicate Mends(r: Reader) {
      r.Poisoning? || ((r.Wrote? || r.Cleaning?) && r.epoch < registry.Epoch(r.key))
    }

    ghost predicate StaleWriteBack(k: Key) {
      exists r :: r in readers && readers[r].key == k && Mends(readers[r])
    }

    ghost predicate InFlight(k: Key) {
      || (exists r :: r in readers && readers[r].key == k)
      || Invalidating(k)
    }
  }

  /** A writer that has not deleted yet. */
  predicate Deletes(w: Writer, k: Key) { w.key == k && (w.Changed? || w.Bumped?) }

  /** The limits bound the epoch and failure registries; negatives says whether the model caches missing rows. */
  datatype Config = Config(limit: nat, failureLimit: nat, negatives: bool)

  datatype Event =
    | StartRead(id: nat, key: Key)
    | CacheReadEffect(id: nat)
    | CacheReadSeen(id: nat)
    | StoreReadEffect(id: nat)
    | StoreReadSeen(id: nat)
    | ReadFailed(id: nat)
    | HookSeen(id: nat)
    | CacheWriteEffect(id: nat)
    | CacheWriteSeen(id: nat)
    | CacheWriteFails(id: nat)
    | CleanEffect(id: nat)
    | CleanSeen(id: nat)
    | CleanFails(id: nat)
    | PoisonEffect(id: nat)
    | PoisonSeen(id: nat)
    | PoisonFails(id: nat)
    | ChangeStore(id: nat, key: Key, row: Answer)
    | FirstBump(id: nat)
    | DeleteEffect(id: nat)
    | DeleteSeen(id: nat)
    | DeleteFails(id: nat)
    | Expire(key: Key)

  predicate Enabled(c: Config, s: State, e: Event) {
    match e
    case StartRead(id, _) => id !in s.readers
    case CacheReadEffect(id) => id in s.readers && s.readers[id].Asked?
    case CacheReadSeen(id) => id in s.readers && s.readers[id].Got?
    case StoreReadEffect(id) => id in s.readers && s.readers[id].Missed?
    case ReadFailed(id) => id in s.readers && (s.readers[id].Asked? || s.readers[id].Got? || s.readers[id].Missed? || s.readers[id].Hooked?)
    case StoreReadSeen(id) => id in s.readers && s.readers[id].Loaded?
    case HookSeen(id) => id in s.readers && s.readers[id].Hooked?
    case CacheWriteEffect(id) => id in s.readers && s.readers[id].Setting?
    case CacheWriteSeen(id) => id in s.readers && s.readers[id].Wrote?
    case CacheWriteFails(id) => id in s.readers && (s.readers[id].Setting? || s.readers[id].Wrote?) && !s.registry.Exhausted(s.readers[id].key)
    case CleanEffect(id) => id in s.readers && s.readers[id].Cleaning?
    case CleanSeen(id) => id in s.readers && s.readers[id].Cleaned?
    case CleanFails(id) => id in s.readers && (s.readers[id].Cleaning? || s.readers[id].Cleaned?)
    case PoisonEffect(id) => id in s.readers && s.readers[id].Poisoning?
    case PoisonSeen(id) => id in s.readers && s.readers[id].Poisoned?
    case PoisonFails(id) => id in s.readers && (s.readers[id].Poisoning? || s.readers[id].Poisoned?)
    case ChangeStore(id, _, _) => id !in s.writers
    case FirstBump(id) => id in s.writers && s.writers[id].Changed? && !s.registry.Exhausted(s.writers[id].key)
    case DeleteEffect(id) => id in s.writers && s.writers[id].Bumped?
    case DeleteSeen(id) => id in s.writers && s.writers[id].Deleted? && !s.registry.Exhausted(s.writers[id].key)
    case DeleteFails(id) => id in s.writers && (s.writers[id].Bumped? || s.writers[id].Deleted?)
    case Expire(_) => true
  }

  function SetReader(s: State, id: nat, r: Reader): State { s.(readers := s.readers[id := r]) }
  function EndReader(s: State, id: nat): State { s.(readers := s.readers - {id}) }
  function SetWriter(s: State, id: nat, w: Writer): State { s.(writers := s.writers[id := w]) }
  function EndWriter(s: State, id: nat): State { s.(writers := s.writers - {id}) }

  function WithBump(c: Config, s: State, k: Key): State { s.(registry := s.registry.Bump(c.limit, k)) }

  /** markCacheInvalidationFailure */
  function Marked(c: Config, s: State, k: Key): State {
    s.(failures := s.failures.Mark(c.failureLimit, k), tainted := s.tainted + {k}, overlooked := s.overlooked - {k},
       failed := s.failed[k := s.FailedDeletes(k) + 1])
  }

  /** clearCacheInvalidationFailure */
  function Cleared(c: Config, s: State, k: Key): State {
    s.(failures := s.failures.Clear(c.failureLimit, k), overlooked := if k in s.tainted then s.overlooked + {k} else s.overlooked)
  }

  /** The entry of k is removed or replaced. */
  function WithEntry(s: State, k: Key, entry: Option<Answer>): State {
    s.(cache := if entry.Some? then s.cache[k := entry.value] else s.cache - {k},
       tainted := s.tainted - {k}, overlooked := s.overlooked - {k})
  }

  /** The hit a reader returns: a cached null counts only when the model caches missing rows. */
  predicate Served(c: Config, s: State, r: Reader)
    requires r.Got?
  {
    r.seen.Some? && (r.seen.value.Some? || c.negatives) && !s.failures.Reported(r.key) && s.Unchanged(r)
  }

  ghost function Apply(c: Config, s: State, e: Event): State
    requires Enabled(c, s, e)
  {
    match e
    case StartRead(id, k) =>
      SetReader(s, id, if s.failures.Reported(k) then Missed(k, s.registry.Epoch(k)) else Asked(k, s.registry.Epoch(k)))
    case CacheReadEffect(id) =>
      var r := s.readers[id];
      SetReader(s, id, Got(r.key, r.epoch, if r.key in s.cache then Some(s.cache[r.key]) else None,
                           s.StaleWriteBack(r.key) || r.key in s.tainted, s.FailedDeletes(r.key)))
    case CacheReadSeen(id) =>
      var r := s.readers[id];
      // A hit is served when the key is not marked and its epoch unchanged; else the store is read.
      if Served(c, s, r) then EndReader(s, id) else SetReader(s, id, Missed(r.key, r.epoch))
    case StoreReadEffect(id) =>
      var r := s.readers[id];
      SetReader(s, id, Loaded(r.key, r.epoch, s.Stored(r.key)))
    case ReadFailed(id) => EndReader(s, id)
    case StoreReadSeen(id) =>
      var r := s.readers[id];
      if s.Unchanged(r) && (r.answer.Some? || c.negatives)
      then SetReader(s, id, Hooked(r.key, r.epoch, r.answer)) else EndReader(s, id)
    case HookSeen(id) =>
      var r := s.readers[id];
      if s.Unchanged(r) then SetReader(s, id, Setting(r.key, r.epoch, r.answer)) else EndReader(s, id)
    case CacheWriteEffect(id) =>
      var r := s.readers[id];
      WithEntry(SetReader(s, id, Wrote(r.key, r.epoch)), r.key, Some(r.answer))
    case CacheWriteSeen(id) =>
      var r := s.readers[id];
      if s.Unchanged(r) then Cleared(c, EndReader(s, id), r.key) else SetReader(s, id, Cleaning(r.key, r.epoch))
    case CacheWriteFails(id) =>
      var r := s.readers[id];
      WithBump(c, SetReader(s, id, Poisoning(r.key, r.epoch)), r.key)
    case CleanEffect(id) =>
      var r := s.readers[id];
      WithEntry(SetReader(s, id, Cleaned(r.key, r.epoch)), r.key, None)
    case CleanSeen(id) => EndReader(s, id)
    case CleanFails(id) => Marked(c, EndReader(s, id), s.readers[id].key)
    case PoisonEffect(id) =>
      var r := s.readers[id];
      WithEntry(SetReader(s, id, Poisoned(r.key, r.epoch)), r.key, None)
    case PoisonSeen(id) => Cleared(c, EndReader(s, id), s.readers[id].key)
    case PoisonFails(id) => Marked(c, EndReader(s, id), s.readers[id].key)
    case ChangeStore(id, k, row) => SetWriter(s, id, Changed(k)).(store := PutRow(s.store, k, row))
    case FirstBump(id) => WithBump(c, SetWriter(s, id, Bumped(s.writers[id].key)), s.writers[id].key)
    case DeleteEffect(id) => WithEntry(SetWriter(s, id, Deleted(s.writers[id].key)), s.writers[id].key, None)
    case DeleteSeen(id) => Cleared(c, WithBump(c, EndWriter(s, id), s.writers[id].key), s.writers[id].key)
    case DeleteFails(id) => Marked(c, EndWriter(s, id), s.writers[id].key)
    case Expire(k) => WithEntry(s, k, None)
  }

  // ---------------------------------------------------------------- the invariant

  /** Something is still going to remove the entry, or a delete of it failed. */
  ghost predicate Covered(s: State, k: Key) { s.PendingDelete(k) || s.StaleWriteBack(k) || k in s.tainted }

  /** A row on its way to the cache is fresh, or its reader is out of date, or a change is not yet bumped. */
  ghost predicate LoadedOk(s: State, r: Reader) {
    r.Loaded? || r.Hooked? || r.Setting? ==>
      || r.answer == s.Stored(r.key)
      || r.epoch < s.registry.Epoch(r.key)
      || s.ChangePending(r.key)
  }

  /** A hit on its way to the caller, read while no stale write-back was pending and no failed delete
      had left the entry. */
  ghost predicate GotOk(s: State, r: Reader) {
    r.Got? ==>
      && r.failed <= s.FailedDeletes(r.key)
      && (r.seen.Some? && !r.besideStale ==>
            || r.seen.value == s.Stored(r.key) || r.epoch < s.registry.Epoch(r.key) || s.Invalidating(r.key)
            || r.failed < s.FailedDeletes(r.key))
  }

  ghost predicate ReaderOk(s: State, r: Reader) {
    r.epoch <= s.registry.Epoch(r.key) && LoadedOk(s, r) && GotOk(s, r)
  }

  ghost predicate KeyOk(s: State, k: Key) {
    k in s.cache ==> s.cache[k] == s.Stored(k) || Covered(s, k)
  }

  /** The registry of failures has overflowed at least once, and since then reports keys that did not fail. */
  predicate Overflowed(f: Failures) { f.Failures? && f.poisonGeneration > 0 }

  /** A key with a tainted entry is reported as failed, or its mark was cleared too early. */
  ghost predicate MarksOk(c: Config, s: State) {
    && s.failures.Valid(c.failureLimit)
    && (forall k :: k in s.tainted ==> s.failures.Reported(k) || k in s.overlooked)
    && (forall k :: k in s.overlooked ==> k in s.tainted)
    && (!Overflowed(s.failures) ==> forall k :: k in s.overlooked ==> !s.failures.Reported(k))
  }

  ghost predicate Inv(c: Config, s: State) {
    && c.limit >= 1 && c.failureLimit >= 1
    && s.registry.Valid(c.limit) && MarksOk(c, s)
    && (forall id :: id in s.readers ==> ReaderOk(s, s.readers[id]))
    && (forall k :: KeyOk(s, k))
  }

  lemma MarkedMarks(c: Config, s: State, k: Key)
    requires c.failureLimit >= 1 && MarksOk(c, s)
    ensures MarksOk(c, Marked(c, s, k))
  {
    MarkIsValid(s.failures, c.failureLimit, k);
    forall q | q == k || s.failures.Reported(q) ensures s.failures.Mark(c.failureLimit, k).Reported(q) {
      MarkReports(s.failures, c.failureLimit, k, q);
    }
  }

  lemma ClearedMarks(c: Config, s: State, k: Key)
    requires c.failureLimit >= 1 && MarksOk(c, s)
    ensures MarksOk(c, Cleared(c, s, k))
  {
    ClearIsValid(s.failures, c.failureLimit, k);
    ClearedKeyIsReadable(s.failures, c.failureLimit, k);
    forall q | q != k && s.failures.Reported(q) ensures s.failures.Clear(c.failureLimit, k).Reported(q) {
      ClearOfOtherKey(s.failures, c.failureLimit, k, q);
    }
  }

  // ---------------------------------------------------------------- every step keeps it

  /** A step on key k0: elsewhere nothing changed, apart from epochs that may have risen. */
  ghost predicate StepOn(s: State, s': State, k0: Key) {
    && NoneLower(s.registry, s'.registry)
    && (forall j :: j in s.readers && s.readers[j].key != k0 ==> j in s'.readers && s'.readers[j] == s.readers[j])
    && (forall j :: j in s'.readers && s'.readers[j].key != k0 ==> j in s.readers && s'.readers[j] == s.readers[j])
    && (forall w :: w in s.writers && s.writers[w].key != k0 ==> w in s'.writers && s'.writers[w] == s.writers[w])
    && (forall k :: k != k0 ==>
          && (k in s'.cache <==> k in s.cache) && (k in s.cache ==> s'.cache[k] == s.cache[k])
          && s'.Stored(k) == s.Stored(k) && (k in s.tainted ==> k in s'.tainted) && s'.FailedDeletes(k) == s.FailedDeletes(k))
  }

  lemma ElsewhereKey(s: State, s': State, k0: Key, k: Key)
    requires StepOn(s, s', k0) && k != k0 && KeyOk(s, k)
    ensures KeyOk(s', k)
  {
    hide Registry.Epoch;
    if s.PendingDelete(k) {
      var w :| w in s.writers && Deletes(s.writers[w], k);
      assert Deletes(s'.writers[w], k);
    }
    if s.StaleWriteBack(k) {
      var r :| r in s.readers && s.readers[r].key == k && s.Mends(s.readers[r]);
      assert s'.registry.Epoch(k) >= s.registry.Epoch(k);
      assert s'.readers[r].key == k && s'.Mends(s'.readers[r]);
    }
  }

  /** What an operation on the key of a reader may do to it: raise the epoch, fail a delete, or leave
      what the reader relies on. */
  ghost predicate Supports(s: State, s': State, k: Key) {
    var raised := s'.registry.Epoch(k) > s.registry.Epoch(k);
    && s'.registry.Epoch(k) >= s.registry.Epoch(k) && s'.FailedDeletes(k) >= s.FailedDeletes(k)
    && (s'.Stored(k) == s.Stored(k) || s'.ChangePending(k))
    && (s.ChangePending(k) ==> s'.ChangePending(k) || raised)
    && (s.Invalidating(k) ==> s'.Invalidating(k) || raised || s'.FailedDeletes(k) > s.FailedDeletes(k))
  }

  lemma ReaderKept(s: State, s': State, r: Reader)
    requires ReaderOk(s, r) && Supports(s, s', r.key)
    ensures ReaderOk(s', r)
  {
    hide Registry.Epoch, State.Stored;
    if w :| w in s'.writers && s'.writers[w] == Changed(r.key) { assert s'.writers[w].key == r.key; }
  }

  lemma ElsewhereSupports(s: State, s': State, k0: Key, k: Key)
    requires StepOn(s, s', k0) && k != k0
    ensures Supports(s, s', k)
  {
    hide Registry.Epoch;
    assert s'.registry.Epoch(k) >= s.registry.Epoch(k);
    if w :| w in s.writers && s.writers[w] == Changed(k) { assert s'.writers[w] == Changed(k); }
    if w :| w in s.writers && s.writers[w].key == k { assert s'.writers[w].key == k; }
  }

  /** What a step on k0 still has to show: that k0 is covered, and the reader that moved. */
  lemma Assemble(c: Config, s: State, s': State, k0: Key, id: nat)
    requires Inv(c, s) && StepOn(s, s', k0) && s'.registry.Valid(c.limit) && MarksOk(c, s') && KeyOk(s', k0) && Supports(s, s', k0)
    requires forall j :: j in s'.readers && j != id ==> j in s.readers && s'.readers[j] == s.readers[j]
    requires id in s'.readers ==> ReaderOk(s', s'.readers[id]) || (id in s.readers && s'.readers[id] == s.readers[id])
    ensures Inv(c, s')
  {
    hide MarksOk, Supports, Registry.Valid, ReaderOk, KeyOk;
    forall k ensures KeyOk(s', k) {
      assert KeyOk(s, k);
      if k != k0 { ElsewhereKey(s, s', k0, k); }
    }
    forall j | j in s'.readers ensures ReaderOk(s', s'.readers[j]) {
      if j in s.readers && s'.readers[j] == s.readers[j] {
        if s.readers[j].key != k0 { ElsewhereSupports(s, s', k0, s.readers[j].key); }
        ReaderKept(s, s', s.readers[j]);
      }
    }
  }

  /** Only reader id of key k0 changed among the readers. */
  ghost predicate OnlyReader(s: State, s': State, id: nat, k0: Key) {
    && (id in s.readers ==> s.readers[id].key == k0)
    && (id in s'.readers ==> s'.readers[id].key == k0)
    && (forall j :: j != id ==> (j in s'.readers <==> j in s.readers))
    && (forall j :: j != id && j in s.readers ==> s'.readers[j] == s.readers[j])
  }

  /** Another reader's mending of k0 goes on, and so does a writer's delete. */
  lemma CoverKept(s: State, s': State, id: nat, k0: Key)
    requires OnlyReader(s, s', id, k0) && s'.writers == s.writers && (k0 in s.tainted ==> k0 in s'.tainted) && Covered(s, k0)
    requires s'.registry.Epoch(k0) >= s.registry.Epoch(k0)
    requires id in s.readers && s.Mends(s.readers[id]) ==> id in s'.readers && s'.Mends(s'.readers[id])
    ensures Covered(s', k0)
  {
    hide Registry.Epoch;
    if s.StaleWriteBack(k0) {
      var r :| r in s.readers && s.readers[r].key == k0 && s.Mends(s.readers[r]);
      assert s'.readers[r].key == k0 && s'.Mends(s'.readers[r]);
    }
    if s.PendingDelete(k0) {
      var w :| w in s.writers && Deletes(s.writers[w], k0);
      assert Deletes(s'.writers[w], k0);
    }
  }

  lemma SameWriters(s: State, s': State, k0: Key)
    requires s'.writers == s.writers && s'.Stored(k0) == s.Stored(k0) && s'.FailedDeletes(k0) >= s.FailedDeletes(k0)
    requires s'.registry.Epoch(k0) >= s.registry.Epoch(k0)
    ensures Supports(s, s', k0)
  {
    if w :| w in s.writers && s.writers[w] == Changed(k0) { assert s'.writers[w] == Changed(k0); }
    if w :| w in s.writers && s.writers[w].key == k0 { assert s'.writers[w].key == k0; }
  }

  /** Reader id moves; if the entry of its key is not replaced, it does not stop mending it unless the
      entry is tainted now. */
  lemma ReaderStep(c: Config, s: State, s': State, id: nat, k0: Key)
    requires Inv(c, s) && OnlyReader(s, s', id, k0) && MarksOk(c, s') && s'.registry.Valid(c.limit) && NoneLower(s.registry, s'.registry)
    requires s'.store == s.store && s'.writers == s.writers && s'.FailedDeletes(k0) >= s.FailedDeletes(k0)
    requires forall k :: k != k0 ==>
      && (k in s'.cache <==> k in s.cache) && (k in s.cache ==> s'.cache[k] == s.cache[k])
      && (k in s.tainted ==> k in s'.tainted) && s'.FailedDeletes(k) == s.FailedDeletes(k)
    requires id in s'.readers ==> ReaderOk(s', s'.readers[id])
    requires || KeyOk(s', k0)
             || (&& (k0 in s'.cache ==> k0 in s.cache && s'.cache[k0] == s.cache[k0]) && (k0 in s.tainted ==> k0 in s'.tainted)
                 && (id in s.readers && s.Mends(s.readers[id]) ==> id in s'.readers && s'.Mends(s'.readers[id])))
    ensures Inv(c, s')
  {
    hide Registry.Epoch, MarksOk, ReaderOk, Registry.Valid, State.Mends, State.PendingDelete, State.StaleWriteBack, State.FailedDeletes;
    assert KeyOk(s, k0) && s'.registry.Epoch(k0) >= s.registry.Epoch(k0);
    if Covered(s, k0) && !KeyOk(s', k0) { CoverKept(s, s', id, k0); }
    assert s'.Stored(k0) == s.Stored(k0);
    SameWriters(s, s', k0);
    hide Covered, Supports;
    Assemble(c, s, s', k0, id);
  }

  predicate IsQuiet(e: Event) {
    e.StartRead? || e.CacheReadSeen? || e.StoreReadEffect? || e.ReadFailed? || e.StoreReadSeen? || e.HookSeen? || e.CleanSeen?
  }

  lemma {:induction false} ReadingReader(c: Config, s: State, e: Event)
    requires Inv(c, s) && Enabled(c, s, e) && (e.StartRead? || e.CacheReadSeen? || e.StoreReadEffect? || e.ReadFailed? || e.CleanSeen?)
    ensures var s' := Apply(c, s, e); e.id in s'.readers ==> ReaderOk(s', s'.readers[e.id])
  {
    hide Registry.Epoch, MarksOk, Registry.Valid, Covered, KeyOk, Failures.Reported, State.ChangePending, State.Invalidating;
    if e.id in s.readers { assert s.readers[e.id].epoch <= s.registry.Epoch(s.readers[e.id].key) by { assert ReaderOk(s, s.readers[e.id]); } }
    hide Inv;
  }

  /** A row moves on towards the cache in an unchanged state. */
  lemma RowKept(s: State, s': State, r: Reader, r': Reader)
    requires ReaderOk(s, r) && (r.Loaded? || r.Hooked?) && (r'.Hooked? || r'.Setting?)
    requires r'.key == r.key && r'.epoch == r.epoch && r'.answer == r.answer
    requires s'.writers == s.writers && s'.store == s.store && s'.registry == s.registry
    ensures ReaderOk(s', r')
  {
    hide Registry.Epoch;
    if s.ChangePending(r.key) { assert s'.ChangePending(r.key); }
  }

  lemma {:induction false} LoadingReader(c: Config, s: State, e: Event)
    requires Inv(c, s) && Enabled(c, s, e) && (e.StoreReadSeen? || e.HookSeen?)
    ensures var s' := Apply(c, s, e); e.id in s'.readers ==> ReaderOk(s', s'.readers[e.id])
  {
    assert ReaderOk(s, s.readers[e.id]);
    hide Registry.Epoch, Inv, ReaderOk, State.Unchanged;
    var s' := Apply(c, s, e);
    if e.id in s'.readers { RowKept(s, s', s.readers[e.id], s'.readers[e.id]); }
  }

  lemma {:induction false} QuietReader(c: Config, s: State, e: Event)
    requires Inv(c, s) && Enabled(c, s, e) && IsQuiet(e)
    ensures var s' := Apply(c, s, e); e.id in s'.readers ==> ReaderOk(s', s'.readers[e.id])
  {
    hide Inv, Apply, Enabled, ReaderOk;
    if e.StoreReadSeen? || e.HookSeen? { LoadingReader(c, s, e); } else { ReadingReader(c, s, e); }
  }

  /** The key of a quiet step. */
  function QuietKey(s: State, e: Event): Key
    requires IsQuiet(e) && (e.StartRead? || e.id in s.readers)
  {
    if e.StartRead? then e.key else s.readers[e.id].key
  }

  lemma ReadingShape(c: Config, s: State, e: Event)
    requires Enabled(c, s, e) && (e.StartRead? || e.StoreReadEffect? || e.ReadFailed? || e.CleanSeen?)
    ensures e.StartRead? || e.id in s.readers
    ensures var s' := Apply(c, s, e); s' == s.(readers := s'.readers) && OnlyReader(s, s', e.id, QuietKey(s, e))
  {
    hide Registry.Epoch, Failures.Reported;
  }

  lemma LoadingShape(c: Config, s: State, e: Event)
    requires Enabled(c, s, e) && (e.CacheReadSeen? || e.StoreReadSeen? || e.HookSeen?)
    ensures e.StartRead? || e.id in s.readers
    ensures var s' := Apply(c, s, e); s' == s.(readers := s'.readers) && OnlyReader(s, s', e.id, QuietKey(s, e))
  {
    hide Registry.Epoch, Failures.Reported, State.Unchanged, Served;
  }

  lemma QuietShape(c: Config, s: State, e: Event)
    requires Enabled(c, s, e) && IsQuiet(e)
    ensures e.StartRead? || e.id in s.readers
    ensures var s' := Apply(c, s, e); s' == s.(readers := s'.readers) && OnlyReader(s, s', e.id, QuietKey(s, e))
  {
    hide Apply, Enabled, OnlyReader;
    if e.CacheReadSeen? || e.StoreReadSeen? || e.HookSeen? { LoadingShape(c, s, e); } else { ReadingShape(c, s, e); }
  }

  lemma QuietMendsNothing(c: Config, s: State, e: Event)
    requires Enabled(c, s, e) && IsQuiet(e)
    ensures e.id in s.readers ==> !s.Mends(s.readers[e.id])
  {
    hide Registry.Epoch;
  }

  lemma {:induction false} QuietStep(c: Config, s: State, e: Event)
    requires Inv(c, s) && Enabled(c, s, e) && IsQuiet(e)
    ensures Inv(c, Apply(c, s, e))
  {
    hide Registry.Epoch, Registry.Valid, MarksOk, KeyOk, Inv, ReaderOk, Covered, Apply, Enabled, State.Mends, OnlyReader;
    var s' := Apply(c, s, e);
    QuietReader(c, s, e);
    QuietShape(c, s, e);
    QuietMendsNothing(c, s, e);
    InvParts(c, s);
    EndedMarks(c, s, s');
    ReaderStep(c, s, s', e.id, QuietKey(s, e));
  }

  lemma InvParts(c: Config, s: State)
    requires Inv(c, s)
    ensures MarksOk(c, s) && s.registry.Valid(c.limit) && c.limit >= 1 && c.failureLimit >= 1
  {
  }

  lemma {:induction false} CacheReadStep(c: Config, s: State, e: Event)
    requires Inv(c, s) && Enabled(c, s, e) && e.CacheReadEffect?
    ensures Inv(c, Apply(c, s, e))
  {
    hide Registry.Epoch, Registry.Valid, MarksOk;
    var s', k0 := Apply(c, s, e), s.readers[e.id].key;
    assert ReaderOk(s, s.readers[e.id]) && KeyOk(s, k0);
    hide Inv;
    if s.PendingDelete(k0) {
      var w :| w in s.writers && Deletes(s.writers[w], k0);
      assert s'.writers[w].key == k0;
    }
    InvParts(c, s);
    EndedMarks(c, s, s');
    assert ReaderOk(s', s'.readers[e.id]);
    hide KeyOk, ReaderOk, Covered, State.Mends;
    ReaderStep(c, s, s', e.id, k0);
  }

  /** The row that a reader writes back is fresh, or its reader will delete it, or a writer will. */
  lemma WrittenKey(c: Config, s: State, e: Event)
    requires Inv(c, s) && Enabled(c, s, e) && e.CacheWriteEffect?
    ensures var s', k0 := Apply(c, s, e), s.readers[e.id].key; KeyOk(s', k0) && ReaderOk(s', s'.readers[e.id])
  {
    hide Registry.Epoch, Registry.Valid, MarksOk;
    var s', k0 := Apply(c, s, e), s.readers[e.id].key;
    assert ReaderOk(s, s.readers[e.id]);
    hide Inv;
    if s.readers[e.id].epoch < s.registry.Epoch(k0) {
      assert s'.readers[e.id].key == k0 && s'.Mends(s'.readers[e.id]);
    } else if s.readers[e.id].answer != s.Stored(k0) {
      var w :| w in s.writers && s.writers[w] == Changed(k0);
      assert Deletes(s'.writers[w], k0);
    }
  }

  lemma TouchedMarks(c: Config, s: State, k: Key, entry: Option<Answer>)
    requires MarksOk(c, s)
    ensures MarksOk(c, WithEntry(s, k, entry))
  {
  }

  lemma {:induction false} CacheWriteStep(c: Config, s: State, e: Event)
    requires Inv(c, s) && Enabled(c, s, e) && e.CacheWriteEffect?
    ensures Inv(c, Apply(c, s, e))
  {
    hide Registry.Epoch, Registry.Valid, MarksOk, KeyOk, Inv, ReaderOk, Covered, State.Mends;
    var s', r := Apply(c, s, e), s.readers[e.id];
    WrittenKey(c, s, e);
    InvParts(c, s);
    EndedMarks(c, s, SetReader(s, e.id, Wrote(r.key, r.epoch)));
    TouchedMarks(c, SetReader(s, e.id, Wrote(r.key, r.epoch)), r.key, Some(r.answer));
    ReaderStep(c, s, s', e.id, r.key);
  }

  /** A write-back is over and its epoch unchanged: the mark is cleared. */
  lemma {:induction false} StableWriteStep(c: Config, s: State, e: Event)
    requires Inv(c, s) && Enabled(c, s, e) && e.CacheWriteSeen? && s.Unchanged(s.readers[e.id])
    ensures Inv(c, Apply(c, s, e))
  {
    hide Registry.Epoch, Registry.Valid, MarksOk, KeyOk, Covered, Failures.Clear, Inv, ReaderOk;
    var s', r := Apply(c, s, e), s.readers[e.id];
    InvParts(c, s);
    EndedMarks(c, s, EndReader(s, e.id));
    ClearedMarks(c, EndReader(s, e.id), r.key);
    ReaderStep(c, s, s', e.id, r.key);
  }

  /** Otherwise it is cleaned up. */
  lemma {:induction false} StaleWriteStep(c: Config, s: State, e: Event)
    requires Inv(c, s) && Enabled(c, s, e) && e.CacheWriteSeen? && !s.Unchanged(s.readers[e.id])
    ensures Inv(c, Apply(c, s, e))
  {
    hide Registry.Epoch, Registry.Valid, MarksOk, KeyOk, Covered;
    var s', r := Apply(c, s, e), s.readers[e.id];
    assert ReaderOk(s, r);
    hide Inv;
    InvParts(c, s);
    EndedMarks(c, s, s');
    ReaderStep(c, s, s', e.id, r.key);
  }

  /** The reader's delete fails, and its key is marked. */
  lemma {:induction false} ReaderFailsStep(c: Config, s: State, e: Event)
    requires Inv(c, s) && Enabled(c, s, e) && (e.CleanFails? || e.PoisonFails?)
    ensures Inv(c, Apply(c, s, e))
  {
    hide Registry.Epoch, Registry.Valid, MarksOk, Inv, ReaderOk, State.Mends, State.PendingDelete, State.StaleWriteBack, Failures.Mark;
    var s', r := Apply(c, s, e), s.readers[e.id];
    InvParts(c, s);
    EndedMarks(c, s, EndReader(s, e.id));
    MarkedMarks(c, EndReader(s, e.id), r.key);
    assert KeyOk(s', r.key);
    hide KeyOk, Covered;
    ReaderStep(c, s, s', e.id, r.key);
  }

  /** A failed write-back: the epoch is bumped and the entry will be deleted. */
  lemma {:induction false} CacheWriteFailsStep(c: Config, s: State, e: Event)
    requires Inv(c, s) && Enabled(c, s, e) && e.CacheWriteFails?
    ensures Inv(c, Apply(c, s, e))
  {
    hide Registry.Epoch, Registry.Valid, Registry.Bump, MarksOk, KeyOk, Covered;
    var s', r := Apply(c, s, e), s.readers[e.id];
    assert ReaderOk(s, r);
    hide Inv;
    InvParts(c, s);
    BumpRaises(s.registry, c.limit, r.key);
    assert s'.registry.Epoch(r.key) >= s.registry.Epoch(r.key);
    EndedMarks(c, s, s');
    ReaderStep(c, s, s', e.id, r.key);
  }

  /** A reader's delete takes effect. */
  lemma {:induction false} MendedStep(c: Config, s: State, e: Event)
    requires Inv(c, s) && Enabled(c, s, e) && (e.CleanEffect? || e.PoisonEffect?)
    ensures Inv(c, Apply(c, s, e))
  {
    hide Registry.Epoch, Registry.Valid, MarksOk;
    var s', r := Apply(c, s, e), s.readers[e.id];
    assert ReaderOk(s, r);
    hide Inv, Covered;
    InvParts(c, s);
    var moved := SetReader(s, e.id, s'.readers[e.id]);
    EndedMarks(c, s, moved);
    TouchedMarks(c, moved, r.key, None);
    assert s' == WithEntry(moved, r.key, None) && KeyOk(s', r.key) && ReaderOk(s', s'.readers[e.id]);
    assert OnlyReader(s, s', e.id, r.key);
    hide KeyOk, OnlyReader, ReaderOk, State.Mends;
    ReaderStep(c, s, s', e.id, r.key);
  }

  /** The delete after a failed write is over. */
  lemma {:induction false} PoisonSeenStep(c: Config, s: State, e: Event)
    requires Inv(c, s) && Enabled(c, s, e) && e.PoisonSeen?
    ensures Inv(c, Apply(c, s, e))
  {
    hide Registry.Epoch, Registry.Valid, MarksOk, Inv, Covered, KeyOk, ReaderOk, Failures.Clear;
    var s', r := Apply(c, s, e), s.readers[e.id];
    InvParts(c, s);
    EndedMarks(c, s, EndReader(s, e.id));
    ClearedMarks(c, EndReader(s, e.id), r.key);
    ReaderStep(c, s, s', e.id, r.key);
  }

  lemma EndedMarks(c: Config, s: State, s': State)
    requires MarksOk(c, s) && s'.failures == s.failures && s'.tainted == s.tainted && s'.overlooked == s.overlooked
    ensures MarksOk(c, s')
  {
  }

  /** Only writer id of key k0 changed among the writers, and no reader. */
  ghost predicate OnlyWriter(s: State, s': State, id: nat, k0: Key) {
    && s'.readers == s.readers
    && (id in s.writers ==> s.writers[id].key == k0)
    && (forall j :: j != id ==> (j in s'.writers <==> j in s.writers))
    && (forall j :: j != id && j in s.writers ==> s'.writers[j] == s.writers[j])
  }

  /** What other writers of k0 support goes on; readers that mend it go on too. */
  lemma OtherWriters(s: State, s': State, id: nat, k0: Key)
    requires OnlyWriter(s, s', id, k0) && s'.registry.Epoch(k0) >= s.registry.Epoch(k0) && (k0 in s.tainted ==> k0 in s'.tainted)
    ensures Covered(s, k0) ==> Covered(s', k0) || (id in s.writers && Deletes(s.writers[id], k0))
    ensures s.ChangePending(k0) ==> s'.ChangePending(k0) || (id in s.writers && s.writers[id] == Changed(k0))
    ensures s.Invalidating(k0) ==> s'.Invalidating(k0) || id in s.writers
  {
    hide Registry.Epoch;
    if s.StaleWriteBack(k0) {
      var r :| r in s.readers && s.readers[r].key == k0 && s.Mends(s.readers[r]);
      assert s'.readers[r].key == k0 && s'.Mends(s'.readers[r]);
    }
    if s.PendingDelete(k0) {
      var w :| w in s.writers && Deletes(s.writers[w], k0);
      if w != id { assert Deletes(s'.writers[w], k0); }
    }
    if w :| w in s.writers && s.writers[w] == Changed(k0) { if w != id { assert s'.writers[w] == Changed(k0); } }
    if w :| w in s.writers && s.writers[w].key == k0 { if w != id { assert s'.writers[w].key == k0; } }
  }

  /** Writer id moves: k0 stays covered and its readers keep what they rely on. */
  lemma WriterStep(c: Config, s: State, s': State, id: nat, k0: Key)
    requires Inv(c, s) && OnlyWriter(s, s', id, k0) && MarksOk(c, s') && s'.registry.Valid(c.limit) && NoneLower(s.registry, s'.registry)
    requires forall k :: k != k0 ==>
      && (k in s'.cache <==> k in s.cache) && (k in s.cache ==> s'.cache[k] == s.cache[k]) && s'.Stored(k) == s.Stored(k)
      && (k in s.tainted ==> k in s'.tainted) && s'.FailedDeletes(k) == s.FailedDeletes(k)
    requires KeyOk(s', k0) && Supports(s, s', k0)
    ensures Inv(c, s')
  {
    hide Registry.Epoch, MarksOk, ReaderOk, Registry.Valid, KeyOk, Supports;
    Assemble(c, s, s', k0, 0);
  }

  lemma {:induction false} ChangeStoreStep(c: Config, s: State, e: Event)
    requires Inv(c, s) && Enabled(c, s, e) && e.ChangeStore?
    ensures Inv(c, Apply(c, s, e))
  {
    hide Registry.Epoch, Registry.Valid, MarksOk, Inv, ReaderOk, State.Mends;
    var s' := Apply(c, s, e);
    InvParts(c, s);
    EndedMarks(c, s, s');
    assert s'.writers[e.id] == Changed(e.key) && Deletes(s'.writers[e.id], e.key);
    assert s'.PendingDelete(e.key) && s'.ChangePending(e.key) && s'.Invalidating(e.key);
    hide State.PendingDelete, State.ChangePending, State.Invalidating, State.StaleWriteBack;
    assert KeyOk(s', e.key) && Supports(s, s', e.key);
    hide KeyOk, Supports, Covered;
    WriterStep(c, s, s', e.id, e.key);
  }

  lemma {:induction false} FirstBumpStep(c: Config, s: State, e: Event)
    requires Inv(c, s) && Enabled(c, s, e) && e.FirstBump?
    ensures Inv(c, Apply(c, s, e))
  {
    hide Registry.Epoch, Registry.Valid, Registry.Bump, MarksOk, ReaderOk, State.Mends;
    var s', k0 := Apply(c, s, e), s.writers[e.id].key;
    assert KeyOk(s, k0);
    hide Inv;
    InvParts(c, s);
    BumpRaises(s.registry, c.limit, k0);
    assert s'.registry.Epoch(k0) > s.registry.Epoch(k0);
    EndedMarks(c, s, s');
    OtherWriters(s, s', e.id, k0);
    assert s'.writers[e.id].key == k0 && Deletes(s'.writers[e.id], k0);
    assert s'.PendingDelete(k0) && s'.Invalidating(k0);
    hide State.PendingDelete, State.ChangePending, State.Invalidating, State.StaleWriteBack;
    assert KeyOk(s', k0) && Supports(s, s', k0);
    hide KeyOk, Supports, Covered;
    WriterStep(c, s, s', e.id, k0);
  }

  lemma {:induction false} DeleteEffectStep(c: Config, s: State, e: Event)
    requires Inv(c, s) && Enabled(c, s, e) && e.DeleteEffect?
    ensures Inv(c, Apply(c, s, e))
  {
    hide Registry.Epoch, Registry.Valid, MarksOk, ReaderOk, State.Mends, Inv;
    var s', k0 := Apply(c, s, e), s.writers[e.id].key;
    InvParts(c, s);
    EndedMarks(c, s, SetWriter(s, e.id, Deleted(k0)));
    TouchedMarks(c, SetWriter(s, e.id, Deleted(k0)), k0, None);
    assert s'.writers[e.id].key == k0;
    assert s'.Invalidating(k0) && KeyOk(s', k0);
    if w :| w in s.writers && s.writers[w] == Changed(k0) { assert s'.writers[w] == Changed(k0); }
    hide State.PendingDelete, State.ChangePending, State.Invalidating, State.StaleWriteBack, KeyOk, Covered;
    assert Supports(s, s', k0);
    WriterStep(c, s, s', e.id, k0);
  }

  lemma {:induction false} DeleteSeenStep(c: Config, s: State, e: Event)
    requires Inv(c, s) && Enabled(c, s, e) && e.DeleteSeen?
    ensures Inv(c, Apply(c, s, e))
  {
    hide Registry.Epoch, Registry.Valid, Registry.Bump, MarksOk, ReaderOk, State.Mends, Failures.Clear;
    var s', k0 := Apply(c, s, e), s.writers[e.id].key;
    assert KeyOk(s, k0);
    hide Inv;
    InvParts(c, s);
    BumpRaises(s.registry, c.limit, k0);
    assert s'.registry.Epoch(k0) > s.registry.Epoch(k0);
    EndedMarks(c, s, WithBump(c, EndWriter(s, e.id), k0));
    ClearedMarks(c, WithBump(c, EndWriter(s, e.id), k0), k0);
    OtherWriters(s, s', e.id, k0);
    hide State.PendingDelete, State.ChangePending, State.Invalidating, State.StaleWriteBack, Covered;
    assert KeyOk(s', k0) && Supports(s, s', k0);
    hide KeyOk, Supports;
    WriterStep(c, s, s', e.id, k0);
  }

  lemma {:induction false} DeleteFailsStep(c: Config, s: State, e: Event)
    requires Inv(c, s) && Enabled(c, s, e) && e.DeleteFails?
    ensures Inv(c, Apply(c, s, e))
  {
    hide Registry.Epoch, Registry.Valid, MarksOk, ReaderOk, State.Mends, Inv, Failures.Mark;
    var s', k0 := Apply(c, s, e), s.writers[e.id].key;
    InvParts(c, s);
    EndedMarks(c, s, EndWriter(s, e.id));
    MarkedMarks(c, EndWriter(s, e.id), k0);
    OtherWriters(s, s', e.id, k0);
    hide State.PendingDelete, State.ChangePending, State.Invalidating, State.StaleWriteBack;
    assert KeyOk(s', k0) && Supports(s, s', k0);
    hide KeyOk, Supports, Covered;
    WriterStep(c, s, s', e.id, k0);
  }

  lemma {:induction false} ExpireStep(c: Config, s: State, k0: Key)
    requires Inv(c, s)
    ensures Inv(c, Apply(c, s, Expire(k0)))
  {
    hide Registry.Epoch, Registry.Valid, MarksOk, ReaderOk, State.Mends, Inv;
    var s' := WithEntry(s, k0, None);
    InvParts(c, s);
    TouchedMarks(c, s, k0, None);
    SameWriters(s, s', k0);
    assert KeyOk(s', k0);
    hide KeyOk, Supports, Covered, State.PendingDelete, State.StaleWriteBack;
    Assemble(c, s, s', k0, 0);
  }

  lemma {:induction false} StepKeepsInv(c: Config, s: State, e: Event)
    requires Inv(c, s) && Enabled(c, s, e)
    ensures Inv(c, Apply(c, s, e))
  {
    hide Inv, Apply;
    match e
    case CacheReadEffect(_) => CacheReadStep(c, s, e);
    case CacheWriteEffect(_) => CacheWriteStep(c, s, e);
    case CacheWriteSeen(id) => if s.Unchanged(s.readers[id]) { StableWriteStep(c, s, e); } else { StaleWriteStep(c, s, e); }
    case CacheWriteFails(_) => CacheWriteFailsStep(c, s, e);
    case CleanEffect(_) => MendedStep(c, s, e);
    case CleanFails(_) => ReaderFailsStep(c, s, e);
    case PoisonEffect(_) => MendedStep(c, s, e);
    case PoisonSeen(_) => PoisonSeenStep(c, s, e);
    case PoisonFails(_) => ReaderFailsStep(c, s, e);
    case ChangeStore(_, _, _) => ChangeStoreStep(c, s, e);
    case FirstBump(_) => FirstBumpStep(c, s, e);
    case DeleteEffect(_) => DeleteEffectStep(c, s, e);
    case DeleteSeen(_) => DeleteSeenStep(c, s, e);
    case DeleteFails(_) => DeleteFailsStep(c, s, e);
    case Expire(k) => ExpireStep(c, s, k);
    case _ => QuietStep(c, s, e);
  }

  // ---------------------------------------------------------------- runs

  ghost predicate Legal(c: Config, s: State, run: seq<Event>)
    decreases |run|
  {
    run == [] || (Enabled(c, s, run[0]) && Legal(c, Apply(c, s, run[0]), run[1..]))
  }

  ghost function After(c: Config, s: State, run: seq<Event>): State
    requires Legal(c, s, run)
    decreases |run|
  {
    if run == [] then s else After(c, Apply(c, s, run[0]), run[1..])
  }

  /** Nothing cached, nothing in flight; the store holds anything. */
  function Start(store: map<Key, Row>): State {
    State(store, map[], EmptyRegistry(), NoEntry, map[], map[], {}, {}, map[])
  }

  predicate LimitsOk(c: Config) { c.limit >= 1 && c.failureLimit >= 1 }

  lemma {:induction false} RunKeepsInv(c: Config, s: State, run: seq<Event>)
    requires Inv(c, s) && Legal(c, s, run)
    ensures Inv(c, After(c, s, run))
    decreases |run|
  {
    hide Inv, Apply, Enabled;
    if run != [] {
      StepKeepsInv(c, s, run[0]);
      RunKeepsInv(c, Apply(c, s, run[0]), run[1..]);
    }
  }

  /** In every interleaving a cached value that differs from the store is still going to be deleted, by a
      writer of that key that has not deleted yet or by a reader that wrote it back with an outdated
      epoch, or a delete has failed and left it. */
  lemma StaleEntriesAreCovered(c: Config, store: map<Key, Row>, run: seq<Event>, k: Key)
    requires LimitsOk(c) && Legal(c, Start(store), run)
    ensures var s := After(c, Start(store), run);
      k in s.cache && s.cache[k] != s.Stored(k) ==> s.PendingDelete(k) || s.StaleWriteBack(k) || k in s.tainted
    ensures var s := After(c, Start(store), run);
      k in s.cache && s.cache[k] != s.Stored(k) && !s.InFlight(k) ==> k in s.tainted
  {
    RunKeepsInv(c, Start(store), run);
    assert KeyOk(After(c, Start(store), run), k);
  }

  /** The hit a reader ends with: if no stale write-back and no failed delete of the key was
      pending when the cache was read, and no delete of it has failed since, then it equals the store
      now, unless an invalidation of the key is still in flight. The bump after the delete is what makes
      this hold once that invalidation is over. */
  lemma ServedHitsAreCurrent(c: Config, store: map<Key, Row>, run: seq<Event>, id: nat)
    requires LimitsOk(c) && Legal(c, Start(store), run)
    requires var s := After(c, Start(store), run);
      Enabled(c, s, CacheReadSeen(id)) && id !in Apply(c, s, CacheReadSeen(id)).readers
      && !s.readers[id].besideStale && s.readers[id].failed == s.FailedDeletes(s.readers[id].key)
    ensures var s := After(c, Start(store), run); var r := s.readers[id];
      r.seen.value == s.Stored(r.key) || s.Invalidating(r.key)
  {
    RunKeepsInv(c, Start(store), run);
    var s := After(c, Start(store), run);
    assert ReaderOk(s, s.readers[id]);
  }
}
