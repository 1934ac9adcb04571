/** The entity cache shared by processes without common epochs. */
module DistributedCache {
  import opened Epochs
  import opened Options
  import opened Rows

  // A reader takes the cache's version of a key together with the miss, before it reads the store,
  // and its write-back names that version. The cache's contract: invalidating a key removes its
  // value and gives it a new version, and a conditional write takes effect only while the version is
  // the one named. What a process decides on its own epochs is left open here: at every such point
  // it may go on, give up or invalidate once more. Writers' invalidations succeed.

  /** `asOf` counts the store changes of the key that an answer has seen; it is history. */
  datatype Entry = Entry(answer: Answer, asOf: nat)

  datatype Reader =
    | Asked(key: Key)                                        // versioned read issued
    | Got(key: Key, version: nat, seen: Option<Entry>)       // versioned read took effect
    | Missed(key: Key, version: nat)                         // store read issued
    | Loaded(key: Key, version: nat, entry: Entry)           // store read took effect
    | Setting(key: Key, version: nat, entry: Entry)          // conditional write issued
    | Wrote(key: Key, written: bool)                         // conditional write took effect
    | Cleaning(key: Key)                                     // clean-up invalidation issued

  /** `number` says which change of the key's row this writer made. */
  datatype Writer =
    | Changed(key: Key, number: nat)  // the store is changed, the invalidation has not taken effect
    | Invalidated(key: Key)           // it took effect, its completion is not yet seen

  datatype State = State(
    store: map<Key, Row>,
    changes: map<Key, nat>,
    versions: map<Key, nat>,
    cache: map<Key, Entry>,
    readers: map<nat, Reader>,
    writers: map<nat, Writer>) {

    function Stored(k: Key): Answer { if k in store then Some(store[k]) else None }
    function Changes(k: Key): nat { if k in changes then changes[k] else 0 }
    function Version(k: Key): nat { if k in versions then versions[k] else 0 }

    /** Change n of k has not been followed by its writer's invalidation. */
    ghost predicate Uninvalidated(k: Key, n: nat) {
      exists w :: w in writers && writers[w] == Changed(k, n)
    }

    /** Every change since the entry was loaded still awaits its invalidation. */
    ghost predicate Excused(k: Key, e: Entry) {
      && e.asOf <= Changes(k)
      && (e.asOf == Changes(k) ==> e.answer == Stored(k))
      && forall n: nat :: e.asOf < n <= Changes(k) ==> Uninvalidated(k, n)
    }
  }

  datatype Event =
    | StartRead(id: nat, key: Key)
    | ReadEffect(id: nat)
    | ReadSeen(id: nat)
    | StoreEffect(id: nat)
    | StoreSeen(id: nat)
    | WriteEffect(id: nat)
    | WriteSeen(id: nat)
    | CleanEffect(id: nat)
    | EndRead(id: nat)
    | ChangeStore(id: nat, key: Key, row: Answer)
    | InvalidateEffect(id: nat)
    | InvalidateSeen(id: nat)
    | Expire(key: Key)

  ghost predicate Enabled(s: State, e: Event) {
    match e
    case StartRead(id, _) => id !in s.readers
    case ReadEffect(id) => id in s.readers && s.readers[id].Asked?
    case ReadSeen(id) => id in s.readers && s.readers[id].Got?
    case StoreEffect(id) => id in s.readers && s.readers[id].Missed?
    case StoreSeen(id) => id in s.readers && s.readers[id].Loaded?
    case WriteEffect(id) => id in s.readers && s.readers[id].Setting?
    case WriteSeen(id) => id in s.readers && s.readers[id].Wrote? && s.readers[id].written
    case CleanEffect(id) => id in s.readers && s.readers[id].Cleaning?
    case EndRead(id) => id in s.readers
    case ChangeStore(id, _, _) => id !in s.writers
    case InvalidateEffect(id) => id in s.writers && s.writers[id].Changed?
    case InvalidateSeen(id) => id in s.writers && s.writers[id].Invalidated?
    case Expire(_) => true
  }

  function Invalidate(s: State, k: Key): State {
    s.(cache := s.cache - {k}, versions := s.versions[k := s.Version(k) + 1])
  }

  function Move(s: State, id: nat, r: Reader): State { s.(readers := s.readers[id := r]) }

  ghost function Apply(s: State, e: Event): State
    requires Enabled(s, e)
  {
    match e
    case StartRead(id, k) => Move(s, id, Asked(k))
    case ReadEffect(id) =>
      var k := s.readers[id].key;
      Move(s, id, Got(k, s.Version(k), if k in s.cache then Some(s.cache[k]) else None))
    case ReadSeen(id) => Move(s, id, Missed(s.readers[id].key, s.readers[id].version))
    case StoreEffect(id) =>
      var r := s.readers[id];
      Move(s, id, Loaded(r.key, r.version, Entry(s.Stored(r.key), s.Changes(r.key))))
    case StoreSeen(id) =>
      var r := s.readers[id];
      Move(s, id, Setting(r.key, r.version, r.entry))
    case WriteEffect(id) =>
      var r := s.readers[id];
      var matches := s.Version(r.key) == r.version;
      Move(s, id, Wrote(r.key, matches)).(cache := if matches then s.cache[r.key := r.entry] else s.cache)
    case WriteSeen(id) => Move(s, id, Cleaning(s.readers[id].key))
    case CleanEffect(id) => Invalidate(s, s.readers[id].key).(readers := s.readers - {id})
    case EndRead(id) => s.(readers := s.readers - {id})
    case ChangeStore(id, k, row) =>
      s.(store := PutRow(s.store, k, row), changes := s.changes[k := s.Changes(k) + 1],
         writers := s.writers[id := Changed(k, s.Changes(k) + 1)])
    case InvalidateEffect(id) =>
      var k := s.writers[id].key;
      Invalidate(s, k).(writers := s.writers[id := Writer.Invalidated(k)])
    case InvalidateSeen(id) => s.(writers := s.writers - {id})
    case Expire(k) => s.(cache := s.cache - {k})
  }

  // ---------------------------------------------------------------- the invariant

  /** A row on its way to the cache is excused, or its conditional write will fail. */
  ghost predicate ReaderOk(s: State, r: Reader) {
    && (r.Got? || r.Missed? || r.Loaded? || r.Setting? ==> r.version <= s.Version(r.key))
    && (r.Loaded? || r.Setting? ==> r.version < s.Version(r.key) || s.Excused(r.key, r.entry))
  }

  ghost predicate Inv(s: State) {
    && (forall id :: id in s.readers ==> ReaderOk(s, s.readers[id]))
    && (forall k :: k in s.cache ==> s.Excused(k, s.cache[k]))
  }

  /** Store, versions and writers are the same; so is what is excused. */
  lemma StillExcused(s: State, s': State)
    requires s'.store == s.store && s'.changes == s.changes && s'.versions == s.versions && s'.writers == s.writers
    ensures forall k: Key, x: Entry :: s'.Excused(k, x) == s.Excused(k, x)
    ensures forall k: Key :: s'.Version(k) == s.Version(k)
  {
    assert forall k: Key, n: nat :: s'.Uninvalidated(k, n) == s.Uninvalidated(k, n);
  }

  lemma ReaderStep(s: State, e: Event)
    requires Inv(s) && Enabled(s, e)
    requires !e.ChangeStore? && !e.InvalidateEffect? && !e.InvalidateSeen? && !e.CleanEffect?
    ensures Inv(Apply(s, e))
  {
    StillExcused(s, Apply(s, e));
    if e.StoreEffect? { FreshIsExcused(s, s.readers[e.id].key); }
    hide State.Excused, State.Version;
  }

  lemma FreshIsExcused(s: State, k: Key)
    ensures s.Excused(k, Entry(s.Stored(k), s.Changes(k)))
  {
  }

  lemma ExcusedAfterChange(s: State, e: Event, k: Key, x: Entry)
    requires Enabled(s, e) && e.ChangeStore? && s.Excused(k, x)
    ensures Apply(s, e).Excused(k, x)
  {
    var s' := Apply(s, e);
    assert s'.writers[e.id] == Changed(e.key, s.Changes(e.key) + 1);
    forall n: nat | x.asOf < n <= s'.Changes(k) ensures s'.Uninvalidated(k, n) {
      if n <= s.Changes(k) {
        assert s.Uninvalidated(k, n);
        var w :| w in s.writers && s.writers[w] == Changed(k, n);
        assert s'.writers[w] == Changed(k, n);
      }
    }
  }

  lemma ChangeStep(s: State, e: Event)
    requires Inv(s) && Enabled(s, e) && e.ChangeStore?
    ensures Inv(Apply(s, e))
  {
    forall k: Key, x: Entry | s.Excused(k, x) ensures Apply(s, e).Excused(k, x) {
      ExcusedAfterChange(s, e, k, x);
    }
    hide State.Excused;
  }

  /** The key being invalidated loses its entry and outdates its readers; other keys keep their writers. */
  lemma InvalidationStep(s: State, e: Event)
    requires Inv(s) && Enabled(s, e) && (e.InvalidateEffect? || e.CleanEffect?)
    ensures Inv(Apply(s, e))
  {
    var s' := Apply(s, e);
    var k0 := if e.CleanEffect? then s.readers[e.id].key else s.writers[e.id].key;
    forall k: Key, x: Entry | k != k0 && s.Excused(k, x) ensures s'.Excused(k, x) {
      forall n: nat | x.asOf < n <= s'.Changes(k) ensures s'.Uninvalidated(k, n) {
        assert s.Uninvalidated(k, n);
        var w :| w in s.writers && s.writers[w] == Changed(k, n);
        assert s'.writers[w] == Changed(k, n);
      }
    }
    hide State.Excused;
  }

  lemma DoneStep(s: State, e: Event)
    requires Inv(s) && Enabled(s, e) && e.InvalidateSeen?
    ensures Inv(Apply(s, e))
  {
    var s' := Apply(s, e);
    forall k: Key, x: Entry | s.Excused(k, x) ensures s'.Excused(k, x) {
      forall n: nat | x.asOf < n <= s'.Changes(k) ensures s'.Uninvalidated(k, n) {
        assert s.Uninvalidated(k, n);
        var w :| w in s.writers && s.writers[w] == Changed(k, n);
        assert s'.writers[w] == Changed(k, n);
      }
    }
  }

  lemma {:induction false} StepKeepsInv(s: State, e: Event)
    requires Inv(s) && Enabled(s, e)
    ensures Inv(Apply(s, e))
  {
    hide *;
    match e
    case ChangeStore(_, _, _) => ChangeStep(s, e);
    case InvalidateEffect(_) => InvalidationStep(s, e);
    case CleanEffect(_) => InvalidationStep(s, e);
    case InvalidateSeen(_) => DoneStep(s, e);
    case _ => ReaderStep(s, e);
  }

  // ---------------------------------------------------------------- runs

  ghost predicate Legal(s: State, run: seq<Event>)
    decreases |run|
  {
    run == [] || (Enabled(s, run[0]) && Legal(Apply(s, run[0]), run[1..]))
  }

  ghost function After(s: State, run: seq<Event>): State
    requires Legal(s, run)
    decreases |run|
  {
    if run == [] then s else After(Apply(s, run[0]), run[1..])
  }

  function Start(store: map<Key, Row>): State { State(store, map[], map[], map[], map[], map[]) }

  lemma {:induction false} RunKeepsInv(s: State, run: seq<Event>)
    requires Inv(s) && Legal(s, run)
    ensures Inv(After(s, run))
    decreases |run|
  {
    hide Inv, Apply, Enabled;
    if run != [] {
      StepKeepsInv(s, run[0]);
      RunKeepsInv(Apply(s, run[0]), run[1..]);
    }
  }

  /** A cached value that differs from the store was loaded before some change of its row, and every
      writer that changed the row since then has not completed its invalidation. So an entry whose
      writers have all had their invalidations take effect equals the store. */
  lemma StaleOnlyUntilInvalidated(store: map<Key, Row>, run: seq<Event>, k: Key)
    requires Legal(Start(store), run) && k in After(Start(store), run).cache
    ensures var s := After(Start(store), run); var x := s.cache[k];
      && (x.answer != s.Stored(k) ==> x.asOf < s.Changes(k) && s.Uninvalidated(k, s.Changes(k)))
      && (forall n: nat :: x.asOf < n <= s.Changes(k) ==> s.Uninvalidated(k, n))
    ensures var s := After(Start(store), run);
      (forall w :: w in s.writers && s.writers[w].key == k ==> s.writers[w].Invalidated?) ==> s.cache[k].answer == s.Stored(k)
  {
    RunKeepsInv(Start(store), run);
    var s := After(Start(store), run);
    assert s.Excused(k, s.cache[k]);
    hide Legal, After;
    if s.cache[k].answer != s.Stored(k) {
      assert s.Uninvalidated(k, s.Changes(k));
    }
  }

  // ---------------------------------------------------------------- write-backs take effect

  // An empty cache is never stale. Here: which write-backs take effect, and that what they wrote is read.

  /** The event invalidates k. */
  predicate Invalidates(s: State, e: Event, k: Key) {
    || (e.InvalidateEffect? && e.id in s.writers && s.writers[e.id].key == k)
    || (e.CleanEffect? && e.id in s.readers && s.readers[e.id].key == k)
  }

  /** The event may change or remove the entry of k. */
  predicate Touches(s: State, e: Event, k: Key) {
    || Invalidates(s, e, k)
    || (e.WriteEffect? && e.id in s.readers && s.readers[e.id].key == k)
    || (e.Expire? && e.key == k)
  }

  ghost predicate NotInvalidated(s: State, run: seq<Event>, k: Key)
    requires Legal(s, run)
    decreases |run|
  {
    run == [] || (!Invalidates(s, run[0], k) && NotInvalidated(Apply(s, run[0]), run[1..], k))
  }

  ghost predicate Untouched(s: State, run: seq<Event>, k: Key)
    requires Legal(s, run)
    decreases |run|
  {
    run == [] || (!Touches(s, run[0], k) && Untouched(Apply(s, run[0]), run[1..], k))
  }

  /** The read goes on, and as long as it names a version, it is v. */
  predicate Names(s: State, id: nat, k: Key, v: nat) {
    && id in s.readers && s.readers[id].key == k && !s.readers[id].Asked?
    && (s.readers[id].Wrote? || s.readers[id].Cleaning? || s.readers[id].version == v)
  }

  predicate Ends(e: Event, id: nat) { e == EndRead(id) || e == CleanEffect(id) }

  lemma NamesStep(s: State, e: Event, id: nat, k: Key, v: nat)
    requires Enabled(s, e) && !Ends(e, id) && Names(s, id, k, v)
    ensures Names(Apply(s, e), id, k, v)
    ensures Apply(s, e).Version(k) == s.Version(k) + if Invalidates(s, e, k) then 1 else 0
  {
  }

  /** Versions count invalidations. */
  lemma {:induction false} VersionTellsInvalidation(s: State, run: seq<Event>, id: nat, k: Key, v: nat)
    requires Legal(s, run) && Names(s, id, k, v) && forall e :: e in run ==> !Ends(e, id)
    ensures var s' := After(s, run);
      Names(s', id, k, v) && s'.Version(k) >= s.Version(k) && (s'.Version(k) == s.Version(k) <==> NotInvalidated(s, run, k))
    decreases |run|
  {
    hide Apply, Enabled, Names, Ends, Invalidates, State.Version;
    if run != [] {
      NamesStep(s, run[0], id, k, v);
      VersionTellsInvalidation(Apply(s, run[0]), run[1..], id, k, v);
    }
  }

  /** A write-back takes effect if and only if no invalidation of its key took effect since the versioned
      read behind it; the cache then holds what the reader loaded, and otherwise what it held before. */
  lemma WriteTakesEffectIffNotInvalidated(s: State, id: nat, run: seq<Event>)
    requires Enabled(s, ReadEffect(id)) && Legal(Apply(s, ReadEffect(id)), run)
    requires (forall e :: e in run ==> !Ends(e, id)) && Enabled(After(Apply(s, ReadEffect(id)), run), WriteEffect(id))
    ensures var k, s1 := s.readers[id].key, Apply(s, ReadEffect(id));
      var s2 := After(s1, run);
      var s3 := Apply(s2, WriteEffect(id));
      && s2.readers[id].key == k
      && s3.cache == (if NotInvalidated(s1, run, k) then s2.cache[k := s2.readers[id].entry] else s2.cache)
      && s3.readers[id] == Wrote(k, NotInvalidated(s1, run, k))
  {
    var k := s.readers[id].key;
    VersionTellsInvalidation(Apply(s, ReadEffect(id)), run, id, k, s.Version(k));
  }

  lemma UntouchedStep(s: State, e: Event, k: Key)
    requires Enabled(s, e) && !Touches(s, e, k)
    ensures k in Apply(s, e).cache <==> k in s.cache
    ensures k in s.cache ==> Apply(s, e).cache[k] == s.cache[k]
  {
  }

  lemma {:induction false} EntryStays(s: State, run: seq<Event>, k: Key)
    requires Legal(s, run) && Untouched(s, run, k) && k in s.cache
    ensures k in After(s, run).cache && After(s, run).cache[k] == s.cache[k]
    decreases |run|
  {
    hide Apply, Enabled, Touches;
    if run != [] {
      UntouchedStep(s, run[0], k);
      EntryStays(Apply(s, run[0]), run[1..], k);
    }
  }

  /** What a write-back stored is what every versioned read answers until something else of the key takes
      effect; a read after an invalidation answers nothing. */
  lemma ReadersSeeWhatWasWritten(s: State, e: Event, run: seq<Event>, reader: nat)
    requires Enabled(s, e) && Legal(Apply(s, e), run) && Enabled(After(Apply(s, e), run), ReadEffect(reader))
    requires var k := After(Apply(s, e), run).readers[reader].key; Touches(s, e, k) && Untouched(Apply(s, e), run, k)
    ensures var s2 := After(Apply(s, e), run);
      var k := s2.readers[reader].key;
      var answer := Apply(s2, ReadEffect(reader)).readers[reader];
      && answer.Got? && answer.key == k
      && (Invalidates(s, e, k) || e.Expire? ==> answer.seen == None)
      && (e.WriteEffect? && s.readers[e.id].version == s.Version(k) ==> answer.seen == Some(s.readers[e.id].entry))
  {
    var s2 := After(Apply(s, e), run);
    var k := s2.readers[reader].key;
    if k in Apply(s, e).cache { EntryStays(Apply(s, e), run, k); } else { NothingStays(Apply(s, e), run, k); }
    hide Legal, After;
  }

  lemma {:induction false} NothingStays(s: State, run: seq<Event>, k: Key)
    requires Legal(s, run) && Untouched(s, run, k) && k !in s.cache
    ensures k !in After(s, run).cache
    decreases |run|
  {
    hide Apply, Enabled, Touches;
    if run != [] {
      UntouchedStep(s, run[0], k);
      NothingStays(Apply(s, run[0]), run[1..], k);
    }
  }

  // ---------------------------------------------------------------- operations that run alone

  lemma Then(s: State, e: Event, rest: seq<Event>)
    requires Enabled(s, e) && Legal(Apply(s, e), rest)
    ensures Legal(s, [e] + rest) && After(s, [e] + rest) == After(Apply(s, e), rest)
  {
    hide Enabled, Apply;
    assert ([e] + rest)[1..] == rest;
  }

  lemma Done(s: State)
    ensures Legal(s, []) && After(s, []) == s
  {
  }

  /** Three events in a row. */
  lemma Three(s: State, a: Event, b: Event, c: Event)
    requires Enabled(s, a) && Enabled(Apply(s, a), b) && Enabled(Apply(Apply(s, a), b), c)
    ensures Legal(s, [a] + ([b] + ([c] + []))) && After(s, [a] + ([b] + ([c] + []))) == Apply(Apply(Apply(s, a), b), c)
  {
    hide Enabled, Apply;
    var s1 := Apply(s, a);
    var s2 := Apply(s1, b);
    Done(Apply(s2, c));
    hide Legal, After;
    Then(s2, c, []);
    Then(s1, b, [c] + []);
    Then(s, a, [b] + ([c] + []));
  }

  lemma ChangeSteps(s: State, id: nat, k: Key, row: Answer)
    requires id !in s.writers
    ensures var s1 := Apply(s, ChangeStore(id, k, row));
      && Enabled(s, ChangeStore(id, k, row)) && Enabled(s1, InvalidateEffect(id))
      && var s2 := Apply(s1, InvalidateEffect(id));
         && Enabled(s2, InvalidateSeen(id))
         && var s3 := Apply(s2, InvalidateSeen(id));
            && s3.store == PutRow(s.store, k, row) && s3.cache == s.cache - {k} && s3.Version(k) == s.Version(k) + 1
            && s3.writers == s.writers - {id} && s3.readers == s.readers
  {
    hide PutRow;
  }

  /** A change run alone leaves the new row in the store, nothing in the cache, a new version and nothing
      under way. */
  lemma ChangeInvalidates(s: State, id: nat, k: Key, row: Answer)
    requires id !in s.writers
    ensures var run := [ChangeStore(id, k, row)] + ([InvalidateEffect(id)] + ([InvalidateSeen(id)] + []));
      && Legal(s, run)
      && var s' := After(s, run);
         && s'.Stored(k) == row && (forall q :: q != k ==> s'.Stored(q) == s.Stored(q))
         && s'.cache == s.cache - {k} && s'.Version(k) == s.Version(k) + 1 && s'.writers == s.writers && s'.readers == s.readers
  {
    hide Legal, After, Enabled, Apply;
    ChangeSteps(s, id, k, row);
    Three(s, ChangeStore(id, k, row), InvalidateEffect(id), InvalidateSeen(id));
    assert s.writers - {id} == s.writers;
  }

  lemma LookAlone(s: State, id: nat, k: Key)
    requires id !in s.readers && k !in s.cache
    ensures var run := [StartRead(id, k)] + ([ReadEffect(id)] + ([ReadSeen(id)] + []));
      Legal(s, run) && After(s, run) == Move(s, id, Missed(k, s.Version(k)))
  {
    var s1 := Apply(s, StartRead(id, k));
    var s2 := Apply(s1, ReadEffect(id));
    assert s1 == Move(s, id, Asked(k)) && s2 == Move(s, id, Got(k, s.Version(k), None));
    assert Apply(s2, ReadSeen(id)) == Move(s, id, Missed(k, s.Version(k)));
    Three(s, StartRead(id, k), ReadEffect(id), ReadSeen(id));
  }

  lemma LoadSteps(s: State, id: nat, k: Key)
    requires id in s.readers && s.readers[id] == Missed(k, s.Version(k))
    ensures var x := Entry(s.Stored(k), s.Changes(k));
      var s1, s2 := Move(s, id, Loaded(k, s.Version(k), x)), Move(s, id, Setting(k, s.Version(k), x));
      && Enabled(s, StoreEffect(id)) && Apply(s, StoreEffect(id)) == s1
      && Enabled(s1, StoreSeen(id)) && Apply(s1, StoreSeen(id)) == s2
      && Enabled(s2, WriteEffect(id)) && Apply(s2, WriteEffect(id)) == Move(s, id, Wrote(k, true)).(cache := s.cache[k := x])
  {
  }

  lemma LoadAlone(s: State, id: nat, k: Key)
    requires id in s.readers && s.readers[id] == Missed(k, s.Version(k))
    ensures var run := [StoreEffect(id)] + ([StoreSeen(id)] + ([WriteEffect(id)] + []));
      Legal(s, run) && After(s, run) == Move(s, id, Wrote(k, true)).(cache := s.cache[k := Entry(s.Stored(k), s.Changes(k))])
  {
    hide *;
    LoadSteps(s, id, k);
    Three(s, StoreEffect(id), StoreSeen(id), WriteEffect(id));
  }

  lemma EndsAlone(s: State, id: nat, k: Key)
    requires id in s.readers && s.readers[id] == Wrote(k, true)
    ensures Enabled(s, EndRead(id)) && Apply(s, EndRead(id)) == s.(readers := s.readers - {id})
    ensures Enabled(s, WriteSeen(id)) && Enabled(Apply(s, WriteSeen(id)), CleanEffect(id))
    ensures var s' := Apply(Apply(s, WriteSeen(id)), CleanEffect(id));
      s'.readers == s.readers - {id} && s'.cache == s.cache - {k} && s'.Version(k) == s.Version(k) + 1
  {
  }

  /** A read run alone that finds nothing leaves the store's row in the cache; it can then end, or clean up
      and end, which leaves nothing. */
  lemma MissIsCached(s: State, id: nat, k: Key)
    requires id !in s.readers && k !in s.cache
    ensures var look := [StartRead(id, k)] + ([ReadEffect(id)] + ([ReadSeen(id)] + []));
      var load := [StoreEffect(id)] + ([StoreSeen(id)] + ([WriteEffect(id)] + []));
      && Legal(s, look) && Legal(After(s, look), load)
      && var s' := After(After(s, look), load);
         && s'.cache == s.cache[k := Entry(s.Stored(k), s.Changes(k))] && s'.store == s.store && s'.versions == s.versions
         && Enabled(s', EndRead(id)) && Apply(s', EndRead(id)) == s'.(readers := s.readers)
         && Enabled(s', WriteSeen(id)) && Enabled(Apply(s', WriteSeen(id)), CleanEffect(id))
         && Apply(Apply(s', WriteSeen(id)), CleanEffect(id)).readers == s.readers
         && k !in Apply(Apply(s', WriteSeen(id)), CleanEffect(id)).cache
  {
    hide Legal, After, Enabled, Apply;
    LookAlone(s, id, k);
    var s1 := Move(s, id, Missed(k, s.Version(k)));
    LoadAlone(s1, id, k);
    var s' := Move(s1, id, Wrote(k, true)).(cache := s.cache[k := Entry(s.Stored(k), s.Changes(k))]);
    EndsAlone(s', id, k);
    assert s'.readers - {id} == s.readers;
  }
}
