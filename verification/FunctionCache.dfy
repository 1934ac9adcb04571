/** The function cache within one process. */
module FunctionCache {
  import opened Options
  import opened OrderedMaps
  import opened Epochs

  // Adapter calls succeed and hooks leave the payload unchanged. Reads, background refreshes, set()
  // and invalidate() of any keys interleave; an adapter call takes effect at one step and its
  // completion is seen at a later one. Writes of one key take turns in arrival order (WriteTurns
  // derives that from the promise chain).

  datatype Kind = Backfill | Refresh | Authoritative

  /** A value on its way to the adapter. `started` is when its factory or its set() began. */
  datatype Write = Write(key: Key, kind: Kind, epoch: nat, publication: nat, started: nat)

  datatype Phase = Computing | Hooked | Queued | Setting | Wrote | Cleaning | Cleaned

  datatype Op =
    | Reading(key: Key, epoch: nat, publication: nat, refresh: bool)
    | Writing(w: Write, phase: Phase)
    | Invalidating(key: Key, deleted: bool)
  {
    function Of(): Key { if Writing? then w.key else key }
    /** Holding the turn of its key. */
    predicate InSection() { Writing? && (phase.Setting? || phase.Wrote? || phase.Cleaning? || phase.Cleaned?) }
  }

  datatype Entry = Entry(writer: nat, kind: Kind, started: nat)

  datatype Publication = Publication(time: nat, writer: nat)

  /** `begun`, `published` and `dropped` are history: when the latest set() or invalidate() of a key
      began, its latest published refresh, and the keys whose latest set() found, at its turn, that
      the epoch had moved although nothing began after it, and left an older value in place. */
  datatype State = State(
    adapter: map<Key, Entry>,
    registry: PairRegistry,
    ops: map<nat, Op>,
    queues: map<Key, seq<nat>>,
    clock: nat,
    begun: map<Key, nat>,
    published: map<Key, Publication>,
    dropped: set<Key>) {

    function Queue(k: Key): seq<nat> { if k in queues then queues[k] else [] }
    function LastBegun(k: Key): nat { if k in begun then begun[k] else 0 }
    function LastPublished(k: Key): Publication { if k in published then published[k] else Publication(0, 0) }

    predicate EpochUnchanged(w: Write) { registry.Invalidation(w.key) == w.epoch }
    predicate PublicationUnchanged(w: Write) {
      w.kind.Authoritative? || registry.Publication(w.key) == w.publication
    }

    ghost predicate AtRest(k: Key) { forall id :: id in ops ==> ops[id].Of() != k }

    /** The entry was put there by the latest set(), or computed by a factory that started after the
        latest set() or invalidate() began. */
    predicate FreshAfterWrites(k: Key) { k in adapter ==> adapter[k].started >= LastBegun(k) }

    /** No backfill older than the latest published refresh. */
    predicate FreshAfterRefresh(k: Key) {
      k in adapter && !adapter[k].kind.Authoritative? ==>
        adapter[k].started > LastPublished(k).time || adapter[k].writer == LastPublished(k).writer
    }
  }

  datatype Event =
    | StartGet(key: Key)
    | StartRefresh(key: Key)
    | StartBackgroundRefresh(key: Key)
    | ReadHit(id: nat)
    | ReadMiss(id: nat)
    | FactoryFailed(id: nat)
    | FactoryDone(id: nat)
    | Enqueue(id: nat)
    | StartTurn(id: nat)
    | SetEffect(id: nat)
    | SetSeen(id: nat)
    | CleanEffect(id: nat)
    | CleanSeen(id: nat)
    | BeginSet(key: Key)
    | BeginInvalidate(key: Key)
    | DeleteEffect(id: nat)
    | DeleteSeen(id: nat)
    | Expire(key: Key)

  predicate InPhase(s: State, id: nat, p: Phase) {
    id in s.ops && s.ops[id].Writing? && s.ops[id].phase == p
  }

  predicate Enabled(s: State, e: Event) {
    match e
    case ReadHit(id) => id in s.ops && s.ops[id].Reading? && !s.ops[id].refresh
    case ReadMiss(id) => id in s.ops && s.ops[id].Reading?
    case FactoryFailed(id) => InPhase(s, id, Computing)
    case FactoryDone(id) => InPhase(s, id, Computing)
    case Enqueue(id) => InPhase(s, id, Hooked)
    case StartTurn(id) => InPhase(s, id, Queued) && s.Queue(s.ops[id].Of()) != [] && s.Queue(s.ops[id].Of())[0] == id
    case SetEffect(id) => InPhase(s, id, Setting)
    case SetSeen(id) => InPhase(s, id, Wrote) && s.Queue(s.ops[id].Of()) != []
    case CleanEffect(id) => InPhase(s, id, Cleaning)
    case CleanSeen(id) => InPhase(s, id, Cleaned) && s.Queue(s.ops[id].Of()) != []
    case DeleteEffect(id) => id in s.ops && s.ops[id].Invalidating? && !s.ops[id].deleted
    case DeleteSeen(id) => id in s.ops && s.ops[id].Invalidating? && s.ops[id].deleted
    case _ => true
  }

  /** One operation appears, changes or (with None) ends, and the clock ticks. */
  function Move(s: State, id: nat, op: Option<Op>): State {
    s.(ops := if op.Some? then s.ops[id := op.value] else s.ops - {id}, clock := s.clock + 1)
  }

  function InPlace(s: State, id: nat, p: Phase): State
    requires id in s.ops && s.ops[id].Writing?
  {
    Move(s, id, Some(s.ops[id].(phase := p)))
  }

  /** The operation ends and the next in line gets its turn. */
  function EndTurn(s: State, id: nat, k: Key): State
    requires s.Queue(k) != []
  {
    Move(s, id, None).(queues := s.queues[k := s.Queue(k)[1..]])
  }

  function Remove(s: State, k: Key): State { s.(adapter := s.adapter - {k}, dropped := s.dropped - {k}) }

  function DoStartGet(s: State, k: Key): State {
    Move(s, s.clock, Some(Reading(k, s.registry.Invalidation(k), s.registry.Publication(k), false)))
  }

  function DoStartRefresh(limit: nat, s: State, k: Key): State {
    var r := s.registry.BumpPublication(limit, k);
    Move(s, s.clock, Some(Reading(k, s.registry.Invalidation(k), r.Publication(k), true))).(registry := r)
  }

  function DoStartBackgroundRefresh(s: State, k: Key): State {
    Move(s, s.clock, Some(Writing(Write(k, Refresh, s.registry.Invalidation(k), s.registry.Publication(k), s.clock), Computing)))
  }

  /** The factory starts: the invalidation epoch is captured now, the publication epoch was captured
      when the read began, unless an invalidation came in between. */
  function DoReadMiss(s: State, id: nat): State
    requires id in s.ops && s.ops[id].Reading?
  {
    var op := s.ops[id];
    var now := s.registry.Invalidation(op.key);
    var publication := if now == op.epoch then op.publication else s.registry.Publication(op.key);
    Move(s, id, Some(Writing(Write(op.key, if op.refresh then Refresh else Backfill, now, publication, s.clock), Computing)))
  }

  function DoEnqueue(s: State, id: nat): State
    requires InPhase(s, id, Hooked)
  {
    var k := s.ops[id].w.key;
    InPlace(s, id, Queued).(queues := s.queues[k := s.Queue(k) + [id]])
  }

  /** No set() or invalidate() began after this set(), and the adapter holds a value that started
      before it. */
  predicate SetDropped(s: State, w: Write) {
    w.kind.Authoritative? && w.started == s.LastBegun(w.key) && w.key in s.adapter && s.adapter[w.key].started < w.started
  }

  predicate Passes(s: State, w: Write) { s.EpochUnchanged(w) && s.PublicationUnchanged(w) }

  function DoStartTurn(s: State, id: nat): State
    requires InPhase(s, id, Queued) && s.Queue(s.ops[id].w.key) != []
  {
    var w := s.ops[id].w;
    if Passes(s, w) then InPlace(s, id, Setting)
    else EndTurn(s, id, w.key).(dropped := if SetDropped(s, w) then s.dropped + {w.key} else s.dropped)
  }

  function DoSetEffect(s: State, id: nat): State
    requires InPhase(s, id, Setting)
  {
    var w := s.ops[id].w;
    InPlace(s, id, Wrote).(adapter := s.adapter[w.key := Entry(id, w.kind, w.started)], dropped := s.dropped - {w.key})
  }

  /** An outdated write is cleaned up; a refresh that was not overtaken is published. */
  function DoSetSeen(limit: nat, s: State, id: nat): State
    requires InPhase(s, id, Wrote) && s.Queue(s.ops[id].w.key) != []
  {
    var w := s.ops[id].w;
    if !s.EpochUnchanged(w) then InPlace(s, id, Cleaning)
    else if s.PublicationUnchanged(w) && w.kind.Refresh? then
      EndTurn(s, id, w.key).(registry := s.registry.BumpPublication(limit, w.key), published := s.published[w.key := Publication(s.clock, id)])
    else EndTurn(s, id, w.key)
  }

  function DoCleanEffect(s: State, id: nat): State
    requires InPhase(s, id, Cleaning)
  {
    Remove(InPlace(s, id, Cleaned), s.ops[id].w.key)
  }

  function DoBeginSet(limit: nat, s: State, k: Key): State {
    var r := s.registry.BumpInvalidation(limit, k);
    Move(s, s.clock, Some(Writing(Write(k, Authoritative, r.Invalidation(k), r.Publication(k), s.clock), Hooked))).(registry := r, begun := s.begun[k := s.clock])
  }

  function DoBeginInvalidate(limit: nat, s: State, k: Key): State {
    Move(s, s.clock, Some(Invalidating(k, false))).(registry := s.registry.BumpInvalidation(limit, k), begun := s.begun[k := s.clock])
  }

  function DoDeleteEffect(s: State, id: nat): State
    requires id in s.ops && s.ops[id].Invalidating?
  {
    Remove(Move(s, id, Some(s.ops[id].(deleted := true))), s.ops[id].key)
  }

  function DoDeleteSeen(limit: nat, s: State, id: nat): State
    requires id in s.ops && s.ops[id].Invalidating?
  {
    Move(s, id, None).(registry := s.registry.BumpInvalidation(limit, s.ops[id].key))
  }

  function DoExpire(s: State, k: Key): State { Remove(s, k).(clock := s.clock + 1) }

  /** A new operation takes the clock as its id. */
  function Apply(limit: nat, s: State, e: Event): State
    requires Enabled(s, e)
  {
    match e
    case StartGet(k) => DoStartGet(s, k)
    case StartRefresh(k) => DoStartRefresh(limit, s, k)
    case StartBackgroundRefresh(k) => DoStartBackgroundRefresh(s, k)
    case ReadHit(id) => Move(s, id, None)
    case ReadMiss(id) => DoReadMiss(s, id)
    case FactoryFailed(id) => Move(s, id, None)
    case FactoryDone(id) => InPlace(s, id, Hooked)
    case Enqueue(id) => DoEnqueue(s, id)
    case StartTurn(id) => DoStartTurn(s, id)
    case SetEffect(id) => DoSetEffect(s, id)
    case SetSeen(id) => DoSetSeen(limit, s, id)
    case CleanEffect(id) => DoCleanEffect(s, id)
    case CleanSeen(id) => EndTurn(s, id, s.ops[id].w.key)
    case BeginSet(k) => DoBeginSet(limit, s, k)
    case BeginInvalidate(k) => DoBeginInvalidate(limit, s, k)
    case DeleteEffect(id) => DoDeleteEffect(s, id)
    case DeleteSeen(id) => DoDeleteSeen(limit, s, id)
    case Expire(k) => DoExpire(s, k)
  }

  // ---------------------------------------------------------------- the invariant

  ghost predicate OpOk(s: State, id: nat) requires id in s.ops {
    && id < s.clock
    && match s.ops[id]
       case Reading(k, epoch, publication, _) => epoch <= s.registry.Invalidation(k) && publication <= s.registry.Publication(k)
       case Writing(w, _) => WriteOk(s, w)
       case Invalidating(_, _) => true
  }

  /** Whatever began or was published after a write started has moved the epochs it captured. */
  ghost predicate WriteOk(s: State, w: Write) {
    && w.started < s.clock
    && w.epoch <= s.registry.Invalidation(w.key)
    && (w.started < s.LastBegun(w.key) ==> w.epoch < s.registry.Invalidation(w.key))
    && (w.kind.Authoritative? ==> w.started <= s.LastBegun(w.key))
    && (!w.kind.Authoritative? ==>
          && w.publication <= s.registry.Publication(w.key)
          && (w.started <= s.LastPublished(w.key).time ==> w.publication < s.registry.Publication(w.key)))
  }

  ghost predicate QueueOk(s: State, k: Key) {
    && Distinct(s.Queue(k))
    && (forall i :: 0 <= i < |s.Queue(k)| ==>
          var id := s.Queue(k)[i];
          id in s.ops && s.ops[id].Writing? && s.ops[id].w.key == k && (s.ops[id].phase.Queued? || (i == 0 && s.ops[id].InSection())))
  }

  /** The holder of a turn heads its queue, is the only one to have written since, and, unless it is
      a set(), was not overtaken by a published refresh. */
  ghost predicate HolderOk(s: State, id: nat) requires id in s.ops {
    s.ops[id].InSection() ==>
      var w := s.ops[id].w;
      && s.Queue(w.key) != [] && s.Queue(w.key)[0] == id
      && (s.ops[id].phase.Wrote? && w.key in s.adapter ==> s.adapter[w.key].writer == id)
      && ((s.ops[id].phase.Setting? || s.ops[id].phase.Wrote?) && !w.kind.Authoritative? ==> w.started > s.LastPublished(w.key).time)
  }

  predicate Covers(s: State, op: Op, k: Key) {
    && op.Of() == k
    && match op
       case Reading(_, _, _, _) => false
       case Invalidating(_, deleted) => !deleted
       case Writing(w, phase) =>
         || phase.Setting?
         || ((phase.Wrote? || phase.Cleaning?) && w.epoch < s.registry.Invalidation(k))
         || (w.kind.Authoritative? && (phase.Hooked? || phase.Queued?) && w.started == s.LastBegun(k))
  }

  ghost predicate Covered(s: State, k: Key) {
    k in s.dropped || exists id :: id in s.ops && Covers(s, s.ops[id], k)
  }

  ghost predicate KeyOk(s: State, k: Key) {
    && s.LastBegun(k) < s.clock && s.LastPublished(k).time < s.clock
    && QueueOk(s, k)
    && s.FreshAfterRefresh(k)
    && (s.FreshAfterWrites(k) || Covered(s, k))
    && (k in s.dropped ==> !s.FreshAfterWrites(k))
  }

  ghost predicate Inv(limit: nat, s: State) {
    && limit >= 1 && s.registry.Valid(limit)
    && (forall id :: id in s.ops ==> OpOk(s, id) && HolderOk(s, id))
    && (forall k :: KeyOk(s, k))
  }

  // ---------------------------------------------------------------- every step keeps it

  ghost predicate SameBut<V>(m: map<Key, V>, m': map<Key, V>, k0: Key) {
    forall k :: k != k0 ==> (k in m' <==> k in m) && (k in m ==> m'[k] == m[k])
  }

  /** Only the operation id0, of key k0, changed among the operations. */
  ghost predicate OnlyOp(s: State, s': State, id0: nat, k0: Key) {
    && (id0 in s.ops ==> s.ops[id0].Of() == k0)
    && (id0 in s'.ops ==> s'.ops[id0].Of() == k0)
    && (forall id :: id != id0 ==> (id in s'.ops <==> id in s.ops))
    && (forall id :: id != id0 && id in s.ops ==> s'.ops[id] == s.ops[id])
  }

  /** A step of id0 on k0: elsewhere nothing changed, apart from epochs that may have risen. */
  ghost predicate StepOn(s: State, s': State, id0: nat, k0: Key) {
    && s'.clock == s.clock + 1
    && OnlyOp(s, s', id0, k0)
    && NoLower(s.registry, s'.registry)
    && SameBut(s.adapter, s'.adapter, k0)
    && SameBut(s.queues, s'.queues, k0)
    && SameBut(s.begun, s'.begun, k0)
    && SameBut(s.published, s'.published, k0)
    && (forall k :: k != k0 ==> (k in s'.dropped <==> k in s.dropped))
  }

  lemma ElsewhereKey(s: State, s': State, id0: nat, k0: Key, k: Key)
    requires StepOn(s, s', id0, k0) && k != k0 && KeyOk(s, k)
    ensures KeyOk(s', k)
  {
    hide PairRegistry.Invalidation, PairRegistry.Publication, Distinct;
    assert s'.registry.Invalidation(k) >= s.registry.Invalidation(k);
    if id :| id in s.ops && Covers(s, s.ops[id], k) {
      assert id in s'.ops && Covers(s', s'.ops[id], k);
    }
  }

  lemma ElsewhereOp(s: State, s': State, id0: nat, k0: Key, id: nat)
    requires StepOn(s, s', id0, k0) && id in s.ops && s.ops[id].Of() != k0 && OpOk(s, id) && HolderOk(s, id)
    ensures id in s'.ops && OpOk(s', id) && HolderOk(s', id)
  {
    hide PairRegistry.Invalidation, PairRegistry.Publication, Distinct;
    assert s'.registry.Invalidation(s.ops[id].Of()) >= s.registry.Invalidation(s.ops[id].Of());
  }

  /** What began or was published on k0 in this step left behind every epoch captured before. */
  ghost predicate LeavesBehind(s: State, s': State, k0: Key) {
    && (s'.LastBegun(k0) == s.LastBegun(k0)
        || (s'.LastBegun(k0) == s.clock && s'.registry.Invalidation(k0) > s.registry.Invalidation(k0)))
    && (s'.LastPublished(k0) == s.LastPublished(k0)
        || (s'.LastPublished(k0).time == s.clock && s'.registry.Publication(k0) > s.registry.Publication(k0)))
  }

  /** A holder of the turn other than id0 still heads the queue and is undisturbed. */
  ghost predicate TurnKept(s: State, s': State, k0: Key, id: nat) {
    && s'.LastPublished(k0) == s.LastPublished(k0)
    && s'.Queue(k0) != [] && s'.Queue(k0)[0] == id
    && (k0 in s'.adapter ==> k0 in s.adapter && s'.adapter[k0] == s.adapter[k0])
  }

  lemma OtherOp(s: State, s': State, id0: nat, k0: Key, id: nat)
    requires StepOn(s, s', id0, k0) && LeavesBehind(s, s', k0)
    requires id in s.ops && id != id0 && s.ops[id].Of() == k0 && OpOk(s, id) && HolderOk(s, id)
    requires s.ops[id].InSection() ==> TurnKept(s, s', k0, id)
    ensures id in s'.ops && OpOk(s', id) && HolderOk(s', id)
  {
    hide PairRegistry.Invalidation, PairRegistry.Publication, Distinct;
    assert s'.registry.Invalidation(k0) >= s.registry.Invalidation(k0);
  }

  /** What a step still has to show about its own key and operation. */
  lemma Assemble(limit: nat, s: State, s': State, id0: nat, k0: Key)
    requires Inv(limit, s) && StepOn(s, s', id0, k0) && LeavesBehind(s, s', k0) && s'.registry.Valid(limit)
    requires forall id :: id in s.ops && id != id0 && s.ops[id].Of() == k0 && s.ops[id].InSection() ==> TurnKept(s, s', k0, id)
    requires id0 in s'.ops ==> OpOk(s', id0) && HolderOk(s', id0)
    requires KeyOk(s', k0)
    ensures Inv(limit, s')
  {
    hide KeyOk, OpOk, HolderOk, PairRegistry.Valid, LeavesBehind, TurnKept;
    forall id | id in s'.ops ensures OpOk(s', id) && HolderOk(s', id) {
      if id != id0 {
        assert id in s.ops && s'.ops[id] == s.ops[id] && OpOk(s, id) && HolderOk(s, id);
        if s.ops[id].Of() == k0 { OtherOp(s, s', id0, k0, id); } else { ElsewhereOp(s, s', id0, k0, id); }
      }
    }
    forall k ensures KeyOk(s', k) {
      if k != k0 { ElsewhereKey(s, s', id0, k0, k); }
    }
  }

  /** A cover by another operation stays one while the epochs do not go down and nothing new begins. */
  lemma CoverKept(s: State, s': State, id0: nat, k0: Key)
    requires StepOn(s, s', id0, k0) && s'.LastBegun(k0) == s.LastBegun(k0)
    requires Covered(s, k0) && !(k0 in s.dropped && k0 !in s'.dropped)
    requires id0 in s.ops && Covers(s, s.ops[id0], k0) ==> Covered(s', k0)
    ensures Covered(s', k0)
  {
    hide PairRegistry.Invalidation, PairRegistry.Publication;
    if k0 !in s.dropped {
      var id :| id in s.ops && Covers(s, s.ops[id], k0);
      assert s'.registry.Invalidation(k0) >= s.registry.Invalidation(k0);
      if id != id0 { assert Covers(s', s'.ops[id], k0); }
    }
  }

  /** The holder of the turn of a key heads its queue, so nobody else holds it. */
  lemma Holders(limit: nat, s: State, k0: Key)
    requires Inv(limit, s)
    ensures forall id :: id in s.ops && s.ops[id].Of() == k0 && s.ops[id].InSection() ==> s.Queue(k0) != [] && s.Queue(k0)[0] == id
  {
    hide OpOk, KeyOk, PairRegistry.Valid;
    forall id | id in s.ops && s.ops[id].Of() == k0 && s.ops[id].InSection() ensures s.Queue(k0) != [] && s.Queue(k0)[0] == id {
      assert HolderOk(s, id);
    }
  }

  lemma AtKey(limit: nat, s: State, id0: nat, k0: Key)
    requires Inv(limit, s)
    ensures KeyOk(s, k0) && (id0 in s.ops ==> OpOk(s, id0) && HolderOk(s, id0))
  {
  }

  predicate IsQueued(op: Op) { op.Writing? && op.phase.Queued? }

  /** An operation outside the queue that covers nothing appears, changes or ends; the rest stays. */
  lemma QuietKey(limit: nat, s: State, s': State, id0: nat, k0: Key)
    requires KeyOk(s, k0) && StepOn(s, s', id0, k0)
    requires s'.adapter == s.adapter && s'.queues == s.queues && s'.begun == s.begun && s'.published == s.published && s'.dropped == s.dropped
    requires id0 in s.ops ==> !s.ops[id0].InSection() && !Covers(s, s.ops[id0], k0) && !IsQueued(s.ops[id0])
    ensures KeyOk(s', k0)
  {
    hide PairRegistry.Invalidation, PairRegistry.Publication, Distinct;
    if Covered(s, k0) { CoverKept(s, s', id0, k0); }
  }

  lemma QuietStep(limit: nat, s: State, s': State, id0: nat, k0: Key)
    requires Inv(limit, s) && StepOn(s, s', id0, k0) && s'.registry.Valid(limit)
    requires s'.adapter == s.adapter && s'.queues == s.queues && s'.begun == s.begun && s'.published == s.published && s'.dropped == s.dropped
    requires id0 in s.ops ==> !s.ops[id0].InSection() && !Covers(s, s.ops[id0], k0) && !IsQueued(s.ops[id0])
    requires id0 in s'.ops ==> OpOk(s', id0) && !s'.ops[id0].InSection()
    ensures Inv(limit, s')
  {
    hide KeyOk, OpOk, PairRegistry.Valid, PairRegistry.Invalidation, PairRegistry.Publication;
    AtKey(limit, s, id0, k0);
    Holders(limit, s, k0);
    QuietKey(limit, s, s', id0, k0);
    Assemble(limit, s, s', id0, k0);
  }

  lemma StartStep(limit: nat, s: State, e: Event)
    requires Inv(limit, s) && (e.StartGet? || e.StartBackgroundRefresh? || e.StartRefresh?)
    ensures Inv(limit, Apply(limit, s, e))
  {
    hide PairRegistry.Invalidation, PairRegistry.Publication, PairRegistry.Valid, PairRegistry.BumpPublication, Distinct, QueueOk;
    AtKey(limit, s, s.clock, e.key);
    PublicationBumpRaises(s.registry, limit, e.key);
    QuietStep(limit, s, Apply(limit, s, e), s.clock, e.key);
  }

  lemma PhaseStep(limit: nat, s: State, id: nat, s': State)
    requires Inv(limit, s) && id in s.ops
    requires || (s.ops[id].Reading? && s' == Move(s, id, None))
             || (s.ops[id].Reading? && s' == DoReadMiss(s, id))
             || (InPhase(s, id, Computing) && s' == Move(s, id, None))
             || (InPhase(s, id, Computing) && s' == InPlace(s, id, Hooked))
    ensures Inv(limit, s')
  {
    hide PairRegistry.Invalidation, PairRegistry.Publication, PairRegistry.Valid, Distinct, QueueOk;
    AtKey(limit, s, id, s.ops[id].Of());
    QuietStep(limit, s, s', id, s.ops[id].Of());
  }

  lemma EnqueueKey(limit: nat, s: State, id: nat)
    requires Inv(limit, s) && InPhase(s, id, Hooked)
    ensures KeyOk(DoEnqueue(s, id), s.ops[id].Of())
  {
    hide PairRegistry.Invalidation, PairRegistry.Publication, PairRegistry.Valid, Distinct;
    var s' := DoEnqueue(s, id);
    var k0 := s.ops[id].Of();
    AtKey(limit, s, id, k0);
    AppendDistinct(s.Queue(k0), id);
    if Covered(s, k0) { CoverKept(s, s', id, k0); }
  }

  lemma EnqueueStep(limit: nat, s: State, id: nat)
    requires Inv(limit, s) && InPhase(s, id, Hooked)
    ensures Inv(limit, DoEnqueue(s, id))
  {
    hide PairRegistry.Invalidation, PairRegistry.Publication, PairRegistry.Valid, KeyOk;
    var k0 := s.ops[id].Of();
    AtKey(limit, s, id, k0);
    Holders(limit, s, k0);
    EnqueueKey(limit, s, id);
    Assemble(limit, s, DoEnqueue(s, id), id, k0);
  }

  /** Its turn over, an operation that covers nothing leaves the head of the queue. */
  lemma EndTurnKey(limit: nat, s: State, s': State, id: nat, k0: Key)
    requires Inv(limit, s) && StepOn(s, s', id, k0)
    requires s.Queue(k0) != [] && s.Queue(k0)[0] == id && id in s.ops && id !in s'.ops && s.ops[id].Of() == k0
    requires s'.Queue(k0) == s.Queue(k0)[1..] && s'.adapter == s.adapter && s'.begun == s.begun
    requires s'.LastPublished(k0).time < s'.clock && s'.FreshAfterRefresh(k0)
    requires k0 in s.dropped ==> k0 in s'.dropped
    requires k0 in s'.dropped ==> !s.FreshAfterWrites(k0)
    requires Covers(s, s.ops[id], k0) && !s.FreshAfterWrites(k0) ==> k0 in s'.dropped
    ensures KeyOk(s', k0)
  {
    hide PairRegistry.Invalidation, PairRegistry.Publication, PairRegistry.Valid;
    AtKey(limit, s, id, k0);
    assert QueueOk(s', k0) by { assert QueueOk(s, k0); }
    if Covered(s, k0) && !s.FreshAfterWrites(k0) { CoverKept(s, s', id, k0); }
  }

  predicate Heads(s: State, id: nat) {
    id in s.ops && s.ops[id].Writing? && s.Queue(s.ops[id].w.key) != [] && s.Queue(s.ops[id].w.key)[0] == id
  }

  lemma EndTurnStep(limit: nat, s: State, s': State, id: nat, k0: Key)
    requires Inv(limit, s) && StepOn(s, s', id, k0) && LeavesBehind(s, s', k0) && s'.registry.Valid(limit)
    requires Heads(s, id) && s.ops[id].Of() == k0 && id !in s'.ops
    requires s'.Queue(k0) == s.Queue(k0)[1..] && s'.adapter == s.adapter && s'.begun == s.begun
    requires s'.LastPublished(k0).time < s'.clock && s'.FreshAfterRefresh(k0)
    requires k0 in s.dropped ==> k0 in s'.dropped
    requires k0 in s'.dropped ==> !s.FreshAfterWrites(k0)
    requires Covers(s, s.ops[id], k0) && !s.FreshAfterWrites(k0) ==> k0 in s'.dropped
    ensures Inv(limit, s')
  {
    hide PairRegistry.Invalidation, PairRegistry.Publication, PairRegistry.Valid, KeyOk, OpOk, LeavesBehind;
    Holders(limit, s, k0);
    EndTurnKey(limit, s, s', id, k0);
    Assemble(limit, s, s', id, k0);
  }

  /** Inside its turn an operation moves on and touches the adapter entry of its key at most. */
  lemma InTurnStep(limit: nat, s: State, s': State, id: nat, k0: Key)
    requires Inv(limit, s) && StepOn(s, s', id, k0)
    requires Heads(s, id) && s.ops[id].Of() == k0 && id in s'.ops && s'.ops[id].InSection()
    requires s'.queues == s.queues && s'.registry == s.registry && s'.begun == s.begun && s'.published == s.published
    requires OpOk(s', id) && HolderOk(s', id)
    requires s'.FreshAfterRefresh(k0)
    requires s'.FreshAfterWrites(k0) || Covered(s', k0)
    requires k0 in s'.dropped ==> !s'.FreshAfterWrites(k0)
    ensures Inv(limit, s')
  {
    hide PairRegistry.Invalidation, PairRegistry.Publication, PairRegistry.Valid, OpOk, HolderOk;
    AtKey(limit, s, id, k0);
    Holders(limit, s, k0);
    forall i | 0 < i < |s.Queue(k0)| ensures s.Queue(k0)[i] != id {
      assert s.Queue(k0)[i] == s.Queue(k0)[1..][i - 1];
    }
    assert KeyOk(s', k0);
    Assemble(limit, s, s', id, k0);
  }

  lemma PassingTurnStep(limit: nat, s: State, id: nat)
    requires Inv(limit, s) && InPhase(s, id, Queued) && Heads(s, id) && Passes(s, s.ops[id].w)
    ensures Inv(limit, DoStartTurn(s, id))
  {
    hide PairRegistry.Invalidation, PairRegistry.Publication, PairRegistry.Valid, QueueOk, Distinct;
    var s', k0 := DoStartTurn(s, id), s.ops[id].Of();
    AtKey(limit, s, id, k0);
    if Covered(s, k0) { CoverKept(s, s', id, k0); }
    InTurnStep(limit, s, s', id, k0);
  }

  lemma DroppedTurnStep(limit: nat, s: State, id: nat)
    requires Inv(limit, s) && InPhase(s, id, Queued) && Heads(s, id) && !Passes(s, s.ops[id].w)
    ensures Inv(limit, DoStartTurn(s, id))
  {
    hide PairRegistry.Invalidation, PairRegistry.Publication, PairRegistry.Valid, QueueOk, Distinct;
    AtKey(limit, s, id, s.ops[id].Of());
    EndTurnStep(limit, s, DoStartTurn(s, id), id, s.ops[id].Of());
  }

  lemma StartTurnStep(limit: nat, s: State, id: nat)
    requires Inv(limit, s) && InPhase(s, id, Queued) && Heads(s, id)
    ensures Inv(limit, DoStartTurn(s, id))
  {
    hide Inv, DoStartTurn, Passes;
    if Passes(s, s.ops[id].w) { PassingTurnStep(limit, s, id); } else { DroppedTurnStep(limit, s, id); }
  }

  lemma SetEffectStep(limit: nat, s: State, id: nat)
    requires Inv(limit, s) && InPhase(s, id, Setting)
    ensures Inv(limit, DoSetEffect(s, id))
  {
    hide PairRegistry.Invalidation, PairRegistry.Publication, PairRegistry.Valid, QueueOk, Distinct;
    var s', k0 := DoSetEffect(s, id), s.ops[id].Of();
    AtKey(limit, s, id, k0);
    if !s'.FreshAfterWrites(k0) { assert Covers(s', s'.ops[id], k0); }
    InTurnStep(limit, s, s', id, k0);
  }

  lemma SetOutdatedStep(limit: nat, s: State, id: nat)
    requires Inv(limit, s) && InPhase(s, id, Wrote) && !s.EpochUnchanged(s.ops[id].w)
    ensures Inv(limit, InPlace(s, id, Cleaning))
  {
    hide PairRegistry.Invalidation, PairRegistry.Publication, PairRegistry.Valid, QueueOk, Distinct;
    var s', k0 := InPlace(s, id, Cleaning), s.ops[id].Of();
    AtKey(limit, s, id, k0);
    if Covered(s, k0) { CoverKept(s, s', id, k0); }
    InTurnStep(limit, s, s', id, k0);
  }

  lemma PublishStep(limit: nat, s: State, id: nat)
    requires Inv(limit, s) && InPhase(s, id, Wrote) && s.Queue(s.ops[id].w.key) != []
    requires Passes(s, s.ops[id].w)
    ensures Inv(limit, DoSetSeen(limit, s, id))
  {
    hide PairRegistry.Invalidation, PairRegistry.Publication, PairRegistry.Valid, PairRegistry.BumpPublication, QueueOk, Distinct;
    var s', k0 := DoSetSeen(limit, s, id), s.ops[id].Of();
    AtKey(limit, s, id, k0);
    PublicationBumpRaises(s.registry, limit, k0);
    EndTurnStep(limit, s, s', id, k0);
  }

  lemma SetSeenStep(limit: nat, s: State, id: nat)
    requires Inv(limit, s) && InPhase(s, id, Wrote) && s.Queue(s.ops[id].w.key) != []
    ensures Inv(limit, DoSetSeen(limit, s, id))
  {
    hide PairRegistry.Invalidation, PairRegistry.Publication, PairRegistry.Valid, PairRegistry.BumpPublication, QueueOk, Distinct;
    if !s.EpochUnchanged(s.ops[id].w) {
      SetOutdatedStep(limit, s, id);
    } else if Passes(s, s.ops[id].w) {
      PublishStep(limit, s, id);
    } else {
      AtKey(limit, s, id, s.ops[id].Of());
      EndTurnStep(limit, s, DoSetSeen(limit, s, id), id, s.ops[id].Of());
    }
  }

  lemma CleanEffectStep(limit: nat, s: State, id: nat)
    requires Inv(limit, s) && InPhase(s, id, Cleaning)
    ensures Inv(limit, DoCleanEffect(s, id))
  {
    hide PairRegistry.Invalidation, PairRegistry.Publication, PairRegistry.Valid, QueueOk, Distinct;
    AtKey(limit, s, id, s.ops[id].Of());
    InTurnStep(limit, s, DoCleanEffect(s, id), id, s.ops[id].Of());
  }

  lemma CleanSeenStep(limit: nat, s: State, id: nat)
    requires Inv(limit, s) && InPhase(s, id, Cleaned) && s.Queue(s.ops[id].w.key) != []
    ensures Inv(limit, EndTurn(s, id, s.ops[id].w.key))
  {
    hide PairRegistry.Invalidation, PairRegistry.Publication, PairRegistry.Valid, QueueOk, Distinct;
    AtKey(limit, s, id, s.ops[id].Of());
    EndTurnStep(limit, s, EndTurn(s, id, s.ops[id].w.key), id, s.ops[id].Of());
  }

  lemma BeginSetStep(limit: nat, s: State, k0: Key)
    requires Inv(limit, s)
    ensures Inv(limit, DoBeginSet(limit, s, k0))
  {
    hide PairRegistry.Invalidation, PairRegistry.Publication, PairRegistry.Valid, PairRegistry.BumpInvalidation, Distinct;
    var s', id := DoBeginSet(limit, s, k0), s.clock;
    AtKey(limit, s, id, k0);
    InvalidationBumpRaises(s.registry, limit, k0);
    PublicationCoversInvalidation(s.registry, limit, k0);
    Holders(limit, s, k0);
    assert Covers(s', s'.ops[id], k0);
    assert KeyOk(s', k0);
    Assemble(limit, s, s', id, k0);
  }

  lemma BeginInvalidateStep(limit: nat, s: State, k0: Key)
    requires Inv(limit, s)
    ensures Inv(limit, DoBeginInvalidate(limit, s, k0))
  {
    hide PairRegistry.Invalidation, PairRegistry.Publication, PairRegistry.Valid, PairRegistry.BumpInvalidation, Distinct;
    var s', id := DoBeginInvalidate(limit, s, k0), s.clock;
    AtKey(limit, s, id, k0);
    InvalidationBumpRaises(s.registry, limit, k0);
    PublicationCoversInvalidation(s.registry, limit, k0);
    Holders(limit, s, k0);
    assert Covers(s', s'.ops[id], k0);
    assert KeyOk(s', k0);
    Assemble(limit, s, s', id, k0);
  }

  lemma DeleteEffectStep(limit: nat, s: State, id: nat)
    requires Inv(limit, s) && id in s.ops && s.ops[id].Invalidating?
    ensures Inv(limit, DoDeleteEffect(s, id))
  {
    hide PairRegistry.Invalidation, PairRegistry.Publication, PairRegistry.Valid, Distinct;
    var s', k0 := DoDeleteEffect(s, id), s.ops[id].Of();
    AtKey(limit, s, id, k0);
    Holders(limit, s, k0);
    Assemble(limit, s, s', id, k0);
  }

  lemma DeleteSeenStep(limit: nat, s: State, id: nat)
    requires Inv(limit, s) && id in s.ops && s.ops[id].Invalidating? && s.ops[id].deleted
    ensures Inv(limit, DoDeleteSeen(limit, s, id))
  {
    hide PairRegistry.Invalidation, PairRegistry.Publication, PairRegistry.Valid, PairRegistry.BumpInvalidation, QueueOk, Distinct;
    InvalidationBumpRaises(s.registry, limit, s.ops[id].Of());
    QuietStep(limit, s, DoDeleteSeen(limit, s, id), id, s.ops[id].Of());
  }

  lemma ExpireStep(limit: nat, s: State, k0: Key)
    requires Inv(limit, s)
    ensures Inv(limit, DoExpire(s, k0))
  {
    hide PairRegistry.Invalidation, PairRegistry.Publication, PairRegistry.Valid, Distinct;
    AtKey(limit, s, s.clock, k0);
    Holders(limit, s, k0);
    Assemble(limit, s, DoExpire(s, k0), s.clock, k0);
  }

  lemma {:induction false} StepKeepsInv(limit: nat, s: State, e: Event)
    requires Inv(limit, s) && Enabled(s, e)
    ensures Inv(limit, Apply(limit, s, e))
  {
    hide Inv, OpOk, KeyOk, HolderOk;
    hide DoReadMiss, DoEnqueue, DoStartTurn, DoSetEffect, DoSetSeen, DoCleanEffect, DoDeleteEffect, DoDeleteSeen, DoExpire, EndTurn, Move;
    match e
    case ReadHit(id) => PhaseStep(limit, s, id, Apply(limit, s, e));
    case ReadMiss(id) => PhaseStep(limit, s, id, Apply(limit, s, e));
    case FactoryFailed(id) => PhaseStep(limit, s, id, Apply(limit, s, e));
    case FactoryDone(id) => PhaseStep(limit, s, id, Apply(limit, s, e));
    case Enqueue(id) => EnqueueStep(limit, s, id);
    case StartTurn(id) => StartTurnStep(limit, s, id);
    case SetEffect(id) => SetEffectStep(limit, s, id);
    case SetSeen(id) => SetSeenStep(limit, s, id);
    case CleanEffect(id) => CleanEffectStep(limit, s, id);
    case CleanSeen(id) => CleanSeenStep(limit, s, id);
    case BeginSet(k) => BeginSetStep(limit, s, k);
    case BeginInvalidate(k) => BeginInvalidateStep(limit, s, k);
    case DeleteEffect(id) => DeleteEffectStep(limit, s, id);
    case DeleteSeen(id) => DeleteSeenStep(limit, s, id);
    case Expire(k) => ExpireStep(limit, s, k);
    case _ => StartStep(limit, s, e);
  }

  // ---------------------------------------------------------------- runs

  ghost predicate Legal(limit: nat, s: State, run: seq<Event>)
    decreases |run|
  {
    run == [] || (Enabled(s, run[0]) && Legal(limit, Apply(limit, s, run[0]), run[1..]))
  }

  ghost function After(limit: nat, s: State, run: seq<Event>): State
    requires Legal(limit, s, run)
    decreases |run|
  {
    if run == [] then s else After(limit, Apply(limit, s, run[0]), run[1..])
  }

  function Start(): State { State(map[], EmptyPairRegistry(), map[], map[], 1, map[], map[], {}) }

  lemma {:induction false} RunKeepsInv(limit: nat, s: State, run: seq<Event>)
    requires Inv(limit, s) && Legal(limit, s, run)
    ensures Inv(limit, After(limit, s, run))
    decreases |run|
  {
    hide Inv, Apply, Enabled;
    if run != [] {
      StepKeepsInv(limit, s, run[0]);
      RunKeepsInv(limit, Apply(limit, s, run[0]), run[1..]);
    }
  }

  /** In every reachable state, whatever is in flight, the adapter holds no factory value older than
      the latest published refresh of its key. */
  lemma RefreshesAreNotOverwritten(limit: nat, run: seq<Event>, k: Key)
    requires limit >= 1 && Legal(limit, Start(), run)
    ensures After(limit, Start(), run).FreshAfterRefresh(k)
  {
    RunKeepsInv(limit, Start(), run);
    AtKey(limit, After(limit, Start(), run), 0, k);
  }

  /** When nothing of a key is in flight, its entry comes from the latest set(), or from a factory
      that started after the latest set() or invalidate() began, exactly when that set() was not
      dropped in front of an older value. */
  lemma FreshAtRestUnlessDropped(limit: nat, run: seq<Event>, k: Key)
    requires limit >= 1 && Legal(limit, Start(), run)
    requires After(limit, Start(), run).AtRest(k)
    ensures var s := After(limit, Start(), run); s.FreshAfterWrites(k) <==> k !in s.dropped
  {
    RunKeepsInv(limit, Start(), run);
    AtKey(limit, After(limit, Start(), run), 0, k);
  }

  /** The guard behind a drop: a set() of k reaches its turn, nothing of k began after it, yet its
      epoch moved. */
  predicate Overtaken(s: State, e: Event, k: Key)
    requires Enabled(s, e)
  {
    e.StartTurn? && var w := s.ops[e.id].w;
      w.key == k && w.kind.Authoritative? && w.started == s.LastBegun(k) && !s.EpochUnchanged(w)
  }

  ghost predicate NoSetOvertaken(limit: nat, s: State, run: seq<Event>, k: Key)
    requires Legal(limit, s, run)
    decreases |run|
  {
    run == [] || (!Overtaken(s, run[0], k) && NoSetOvertaken(limit, Apply(limit, s, run[0]), run[1..], k))
  }

  lemma {:induction false} NothingDropped(limit: nat, s: State, run: seq<Event>, k: Key)
    requires Legal(limit, s, run) && NoSetOvertaken(limit, s, run, k) && k !in s.dropped
    ensures k !in After(limit, s, run).dropped
    decreases |run|
  {
    if run != [] {
      NothingDropped(limit, Apply(limit, s, run[0]), run[1..], k);
    }
  }

  /** So a run in which no set() of k is overtaken leaves nothing older than the latest set() or
      invalidate() of k at rest. FunctionCacheCallers says which runs are of this kind. */
  lemma FreshAtRest(limit: nat, run: seq<Event>, k: Key)
    requires limit >= 1 && Legal(limit, Start(), run) && NoSetOvertaken(limit, Start(), run, k)
    requires After(limit, Start(), run).AtRest(k)
    ensures After(limit, Start(), run).FreshAfterWrites(k)
  {
    NothingDropped(limit, Start(), run, k);
    FreshAtRestUnlessDropped(limit, run, k);
  }

  lemma {:induction false} Prepend(limit: nat, s: State, run: seq<Event>, i: nat)
    requires i < |run| && Enabled(s, run[i]) && Legal(limit, Apply(limit, s, run[i]), run[i + 1..])
    ensures Legal(limit, s, run[i..])
    ensures After(limit, s, run[i..]) == After(limit, Apply(limit, s, run[i]), run[i + 1..])
  {
    hide Apply, Enabled;
    assert run[i..][1..] == run[i + 1..];
  }

  /** An entry is filled while an older invalidate() waits for its completion; a set() begins, the
      completion bumps the epoch again, and the set() is dropped at its turn. */
  function OverlapRun(k: Key): (run: seq<Event>)
    ensures |run| == 13
  {
    [BeginInvalidate(k), DeleteEffect(1), StartGet(k), ReadMiss(3), FactoryDone(3), Enqueue(3), StartTurn(3), SetEffect(3), SetSeen(3),
     BeginSet(k), DeleteSeen(1), Enqueue(10), StartTurn(10)]
  }

  function Single(k: Key, n: nat): PairRegistry { PairRegistry(OrderedMap([k], map[k := EpochPair(n, n)]), 0) }

  lemma BumpSingle(k: Key, n: nat)
    ensures EmptyPairRegistry().BumpInvalidation(4096, k) == Single(k, 1)
    ensures Single(k, n).BumpInvalidation(4096, k) == Single(k, n + 1)
  {
    assert Without([k], k) == [];
    assert map[k := EpochPair(n, n)] - {k} == map[];
  }

  /** The states of the run. */
  function OverlapState(k: Key, i: nat): State {
    var fill := Write(k, Backfill, 1, 1, 4);
    var set_ := Write(k, Authoritative, 2, 2, 10);
    var entry := map[k := Entry(3, Backfill, 4)];
    var inv := Invalidating(k, true);
    if i == 0 then Start()
    else if i == 1 then State(map[], Single(k, 1), map[1 := Invalidating(k, false)], map[], 2, map[k := 1], map[], {})
    else if i == 2 then State(map[], Single(k, 1), map[1 := inv], map[], 3, map[k := 1], map[], {})
    else if i == 3 then State(map[], Single(k, 1), map[1 := inv, 3 := Reading(k, 1, 1, false)], map[], 4, map[k := 1], map[], {})
    else if i == 4 then State(map[], Single(k, 1), map[1 := inv, 3 := Writing(fill, Computing)], map[], 5, map[k := 1], map[], {})
    else if i == 5 then State(map[], Single(k, 1), map[1 := inv, 3 := Writing(fill, Hooked)], map[], 6, map[k := 1], map[], {})
    else if i == 6 then State(map[], Single(k, 1), map[1 := inv, 3 := Writing(fill, Queued)], map[k := [3]], 7, map[k := 1], map[], {})
    else if i == 7 then State(map[], Single(k, 1), map[1 := inv, 3 := Writing(fill, Setting)], map[k := [3]], 8, map[k := 1], map[], {})
    else if i == 8 then State(entry, Single(k, 1), map[1 := inv, 3 := Writing(fill, Wrote)], map[k := [3]], 9, map[k := 1], map[], {})
    else if i == 9 then State(entry, Single(k, 1), map[1 := inv], map[k := []], 10, map[k := 1], map[], {})
    else if i == 10 then State(entry, Single(k, 2), map[1 := inv, 10 := Writing(set_, Hooked)], map[k := []], 11, map[k := 10], map[], {})
    else if i == 11 then State(entry, Single(k, 3), map[10 := Writing(set_, Hooked)], map[k := []], 12, map[k := 10], map[], {})
    else if i == 12 then State(entry, Single(k, 3), map[10 := Writing(set_, Queued)], map[k := [10]], 13, map[k := 10], map[], {})
    else State(entry, Single(k, 3), map[], map[k := []], 14, map[k := 10], map[], {k})
  }

  ghost predicate SameMaps(s: State, s': State) {
    && s.adapter == s'.adapter && s.ops == s'.ops && s.queues == s'.queues
    && s.begun == s'.begun && s.published == s'.published && s.dropped == s'.dropped
  }

  lemma OverlapGet(k: Key, i: nat)
    requires i < 4
    ensures Enabled(OverlapState(k, i), OverlapRun(k)[i])
    ensures Apply(4096, OverlapState(k, i), OverlapRun(k)[i]) == OverlapState(k, i + 1)
  {
    hide PairRegistry.BumpInvalidation, PairRegistry.BumpPublication;
    BumpSingle(k, 0);
    assert SameMaps(Apply(4096, OverlapState(k, i), OverlapRun(k)[i]), OverlapState(k, i + 1));
  }

  lemma OverlapQueue(k: Key, i: nat)
    requires 4 <= i < 7
    ensures Enabled(OverlapState(k, i), OverlapRun(k)[i])
    ensures Apply(4096, OverlapState(k, i), OverlapRun(k)[i]) == OverlapState(k, i + 1)
  {
    hide PairRegistry.BumpInvalidation, PairRegistry.BumpPublication;
    var one: seq<nat> := [3];
    assert one[1..] == [] && [] + one == one;
    assert SameMaps(Apply(4096, OverlapState(k, i), OverlapRun(k)[i]), OverlapState(k, i + 1));
  }

  lemma OverlapFill(k: Key, i: nat)
    requires 7 <= i < 9
    ensures Enabled(OverlapState(k, i), OverlapRun(k)[i])
    ensures Apply(4096, OverlapState(k, i), OverlapRun(k)[i]) == OverlapState(k, i + 1)
  {
    hide PairRegistry.BumpInvalidation, PairRegistry.BumpPublication;
    var one: seq<nat> := [3];
    assert one[1..] == [] && [] + one == one;
    assert SameMaps(Apply(4096, OverlapState(k, i), OverlapRun(k)[i]), OverlapState(k, i + 1));
  }

  lemma OverlapBegin(k: Key, i: nat)
    requires 9 <= i < 11
    ensures Enabled(OverlapState(k, i), OverlapRun(k)[i])
    ensures Apply(4096, OverlapState(k, i), OverlapRun(k)[i]) == OverlapState(k, i + 1)
  {
    hide PairRegistry.BumpInvalidation, PairRegistry.BumpPublication;
    BumpSingle(k, 1);
    BumpSingle(k, 2);
    assert SameMaps(Apply(4096, OverlapState(k, i), OverlapRun(k)[i]), OverlapState(k, i + 1));
  }

  lemma OverlapTurn(k: Key, i: nat)
    requires 11 <= i < 13
    ensures Enabled(OverlapState(k, i), OverlapRun(k)[i])
    ensures Apply(4096, OverlapState(k, i), OverlapRun(k)[i]) == OverlapState(k, i + 1)
  {
    hide PairRegistry.BumpInvalidation, PairRegistry.BumpPublication;
    var one: seq<nat> := [10];
    assert one[1..] == [] && [] + one == one;
    assert SameMaps(Apply(4096, OverlapState(k, i), OverlapRun(k)[i]), OverlapState(k, i + 1));
  }

  lemma {:induction false} OverlapFrom(k: Key, i: nat)
    requires i <= 13
    ensures Legal(4096, OverlapState(k, i), OverlapRun(k)[i..])
    ensures After(4096, OverlapState(k, i), OverlapRun(k)[i..]) == OverlapState(k, 13)
    decreases 13 - i
  {
    hide OverlapState, OverlapRun, Apply, Enabled;
    if i < 13 {
      if i < 4 { OverlapGet(k, i); } else if i < 7 { OverlapQueue(k, i); } else if i < 9 { OverlapFill(k, i); }
      else if i < 11 { OverlapBegin(k, i); } else { OverlapTurn(k, i); }
      OverlapFrom(k, i + 1);
      Prepend(4096, OverlapState(k, i), OverlapRun(k), i);
    }
  }

  lemma OlderInvalidationDropsSet(k: Key)
    ensures Legal(4096, Start(), OverlapRun(k))
    ensures var s := After(4096, Start(), OverlapRun(k)); s.AtRest(k) && !s.FreshAfterWrites(k)
  {
    OverlapFrom(k, 0);
    assert OverlapRun(k)[0..] == OverlapRun(k);
  }
}
