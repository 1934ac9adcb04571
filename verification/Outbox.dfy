/** The in-memory outbox: an ordered queue of events drained in batches that keep the order of each
    entity, with failed events put back at the front or moved to the dead letters. */
module Outbox {
  import opened OrderedMaps
  import opened Epochs
  import opened Options

  /** An order key as text; keys of different shapes are taken to be different texts. */
  datatype OrderKey =
    | EntityKey(model: Key, identity: string)
    | EventKey(id: Key)
    | AliasKey(model: Key, identityOnly: bool, scope: Option<string>, entity: string)

  /** `modelId` is the text of the entity id, `documentIdentity` the text that a Datastore scope or
      ancestor gives the document. Times are in milliseconds. */
  datatype Event = Event(
    id: Key,
    model: Key,
    modelId: Option<string>,
    modelIdentity: Option<string>,
    ancestor: Option<Ancestor>,
    scope: Option<string>,
    documentIdentity: string,
    version: Option<nat>,
    deliveryAttempts: nat,
    leased: bool,
    availableAt: Option<int>,
    deadLetteredAt: Option<int>,
    lastError: Option<string>)
  {
    /** outboxEntityOrderKeys */
    function OrderKeys(): seq<OrderKey> {
      var keys := (if modelIdentity.Some? then [EntityKey(model, modelIdentity.value)] else [])
        + if (ancestor.Some? || scope.Some?) && modelId.Some? then [EntityKey(model, documentIdentity)] else [];
      if keys != [] then keys
      else if modelId.None? then [EventKey(id)]
      else [EntityKey(model, modelId.value)]
    }

    predicate IdentityOnly() {
      modelId.Some? && ancestor.None? && modelIdentity.Some? && DATASTORE_PREFIX <= modelIdentity.value
    }

    predicate NamespaceLessAncestor() { modelId.Some? && ancestor.Some? && ancestor.value.namespace.None? }

    function Alias(identityOnly: bool): OrderKey
      requires modelId.Some?
    {
      AliasKey(model, identityOnly, scope, modelId.value)
    }

    /** Each of the two Datastore forms checks the alias that the other one blocks. */
    function CheckKeys(): set<OrderKey> {
      KeySet(OrderKeys())
      + (if IdentityOnly() then {Alias(false)} else {})
      + if NamespaceLessAncestor() then {Alias(true)} else {}
    }

    function BlockKeys(): set<OrderKey> {
      KeySet(OrderKeys())
      + (if IdentityOnly() then {Alias(true)} else {})
      + if NamespaceLessAncestor() then {Alias(false)} else {}
    }

    predicate Live() { deadLetteredAt.None? }
    predicate Available(now: int) { availableAt.None? || availableAt.value <= now }
    function Version(): nat { if version.Some? then version.value else 0 }

    /** The event has one entity and no alias, so it checks and blocks the same key. */
    predicate SingleKey() { |OrderKeys()| == 1 && !IdentityOnly() && !NamespaceLessAncestor() }
  }

  datatype Ancestor = Ancestor(namespace: Option<string>, path: string)

  const DATASTORE_PREFIX := "datastore:"

  function KeySet(s: seq<OrderKey>): set<OrderKey> { set k | k in s }

  function Ids(events: seq<Event>): seq<Key> {
    if events == [] then [] else Ids(events[..|events| - 1]) + [events[|events| - 1].id]
  }

  /** A delivery failure as the worker reports it. */
  datatype Failure = Failure(event: Option<Event>, attempt: nat, failedAt: int, retryAt: Option<int>, error: string)

  function RetryEvent(f: Failure): Option<Event> {
    if f.event.None? || f.retryAt.None? then None
    else Some(f.event.value.(version := Some(f.event.value.Version() + 1), deliveryAttempts := f.attempt, leased := false,
                             availableAt := f.retryAt, deadLetteredAt := None, lastError := Some(f.error)))
  }

  function DeadLetterEvent(f: Failure): Option<Event> {
    if f.event.None? then None
    else Some(f.event.value.(version := Some(f.event.value.Version() + 1), deliveryAttempts := f.attempt, leased := false,
                             availableAt := None, deadLetteredAt := Some(f.failedAt), lastError := Some(f.error)))
  }

  /** The events made of a batch of failures; None when one of them is incomplete. */
  function AllOf(failures: seq<Failure>, make: Failure -> Option<Event>): Option<seq<Event>> {
    if failures == [] then Some([])
    else
      var last := |failures| - 1;
      var before, event := AllOf(failures[..last], make), make(failures[last]);
      if before.None? || event.None? then None else Some(before.value + [event.value])
  }

  // ---------------------------------------------------------------- draining

  /** What a drain has decided after a prefix of the queue. */
  datatype Batch = Batch(drained: seq<Event>, retained: seq<Event>, blocked: set<OrderKey>)

  predicate Full(limit: Option<nat>, drained: nat) { limit.Some? && drained >= limit.value }

  predicate Delivers(b: Batch, e: Event, limit: Option<nat>, now: int) {
    e.Live() && !Full(limit, |b.drained|) && b.blocked !! e.CheckKeys() && e.Available(now)
  }

  /** The event is passed over only because it is not yet available, and so blocks its entities. */
  predicate Blocks(b: Batch, e: Event, limit: Option<nat>, now: int) {
    e.Live() && !Full(limit, |b.drained|) && b.blocked !! e.CheckKeys() && !e.Available(now)
  }

  function Next(b: Batch, e: Event, limit: Option<nat>, now: int): Batch {
    if Delivers(b, e, limit, now) then b.(drained := b.drained + [e])
    else b.(retained := b.retained + [e], blocked := if Blocks(b, e, limit, now) then b.blocked + e.BlockKeys() else b.blocked)
  }

  function Drained(events: seq<Event>, limit: Option<nat>, now: int): Batch {
    if events == [] then Batch([], [], {})
    else Next(Drained(events[..|events| - 1], limit, now), events[|events| - 1], limit, now)
  }

  /** The event at position i of the queue is delivered. */
  predicate DeliversAt(events: seq<Event>, limit: Option<nat>, now: int, i: nat)
    requires i < |events|
  {
    Delivers(Drained(events[..i], limit, now), events[i], limit, now)
  }

  datatype Outcome = Done | Conflict | Invalid

  /** assertAvailableIds: the incoming ids are distinct and not in the queue. */
  predicate IdsFree(queue: seq<Event>, incoming: seq<Event>) {
    Distinct(Ids(incoming)) && forall id :: id in Ids(incoming) ==> id !in Ids(queue)
  }

  function Prepended(queue: seq<Event>, incoming: seq<Event>): (Outcome, seq<Event>) {
    if IdsFree(queue, incoming) then (Done, incoming + queue) else (Conflict, queue)
  }

  function Appended(queue: seq<Event>, e: Event): (Outcome, seq<Event>) {
    if e.id !in Ids(queue) then (Done, queue + [e]) else (Conflict, queue)
  }

  function Retried(queue: seq<Event>, failures: seq<Failure>): (Outcome, seq<Event>) {
    var events := AllOf(failures, RetryEvent);
    if events.None? then (Invalid, queue) else Prepended(queue, events.value)
  }

  // ---------------------------------------------------------------- the adapter

  class MemoryOutbox {
    var events: seq<Event>
    var deadLetters: seq<Event>

    constructor ()
      ensures events == [] && deadLetters == []
    {
      events, deadLetters := [], [];
    }

    method Append(e: Event) returns (outcome: Outcome)
      modifies this`events
      ensures (outcome, events) == Appended(old(events), e)
    {
      var ok := AssertAvailableIds(events, [e]);
      SingleId(e);
      assert [e.id][0] in [e.id] && Distinct([e.id]);
      if !ok { return Conflict; }
      events := events + [e];
      return Done;
    }

    method Drain(limit: Option<nat>, now: int) returns (drained: seq<Event>)
      modifies this`events
      ensures drained == Drained(old(events), limit, now).drained
      ensures events == Drained(old(events), limit, now).retained
    {
      drained := [];
      var retained: seq<Event>, blocked: set<OrderKey> := [], {};
      for i := 0 to |events|
        invariant events == old(events)
        invariant Batch(drained, retained, blocked) == Drained(events[..i], limit, now)
      {
        assert events[..i + 1][..i] == events[..i];
        var e := events[i];
        if e.deadLetteredAt.Some? {
          retained := retained + [e];
        } else if Full(limit, |drained|) || !(blocked !! e.CheckKeys()) {
          retained := retained + [e];
        } else if !e.Available(now) {
          blocked := blocked + e.BlockKeys();
          retained := retained + [e];
        } else {
          drained := drained + [e];
        }
      }
      assert events[..|events|] == events;
      events := retained;
    }

    method Requeue(incoming: seq<Event>) returns (outcome: Outcome)
      modifies this`events
      ensures (outcome, events) == Prepended(old(events), incoming)
    {
      var ok := AssertAvailableIds(events, incoming);
      if !ok { return Conflict; }
      events := incoming + events;
      return Done;
    }

    method Retry(failures: seq<Failure>) returns (outcome: Outcome)
      modifies this`events
      ensures (outcome, events) == Retried(old(events), failures)
    {
      var made := AllEvents(failures, RetryEvent);
      if made.None? { return Invalid; }
      outcome := Requeue(made.value);
    }

    method DeadLetter(failures: seq<Failure>) returns (outcome: Outcome)
      modifies this`deadLetters
      ensures var made := AllOf(failures, DeadLetterEvent);
        && outcome == (if made.None? then Invalid else if IdsFree(old(deadLetters), made.value) then Done else Conflict)
        && deadLetters == if outcome.Done? then old(deadLetters) + made.value else old(deadLetters)
    {
      var made := AllEvents(failures, DeadLetterEvent);
      if made.None? { return Invalid; }
      var ok := AssertAvailableIds(deadLetters, made.value);
      if !ok { return Conflict; }
      deadLetters := deadLetters + made.value;
      return Done;
    }
  }

  method AllEvents(failures: seq<Failure>, make: Failure -> Option<Event>) returns (made: Option<seq<Event>>)
    ensures made == AllOf(failures, make)
  {
    var events: seq<Event> := [];
    for i := 0 to |failures|
      invariant AllOf(failures[..i], make) == Some(events)
    {
      assert failures[..i + 1][..i] == failures[..i];
      var event := make(failures[i]);
      if event.None? {
        IncompleteBatch(failures, make, i + 1);
        return None;
      }
      events := events + [event.value];
    }
    assert failures[..|failures|] == failures;
    return Some(events);
  }

  lemma {:induction false} IncompleteBatch(failures: seq<Failure>, make: Failure -> Option<Event>, n: nat)
    requires n <= |failures| && AllOf(failures[..n], make).None?
    ensures AllOf(failures, make).None?
    decreases |failures| - n
  {
    if n == |failures| { assert failures[..n] == failures; }
    else {
      assert failures[..n + 1][..n] == failures[..n];
      IncompleteBatch(failures, make, n + 1);
    }
  }

  method AssertAvailableIds(queue: seq<Event>, incoming: seq<Event>) returns (ok: bool)
    ensures ok == IdsFree(queue, incoming)
  {
    var existing: set<Key> := {};
    for i := 0 to |queue|
      invariant forall id :: id in existing <==> id in Ids(queue[..i])
    {
      assert queue[..i + 1][..i] == queue[..i];
      existing := existing + {queue[i].id};
    }
    assert queue[..|queue|] == queue;
    var seen: set<Key> := {};
    for i := 0 to |incoming|
      invariant forall id :: id in seen <==> id in Ids(incoming[..i])
      invariant IdsFree(queue, incoming[..i])
    {
      assert incoming[..i + 1][..i] == incoming[..i];
      if incoming[i].id in seen || incoming[i].id in existing {
        IdsTaken(queue, incoming, i);
        return false;
      }
      AppendDistinct(Ids(incoming[..i]), incoming[i].id);
      seen := seen + {incoming[i].id};
    }
    assert incoming[..|incoming|] == incoming;
    return true;
  }

  lemma SingleId(e: Event)
    ensures Ids([e]) == [e.id]
  {
    assert [e][..0] == [];
  }

  lemma {:induction false} IdsAppend(a: seq<Event>, b: seq<Event>)
    ensures Ids(a + b) == Ids(a) + Ids(b)
  {
    if b == [] { assert a + b == a; }
    else {
      IdsAppend(a, b[..|b| - 1]);
      assert (a + b)[..|a + b| - 1] == a + b[..|b| - 1];
    }
  }

  lemma IdsTaken(queue: seq<Event>, incoming: seq<Event>, i: nat)
    requires i < |incoming| && (incoming[i].id in Ids(incoming[..i]) || incoming[i].id in Ids(queue))
    ensures !IdsFree(queue, incoming)
  {
    assert incoming == incoming[..i] + ([incoming[i]] + incoming[i + 1..]);
    IdsAppend(incoming[..i], [incoming[i]] + incoming[i + 1..]);
    IdsAppend([incoming[i]], incoming[i + 1..]);
    SingleId(incoming[i]);
    DistinctAppend(Ids(incoming[..i]), [incoming[i].id] + Ids(incoming[i + 1..]));
  }

  // ---------------------------------------------------------------- what a drain guarantees

  /** The events at the positions where picked equals side, in queue order. */
  function Side(events: seq<Event>, picked: seq<bool>, side: bool): seq<Event>
    requires |picked| == |events|
  {
    if events == [] then []
    else
      var last := |events| - 1;
      Side(events[..last], picked[..last], side) + if picked[last] == side then [events[last]] else []
  }

  ghost function Picks(events: seq<Event>, limit: Option<nat>, now: int): seq<bool> {
    seq(|events|, i requires 0 <= i < |events| => DeliversAt(events, limit, now, i))
  }

  /** A drain splits the queue in two, both in queue order, and takes no more than the limit. */
  lemma {:induction false} DrainSplitsInOrder(events: seq<Event>, limit: Option<nat>, now: int)
    ensures Drained(events, limit, now).drained == Side(events, Picks(events, limit, now), true)
    ensures Drained(events, limit, now).retained == Side(events, Picks(events, limit, now), false)
    ensures limit.Some? ==> |Drained(events, limit, now).drained| <= limit.value
  {
    if events != [] {
      var last := |events| - 1;
      DrainSplitsInOrder(events[..last], limit, now);
      assert forall i :: 0 <= i < last ==> events[..last][..i] == events[..i];
      assert Picks(events, limit, now)[..last] == Picks(events[..last], limit, now);
    }
  }

  /** Later prefixes drain at least as many events and block at least as many keys. */
  lemma {:induction false} BatchGrows(events: seq<Event>, limit: Option<nat>, now: int, i: nat, j: nat)
    requires i <= j <= |events|
    ensures |Drained(events[..i], limit, now).drained| <= |Drained(events[..j], limit, now).drained|
    ensures Drained(events[..i], limit, now).blocked <= Drained(events[..j], limit, now).blocked
    decreases j
  {
    if i < j {
      BatchGrows(events, limit, now, i, j - 1);
      assert events[..j][..j - 1] == events[..j - 1];
    }
  }

  /** A live event left behind ahead of a delivered one: if it was merely not available yet, the
      delivered event checks none of the keys it blocks; otherwise it was itself blocked, and the
      delivered event checks none of the keys that blocked it. */
  lemma DeliveredPastRetained(events: seq<Event>, limit: Option<nat>, now: int, i: nat, j: nat)
    requires i < j < |events| && events[i].Live()
    requires !DeliversAt(events, limit, now, i) && DeliversAt(events, limit, now, j)
    ensures var blocked := Drained(events[..i], limit, now).blocked;
      && blocked !! events[j].CheckKeys()
      && (blocked !! events[i].CheckKeys() ==> !events[i].Available(now) && events[i].BlockKeys() !! events[j].CheckKeys())
  {
    BatchGrows(events, limit, now, i, j);
    BatchGrows(events, limit, now, i + 1, j);
    assert events[..i + 1][..i] == events[..i];
  }

  /** For events with one entity: none is delivered past a live event of the same entity that stays. */
  lemma EntityOrderIsKept(events: seq<Event>, limit: Option<nat>, now: int, i: nat, j: nat)
    requires i < j < |events| && events[i].Live() && DeliversAt(events, limit, now, j)
    requires events[i].SingleKey() && events[j].SingleKey() && events[i].OrderKeys() == events[j].OrderKeys()
    ensures DeliversAt(events, limit, now, i)
  {
    var k := events[i].OrderKeys()[0];
    assert k in events[i].BlockKeys() && events[i].CheckKeys() == {k} && events[j].CheckKeys() == {k};
    if !DeliversAt(events, limit, now, i) { DeliveredPastRetained(events, limit, now, i, j); }
  }

  /** Events without Datastore scope, ancestor or identity have one entity each. */
  lemma PlainEventsHaveOneKey(e: Event)
    requires e.scope.None? && e.ancestor.None? && (e.modelIdentity.Some? ==> !(DATASTORE_PREFIX <= e.modelIdentity.value))
    ensures e.SingleKey()
  {
  }

  /** The two Datastore forms of one entity keep their order too, in both directions, as long as the
      first was left behind because it was not available rather than because it was blocked. */
  lemma AliasesKeepOrder(events: seq<Event>, limit: Option<nat>, now: int, i: nat, j: nat)
    requires i < j < |events| && DeliversAt(events, limit, now, j)
    requires Blocks(Drained(events[..i], limit, now), events[i], limit, now)
    requires || (events[i].IdentityOnly() && events[j].NamespaceLessAncestor())
             || (events[i].NamespaceLessAncestor() && events[j].IdentityOnly())
    ensures events[i].model != events[j].model || events[i].modelId != events[j].modelId || events[i].scope != events[j].scope
  {
    DeliveredPastRetained(events, limit, now, i, j);
    var alias := events[i].Alias(events[i].IdentityOnly());
    assert alias in events[i].BlockKeys();
  }

  // ---------------------------------------------------------------- which events are delivered

  /** Event i is passed over only because it is not available yet. */
  predicate BlocksAt(events: seq<Event>, limit: Option<nat>, now: int, i: nat)
    requires i < |events|
  {
    Blocks(Drained(events[..i], limit, now), events[i], limit, now)
  }

  ghost predicate BlocksKey(events: seq<Event>, limit: Option<nat>, now: int, k: OrderKey, i: nat) {
    i < |events| && BlocksAt(events, limit, now, i) && k in events[i].BlockKeys()
  }

  lemma SameBefore(events: seq<Event>, limit: Option<nat>, now: int, k: OrderKey, n: nat, i: nat)
    requires i < n <= |events|
    ensures BlocksKey(events[..n], limit, now, k, i) == BlocksKey(events, limit, now, k, i)
  {
    assert events[..n][..i] == events[..i];
  }

  lemma {:induction false} BlockedMeansBlocker(events: seq<Event>, limit: Option<nat>, now: int, k: OrderKey) returns (i: nat)
    requires k in Drained(events, limit, now).blocked
    ensures BlocksKey(events, limit, now, k, i)
  {
    var last := |events| - 1;
    if k in Drained(events[..last], limit, now).blocked {
      i := BlockedMeansBlocker(events[..last], limit, now, k);
      SameBefore(events, limit, now, k, last, i);
    } else {
      i := last;
    }
  }

  lemma {:induction false} BlockerMeansBlocked(events: seq<Event>, limit: Option<nat>, now: int, k: OrderKey, i: nat)
    requires BlocksKey(events, limit, now, k, i)
    ensures k in Drained(events, limit, now).blocked
  {
    var last := |events| - 1;
    if i < last {
      SameBefore(events, limit, now, k, last, i);
      BlockerMeansBlocked(events[..last], limit, now, k, i);
    }
  }

  /** Exactly the live and available events are delivered that find the batch not full and none of
      whose keys an earlier event blocks that was passed over only because it is not available. */
  lemma DeliveredIffFree(events: seq<Event>, limit: Option<nat>, now: int, i: nat)
    requires i < |events|
    ensures DeliversAt(events, limit, now, i) <==>
      && events[i].deadLetteredAt.None? && (events[i].availableAt.Some? ==> events[i].availableAt.value <= now)
      && (limit.Some? ==> |Drained(events[..i], limit, now).drained| < limit.value)
      && forall j :: 0 <= j < i && BlocksAt(events, limit, now, j) ==> events[j].BlockKeys() !! events[i].CheckKeys()
  {
    var before := events[..i];
    forall j: nat, k | j < i && BlocksAt(events, limit, now, j) && k in events[j].BlockKeys() ensures k in Drained(before, limit, now).blocked {
      SameBefore(events, limit, now, k, i, j);
      BlockerMeansBlocked(before, limit, now, k, j);
    }
    hide Drained, BlocksAt, Event.CheckKeys, Event.BlockKeys;
    if k :| k in Drained(before, limit, now).blocked && k in events[i].CheckKeys() {
      var j := BlockedMeansBlocker(before, limit, now, k);
      SameBefore(events, limit, now, k, i, j);
      assert k in events[j].BlockKeys() && BlocksAt(events, limit, now, j);
    }
  }

  /** The two events say the same about their entity. */
  predicate SameForm(e: Event, f: Event) {
    && e.model == f.model && e.modelId == f.modelId && e.modelIdentity == f.modelIdentity
    && e.ancestor == f.ancestor && e.scope == f.scope && e.documentIdentity == f.documentIdentity
  }

  /** Of two events that name the same entity in the same way, by its id, its identity or its place in
      Datastore, the later one is not delivered past a live earlier one. */
  lemma SameFormKeepsOrder(events: seq<Event>, limit: Option<nat>, now: int, i: nat, j: nat)
    requires i < j < |events| && events[i].Live() && DeliversAt(events, limit, now, j)
    requires SameForm(events[i], events[j]) && (events[i].modelId.Some? || events[i].modelIdentity.Some?)
    ensures DeliversAt(events, limit, now, i)
  {
    var k := events[i].OrderKeys()[0];
    assert k in events[i].BlockKeys() && k in events[j].CheckKeys() && events[i].CheckKeys() == events[j].CheckKeys();
    hide Event.OrderKeys, Event.CheckKeys, Event.BlockKeys;
    BatchGrows(events, limit, now, i, j);
    if !DeliversAt(events, limit, now, i) { DeliveredPastRetained(events, limit, now, i, j); }
  }

  /** So for ordinary events of one entity, named by its id alone. */
  lemma OneEntityKeepsOrder(events: seq<Event>, limit: Option<nat>, now: int, i: nat, j: nat)
    requires i < j < |events| && events[i].Live() && DeliversAt(events, limit, now, j)
    requires events[i].model == events[j].model && events[i].modelId == events[j].modelId && events[i].modelId.Some?
    requires events[i].modelIdentity.None? && events[i].ancestor.None? && events[i].scope.None?
    requires events[j].modelIdentity.None? && events[j].ancestor.None? && events[j].scope.None?
    ensures DeliversAt(events, limit, now, i)
  {
    var k := EntityKey(events[i].model, events[i].modelId.value);
    assert events[i].OrderKeys() == [k] && events[j].OrderKeys() == [k];
    assert events[i].SingleKey() && events[j].SingleKey();
    hide Event.OrderKeys, Event.CheckKeys, Event.BlockKeys;
    EntityOrderIsKept(events, limit, now, i, j);
  }

  /** And for events of one identity without a place in Datastore. */
  lemma OneIdentityKeepsOrder(events: seq<Event>, limit: Option<nat>, now: int, i: nat, j: nat)
    requires i < j < |events| && events[i].Live() && DeliversAt(events, limit, now, j)
    requires events[i].model == events[j].model && events[i].modelIdentity == events[j].modelIdentity
    requires events[i].modelIdentity.Some? && !(DATASTORE_PREFIX <= events[i].modelIdentity.value)
    requires events[i].ancestor.None? && events[i].scope.None? && events[j].ancestor.None? && events[j].scope.None?
    ensures DeliversAt(events, limit, now, i)
  {
    var k := EntityKey(events[i].model, events[i].modelIdentity.value);
    assert events[i].OrderKeys() == [k] && events[j].OrderKeys() == [k];
    assert events[i].SingleKey() && events[j].SingleKey();
    hide Event.OrderKeys, Event.CheckKeys, Event.BlockKeys;
    EntityOrderIsKept(events, limit, now, i, j);
  }

  /** The event names an entity of its model by this text: by the identity it carries or the one that its
      place in Datastore gives it, or else by its id. */
  predicate Names(e: Event, identity: string) {
    var placed := (e.ancestor.Some? || e.scope.Some?) && e.modelId.Some?;
    || e.modelIdentity == Some(identity)
    || (placed && e.documentIdentity == identity)
    || (!placed && e.modelIdentity.None? && e.modelId == Some(identity))
  }

  /** One carries a Datastore identity and no ancestor, the other an ancestor without namespace. */
  predicate TwoForms(a: Event, b: Event) {
    && a.ancestor.None? && a.modelIdentity.Some? && DATASTORE_PREFIX <= a.modelIdentity.value
    && b.ancestor.Some? && b.ancestor.value.namespace.None?
  }

  lemma KeysByForm(e: Event)
    ensures forall m, t {:trigger EntityKey(m, t)} ::
      (EntityKey(m, t) in e.BlockKeys() <==> m == e.model && Names(e, t)) && (EntityKey(m, t) in e.CheckKeys() <==> m == e.model && Names(e, t))
    ensures forall i {:trigger EventKey(i)} :: var nameless := e.modelId.None? && e.modelIdentity.None? && i == e.id;
      (EventKey(i) in e.BlockKeys() <==> nameless) && (EventKey(i) in e.CheckKeys() <==> nameless)
    ensures forall m, only, scope, t {:trigger AliasKey(m, only, scope, t)} ::
      var own := m == e.model && scope == e.scope && e.modelId == Some(t);
      && (AliasKey(m, only, scope, t) in e.BlockKeys() <==> own && if only then e.IdentityOnly() else e.NamespaceLessAncestor())
      && (AliasKey(m, only, scope, t) in e.CheckKeys() <==> own && if only then e.NamespaceLessAncestor() else e.IdentityOnly())
  {
  }

  /** Which events can hold each other back: those that name an entity of one model by the same text; those
      that name no entity and have one id; and the two Datastore forms of one model, id and scope. */
  lemma SharesAKeyIff(e: Event, f: Event)
    ensures !(e.BlockKeys() !! f.CheckKeys()) <==>
      || (e.model == f.model && exists identity :: Names(e, identity) && Names(f, identity))
      || (e.modelId.None? && e.modelIdentity.None? && f.modelId.None? && f.modelIdentity.None? && e.id == f.id)
      || (e.model == f.model && e.modelId.Some? && e.modelId == f.modelId && e.scope == f.scope && (TwoForms(e, f) || TwoForms(f, e)))
  {
    KeysByForm(e);
    KeysByForm(f);
    hide Event.BlockKeys, Event.CheckKeys, Names;
    if k :| k in e.BlockKeys() && k in f.CheckKeys() {
      match k
      case EntityKey(m, t) =>
      case EventKey(i) =>
      case AliasKey(m, only, scope, t) =>
    }
    if t :| e.model == f.model && Names(e, t) && Names(f, t) { assert EntityKey(e.model, t) in e.BlockKeys(); }
    if e.modelId.None? && e.modelIdentity.None? && f.modelId.None? && f.modelIdentity.None? && e.id == f.id {
      assert EventKey(e.id) in e.BlockKeys();
    }
    if e.model == f.model && e.modelId.Some? && e.modelId == f.modelId && e.scope == f.scope {
      if TwoForms(e, f) { assert AliasKey(e.model, true, e.scope, e.modelId.value) in e.BlockKeys(); }
      if TwoForms(f, e) { assert AliasKey(e.model, false, e.scope, e.modelId.value) in e.BlockKeys(); }
    }
  }

  /** What an event without a place in Datastore names its entity by. */
  function EntityName(e: Event): Option<string> { if e.modelIdentity.Some? then e.modelIdentity else e.modelId }

  /** Events of different entities do not hold each other back. */
  lemma DifferentEntitiesAreIndependent(e: Event, f: Event)
    requires e.id != f.id
    requires e.ancestor.None? && e.scope.None? && f.ancestor.None? && f.scope.None?
    requires e.model != f.model || EntityName(e) != EntityName(f)
    ensures e.BlockKeys() !! f.CheckKeys()
  {
  }

  // ---------------------------------------------------------------- failed events

  /** A retried event is the failed one, to be delivered from its retry time on: it keeps its id and its
      entity and moves to the next version and the number of attempts made. */
  lemma RetryComesBackLater(f: Failure)
    ensures RetryEvent(f).Some? <==> f.event.Some? && f.retryAt.Some?
    ensures RetryEvent(f).Some? ==>
      var e, failed := RetryEvent(f).value, f.event.value;
      && e.id == failed.id && SameForm(e, failed) && e.Live() && !e.leased
      && (forall now :: e.Available(now) <==> f.retryAt.value <= now)
      && e.Version() == failed.Version() + 1 && e.deliveryAttempts == f.attempt && e.lastError == Some(f.error)
  {
  }

  /** A dead letter is the failed event, never to be delivered again. */
  lemma DeadLetterStaysBehind(f: Failure, events: seq<Event>, limit: Option<nat>, now: int, i: nat)
    ensures DeadLetterEvent(f).Some? <==> f.event.Some?
    ensures DeadLetterEvent(f).Some? ==>
      var e, failed := DeadLetterEvent(f).value, f.event.value;
      && e.id == failed.id && SameForm(e, failed) && !e.leased && e.deadLetteredAt == Some(f.failedAt) && e.availableAt.None?
      && e.Version() == failed.Version() + 1 && e.deliveryAttempts == f.attempt && e.lastError == Some(f.error)
      && (i < |events| && events[i] == e ==> !DeliversAt(events, limit, now, i))
  {
  }

  lemma {:induction false} IdAt(events: seq<Event>, i: nat)
    requires i < |events|
    ensures |Ids(events)| == |events| && Ids(events)[i] == events[i].id
    decreases |events|
  {
    if i < |events| - 1 { IdAt(events[..|events| - 1], i); } else if i > 0 { IdAt(events[..|events| - 1], i - 1); }
  }

  lemma {:induction false} DistinctIffByPosition(ids: seq<Key>)
    ensures Distinct(ids) <==> forall i, j :: 0 <= i < j < |ids| ==> ids[i] != ids[j]
  {
    if ids != [] {
      DistinctIffByPosition(ids[1..]);
      assert forall i :: 0 < i < |ids| ==> ids[1..][i - 1] == ids[i];
    }
  }

  lemma IdsByPosition(events: seq<Event>)
    ensures |Ids(events)| == |events| && forall i :: 0 <= i < |events| ==> Ids(events)[i] == events[i].id
  {
    if events != [] { IdAt(events, 0); }
    hide Ids;
    forall i | 0 <= i < |events| ensures Ids(events)[i] == events[i].id { IdAt(events, i); }
  }

  /** Events can be put in front exactly if their ids differ from each other and from those in the queue. */
  lemma PrependingConflictsIff(queue: seq<Event>, incoming: seq<Event>)
    ensures Prepended(queue, incoming).0 ==
      if (forall i, j :: 0 <= i < j < |incoming| ==> incoming[i].id != incoming[j].id)
         && (forall i, j :: 0 <= i < |incoming| && 0 <= j < |queue| ==> incoming[i].id != queue[j].id) then Done else Conflict
  {
    IdsByPosition(incoming);
    IdsByPosition(queue);
    DistinctIffByPosition(Ids(incoming));
    hide Ids, Distinct;
    var a, b := Ids(incoming), Ids(queue);
    assert forall i :: 0 <= i < |a| ==> a[i] in a;
    assert forall j :: 0 <= j < |b| ==> b[j] in b;
    if id :| id in a && id in b {
      var i :| 0 <= i < |a| && a[i] == id;
      var j :| 0 <= j < |b| && b[j] == id;
      assert incoming[i].id == queue[j].id;
    }
  }

  /** An event is appended, at the end, exactly if no event of the queue has its id. */
  lemma AppendingConflictsIff(queue: seq<Event>, e: Event)
    ensures Appended(queue, e) == if forall j :: 0 <= j < |queue| ==> queue[j].id != e.id then (Done, queue + [e]) else (Conflict, queue)
  {
    IdsByPosition(queue);
    hide Ids;
    assert forall j :: 0 <= j < |queue| ==> queue[j].id in Ids(queue) by {
      assert forall j :: 0 <= j < |queue| ==> Ids(queue)[j] in Ids(queue);
    }
  }

  /** A batch of failures is invalid as a whole if one of them lacks its event or its retry time; otherwise
      its events come back in order, in front, unless their ids are taken. */
  lemma {:induction false} RetriesComeBackInOrder(queue: seq<Event>, failures: seq<Failure>)
    ensures AllOf(failures, RetryEvent).None? <==> exists i :: 0 <= i < |failures| && RetryEvent(failures[i]).None?
    ensures AllOf(failures, RetryEvent).Some? ==>
      && |AllOf(failures, RetryEvent).value| == |failures|
      && forall i :: 0 <= i < |failures| ==> RetryEvent(failures[i]) == Some(AllOf(failures, RetryEvent).value[i])
    ensures Retried(queue, failures).0.Invalid? <==> AllOf(failures, RetryEvent).None?
    ensures !Retried(queue, failures).0.Done? ==> Retried(queue, failures).1 == queue
    ensures Retried(queue, failures).0.Done? ==> Retried(queue, failures).1 == AllOf(failures, RetryEvent).value + queue
    decreases |failures|
  {
    hide RetryEvent, IdsFree;
    if failures != [] { RetriesComeBackInOrder(queue, failures[..|failures| - 1]); }
  }

  /** Until its retry time a failed event that was put back holds back every other event of its entity. */
  lemma RetriedEventHoldsBackItsEntity(queue: seq<Event>, f: Failure, limit: Option<nat>, now: int, j: nat)
    requires Retried(queue, [f]).0.Done? && now < f.retryAt.value
    requires var after := Retried(queue, [f]).1;
      0 < j < |after| && SameForm(after[j], f.event.value) && (f.event.value.modelId.Some? || f.event.value.modelIdentity.Some?)
    ensures !DeliversAt(Retried(queue, [f]).1, limit, now, 0) && !DeliversAt(Retried(queue, [f]).1, limit, now, j)
  {
    var after := Retried(queue, [f]).1;
    OneFailure(f, RetryEvent);
    RetryComesBackLater(f);
    assert after[0] == RetryEvent(f).value;
    if DeliversAt(after, limit, now, j) { SameFormKeepsOrder(after, limit, now, 0, j); }
  }

  lemma OneFailure(f: Failure, make: Failure -> Option<Event>)
    ensures AllOf([f], make) == if make(f).None? then None else Some([make(f).value])
  {
    assert [f][..0] == [];
    assert AllOf([f][..0], make) == Some([]);
    if make(f).Some? { assert [] + [make(f).value] == [make(f).value]; }
  }

  // ---------------------------------------------------------------- overtaking

  /** An event that checks a key of event i is delivered although event i, ahead of it, is not. */
  ghost predicate Overtakes(events: seq<Event>, limit: Option<nat>, now: int, i: nat, j: nat) {
    && i < j < |events| && !DeliversAt(events, limit, now, i) && DeliversAt(events, limit, now, j)
    && !(events[i].BlockKeys() !! events[j].CheckKeys())
  }

  /** Whatever events with new ids follow, none of them overtakes the last event of the queue. */
  ghost predicate NeverOvertaken(front: seq<Event>, limit: Option<nat>, now: int)
    requires front != []
  {
    var last: nat := |front| - 1;
    forall rest, j: nat :: Distinct(Ids(front + rest)) ==> !Overtakes(front + rest, limit, now, last, j)
  }

  /** The event is not blocked by an earlier one, or all keys it would block are blocked anyway. */
  predicate Covered(b: Batch, e: Event) { b.blocked !! e.CheckKeys() || e.BlockKeys() <= b.blocked }

  /** A live event that is left behind before the batch is full has all its keys blocked behind it
      exactly if it is covered. */
  lemma KeysBlockedIffCovered(b: Batch, e: Event, limit: Option<nat>, now: int)
    requires e.Live() && !Full(limit, |b.drained|) && !Delivers(b, e, limit, now)
    ensures e.BlockKeys() <= Next(b, e, limit, now).blocked <==> Covered(b, e)
  {
    if !(b.blocked !! e.CheckKeys()) { assert Next(b, e, limit, now).blocked == b.blocked; }
  }

  lemma CoveredIsNotOvertaken(events: seq<Event>, limit: Option<nat>, now: int, i: nat, j: nat)
    requires i < |events| && events[i].Live()
    requires var b := Drained(events[..i], limit, now); Full(limit, |b.drained|) || Covered(b, events[i])
    ensures !Overtakes(events, limit, now, i, j)
  {
    if Overtakes(events, limit, now, i, j) {
      var b := Drained(events[..i], limit, now);
      BatchGrows(events, limit, now, i, j);
      BatchGrows(events, limit, now, i + 1, j);
      assert events[..i + 1][..i] == events[..i];
      KeysBlockedIffCovered(b, events[i], limit, now);
    }
  }

  lemma LongerThanAll(texts: set<string>) returns (n: nat)
    ensures forall t :: t in texts ==> |t| < n
  {
    n := 0;
    if texts != {} {
      var t :| t in texts;
      n := LongerThanAll(texts - {t});
      n := if |t| < n then n else |t| + 1;
    }
  }

  /** A text that differs from all shorter ones, shaped like the identity of a Datastore document. */
  function Unused(n: nat): (text: string)
    ensures |text| > n && DATASTORE_PREFIX <= text
  {
    DATASTORE_PREFIX + seq(n, _ => 'x')
  }

  lemma UnusedIdentity(keys: set<OrderKey>) returns (n: nat)
    ensures forall m :: EntityKey(m, Unused(n)) !in keys
  {
    var texts := set b | b in keys && b.EntityKey? :: b.identity;
    n := LongerThanAll(texts);
    assert forall m :: EntityKey(m, Unused(n)) in keys ==> Unused(n) in texts;
  }

  /** An event that is delivered now, checks a given key that event e blocks, and none of the keys
      blocked so far. Where it has an ancestor or scope, its document identity is an unused text of the
      right form; the digest that the program derives it by is not modelled. */
  lemma Overtaker(blocked: set<OrderKey>, e: Event, k: OrderKey, id: Key) returns (o: Event)
    requires k in e.BlockKeys() && k !in blocked && !k.EventKey?
    ensures o.id == id && o.Live() && o.availableAt.None? && k in o.CheckKeys() && blocked !! o.CheckKeys()
  {
    var n := UnusedIdentity(blocked);
    var plain := Event(id, e.model, None, None, None, None, Unused(n), None, 0, false, None, None, None);
    match k
    case EntityKey(model, identity) =>
      o := plain.(model := model, modelIdentity := Some(identity));
      assert o.OrderKeys() == [k];
    case AliasKey(model, true, scope, entity) =>
      o := plain.(modelId := Some(entity), scope := scope, ancestor := Some(Ancestor(None, "")));
      assert o.OrderKeys() == [EntityKey(model, Unused(n))] && o.CheckKeys() == {EntityKey(model, Unused(n)), k};
    case AliasKey(model, false, scope, entity) =>
      o := plain.(modelId := Some(entity), scope := scope, modelIdentity := Some(Unused(n)));
      assert forall x :: x in o.OrderKeys() ==> x == EntityKey(model, Unused(n));
      assert k == o.Alias(false);
  }

  /** Exactly when the order of an event with several keys is kept: a live event that a drain leaves
      behind is never overtaken by an event that shares a key with it, whatever follows in the queue,
      if and only if the batch was full, or no key it checks was blocked ahead of it, or all the keys
      it blocks were. */
  lemma NeverOvertakenIffCovered(front: seq<Event>, limit: Option<nat>, now: int)
    requires front != [] && Distinct(Ids(front))
    requires var i := |front| - 1; front[i].Live() && !DeliversAt(front, limit, now, i)
    ensures var i := |front| - 1; var b := Drained(front[..i], limit, now);
      NeverOvertaken(front, limit, now) <==> Full(limit, |b.drained|) || Covered(b, front[i])
  {
    var i := |front| - 1;
    var b, e := Drained(front[..i], limit, now), front[i];
    if Full(limit, |b.drained|) || Covered(b, e) {
      forall rest, j: nat ensures !Overtakes(front + rest, limit, now, i, j)
      {
        var events := front + rest;
        assert events[..i] == front[..i];
        CoveredIsNotOvertaken(events, limit, now, i, j);
      }
    } else {
      var o := OvertakenOnce(front, limit, now);
      assert Overtakes(front + [o], limit, now, i, i + 1) && Distinct(Ids(front + [o]));
    }
  }

  lemma OvertakenOnce(front: seq<Event>, limit: Option<nat>, now: int) returns (o: Event)
    requires front != [] && Distinct(Ids(front))
    requires var i := |front| - 1; var b := Drained(front[..i], limit, now);
      front[i].Live() && !DeliversAt(front, limit, now, i) && !Full(limit, |b.drained|) && !Covered(b, front[i])
    ensures Distinct(Ids(front + [o])) && Overtakes(front + [o], limit, now, |front| - 1, |front|)
  {
    var i := |front| - 1;
    var b, e := Drained(front[..i], limit, now), front[i];
    var k :| k in e.BlockKeys() && k !in b.blocked;
    SingleEventKey(e, k);
    var texts := set id | id in Ids(front) :: id.text;
    var n := LongerThanAll(texts);
    o := Overtaker(b.blocked, e, k, Key(Unused(n)));
    var events := front + [o];
    assert events[..i] == front[..i] && events[..i + 1] == front;
    assert Drained(front, limit, now) == Next(b, e, limit, now);
    assert DeliversAt(events, limit, now, i + 1);
    assert o.id in Ids(front) ==> o.id.text in texts;
    IdsAppend(front, [o]);
    SingleId(o);
    AppendDistinct(Ids(front), o.id);
  }

  /** An event without an entity checks and blocks the same single key. */
  lemma SingleEventKey(e: Event, k: OrderKey)
    requires k in e.BlockKeys()
    ensures k.EventKey? ==> e.CheckKeys() == e.BlockKeys() == {k}
  {
  }

  const SHOP_SCOPE := "[\"shop\",null,null,\"active-ts\",null]"
  const CUSTOMER_DOCUMENT := "datastore:ZwAjDFQcx7mBN6lDj2Axq3I6HGDQWHDizm8LM8TzkVo"

  /** Three events about customers: the second shares its identity with the first and its Datastore
      document (customer 1 of the shop) with the third. */
  function SharedKeyQueue(a: Key, b: Key, c: Key, now: int): seq<Event> {
    var plain := Event(a, Key("Customer"), Some("number:1"), None, None, None, CUSTOMER_DOCUMENT, None, 0, false, None, None, None);
    [plain.(modelIdentity := Some("customer"), availableAt := Some(now + 1)),
     plain.(id := b, modelIdentity := Some("customer"), scope := Some(SHOP_SCOPE)),
     plain.(id := c, scope := Some(SHOP_SCOPE))]
  }

  /** With several order keys the order can fail: the first event is not available, the second waits
      for it, and the third overtakes the second although they share an entity. */
  lemma SharedKeysCanBeOvertaken(a: Key, b: Key, c: Key, now: int)
    requires a != b && b != c && a != c
    ensures var queue := SharedKeyQueue(a, b, c, now);
      && Distinct(Ids(queue)) && queue[1].Live() && Overtakes(queue, None, now, 1, 2)
      && !Covered(Drained(queue[..1], None, now), queue[1])
  {
    var queue := SharedKeyQueue(a, b, c, now);
    SharedKeys(a, b, c, now);
    var shared, document := EntityKey(Key("Customer"), "customer"), EntityKey(Key("Customer"), CUSTOMER_DOCUMENT);
    hide SharedKeyQueue, Event.CheckKeys, Event.BlockKeys;
    assert queue[..2][..1] == queue[..1] == [queue[0]] && queue[..1][..0] == [];
    assert Drained([], None, now) == Batch([], [], {});
    assert Drained(queue[..1], None, now) == Next(Batch([], [], {}), queue[0], None, now);
    assert Drained(queue[..1], None, now).blocked == {shared};
    assert Drained(queue[..2], None, now) == Next(Drained(queue[..1], None, now), queue[1], None, now);
    assert Drained(queue[..2], None, now).blocked == {shared} && shared in queue[1].CheckKeys();
    assert document in queue[1].BlockKeys() && document in queue[2].CheckKeys();
  }

  lemma SharedKeys(a: Key, b: Key, c: Key, now: int)
    requires a != b && b != c && a != c
    ensures var queue := SharedKeyQueue(a, b, c, now);
      var shared, document := EntityKey(Key("Customer"), "customer"), EntityKey(Key("Customer"), CUSTOMER_DOCUMENT);
      && shared != document && Distinct(Ids(queue)) && |queue| == 3
      && queue[0].Live() && queue[1].Live() && queue[2].Live()
      && !queue[0].Available(now) && queue[1].Available(now) && queue[2].Available(now)
      && queue[0].BlockKeys() == queue[0].CheckKeys() == {shared}
      && queue[1].BlockKeys() == queue[1].CheckKeys() == {shared, document}
      && queue[2].BlockKeys() == queue[2].CheckKeys() == {document}
  {
    var queue := SharedKeyQueue(a, b, c, now);
    assert "customer"[0] != CUSTOMER_DOCUMENT[0] && "customer"[0] != DATASTORE_PREFIX[0];
    ThreeIds(queue);
    ThreeDistinct(a, b, c);
    hide Distinct, Ids;
    PlainKeys(queue[0]);
    PlainKeys(queue[1]);
    PlainKeys(queue[2]);
    var shared, document := EntityKey(Key("Customer"), "customer"), EntityKey(Key("Customer"), CUSTOMER_DOCUMENT);
    assert queue[0].OrderKeys() == [shared] && queue[1].OrderKeys() == [shared, document] && queue[2].OrderKeys() == [document];
    assert KeySet([shared, document]) == {shared, document} && KeySet([shared]) == {shared} && KeySet([document]) == {document};
  }

  /** An event without ancestor and Datastore identity checks and blocks its order keys. */
  lemma PlainKeys(e: Event)
    requires e.ancestor.None? && (e.modelIdentity.Some? ==> !(DATASTORE_PREFIX <= e.modelIdentity.value))
    ensures e.CheckKeys() == e.BlockKeys() == KeySet(e.OrderKeys())
  {
  }

  lemma ThreeDistinct(a: Key, b: Key, c: Key)
    requires a != b && b != c && a != c
    ensures Distinct([a, b, c])
  {
    AppendDistinct([a], b);
    AppendDistinct([a] + [b], c);
  }

  lemma ThreeIds(queue: seq<Event>)
    requires |queue| == 3
    ensures Ids(queue) == [queue[0].id, queue[1].id, queue[2].id]
  {
    assert queue[..2][..1] == queue[..1] && queue[..1][..0] == [];
    assert Ids(queue[..1]) == [queue[0].id];
    assert Ids(queue[..2]) == [queue[0].id, queue[1].id];
  }

  // ---------------------------------------------------------------- ids over runs

  datatype Op =
    | AppendOp(event: Event)
    | DrainOp(limit: Option<nat>, now: int)
    | RequeueOp(events: seq<Event>)
    | RetryOp(failures: seq<Failure>)

  function Apply(queue: seq<Event>, op: Op): seq<Event> {
    match op
    case AppendOp(e) => Appended(queue, e).1
    case DrainOp(limit, now) => Drained(queue, limit, now).retained
    case RequeueOp(events) => Prepended(queue, events).1
    case RetryOp(failures) => Retried(queue, failures).1
  }

  function After(queue: seq<Event>, run: seq<Op>): seq<Event>
    decreases |run|
  {
    if run == [] then queue else After(Apply(queue, run[0]), run[1..])
  }

  lemma PrependKeepsIdsDistinct(queue: seq<Event>, incoming: seq<Event>)
    requires Distinct(Ids(queue))
    ensures Distinct(Ids(Prepended(queue, incoming).1))
  {
    IdsAppend(incoming, queue);
    DistinctAppend(Ids(incoming), Ids(queue));
  }

  lemma SideStep(events: seq<Event>, picked: seq<bool>, side: bool)
    requires |picked| == |events| > 0
    ensures var last := |events| - 1;
      Ids(Side(events, picked, side)) == Ids(Side(events[..last], picked[..last], side)) + if picked[last] == side then [events[last].id] else []
  {
    var last := |events| - 1;
    var rest := Side(events[..last], picked[..last], side);
    if picked[last] == side {
      IdsAppend(rest, [events[last]]);
      SingleId(events[last]);
    } else {
      assert rest + [] == rest && Ids(rest) + [] == Ids(rest);
    }
  }

  /** Every event goes to exactly one side. */
  lemma {:induction false} SidesPartitionIds(events: seq<Event>, picked: seq<bool>, id: Key)
    requires |picked| == |events| && Distinct(Ids(events))
    ensures id in Ids(events) <==> id in Ids(Side(events, picked, true)) || id in Ids(Side(events, picked, false))
    ensures !(id in Ids(Side(events, picked, true)) && id in Ids(Side(events, picked, false)))
    ensures Distinct(Ids(Side(events, picked, true))) && Distinct(Ids(Side(events, picked, false)))
  {
    if events != [] {
      var last := |events| - 1;
      var before, pickedBefore := events[..last], picked[..last];
      DistinctAppend(Ids(before), [events[last].id]);
      SidesPartitionIds(before, pickedBefore, id);
      SidesPartitionIds(before, pickedBefore, events[last].id);
      SideStep(events, picked, true);
      SideStep(events, picked, false);
      var id' := events[last].id;
      var mine, others := Ids(Side(before, pickedBefore, picked[last])), Ids(Side(before, pickedBefore, !picked[last]));
      assert Ids(events) == Ids(before) + [id'];
      assert Ids(Side(events, picked, picked[last])) == mine + [id'];
      assert Ids(Side(events, picked, !picked[last])) == others by { assert others + [] == others; }
      hide Side, Ids, Distinct;
      DistinctAppend(mine, [id']);
    }
  }

  lemma {:induction false} StepKeepsIdsDistinct(queue: seq<Event>, op: Op)
    requires Distinct(Ids(queue))
    ensures Distinct(Ids(Apply(queue, op)))
  {
    match op
    case AppendOp(e) =>
      IdsAppend(queue, [e]);
      SingleId(e);
      DistinctAppend(Ids(queue), [e.id]);
    case DrainOp(limit, now) =>
      DrainSplitsInOrder(queue, limit, now);
      SidesPartitionIds(queue, Picks(queue, limit, now), Key(""));
    case RequeueOp(events) => PrependKeepsIdsDistinct(queue, events);
    case RetryOp(failures) =>
      var made := AllOf(failures, RetryEvent);
      if made.Some? { PrependKeepsIdsDistinct(queue, made.value); }
  }

  /** In every reachable state the ids in the queue are distinct. */
  lemma {:induction false} IdsStayDistinct(queue: seq<Event>, run: seq<Op>)
    requires Distinct(Ids(queue))
    ensures Distinct(Ids(After(queue, run)))
    decreases |run|
  {
    if run != [] {
      StepKeepsIdsDistinct(queue, run[0]);
      IdsStayDistinct(Apply(queue, run[0]), run[1..]);
    }
  }

  /** A drain neither loses nor duplicates an event: each id goes to exactly one side. */
  lemma DrainConservesEvents(queue: seq<Event>, limit: Option<nat>, now: int, id: Key)
    requires Distinct(Ids(queue))
    ensures var b := Drained(queue, limit, now);
      && (id in Ids(queue) <==> id in Ids(b.drained) || id in Ids(b.retained))
      && !(id in Ids(b.drained) && id in Ids(b.retained))
  {
    DrainSplitsInOrder(queue, limit, now);
    SidesPartitionIds(queue, Picks(queue, limit, now), id);
  }
}
