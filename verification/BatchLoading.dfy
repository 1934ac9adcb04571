/** Batched reads: callers ask for one id each and share a promise queue; a flush takes all pending
    ids, loads them in chunks and settles every caller. Any number of flushes is under way at once. */
module BatchLoading {
  import opened OrderedMaps
  import opened Epochs
  import opened Options
  import opened Rows

  /** A caller's promise, known by its number, and the id it asked for. */
  datatype Ask = Ask(waiter: nat, id: Key)

  datatype Item = Item(id: Key, waiters: seq<nat>)

  type Pending = OrderedMap<Key, seq<nat>>
  type Chunk = seq<Item>

  /** loadMany returns values by position (possibly too few), or throws. */
  datatype LoadResult = Values(values: seq<Answer>) | Failed(error: int)

  datatype Answered = Resolved(value: Answer) | Rejected(error: int)

  /** One settlement, with the call it came from. */
  datatype Settled = Settled(ask: Ask, ids: seq<Key>, result: LoadResult, answer: Answered)

  // ---------------------------------------------------------------- the steps on values

  function AddWaiter(pending: Pending, id: Key, waiter: nat): Pending {
    pending.Set(id, (if pending.Has(id) then pending.entries[id] else []) + [waiter])
  }

  /** One item for each waiter of an id. */
  function Singles(id: Key, waiters: seq<nat>): seq<Item> {
    seq(|waiters|, i requires 0 <= i < |waiters| => Item(id, [waiters[i]]))
  }

  function ItemsOf(id: Key, waiters: seq<nat>, distinct: bool): seq<Item> {
    if distinct then Singles(id, waiters) else [Item(id, waiters)]
  }

  type Waiters = map<Key, seq<nat>>

  function WaitersOf(entries: Waiters, id: Key): seq<nat> { if id in entries then entries[id] else [] }

  /** pendingBatches, over ids in insertion order. */
  function Batch(order: seq<Key>, entries: Waiters, distinct: bool): seq<Item> {
    if order == [] then []
    else
      var id := order[|order| - 1];
      Batch(order[..|order| - 1], entries, distinct) + ItemsOf(id, WaitersOf(entries, id), distinct)
  }

  function BatchOf(pending: Pending, distinct: bool): seq<Item> { Batch(pending.order, pending.entries, distinct) }

  function Min(a: nat, b: nat): nat { if a < b then a else b }

  /** chunkItems */
  function Chunks<T>(items: seq<T>, size: nat): seq<seq<T>>
    requires size >= 1
    decreases |items|
  {
    if items == [] then [] else [items[..Min(size, |items|)]] + Chunks(items[Min(size, |items|)..], size)
  }

  function ChunkIds(chunk: Chunk): seq<Key> { seq(|chunk|, i requires 0 <= i < |chunk| => chunk[i].id) }

  function AnswerAt(result: LoadResult, index: nat): Answered {
    match result
    case Values(values) => Resolved(if index < |values| then values[index] else None)
    case Failed(error) => Rejected(error)
  }

  function SettleItem(item: Item, ids: seq<Key>, result: LoadResult, index: nat): seq<Settled> {
    seq(|item.waiters|, i requires 0 <= i < |item.waiters| => Settled(Ask(item.waiters[i], item.id), ids, result, AnswerAt(result, index)))
  }

  /** The settlements of the first n items of a chunk. */
  function SettleChunk(chunk: Chunk, result: LoadResult, n: nat): seq<Settled>
    requires n <= |chunk|
  {
    if n == 0 then [] else SettleChunk(chunk, result, n - 1) + SettleItem(chunk[n - 1], ChunkIds(chunk), result, n - 1)
  }

  // ---------------------------------------------------------------- the loader in place

  class BatchLoader {
    const maxSize: nat
    const distinctResults: bool
    var pending: Pending
    var scheduled: bool

    constructor (maxSize: nat, distinctResults: bool)
      requires maxSize >= 1
      ensures Valid() && pending == Empty() && !scheduled
      ensures this.maxSize == maxSize && this.distinctResults == distinctResults
    {
      this.maxSize, this.distinctResults := maxSize, distinctResults;
      pending, scheduled := Empty(), false;
    }

    ghost predicate Valid()
      reads this
    {
      maxSize >= 1 && pending.Valid() && (pending.order != [] ==> scheduled)
    }

    method Load(id: Key, waiter: nat)
      requires Valid()
      modifies this
      ensures Valid()
      ensures pending == AddWaiter(old(pending), id, waiter) && scheduled
    {
      var waiters := if pending.Has(id) then pending.entries[id] else [];
      pending.SetValid(id, waiters + [waiter]);
      pending := pending.Set(id, waiters + [waiter]);
      if !scheduled { scheduled := true; }
    }

    /** The part of flush() before its first await: takes everything that is pending. */
    method TakeChunks() returns (chunks: seq<Chunk>)
      requires Valid()
      modifies this
      ensures Valid()
      ensures chunks == Chunks(BatchOf(old(pending), distinctResults), maxSize)
      ensures pending == Empty() && !scheduled
    {
      scheduled := false;
      var batch := PendingBatches(pending, distinctResults);
      pending := Empty();
      chunks := ChunkItems(batch, maxSize);
    }
  }

  method PendingBatches(pending: Pending, distinct: bool) returns (batch: seq<Item>)
    requires pending.Valid()
    ensures batch == BatchOf(pending, distinct)
  {
    hide Distinct, ItemsOf;
    batch := [];
    for n := 0 to |pending.order|
      invariant batch == Batch(pending.order[..n], pending.entries, distinct)
    {
      assert pending.order[..n + 1][..n] == pending.order[..n];
      var id := pending.order[n];
      assert id in pending.order;
      var items := ItemsFor(id, pending.entries[id], distinct);
      batch := batch + items;
    }
    assert pending.order[..|pending.order|] == pending.order;
  }

  method ItemsFor(id: Key, waiters: seq<nat>, distinct: bool) returns (items: seq<Item>)
    ensures items == ItemsOf(id, waiters, distinct)
  {
    if !distinct { return [Item(id, waiters)]; }
    items := [];
    for i := 0 to |waiters|
      invariant items == Singles(id, waiters)[..i]
    {
      items := items + [Item(id, [waiters[i]])];
    }
  }

  method ChunkItems<T>(items: seq<T>, size: nat) returns (chunks: seq<seq<T>>)
    requires size >= 1
    ensures chunks == Chunks(items, size)
  {
    chunks := [];
    var index := 0;
    assert items[0..] == items;
    while index < |items|
      invariant chunks + Chunks(items[Min(index, |items|)..], size) == Chunks(items, size)
    {
      var end := Min(index + size, |items|);
      NextChunk(items, index, size);
      chunks := chunks + [items[index..end]];
      index := index + size;
    }
    assert items[|items|..] == [];
  }

  lemma NextChunk<T>(items: seq<T>, index: nat, size: nat)
    requires size >= 1 && index < |items|
    ensures var end := Min(index + size, |items|); Chunks(items[index..], size) == [items[index..end]] + Chunks(items[end..], size)
  {
    var rest, end := items[index..], Min(index + size, |items|);
    assert rest[..end - index] == items[index..end] && rest[end - index..] == items[end..];
  }

  /** The settling loops after loadMany has returned or thrown. */
  method SettleWaiters(chunk: Chunk, result: LoadResult) returns (settled: seq<Settled>)
    ensures settled == SettleChunk(chunk, result, |chunk|)
  {
    settled := [];
    var ids := ChunkIds(chunk);
    for index := 0 to |chunk|
      invariant settled == SettleChunk(chunk, result, index)
    {
      var item := chunk[index];
      ghost var before := settled;
      for i := 0 to |item.waiters|
        invariant settled == before + SettleItem(item, ids, result, index)[..i]
      {
        settled := settled + [Settled(Ask(item.waiters[i], item.id), ids, result, AnswerAt(result, index))];
      }
    }
  }

  // ---------------------------------------------------------------- runs

  /** `flights` holds, for each flush under way, the chunks it has still to load, in order. `asked` and
      `settled` are history. */
  datatype State = State(
    pending: Pending,
    scheduled: bool,
    flights: seq<seq<Chunk>>,
    settled: seq<Settled>,
    asked: seq<Ask>)

  datatype Config = Config(maxSize: nat, distinct: bool)

  datatype Event = Load(id: Key) | Flush | ChunkDone(flight: nat, result: LoadResult)

  predicate Enabled(s: State, e: Event) {
    match e
    case Load(_) => true
    case Flush => s.scheduled
    case ChunkDone(f, _) => f < |s.flights| && s.flights[f] != []
  }

  ghost function Apply(c: Config, s: State, e: Event): State
    requires c.maxSize >= 1 && s.pending.Valid() && Enabled(s, e)
  {
    match e
    case Load(id) =>
      s.(pending := AddWaiter(s.pending, id, |s.asked|), scheduled := true, asked := s.asked + [Ask(|s.asked|, id)])
    case Flush =>
      s.(pending := Empty(), scheduled := false,
         flights := s.flights + [Chunks(BatchOf(s.pending, c.distinct), c.maxSize)])
    case ChunkDone(f, result) =>
      var chunk := s.flights[f][0];
      s.(flights := s.flights[f := s.flights[f][1..]], settled := s.settled + SettleChunk(chunk, result, |chunk|))
  }

  // ---------------------------------------------------------------- where every asker is

  function Asks(id: Key, waiters: seq<nat>): seq<Ask> { seq(|waiters|, i requires 0 <= i < |waiters| => Ask(waiters[i], id)) }

  function AsksOf(items: seq<Item>): seq<Ask> {
    if items == [] then [] else Asks(items[0].id, items[0].waiters) + AsksOf(items[1..])
  }

  function AsksOfChunks(chunks: seq<Chunk>): seq<Ask> {
    if chunks == [] then [] else AsksOf(chunks[0]) + AsksOfChunks(chunks[1..])
  }

  function InFlight(flights: seq<seq<Chunk>>): multiset<Ask> {
    if flights == [] then multiset{} else multiset(AsksOfChunks(flights[0])) + InFlight(flights[1..])
  }

  function Waiting(order: seq<Key>, entries: Waiters): multiset<Ask> {
    if order == [] then multiset{}
    else
      var id := order[|order| - 1];
      Waiting(order[..|order| - 1], entries) + multiset(Asks(id, WaitersOf(entries, id)))
  }

  function Answers(settled: seq<Settled>): seq<Ask> { seq(|settled|, i requires 0 <= i < |settled| => settled[i].ask) }

  /** The answer is the one the call gave for the asker's own id. */
  ghost predicate OwnAnswer(s: Settled) {
    exists j: nat :: j < |s.ids| && s.ids[j] == s.ask.id && s.answer == AnswerAt(s.result, j)
  }

  ghost predicate Inv(s: State) {
    && s.pending.Valid()
    && (s.pending.order != [] ==> s.scheduled)
    && (forall i :: 0 <= i < |s.asked| ==> s.asked[i].waiter == i)
    && multiset(s.asked) == Waiting(s.pending.order, s.pending.entries) + InFlight(s.flights) + multiset(Answers(s.settled))
    && (forall i :: 0 <= i < |s.settled| ==> OwnAnswer(s.settled[i]))
  }

  lemma {:induction false} AsksAppend(a: seq<Item>, b: seq<Item>)
    ensures AsksOf(a + b) == AsksOf(a) + AsksOf(b)
  {
    hide Asks;
    if a == [] { assert a + b == b; }
    else {
      assert (a + b)[1..] == a[1..] + b && (a + b)[0] == a[0];
      AsksAppend(a[1..], b);
      var first := Asks(a[0].id, a[0].waiters);
      assert AsksOf(a + b) == first + AsksOf(a[1..] + b);
      assert AsksOf(a) == first + AsksOf(a[1..]);
      hide AsksOf;
      assert first + (AsksOf(a[1..]) + AsksOf(b)) == first + AsksOf(a[1..]) + AsksOf(b);
    }
  }

  lemma {:induction false} AsksOfItems(id: Key, waiters: seq<nat>, distinct: bool)
    ensures AsksOf(ItemsOf(id, waiters, distinct)) == Asks(id, waiters)
  {
    if !distinct {
      assert [Item(id, waiters)][1..] == [];
    } else if waiters != [] {
      var first, rest := [Item(id, [waiters[0]])], Singles(id, waiters[1..]);
      assert Singles(id, waiters) == first + rest;
      assert (first + rest)[1..] == rest;
      AsksOfItems(id, waiters[1..], true);
      assert Asks(id, waiters) == [Ask(waiters[0], id)] + Asks(id, waiters[1..]);
    }
  }

  lemma {:induction false} BatchHoldsPending(order: seq<Key>, entries: Waiters, distinct: bool)
    ensures multiset(AsksOf(Batch(order, entries, distinct))) == Waiting(order, entries)
  {
    if order != [] {
      hide Asks, AsksOf, ItemsOf;
      var id, rest := order[|order| - 1], order[..|order| - 1];
      BatchHoldsPending(rest, entries, distinct);
      AsksAppend(Batch(rest, entries, distinct), ItemsOf(id, WaitersOf(entries, id), distinct));
      AsksOfItems(id, WaitersOf(entries, id), distinct);
    } else {
      assert AsksOf([]) == [];
    }
  }

  lemma {:induction false} ChunksHoldItems(items: seq<Item>, size: nat)
    requires size >= 1
    ensures AsksOfChunks(Chunks(items, size)) == AsksOf(items)
    decreases |items|
  {
    if items != [] {
      var m := Min(size, |items|);
      ChunksHoldItems(items[m..], size);
      AsksAppend(items[..m], items[m..]);
      assert items == items[..m] + items[m..];
    }
  }

  /** Unless results must be distinct, a flush asks for each id once, in the order in which the ids were
      first asked for, on behalf of all who asked for it. */
  lemma {:induction false} CallersShareItems(order: seq<Key>, entries: Waiters)
    ensures var batch := Batch(order, entries, false);
      && |batch| == |order|
      && forall i :: 0 <= i < |order| ==> batch[i].id == order[i] && batch[i].waiters == WaitersOf(entries, order[i])
  {
    if order != [] { CallersShareItems(order[..|order| - 1], entries); }
  }

  /** Otherwise each item is for one caller. */
  lemma {:induction false} DistinctItemsAreForOne(order: seq<Key>, entries: Waiters)
    ensures forall item :: item in Batch(order, entries, true) ==> |item.waiters| == 1
  {
    if order != [] { DistinctItemsAreForOne(order[..|order| - 1], entries); }
  }

  /** All chunks but the last have the given size, and the last is no larger. */
  lemma {:induction false} ChunksAreFull<T>(items: seq<T>, size: nat, c: nat)
    requires size >= 1 && c < |Chunks(items, size)|
    ensures c * size < |items| && Chunks(items, size)[c] == items[c * size..Min(c * size + size, |items|)]
    ensures c + 1 < |Chunks(items, size)| ==> |Chunks(items, size)[c]| == size
    decreases |items|
  {
    var m := Min(size, |items|);
    var rest := items[m..];
    if c > 0 {
      ChunksAreFull(rest, size, c - 1);
      Shifted(c, size);
      hide Chunks;
      var start := (c - 1) * size;
      assert m == size && start + size == c * size;
      SliceOfRest(items, m, start, Min(start + size, |rest|));
    }
  }

  lemma SliceOfRest<T>(items: seq<T>, m: nat, from: nat, to: nat)
    requires m <= |items| && from <= to <= |items| - m
    ensures items[m..][from..to] == items[m + from..m + to]
  {
  }

  lemma Shifted(c: nat, size: nat)
    requires c > 0
    ensures (c - 1) * size + size == c * size
  {
  }

  lemma {:induction false} WaitingElsewhere(order: seq<Key>, entries: Waiters, id: Key, waiters: seq<nat>)
    requires id !in order
    ensures Waiting(order, entries[id := waiters]) == Waiting(order, entries)
  {
    hide Asks;
    if order != [] {
      assert order[|order| - 1] in order;
      WaitingElsewhere(order[..|order| - 1], entries, id, waiters);
    }
  }

  /** A new asker is added under its id, wherever the id stands. */
  lemma {:induction false} WaitingGrows(order: seq<Key>, entries: Waiters, ask: Ask)
    requires Distinct(order) && ask.id in order
    ensures Waiting(order, entries[ask.id := WaitersOf(entries, ask.id) + [ask.waiter]]) == Waiting(order, entries) + multiset{ask}
  {
    hide Asks, Distinct;
    var last := |order| - 1;
    var rest, id := order[..last], order[last];
    assert order == rest + [id];
    DistinctAppend(rest, [id]);
    var waiters := WaitersOf(entries, ask.id);
    if id == ask.id {
      WaitingElsewhere(rest, entries, id, waiters + [ask.waiter]);
      OneMoreAsk(ask, waiters);
    } else {
      WaitingGrows(rest, entries, ask);
    }
  }

  lemma OneMoreAsk(ask: Ask, waiters: seq<nat>)
    ensures multiset(Asks(ask.id, waiters + [ask.waiter])) == multiset(Asks(ask.id, waiters)) + multiset{ask}
  {
    assert Asks(ask.id, waiters + [ask.waiter]) == Asks(ask.id, waiters) + [ask];
  }

  lemma AllWaitingGrows(pending: Pending, ask: Ask)
    requires pending.Valid()
    ensures var p := AddWaiter(pending, ask.id, ask.waiter);
      p.Valid() && p.order != [] && Waiting(p.order, p.entries) == Waiting(pending.order, pending.entries) + multiset{ask}
  {
    var waiters := WaitersOf(pending.entries, ask.id);
    pending.SetValid(ask.id, waiters + [ask.waiter]);
    hide Distinct, Asks;
    if ask.id in pending.order {
      WaitingGrows(pending.order, pending.entries, ask);
    } else {
      WaitingElsewhere(pending.order, pending.entries, ask.id, waiters + [ask.waiter]);
      OneMoreAsk(ask, []);
      var order := pending.order + [ask.id];
      assert order[..|order| - 1] == pending.order;
      assert Asks(ask.id, []) == [] by { NoAsks(ask.id); }
    }
  }

  lemma NoAsks(id: Key)
    ensures Asks(id, []) == []
  {
  }

  lemma LoadStep(c: Config, s: State, id: Key)
    requires c.maxSize >= 1 && Inv(s)
    ensures Inv(Apply(c, s, Load(id)))
  {
    hide AddWaiter, Waiting, InFlight, OwnAnswer, Answers;
    AllWaitingGrows(s.pending, Ask(|s.asked|, id));
  }

  lemma {:induction false} FlightsAppend(flights: seq<seq<Chunk>>, chunks: seq<Chunk>)
    ensures InFlight(flights + [chunks]) == InFlight(flights) + multiset(AsksOfChunks(chunks))
  {
    hide AsksOfChunks;
    if flights == [] { assert flights + [chunks] == [chunks] && [chunks][1..] == []; }
    else {
      FlightsAppend(flights[1..], chunks);
      assert (flights + [chunks])[1..] == flights[1..] + [chunks];
    }
  }

  lemma {:induction false} FlightShrinks(flights: seq<seq<Chunk>>, f: nat)
    requires f < |flights| && flights[f] != []
    ensures InFlight(flights) == InFlight(flights[f := flights[f][1..]]) + multiset(AsksOf(flights[f][0]))
  {
    if f == 0 { assert flights[0 := flights[0][1..]][1..] == flights[1..]; }
    else {
      FlightShrinks(flights[1..], f - 1);
      assert flights[f := flights[f][1..]][1..] == flights[1..][f - 1 := flights[f][1..]];
    }
  }

  lemma {:induction false} ChunkIsAnswered(chunk: Chunk, result: LoadResult, n: nat)
    requires n <= |chunk|
    ensures Answers(SettleChunk(chunk, result, n)) == AsksOf(chunk[..n])
    ensures forall i :: 0 <= i < |SettleChunk(chunk, result, n)| ==> OwnAnswer(SettleChunk(chunk, result, n)[i])
  {
    if n > 0 {
      ChunkIsAnswered(chunk, result, n - 1);
      var item := chunk[n - 1];
      var before, added := SettleChunk(chunk, result, n - 1), SettleItem(item, ChunkIds(chunk), result, n - 1);
      assert Answers(before + added) == Answers(before) + Asks(item.id, item.waiters);
      assert chunk[..n] == chunk[..n - 1] + [item];
      AsksAppend(chunk[..n - 1], [item]);
      assert [item][1..] == [];
      forall i | 0 <= i < |added| ensures OwnAnswer(added[i]) { assert ChunkIds(chunk)[n - 1] == item.id; }
    }
  }

  lemma FlushStep(c: Config, s: State)
    requires c.maxSize >= 1 && Inv(s) && Enabled(s, Flush)
    ensures Inv(Apply(c, s, Flush))
  {
    hide OwnAnswer, AsksOf, AsksOfChunks, InFlight, Answers, Batch, Chunks, Distinct;
    var batch := BatchOf(s.pending, c.distinct);
    BatchHoldsPending(s.pending.order, s.pending.entries, c.distinct);
    ChunksHoldItems(batch, c.maxSize);
    FlightsAppend(s.flights, Chunks(batch, c.maxSize));
    NothingWaits();
  }

  lemma NothingWaits()
    ensures var p: Pending := Empty(); p.Valid() && p.order == [] && Waiting(p.order, p.entries) == multiset{}
  {
  }

  lemma ChunkDoneStep(c: Config, s: State, f: nat, result: LoadResult)
    requires c.maxSize >= 1 && Inv(s) && Enabled(s, ChunkDone(f, result))
    ensures Inv(Apply(c, s, ChunkDone(f, result)))
  {
    hide OwnAnswer, SettleChunk, AsksOf, AsksOfChunks, InFlight, Waiting, Answers, Distinct;
    var chunk := s.flights[f][0];
    var added := SettleChunk(chunk, result, |chunk|);
    FlightShrinks(s.flights, f);
    ChunkIsAnswered(chunk, result, |chunk|);
    assert chunk[..|chunk|] == chunk;
    AnswersAppend(s.settled, added);
  }

  lemma AnswersAppend(a: seq<Settled>, b: seq<Settled>)
    ensures multiset(Answers(a + b)) == multiset(Answers(a)) + multiset(Answers(b))
  {
    assert Answers(a + b) == Answers(a) + Answers(b);
  }

  lemma {:induction false} StepKeepsInv(c: Config, s: State, e: Event)
    requires c.maxSize >= 1 && Inv(s) && Enabled(s, e)
    ensures Inv(Apply(c, s, e))
  {
    hide Inv, Apply, Enabled;
    match e
    case Load(id) => LoadStep(c, s, id);
    case Flush => FlushStep(c, s);
    case ChunkDone(f, result) => ChunkDoneStep(c, s, f, result);
  }

  ghost predicate Legal(c: Config, s: State, run: seq<Event>)
    requires c.maxSize >= 1 && Inv(s)
    decreases |run|
  {
    run == [] || (Enabled(s, run[0]) && (StepKeepsInv(c, s, run[0]); Legal(c, Apply(c, s, run[0]), run[1..])))
  }

  ghost function After(c: Config, s: State, run: seq<Event>): State
    requires c.maxSize >= 1 && Inv(s) && Legal(c, s, run)
    ensures Inv(After(c, s, run))
    decreases |run|
  {
    if run == [] then s
    else
      StepKeepsInv(c, s, run[0]);
      After(c, Apply(c, s, run[0]), run[1..])
  }

  ghost function Start(): State
    ensures Inv(Start())
  {
    State(Empty(), false, [], [], [])
  }

  lemma {:induction false} AskedOnce(asked: seq<Ask>, a: Ask)
    requires forall i :: 0 <= i < |asked| ==> asked[i].waiter == i
    ensures multiset(asked)[a] <= 1 && (a.waiter >= |asked| ==> multiset(asked)[a] == 0)
  {
    if asked != [] {
      AskedOnce(asked[..|asked| - 1], a);
      assert asked == asked[..|asked| - 1] + [asked[|asked| - 1]];
    }
  }

  lemma NothingInFlight(flights: seq<seq<Chunk>>)
    requires forall f :: 0 <= f < |flights| ==> flights[f] == []
    ensures InFlight(flights) == multiset{}
  {
  }

  /** Every caller is settled at most once and never somebody who did not ask; once nothing is pending
      and no flush is under way, every caller has been settled. */
  lemma EveryCallerIsSettledOnce(c: Config, run: seq<Event>, a: Ask)
    requires c.maxSize >= 1 && Legal(c, Start(), run)
    ensures var s := After(c, Start(), run); var settled := multiset(Answers(s.settled));
      && settled[a] <= 1
      && (a in settled ==> a in s.asked)
      && (s.pending.order != [] ==> s.scheduled)
      && (s.pending.order == [] && (forall f :: 0 <= f < |s.flights| ==> s.flights[f] == []) && a in s.asked ==> settled[a] == 1)
  {
    var s := After(c, Start(), run);
    AskedOnce(s.asked, a);
    hide Legal, After;
    if forall f :: 0 <= f < |s.flights| ==> s.flights[f] == [] { NothingInFlight(s.flights); }
    assert a in s.asked <==> multiset(s.asked)[a] > 0;
  }

  lemma ScheduledStep(c: Config, s: State, e: Event)
    requires c.maxSize >= 1 && Inv(s) && Enabled(s, e) && (s.scheduled <==> s.pending.order != [])
    ensures Apply(c, s, e).scheduled <==> Apply(c, s, e).pending.order != []
  {
    if e.Load? { AllWaitingGrows(s.pending, Ask(|s.asked|, e.id)); }
  }

  /** A flush is scheduled exactly while callers are pending, so it is scheduled again for callers that come
      after it; and chunks that have not been loaded can be. */
  lemma {:induction false} FlushIsScheduledIffPending(c: Config, s: State, run: seq<Event>)
    requires c.maxSize >= 1 && Inv(s) && (s.scheduled <==> s.pending.order != []) && Legal(c, s, run)
    ensures var s' := After(c, s, run);
      && (s'.scheduled <==> s'.pending.order != [])
      && (s'.pending.order != [] ==> Enabled(s', Flush))
      && forall f: nat, result :: f < |s'.flights| && s'.flights[f] != [] ==> Enabled(s', ChunkDone(f, result))
    decreases |run|
  {
    hide Apply, Waiting, InFlight, OwnAnswer, Answers, Distinct;
    if run != [] {
      ScheduledStep(c, s, run[0]);
      StepKeepsInv(c, s, run[0]);
      FlushIsScheduledIffPending(c, Apply(c, s, run[0]), run[1..]);
    }
  }

  /** A caller's answer comes from a load call that contained its own id: the value at that position,
      or that call's own failure. Calls that answer as single reads would, answer every caller so. */
  lemma CallersGetTheirOwnAnswer(c: Config, run: seq<Event>, i: nat, lookup: Key -> Answer)
    requires c.maxSize >= 1 && Legal(c, Start(), run) && i < |After(c, Start(), run).settled|
    ensures var s := After(c, Start(), run).settled[i];
      && OwnAnswer(s)
      && (s.answer.Rejected? <==> s.result.Failed?)
      && (s.answer.Rejected? ==> s.answer.error == s.result.error)
      && (s.result.Values? && s.result.values == seq(|s.ids|, j requires 0 <= j < |s.ids| => lookup(s.ids[j])) ==>
            s.answer == Resolved(lookup(s.ask.id)))
  {
  }

  // ---------------------------------------------------------------- loadManyNow

  /** A cache hit is an answer; ids without one are loaded from the store. */
  type Hits = map<Key, Answer>

  /** One read of the store per position. */
  function SingleReads(ids: seq<Key>, lookup: Key -> Answer): seq<Answer> {
    seq(|ids|, i requires 0 <= i < |ids| => lookup(ids[i]))
  }

  method UniqueIds(ids: seq<Key>) returns (unique: seq<Key>)
    ensures Distinct(unique) && forall k :: k in unique <==> k in ids
  {
    unique := [];
    for i := 0 to |ids|
      invariant Distinct(unique) && forall k :: k in unique <==> k in ids[..i]
    {
      if ids[i] !in unique {
        AppendDistinct(unique, ids[i]);
        unique := unique + [ids[i]];
      }
    }
  }

  /** A call of the store asks for some ids, each once and none that was hit, and not too many. */
  predicate StoreCall(call: seq<Key>, maxBatchSize: nat, hits: Hits) {
    call != [] && Distinct(call) && |call| <= maxBatchSize && forall k :: k in call ==> k !in hits
  }

  lemma {:induction false} DistinctIsShort(unique: seq<Key>, ids: seq<Key>)
    requires Distinct(unique) && forall k :: k in unique ==> k in ids
    ensures |unique| <= |ids|
  {
    if unique != [] {
      assert unique[0] in unique;
      var i :| 0 <= i < |ids| && ids[i] == unique[0];
      var others := ids[..i] + ids[i + 1..];
      forall k | k in unique[1..] ensures k in others { assert k in unique && k in ids; }
      DistinctIsShort(unique[1..], others);
    }
  }

  lemma {:induction false} DistinctPrefix(s: seq<Key>, i: nat)
    requires Distinct(s) && i < |s|
    ensures s[i] !in s[..i]
  {
    if i > 0 {
      DistinctPrefix(s[1..], i - 1);
      assert s[i] == s[1..][i - 1] && s[..i] == [s[0]] + s[1..][..i - 1];
    }
  }

  /** The ids that were not hit. */
  method MissingIds(unique: seq<Key>, hits: Hits) returns (missing: seq<Key>)
    requires Distinct(unique)
    ensures Distinct(missing) && |missing| <= |unique| && forall k :: k in missing <==> k in unique && k !in hits
  {
    missing := [];
    for i := 0 to |unique|
      invariant forall k :: k in missing <==> k in unique[..i] && k !in hits
      invariant Distinct(missing) && |missing| <= i
    {
      if unique[i] !in hits {
        DistinctPrefix(unique, i);
        AppendDistinct(missing, unique[i]);
        missing := missing + [unique[i]];
      }
    }
  }

  /** One batch: at most one call of the store, for the ids that were not hit. */
  method LoadBatchNow(ids: seq<Key>, maxBatchSize: nat, hits: Hits, lookup: Key -> Answer) returns (rows: seq<Answer>, ghost calls: seq<seq<Key>>)
    requires |ids| <= maxBatchSize
    requires forall k :: k in hits ==> hits[k] == lookup(k)
    ensures rows == SingleReads(ids, lookup)
    ensures |calls| <= 1 && forall call :: call in calls ==> StoreCall(call, maxBatchSize, hits)
  {
    var unique := UniqueIds(ids);
    DistinctIsShort(unique, ids);
    var missing := MissingIds(unique, hits);
    hide Distinct;
    calls := if missing != [] then [missing] else [];
    var loaded := SingleReads(missing, lookup);
    var loadedById: map<Key, Answer> := map[];
    for i := 0 to |missing|
      invariant loadedById.Keys == (set k | k in missing[..i])
      invariant forall k :: k in loadedById ==> loadedById[k] == lookup(k)
    {
      loadedById := loadedById[missing[i] := loaded[i]];
    }
    rows := [];
    for i := 0 to |ids|
      invariant rows == SingleReads(ids[..i], lookup)
    {
      var id := ids[i];
      assert id in unique;
      rows := rows + [if id in hits then hits[id] else loadedById[id]];
    }
    assert ids[..|ids|] == ids;
  }

  /** The cache agrees with the store: batches, repeats and hits make no difference. The store answers
      a list of ids position by position; `calls` are the lists it is asked for. */
  method LoadManyNow(ids: seq<Key>, maxBatchSize: nat, hits: Hits, lookup: Key -> Answer) returns (rows: seq<Answer>, ghost calls: seq<seq<Key>>)
    requires maxBatchSize >= 1
    requires forall k :: k in hits ==> hits[k] == lookup(k)
    ensures rows == SingleReads(ids, lookup)
    ensures forall call :: call in calls ==> StoreCall(call, maxBatchSize, hits)
    decreases |ids|
  {
    calls := [];
    if ids == [] { return [], []; }
    if |ids| > maxBatchSize {
      rows := [];
      var chunks := ChunkItems(ids, maxBatchSize);
      ChunksJoin(ids, maxBatchSize);
      for c := 0 to |chunks|
        invariant rows == SingleReads(Join(chunks[..c]), lookup)
        invariant forall call :: call in calls ==> StoreCall(call, maxBatchSize, hits)
      {
        ChunkIsSmall(ids, maxBatchSize, c);
        ghost var chunkCalls;
        var chunkRows;
        chunkRows, chunkCalls := LoadManyNow(chunks[c], maxBatchSize, hits, lookup);
        JoinOneMore(chunks, c);
        rows := rows + chunkRows;
        calls := calls + chunkCalls;
      }
      assert chunks[..|chunks|] == chunks;
      return;
    }
    rows, calls := LoadBatchNow(ids, maxBatchSize, hits, lookup);
  }

  function Join<T>(chunks: seq<seq<T>>): seq<T> {
    if chunks == [] then [] else Join(chunks[..|chunks| - 1]) + chunks[|chunks| - 1]
  }

  lemma JoinOneMore<T>(chunks: seq<seq<T>>, c: nat)
    requires c < |chunks|
    ensures Join(chunks[..c + 1]) == Join(chunks[..c]) + chunks[c]
  {
    assert chunks[..c + 1][..c] == chunks[..c];
  }

  lemma {:induction false} JoinFront<T>(chunk: seq<T>, chunks: seq<seq<T>>)
    ensures Join([chunk] + chunks) == chunk + Join(chunks)
  {
    if chunks == [] { assert [chunk] + chunks == [chunk] && [chunk][..0] == []; }
    else {
      JoinFront(chunk, chunks[..|chunks| - 1]);
      assert ([chunk] + chunks)[..|chunks|] == [chunk] + chunks[..|chunks| - 1];
    }
  }

  lemma {:induction false} ChunksJoin<T>(items: seq<T>, size: nat)
    requires size >= 1
    ensures Join(Chunks(items, size)) == items
    decreases |items|
  {
    if items != [] {
      var m := Min(size, |items|);
      ChunksJoin(items[m..], size);
      JoinFront(items[..m], Chunks(items[m..], size));
    }
  }

  lemma {:induction false} ChunkIsSmall<T>(items: seq<T>, size: nat, c: nat)
    requires size >= 1 && c < |Chunks(items, size)|
    ensures |Chunks(items, size)[c]| <= size
    decreases |items|
  {
    if c > 0 { ChunkIsSmall(items[Min(size, |items|)..], size, c - 1); }
  }
}
