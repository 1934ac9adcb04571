/** Recovery of a drain that failed after it had taken events: the queue as it was before the drain
    is compared with the queue as it is now, and the events that are missing are put back. */
module OutboxRecovery {
  import opened OrderedMaps
  import opened Epochs
  import opened Options
  import opened Outbox

  function IdSet(events: seq<Event>): set<Key> { set id | id in Ids(events) }

  /** The events whose id is among ids (inside), or is not (!inside), in order. */
  function Select(events: seq<Event>, ids: set<Key>, inside: bool): seq<Event> {
    if events == [] then []
    else
      var last := |events| - 1;
      Select(events[..last], ids, inside) + if (events[last].id in ids) == inside then [events[last]] else []
  }

  function Missing(before: seq<Event>, current: set<Key>): seq<Event> { Select(before, current, false) }

  /** The old positions of the first and of the last survivor; |before| and -1 when there is none. */
  function First(before: seq<Event>, current: set<Key>): (f: nat)
    ensures f <= |before|
  {
    if before == [] then 0
    else
      var last := |before| - 1;
      var f := First(before[..last], current);
      if f < last || before[last].id in current then f else |before|
  }

  function Last(before: seq<Event>, current: set<Key>): (l: int)
    ensures -1 <= l < |before|
  {
    if before == [] then -1
    else if before[|before| - 1].id in current then |before| - 1
    else Last(before[..|before| - 1], current)
  }

  function Slice(events: seq<Event>, from: nat, to: int): seq<Event>
    requires from <= |events| && to <= |events|
  {
    if from <= to then events[from..to] else []
  }

  /** What is put back at the front of the queue, and what is appended. */
  function Front(before: seq<Event>, current: set<Key>): seq<Event> {
    var first, last := First(before, current), Last(before, current);
    if first == |before| then Missing(before, current)
    else Missing(before[..first], current) + Missing(Slice(before, first + 1, last), current)
  }

  function Back(before: seq<Event>, current: set<Key>): seq<Event> {
    if First(before, current) == |before| then [] else Missing(before[Last(before, current) + 1..], current)
  }

  /** The queue after recovery. */
  function Recovered(before: seq<Event>, after: seq<Event>): seq<Event> {
    Front(before, IdSet(after)) + after + Back(before, IdSet(after))
  }

  // ---------------------------------------------------------------- the recovery in place

  /** The events of before[from..to] that are missing. */
  method CollectMissing(before: seq<Event>, from: nat, to: int, current: set<Key>) returns (missing: seq<Event>)
    requires from <= |before| && to <= |before|
    ensures missing == Missing(Slice(before, from, to), current)
  {
    missing := [];
    var i := from;
    while i < to
      invariant from <= i <= |before| && (i <= to || i == from)
      invariant missing == Missing(Slice(before, from, i), current)
    {
      assert Slice(before, from, i + 1)[..i - from] == Slice(before, from, i);
      if before[i].id !in current { missing := missing + [before[i]]; }
      i := i + 1;
    }
  }

  method Survivors(before: seq<Event>, current: set<Key>) returns (first: int, last: int, missing: seq<Event>)
    ensures missing == Missing(before, current)
    ensures last == Last(before, current)
    ensures First(before, current) == if first < 0 then |before| else first
    ensures first < |before| && (first < 0 ==> first == -1)
  {
    first, last, missing := -1, -1, [];
    for i := 0 to |before|
      invariant -1 <= first < i || first == -1
      invariant missing == Missing(before[..i], current) && last == Last(before[..i], current)
      invariant First(before[..i], current) == if first < 0 then i else first
    {
      assert before[..i + 1][..i] == before[..i];
      if before[i].id in current {
        if first < 0 { first := i; }
        last := i;
      } else {
        missing := missing + [before[i]];
      }
    }
    assert before[..|before|] == before;
  }

  /** recoverFailedOutboxDrain on the in-memory outbox, whose ids are distinct at every moment
      (IdsStayDistinct): recovery never fails and leaves the recovered queue. */
  method RecoverFailedDrain(outbox: MemoryOutbox, snapshot: Option<seq<Event>>) returns (errors: seq<Outcome>)
    requires Distinct(Ids(outbox.events)) && (snapshot.Some? ==> Distinct(Ids(snapshot.value)))
    modifies outbox`events
    ensures errors == []
    ensures outbox.events == if snapshot.Some? then Recovered(snapshot.value, old(outbox.events)) else old(outbox.events)
  {
    hide Ids, Distinct, Missing, Select, First, Last;
    if snapshot.None? { return []; }
    var before, after := snapshot.value, outbox.events;
    var current := IdSet(after);
    PartsAreFree(before, after);
    var first, last, missing := Survivors(before, current);
    if first < 0 {
      assert missing == Front(before, current);
      errors := RequeueEvents(outbox, missing);
      return;
    }
    var prefix := CollectMissing(before, 0, first, current);
    var suffix := CollectMissing(before, last + 1, |before|, current);
    var middle := CollectMissing(before, first + 1, last, current);
    assert prefix + middle == Front(before, current) && suffix == Back(before, current) by {
      assert Slice(before, 0, first) == before[..first];
      assert Slice(before, last + 1, |before|) == before[last + 1..];
    }
    errors := RequeueEvents(outbox, prefix + middle);
    var more := AppendEvents(outbox, suffix);
    errors := errors + more;
  }

  method RequeueEvents(outbox: MemoryOutbox, events: seq<Event>) returns (errors: seq<Outcome>)
    requires IdsFree(outbox.events, events)
    modifies outbox`events
    ensures errors == [] && outbox.events == events + old(outbox.events)
  {
    errors := [];
    if events == [] { return; }
    var outcome := outbox.Requeue(events);
    if !outcome.Done? { errors := errors + [outcome]; }
  }

  method AppendEvents(outbox: MemoryOutbox, events: seq<Event>) returns (errors: seq<Outcome>)
    requires IdsFree(outbox.events, events)
    modifies outbox`events
    ensures errors == [] && outbox.events == old(outbox.events) + events
  {
    errors := [];
    ghost var start := outbox.events;
    for i := 0 to |events|
      invariant errors == [] && outbox.events == start + events[..i]
    {
      FreeAfterPrefix(start, events, i);
      var outcome := outbox.Append(events[i]);
      if !outcome.Done? { errors := errors + [outcome]; }
      assert events[..i + 1] == events[..i] + [events[i]];
    }
    assert events[..|events|] == events;
  }

  lemma FreeAfterPrefix(queue: seq<Event>, events: seq<Event>, i: nat)
    requires IdsFree(queue, events) && i < |events|
    ensures events[i].id !in Ids(queue + events[..i])
  {
    hide Ids, Distinct;
    assert events == events[..i] + ([events[i]] + events[i + 1..]);
    IdsAppend(events[..i], [events[i]] + events[i + 1..]);
    IdsAppend([events[i]], events[i + 1..]);
    SingleId(events[i]);
    IdsAppend(queue, events[..i]);
    DistinctAppend(Ids(events[..i]), [events[i].id] + Ids(events[i + 1..]));
    assert ([events[i].id] + Ids(events[i + 1..]))[0] == events[i].id;
  }

  // ---------------------------------------------------------------- what is missing

  lemma {:induction false} IdsAt(events: seq<Event>)
    ensures |Ids(events)| == |events| && forall i :: 0 <= i < |events| ==> Ids(events)[i] == events[i].id
  {
    if events != [] { IdsAt(events[..|events| - 1]); }
  }

  lemma {:induction false} SelectAppend(a: seq<Event>, b: seq<Event>, ids: set<Key>, inside: bool)
    ensures Select(a + b, ids, inside) == Select(a, ids, inside) + Select(b, ids, inside)
  {
    if b == [] { assert a + b == a; }
    else {
      SelectAppend(a, b[..|b| - 1], ids, inside);
      assert (a + b)[..|a + b| - 1] == a + b[..|b| - 1];
    }
  }

  lemma {:induction false} SelectAll(events: seq<Event>, ids: set<Key>, inside: bool)
    requires forall i :: 0 <= i < |events| ==> (events[i].id in ids) == inside
    ensures Select(events, ids, inside) == events
  {
    if events != [] { SelectAll(events[..|events| - 1], ids, inside); }
  }

  lemma {:induction false} SelectNone(events: seq<Event>, ids: set<Key>, inside: bool)
    requires forall i :: 0 <= i < |events| ==> (events[i].id in ids) != inside
    ensures Select(events, ids, inside) == []
  {
    if events != [] { SelectNone(events[..|events| - 1], ids, inside); }
  }

  lemma {:induction false} SelectedEvents(events: seq<Event>, ids: set<Key>, inside: bool, e: Event)
    ensures e in Select(events, ids, inside) <==> e in events && (e.id in ids) == inside
  {
    if events != [] {
      var last := |events| - 1;
      SelectedEvents(events[..last], ids, inside, e);
      assert events == events[..last] + [events[last]];
    }
  }

  lemma SelectStep(events: seq<Event>, ids: set<Key>, inside: bool)
    requires events != []
    ensures var last := |events| - 1;
      && Ids(events) == Ids(events[..last]) + [events[last].id]
      && var rest := Ids(Select(events[..last], ids, inside));
         Ids(Select(events, ids, inside)) == if (events[last].id in ids) == inside then rest + [events[last].id] else rest
  {
    var last := |events| - 1;
    var rest := Select(events[..last], ids, inside);
    if (events[last].id in ids) == inside {
      IdsAppend(rest, [events[last]]);
      SingleId(events[last]);
    } else {
      assert rest + [] == rest && Ids(rest) + [] == Ids(rest);
    }
  }

  lemma {:induction false} SelectedIds(events: seq<Event>, ids: set<Key>, inside: bool)
    requires Distinct(Ids(events))
    ensures Distinct(Ids(Select(events, ids, inside)))
    ensures forall id :: id in Ids(Select(events, ids, inside)) <==> id in Ids(events) && (id in ids) == inside
  {
    if events != [] {
      hide Ids, Select, Distinct;
      var last := |events| - 1;
      SelectStep(events, ids, inside);
      DistinctAppend(Ids(events[..last]), [events[last].id]);
      SelectedIds(events[..last], ids, inside);
      DistinctAppend(Ids(Select(events[..last], ids, inside)), [events[last].id]);
    }
  }

  lemma {:induction false} FirstIsFound(before: seq<Event>, current: set<Key>)
    ensures forall i :: 0 <= i < First(before, current) ==> before[i].id !in current
    ensures First(before, current) < |before| ==> before[First(before, current)].id in current
  {
    if before != [] { FirstIsFound(before[..|before| - 1], current); }
  }

  lemma {:induction false} LastIsFound(before: seq<Event>, current: set<Key>)
    ensures forall i :: Last(before, current) < i < |before| ==> before[i].id !in current
    ensures Last(before, current) >= 0 ==> before[Last(before, current)].id in current
  {
    if before != [] && before[|before| - 1].id !in current { LastIsFound(before[..|before| - 1], current); }
  }

  /** The old queue is the part before the survivors, the stretch they span, and the part behind. */
  lemma PartsOfTheQueue(before: seq<Event>, current: set<Key>)
    requires First(before, current) < |before|
    ensures var first, last := First(before, current), Last(before, current);
      && first <= last
      && before == before[..first] + before[first..last + 1] + before[last + 1..]
      && before[first].id in current && before[last].id in current
      && Missing(before[..first], current) == before[..first]
      && Missing(before[last + 1..], current) == before[last + 1..]
  {
    LastIsFound(before, current);
    FirstIsFound(before, current);
    hide First, Last, Select;
    var first, last := First(before, current), Last(before, current);
    SelectAll(before[..first], current, false);
    SelectAll(before[last + 1..], current, false);
  }

  /** The end points of the stretch have survived, so scanning strictly between them is enough. */
  lemma InnerIsEnough(before: seq<Event>, current: set<Key>, first: nat, last: nat)
    requires first <= last < |before| && before[first].id in current && before[last].id in current
    ensures Missing(Slice(before, first + 1, last), current) == Missing(before[first..last + 1], current)
  {
    var stretch := before[first..last + 1];
    SelectNone([before[first]], current, false);
    SelectNone([before[last]], current, false);
    if first == last {
      assert stretch == [before[first]];
    } else {
      var inner := before[first + 1..last];
      assert stretch == [before[first]] + inner + [before[last]];
      hide Select;
      SelectAppend([before[first]] + inner, [before[last]], current, false);
      SelectAppend([before[first]], inner, current, false);
      assert [] + Missing(inner, current) + [] == Missing(inner, current);
    }
  }

  /** What is put back is, in order, all that is missing. */
  lemma PartsAreMissing(before: seq<Event>, current: set<Key>)
    ensures Front(before, current) + Back(before, current) == Missing(before, current)
  {
    var first, last := First(before, current), Last(before, current);
    if first < |before| {
      PartsOfTheQueue(before, current);
      InnerIsEnough(before, current, first, last);
      hide Select, First, Last;
      SelectAppend(before[..first] + before[first..last + 1], before[last + 1..], current, false);
      SelectAppend(before[..first], before[first..last + 1], current, false);
    } else {
      assert Missing(before, current) + [] == Missing(before, current);
    }
  }

  lemma PartsAreFree(before: seq<Event>, after: seq<Event>)
    requires Distinct(Ids(before))
    ensures var front, back := Front(before, IdSet(after)), Back(before, IdSet(after));
      && IdsFree(after, front)
      && IdsFree(front + after, back)
  {
    var front, back := Front(before, IdSet(after)), Back(before, IdSet(after));
    PartsAreMissing(before, IdSet(after));
    SelectedIds(before, IdSet(after), false);
    hide Front, Back, Ids, Distinct, Select;
    IdsAppend(front, back);
    IdsAppend(front, after);
    FreeParts(Ids(front), Ids(back), Ids(after));
  }

  lemma FreeParts(front: seq<Key>, back: seq<Key>, after: seq<Key>)
    requires Distinct(front + back) && forall id :: id in front + back ==> id !in after
    ensures Distinct(front) && Distinct(back)
    ensures forall id :: id in front ==> id !in after
    ensures forall id :: id in back ==> id !in front + after
  {
    hide Distinct;
    DistinctAppend(front, back);
    forall id | id in front ensures id !in after { assert id in front + back; }
    forall id | id in back ensures id !in front + after { assert id in front + back; }
  }

  // ---------------------------------------------------------------- what recovery guarantees

  /** Every lost event is put back exactly once, nothing is duplicated, nothing else appears, and the
      events that were in the queue keep their order as one block. */
  lemma LostEventsArePutBackOnce(before: seq<Event>, after: seq<Event>, e: Event)
    requires Distinct(Ids(before)) && Distinct(Ids(after))
    ensures var final := Recovered(before, after);
      && Distinct(Ids(final))
      && (forall id :: id in Ids(final) <==> id in Ids(before) || id in Ids(after))
      && (e in before && e.id !in Ids(after) ==> e in final)
      && (exists front, back :: final == front + after + back)
  {
    var front, back := Front(before, IdSet(after)), Back(before, IdSet(after));
    PartsAreMissing(before, IdSet(after));
    PartsAreFree(before, after);
    SelectedIds(before, IdSet(after), false);
    SelectedEvents(before, IdSet(after), false, e);
    hide Front, Back, Ids, Distinct, Select;
    assert e in front + back ==> e in Recovered(before, after);
    IdsAppend(front + after, back);
    IdsAppend(front, after);
    IdsAppend(front, back);
    DistinctAppend(Ids(front), Ids(after));
    DistinctAppend(Ids(front + after), Ids(back));
    assert Recovered(before, after) == front + after + back;
  }

  /** The old events of the queue, in their present order. */
  function OldOnly(events: seq<Event>, before: seq<Event>): seq<Event> { Select(events, IdSet(before), true) }

  /** The old events end up in exactly their old order if and only if none of them survived, or the
      survivors are, in order, one contiguous stretch of the old queue. */
  lemma OldOrderIsRestored(before: seq<Event>, after: seq<Event>)
    requires Distinct(Ids(before)) && Distinct(Ids(after))
    ensures var first, last := First(before, IdSet(after)), Last(before, IdSet(after));
      Ids(OldOnly(Recovered(before, after), before)) == Ids(before) <==>
        first == |before| || Ids(OldOnly(after, before)) == Ids(Slice(before, first, last + 1))
  {
    if First(before, IdSet(after)) == |before| { NoSurvivors(before, after); } else { SomeSurvivors(before, after); }
  }

  lemma OldOfRecovered(before: seq<Event>, after: seq<Event>)
    requires Distinct(Ids(before))
    ensures var front, back := Front(before, IdSet(after)), Back(before, IdSet(after));
      OldOnly(Recovered(before, after), before) == front + OldOnly(after, before) + back
  {
    var front, back := Front(before, IdSet(after)), Back(before, IdSet(after));
    PartsAreMissing(before, IdSet(after));
    SelectedIds(before, IdSet(after), false);
    hide Front, Back, Ids, Distinct, Select;
    IdsAppend(front, back);
    IdsAt(front);
    IdsAt(back);
    forall i | 0 <= i < |front| ensures front[i].id in IdSet(before) { assert Ids(front)[i] in Ids(front); }
    forall i | 0 <= i < |back| ensures back[i].id in IdSet(before) { assert Ids(back)[i] in Ids(back); }
    SelectAll(front, IdSet(before), true);
    SelectAll(back, IdSet(before), true);
    SelectAppend(front + after, back, IdSet(before), true);
    SelectAppend(front, after, IdSet(before), true);
  }

  lemma {:induction false} NoSurvivors(before: seq<Event>, after: seq<Event>)
    requires Distinct(Ids(before)) && First(before, IdSet(after)) == |before|
    ensures OldOnly(Recovered(before, after), before) == before
  {
    OldOfRecovered(before, after);
    FirstIsFound(before, IdSet(after));
    SelectAll(before, IdSet(after), false);
    IdsAt(before);
    IdsAt(after);
    hide First, Ids;
    forall i | 0 <= i < |after| ensures after[i].id !in IdSet(before) {
      assert Ids(after)[i] in Ids(after);
    }
    SelectNone(after, IdSet(before), true);
    hide Select;
    assert before + [] + [] == before;
  }

  lemma FrontAndBack(before: seq<Event>, current: set<Key>)
    requires First(before, current) < |before|
    ensures var first, last := First(before, current), Last(before, current);
      && first <= last
      && Front(before, current) == before[..first] + Missing(before[first..last + 1], current)
      && Back(before, current) == before[last + 1..]
  {
    hide First, Last, Missing;
    PartsOfTheQueue(before, current);
    InnerIsEnough(before, current, First(before, current), Last(before, current));
  }

  /** The recovered old events, cut at the ends of the stretch. */
  lemma CutAtStretch(before: seq<Event>, after: seq<Event>, first: nat, last: int)
    requires Distinct(Ids(before)) && First(before, IdSet(after)) == first < |before| && last == Last(before, IdSet(after))
    ensures first <= last < |before|
    ensures OldOnly(Recovered(before, after), before)
         == before[..first] + Missing(before[first..last + 1], IdSet(after)) + OldOnly(after, before) + before[last + 1..]
  {
    hide *;
    OldOfRecovered(before, after);
    FrontAndBack(before, IdSet(after));
  }

  lemma SomeSurvivors(before: seq<Event>, after: seq<Event>)
    requires Distinct(Ids(before)) && First(before, IdSet(after)) < |before|
    ensures Ids(OldOnly(Recovered(before, after), before)) == Ids(before) <==>
      Ids(OldOnly(after, before)) == Ids(Slice(before, First(before, IdSet(after)), Last(before, IdSet(after)) + 1))
  {
    hide First, Last, Ids, Distinct, Recovered, OldOnly, Missing;
    var first, last := First(before, IdSet(after)), Last(before, IdSet(after));
    CutAtStretch(before, after, first, last);
    PartsOfTheQueue(before, IdSet(after));
    var stretch := before[first..last + 1];
    IdsAt(stretch);
    NothingMissingInPlace(before, after, stretch);
    SameIds(before[..first], Missing(stretch, IdSet(after)), OldOnly(after, before), stretch, before[last + 1..]);
  }

  lemma SameIds(prefix: seq<Event>, inner: seq<Event>, kept: seq<Event>, stretch: seq<Event>, suffix: seq<Event>)
    requires Ids(stretch) != [] && (Ids(inner) != [] ==> Ids(inner)[0] != Ids(stretch)[0]) && (Ids(kept) == Ids(stretch) ==> Ids(inner) == [])
    ensures Ids(prefix + inner + kept + suffix) == Ids(prefix + stretch + suffix) <==> Ids(kept) == Ids(stretch)
  {
    hide Ids;
    IdsAppend(prefix + stretch, suffix);
    IdsAppend(prefix, stretch);
    IdsAppend(prefix + inner + kept, suffix);
    IdsAppend(prefix + inner, kept);
    IdsAppend(prefix, inner);
    Cancel(Ids(prefix), Ids(inner), Ids(kept), Ids(stretch), Ids(suffix));
  }

  /** In the stretch, a missing event is never first; and if the survivors are the stretch, none is missing. */
  lemma NothingMissingInPlace(before: seq<Event>, after: seq<Event>, stretch: seq<Event>)
    requires stretch != [] && stretch[0].id in Ids(after)
    ensures var inner := Missing(stretch, IdSet(after));
      && (Ids(inner) != [] ==> Ids(inner)[0] != stretch[0].id)
      && (Ids(OldOnly(after, before)) == Ids(stretch) ==> Ids(inner) == [])
  {
    var inner := Missing(stretch, IdSet(after));
    IdsAt(inner);
    IdsAt(stretch);
    if inner != [] {
      SelectedEvents(stretch, IdSet(after), false, inner[0]);
      var kept := OldOnly(after, before);
      if Ids(kept) == Ids(stretch) {
        var i :| 0 <= i < |stretch| && stretch[i] == inner[0];
        IdsAt(kept);
        IdsAt(after);
        SelectedEvents(after, IdSet(before), true, kept[i]);
        assert false;
      }
    }
  }

  lemma Cancel(p: seq<Key>, m: seq<Key>, a: seq<Key>, mid: seq<Key>, s: seq<Key>)
    requires mid != [] && (m != [] ==> m[0] != mid[0]) && (a == mid ==> m == [])
    ensures p + m + a + s == p + mid + s <==> a == mid
  {
    if p + m + a + s == p + mid + s {
      assert |m + a| == |mid|;
      assert (p + m + a + s)[|p|..|p| + |mid|] == m + a;
      assert (p + mid + s)[|p|..|p| + |mid|] == mid;
      assert m == [];
      assert [] + a == a;
    }
  }
}
