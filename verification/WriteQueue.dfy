/** The per-key promise chain that orders function-cache writes. An arrival waits for the promise
    that was last stored for the key, stores its own, and on finishing removes it if nobody stored
    a later one. */
module WriteQueue {
  import opened Options

  datatype Phase = Waiting | Running | Done

  /** `previous` is the arrival whose promise this one awaits. */
  datatype Ticket = Ticket(previous: Option<nat>, phase: Phase)

  /** All arrivals so far; `last` is the arrival whose promise the map holds. */
  datatype Chain = Chain(tickets: seq<Ticket>, last: Option<nat>)

  datatype Event = Arrive | Resume(id: nat) | Finish(id: nat)

  predicate Enabled(c: Chain, e: Event) {
    match e
    case Arrive => true
    case Resume(id) =>
      && id < |c.tickets| && c.tickets[id].phase.Waiting?
      && c.tickets[id].previous.Some? && c.tickets[id].previous.value < |c.tickets|
      && c.tickets[c.tickets[id].previous.value].phase.Done?
    case Finish(id) => id < |c.tickets| && c.tickets[id].phase.Running?
  }

  function Apply(c: Chain, e: Event): Chain
    requires Enabled(c, e)
  {
    match e
    case Arrive => Chain(c.tickets + [Ticket(c.last, if c.last.None? then Running else Waiting)], Some(|c.tickets|))
    case Resume(id) => c.(tickets := c.tickets[id := c.tickets[id].(phase := Running)])
    case Finish(id) => Chain(c.tickets[id := c.tickets[id].(phase := Done)], if c.last == Some(id) then None else c.last)
  }

  /** The first d arrivals are done and the rest stand in line, each behind the one before it. */
  ghost predicate InLine(c: Chain, d: nat) {
    && d <= |c.tickets|
    && (forall i :: 0 <= i < d ==> c.tickets[i].phase.Done?)
    && (forall i :: d < i < |c.tickets| ==> c.tickets[i] == Ticket(Some(i - 1), Waiting))
    && (d < |c.tickets| ==>
          match c.tickets[d].phase
          case Waiting => d > 0 && c.tickets[d].previous == Some(d - 1)
          case Running => true
          case Done => false)
    && c.last == if d < |c.tickets| then Some(|c.tickets| - 1) else None
  }

  ghost predicate Legal(c: Chain, run: seq<Event>)
    decreases |run|
  {
    run == [] || (Enabled(c, run[0]) && Legal(Apply(c, run[0]), run[1..]))
  }

  ghost function After(c: Chain, run: seq<Event>): Chain
    requires Legal(c, run)
    decreases |run|
  {
    if run == [] then c else After(Apply(c, run[0]), run[1..])
  }

  ghost function Arrivals(run: seq<Event>): nat {
    if run == [] then 0 else (if run[0].Arrive? then 1 else 0) + Arrivals(run[1..])
  }

  /** The order in which arrivals finish. */
  ghost function Finishes(run: seq<Event>): seq<nat> {
    if run == [] then [] else (if run[0].Finish? then [run[0].id] else []) + Finishes(run[1..])
  }

  lemma StepInLine(c: Chain, d: nat, e: Event)
    requires InLine(c, d) && Enabled(c, e)
    ensures InLine(Apply(c, e), if e.Finish? then d + 1 else d)
    ensures e.Finish? ==> e.id == d
  {
  }

  lemma {:induction false} LineFrom(c: Chain, d: nat, run: seq<Event>) returns (d': nat)
    requires InLine(c, d) && Legal(c, run)
    ensures InLine(After(c, run), d')
    ensures |After(c, run).tickets| == |c.tickets| + Arrivals(run)
    ensures d' == d + |Finishes(run)| && (forall i :: 0 <= i < |Finishes(run)| ==> Finishes(run)[i] == d + i)
    decreases |run|
  {
    hide InLine;
    if run == [] {
      d' := d;
    } else {
      StepInLine(c, d, run[0]);
      d' := LineFrom(Apply(c, run[0]), if run[0].Finish? then d + 1 else d, run[1..]);
    }
  }

  /** In every run the writes of a key finish in arrival order, one at a time, none is skipped, and
      the line never gets stuck: the oldest unfinished one is running or can resume. */
  lemma OneAtATimeInArrivalOrder(run: seq<Event>)
    requires Legal(Chain([], None), run)
    ensures var c := After(Chain([], None), run); var d := |Finishes(run)|;
      && |c.tickets| == Arrivals(run) && d <= |c.tickets|
      && (forall i :: 0 <= i < d ==> Finishes(run)[i] == i)
      && (forall i :: 0 <= i < |c.tickets| && c.tickets[i].phase.Running? ==> i == d)
      && (d < |c.tickets| ==> c.tickets[d].phase.Running? || Enabled(c, Resume(d)))
  {
    var d := LineFrom(Chain([], None), 0, run);
  }
}
