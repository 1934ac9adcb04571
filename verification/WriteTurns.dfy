/** The promise chain of WriteQueue grants exactly the turns that the queue of FunctionCache grants:
    both are run side by side for the writes of one key. */
module WriteTurns {
  import opened Options
  import opened OrderedMaps
  import opened Epochs
  import opened FunctionCache
  import opened FunctionCacheCallers
  import Q = WriteQueue

  /** `ids` are the writes behind the chain's tickets; the first d of them have ended. */
  ghost predicate Coupled(s: State, k: Key, c: Q.Chain, ids: seq<nat>, d: nat) {
    && Q.InLine(c, d) && |ids| == |c.tickets|
    && s.Queue(k) == ids[d..]
    && (forall t :: 0 <= t < d ==> ids[t] !in s.ops && ids[t] < s.clock)
    && (d < |ids| ==> ids[d] in s.ops && (c.tickets[d].phase.Running? <==> s.ops[ids[d]].InSection()))
  }

  /** Both machines side by side. */
  datatype Both = Both(s: State, c: Q.Chain, ids: seq<nat>, d: nat)

  /** The write in turn goes on, or has ended and its promise is settled. */
  ghost function Settled(s: State, c: Q.Chain, ids: seq<nat>, d: nat): Both {
    if d < |ids| && ids[d] !in s.ops && Q.Enabled(c, Q.Finish(d)) then Both(s, Q.Apply(c, Q.Finish(d)), ids, d + 1)
    else Both(s, c, ids, d)
  }

  /** A ticket may go on after the promise before it exactly when the queue gives its write the turn. */
  lemma TurnsAgree(limit: nat, s: State, k: Key, c: Q.Chain, ids: seq<nat>, d: nat, t: nat)
    requires Inv(limit, s) && Coupled(s, k, c, ids, d) && t < |ids|
    ensures Q.Enabled(c, Q.Resume(t)) <==> Enabled(s, StartTurn(ids[t]))
  {
    AtKey(limit, s, ids[t], k);
    hide Inv, Distinct;
    if t >= d { assert ids[t] == s.Queue(k)[t - d]; }
    if t > d { TwiceInLine(s.Queue(k), t - d); }
  }

  lemma TwiceInLine(queue: seq<nat>, i: nat)
    requires Distinct(queue) && 0 < i < |queue|
    ensures queue[i] != queue[0]
  {
    assert queue[i] == queue[1..][i - 1];
  }

  lemma TurnEffect(limit: nat, s: State, k: Key, id: nat)
    requires Enabled(s, StartTurn(id)) && s.ops[id].Of() == k
    ensures var s' := Apply(limit, s, StartTurn(id));
      && s'.clock == s.clock + 1
      && (forall i :: i != id ==> (i in s'.ops <==> i in s.ops) && (i in s.ops ==> s'.ops[i] == s.ops[i]))
      && (if id in s'.ops then s'.ops[id].InSection() && s'.Queue(k) == s.Queue(k) else s'.Queue(k) == s.Queue(k)[1..])
  {
    hide SetDropped, Passes;
  }

  /** The second in line is another write, and it is not in its turn. */
  lemma SecondWaits(limit: nat, s: State, k: Key)
    requires Inv(limit, s) && |s.Queue(k)| > 1
    ensures var id := s.Queue(k)[1]; id != s.Queue(k)[0] && id in s.ops && !s.ops[id].InSection()
  {
    AtKey(limit, s, 0, k);
    TwiceInLine(s.Queue(k), 1);
  }

  lemma TurnIsTaken(limit: nat, s: State, k: Key, c: Q.Chain, ids: seq<nat>, d: nat)
    requires Inv(limit, s) && Q.InLine(c, d) && |ids| == |c.tickets| && d < |ids| && c.tickets[d].phase.Running?
    requires s.Queue(k) == ids[d..] && (forall t :: 0 <= t < d ==> ids[t] !in s.ops && ids[t] < s.clock)
    requires InPhase(s, ids[d], Queued) && s.ops[ids[d]].Of() == k
    ensures Enabled(s, StartTurn(ids[d]))
    ensures var b := Settled(Apply(limit, s, StartTurn(ids[d])), c, ids, d);
      Coupled(b.s, k, b.c, b.ids, b.d)
  {
    AtKey(limit, s, ids[d], k);
    TurnEffect(limit, s, k, ids[d]);
    if d + 1 < |ids| { SecondWaits(limit, s, k); assert ids[d + 1] == s.Queue(k)[1]; }
    hide Inv, Apply, QueueOk;
    var s' := Apply(limit, s, StartTurn(ids[d]));
    Q.StepInLine(c, d, Q.Finish(d));
    if ids[d] !in s'.ops { assert s'.Queue(k) == ids[d + 1..]; }
  }

  /** A write arrives: it joins the queue, and if there is no promise to wait for it has its turn at
      once. */
  lemma ArrivalsAgree(limit: nat, s: State, k: Key, c: Q.Chain, ids: seq<nat>, d: nat, id: nat)
    requires Inv(limit, s) && Coupled(s, k, c, ids, d) && InPhase(s, id, Hooked) && s.ops[id].Of() == k
    ensures var s1, c1, ids1 := Apply(limit, s, Enqueue(id)), Q.Apply(c, Q.Arrive), ids + [id];
      if c.last.None? then
        && Enabled(s1, StartTurn(id)) && d < |ids1| && Q.Enabled(c1, Q.Finish(d))
        && var b := Settled(Apply(limit, s1, StartTurn(id)), c1, ids1, d);
           Coupled(b.s, k, b.c, b.ids, b.d)
      else Coupled(s1, k, c1, ids1, d)
  {
    StepKeepsInv(limit, s, Enqueue(id));
    EnqueueJoins(limit, s, k, ids, d, id);
    var s1, c1, ids1 := Apply(limit, s, Enqueue(id)), Q.Apply(c, Q.Arrive), ids + [id];
    hide Inv, Apply;
    Q.StepInLine(c, d, Q.Arrive);
    if c.last.None? {
      TurnIsTaken(limit, s1, k, c1, ids1, d);
    }
  }

  lemma EnqueueJoins(limit: nat, s: State, k: Key, ids: seq<nat>, d: nat, id: nat)
    requires Inv(limit, s) && InPhase(s, id, Hooked) && s.ops[id].Of() == k && d <= |ids| && s.Queue(k) == ids[d..]
    ensures var s1 := Apply(limit, s, Enqueue(id));
      && s1.Queue(k) == (ids + [id])[d..] && s1.clock == s.clock + 1
      && InPhase(s1, id, Queued) && s1.ops[id].Of() == k
      && (forall i :: i != id ==> (i in s1.ops <==> i in s.ops) && (i in s.ops ==> s1.ops[i] == s.ops[i]))
      && id !in s.Queue(k) && id < s.clock
  {
    AtKey(limit, s, id, k);
    assert (ids + [id])[d..] == ids[d..] + [id];
  }

  /** A ticket resumes: its write is at the head of the queue and has its turn. */
  lemma ResumptionsAgree(limit: nat, s: State, k: Key, c: Q.Chain, ids: seq<nat>, d: nat, t: nat)
    requires Inv(limit, s) && Coupled(s, k, c, ids, d) && t < |ids| && Q.Enabled(c, Q.Resume(t))
    ensures t == d && Enabled(s, StartTurn(ids[t])) && Q.Enabled(Q.Apply(c, Q.Resume(t)), Q.Finish(t))
    ensures var b := Settled(Apply(limit, s, StartTurn(ids[t])), Q.Apply(c, Q.Resume(t)), ids, d);
      Coupled(b.s, k, b.c, b.ids, b.d)
  {
    TurnsAgree(limit, s, k, c, ids, d, t);
    AtKey(limit, s, ids[t], k);
    assert s.ops[ids[d]].Of() == k by { assert ids[d] == s.Queue(k)[0]; }
    hide Inv, Apply;
    Q.StepInLine(c, d, Q.Resume(t));
    TurnIsTaken(limit, s, k, Q.Apply(c, Q.Resume(t)), ids, d);
  }

  /** The step neither joins the queue of k nor takes a turn in it. */
  predicate OutsideLine(s: State, e: Event, k: Key)
    requires Enabled(s, e)
  {
    !((e.Enqueue? || e.StartTurn?) && s.ops[e.id].Of() == k)
  }

  predicate Ends(s: State, e: Event, k: Key)
    requires Enabled(s, e)
  {
    (e.CleanSeen? || (e.SetSeen? && s.EpochUnchanged(s.ops[e.id].w))) && s.ops[e.id].Of() == k
  }

  lemma QueueStep(limit: nat, s: State, e: Event, k: Key)
    requires Enabled(s, e) && OutsideLine(s, e, k)
    ensures var s', id := Apply(limit, s, e), Actor(s, e);
      && s'.Queue(k) == (if Ends(s, e, k) then s.Queue(k)[1..] else s.Queue(k))
      && (Ends(s, e, k) ==> id in s.ops && s.ops[id].InSection() && id !in s'.ops)
  {
    hide PairRegistry.BumpInvalidation, PairRegistry.BumpPublication, PairRegistry.Invalidation, PairRegistry.Publication, SetDropped;
  }

  /** A write in the line of k stays in it, queued or in its turn, until its turn ends. */
  lemma MembersStay(limit: nat, s: State, e: Event, k: Key, id: nat)
    requires Inv(limit, s) && Enabled(s, e) && OutsideLine(s, e, k) && !(Ends(s, e, k) && id == Actor(s, e))
    requires id in s.ops && s.ops[id].Of() == k && id < s.clock && s.ops[id].Writing? && (s.ops[id].phase.Queued? || s.ops[id].InSection())
    ensures var s' := Apply(limit, s, e);
      id in s'.ops && (s'.ops[id].InSection() <==> s.ops[id].InSection())
  {
    hide PairRegistry.BumpInvalidation, PairRegistry.BumpPublication, PairRegistry.Invalidation, PairRegistry.Publication, SetDropped;
    if id != Actor(s, e) { OthersStay(limit, s, e, id); }
  }

  /** Every other step leaves the line as it is, or ends the turn of its head and so settles that
      promise. */
  lemma OtherStepsAgree(limit: nat, s: State, k: Key, c: Q.Chain, ids: seq<nat>, d: nat, e: Event)
    requires Inv(limit, s) && Coupled(s, k, c, ids, d) && Enabled(s, e) && OutsideLine(s, e, k)
    ensures var s' := Apply(limit, s, e);
      if Ends(s, e, k) then
        d < |ids| && ids[d] == e.id && Q.Enabled(c, Q.Finish(d)) && Coupled(s', k, Q.Apply(c, Q.Finish(d)), ids, d + 1)
      else Coupled(s', k, c, ids, d)
  {
    hide Apply, Distinct;
    var s' := Apply(limit, s, e);
    AtKey(limit, s, Actor(s, e), k);
    QueueStep(limit, s, e, k);
    if |s.Queue(k)| > 1 { SecondWaits(limit, s, k); }
    forall t | 0 <= t < d ensures ids[t] !in s'.ops {
      if ids[t] == Actor(s, e) { ActorStep(limit, s, e); } else { OthersStay(limit, s, e, ids[t]); }
    }
    ActorStep(limit, s, e);
    hide Inv;
    if Ends(s, e, k) {
      assert ids[d] == e.id && s'.Queue(k) == ids[d + 1..];
      Q.StepInLine(c, d, Q.Finish(d));
      if d + 1 < |ids| {
        assert ids[d + 1] == s.Queue(k)[1];
        MembersStay(limit, s, e, k, ids[d + 1]);
      }
    } else if d < |ids| {
      assert ids[d] == s.Queue(k)[0];
      MembersStay(limit, s, e, k, ids[d]);
    }
  }

  // ---------------------------------------------------------------- runs with the chain alone

  /** In these runs only the chain says when a write of k has its turn. */
  datatype Step = Arrives(id: nat) | Resumes(ticket: nat) | Other(e: Event)

  ghost predicate Ok(limit: nat, b: Both, k: Key) { Inv(limit, b.s) && Coupled(b.s, k, b.c, b.ids, b.d) }

  ghost predicate Allowed(b: Both, step: Step, k: Key) {
    match step
    case Arrives(id) => InPhase(b.s, id, Hooked) && b.s.ops[id].Of() == k
    case Resumes(t) => t < |b.ids| && Q.Enabled(b.c, Q.Resume(t))
    case Other(e) => Enabled(b.s, e) && OutsideLine(b.s, e, k)
  }

  ghost function CacheStep(limit: nat, s: State, e: Event): State { if Enabled(s, e) then Apply(limit, s, e) else s }

  ghost function Do(limit: nat, b: Both, step: Step, k: Key): Both
    requires Allowed(b, step, k)
  {
    match step
    case Arrives(id) =>
      var s1 := CacheStep(limit, b.s, Enqueue(id));
      if b.c.last.None? then Settled(CacheStep(limit, s1, StartTurn(id)), Q.Apply(b.c, Q.Arrive), b.ids + [id], b.d)
      else Both(s1, Q.Apply(b.c, Q.Arrive), b.ids + [id], b.d)
    case Resumes(t) => Settled(CacheStep(limit, b.s, StartTurn(b.ids[t])), Q.Apply(b.c, Q.Resume(t)), b.ids, b.d)
    case Other(e) => Settled(Apply(limit, b.s, e), b.c, b.ids, b.d)
  }

  /** The steps of FunctionCache that the step stands for. */
  function CacheSteps(b: Both, step: Step): seq<Event>
    requires step.Resumes? ==> step.ticket < |b.ids|
  {
    match step
    case Arrives(id) => [Enqueue(id)] + if b.c.last.None? then [StartTurn(id)] else []
    case Resumes(t) => [StartTurn(b.ids[t])]
    case Other(e) => [e]
  }

  lemma {:induction false} OneStep(limit: nat, s: State, e: Event)
    requires Inv(limit, s) && Enabled(s, e)
    ensures Legal(limit, s, [e]) && After(limit, s, [e]) == Apply(limit, s, e) && Inv(limit, Apply(limit, s, e))
  {
    hide Apply, Enabled, Inv;
    StepKeepsInv(limit, s, e);
    assert [e][1..] == [];
  }

  lemma {:induction false} TwoSteps(limit: nat, s: State, e: Event, f: Event)
    requires Inv(limit, s) && Enabled(s, e) && Enabled(Apply(limit, s, e), f)
    ensures Legal(limit, s, [e, f]) && After(limit, s, [e, f]) == Apply(limit, Apply(limit, s, e), f)
    ensures Inv(limit, Apply(limit, Apply(limit, s, e), f))
  {
    hide Apply, Enabled, Inv;
    StepKeepsInv(limit, s, e);
    OneStep(limit, Apply(limit, s, e), f);
    assert [e, f][1..] == [f];
  }

  /** What the chain lets happen is legal for the queue, and both stay in agreement. */
  lemma StepsAgree(limit: nat, b: Both, step: Step, k: Key)
    requires Ok(limit, b, k) && Allowed(b, step, k)
    ensures Legal(limit, b.s, CacheSteps(b, step)) && After(limit, b.s, CacheSteps(b, step)) == Do(limit, b, step, k).s
    ensures Ok(limit, Do(limit, b, step, k), k)
  {
    hide Inv, Coupled, Apply, Enabled, OutsideLine, Ends;
    match step
    case Arrives(id) => ArrivalStep(limit, b, id, k);
    case Resumes(t) =>
      ResumptionsAgree(limit, b.s, k, b.c, b.ids, b.d, t);
      OneStep(limit, b.s, StartTurn(b.ids[t]));
    case Other(e) =>
      OtherStepsAgree(limit, b.s, k, b.c, b.ids, b.d, e);
      HeadLeavesAtEnd(limit, b.s, k, b.c, b.ids, b.d, e);
      OneStep(limit, b.s, e);
  }

  lemma ArrivalStep(limit: nat, b: Both, id: nat, k: Key)
    requires Ok(limit, b, k) && Allowed(b, Arrives(id), k)
    ensures Legal(limit, b.s, CacheSteps(b, Arrives(id)))
    ensures After(limit, b.s, CacheSteps(b, Arrives(id))) == Do(limit, b, Arrives(id), k).s
    ensures Ok(limit, Do(limit, b, Arrives(id), k), k)
  {
    ArrivalsAgree(limit, b.s, k, b.c, b.ids, b.d, id);
    EnqueueEnabled(b.s, id);
    hide Inv, Coupled, Apply, Enabled;
    OneStep(limit, b.s, Enqueue(id));
    if b.c.last.None? {
      TwoSteps(limit, b.s, Enqueue(id), StartTurn(id));
      assert CacheSteps(b, Arrives(id)) == [Enqueue(id), StartTurn(id)];
    } else {
      assert CacheSteps(b, Arrives(id)) == [Enqueue(id)];
    }
  }

  /** The head of the line leaves exactly when its turn ends. */
  lemma HeadLeavesAtEnd(limit: nat, s: State, k: Key, c: Q.Chain, ids: seq<nat>, d: nat, e: Event)
    requires Inv(limit, s) && Coupled(s, k, c, ids, d) && Enabled(s, e) && OutsideLine(s, e, k)
    ensures Ends(s, e, k) <==> d < |ids| && ids[d] !in Apply(limit, s, e).ops
  {
    OtherStepsAgree(limit, s, k, c, ids, d, e);
    QueueStep(limit, s, e, k);
  }

  lemma EnqueueEnabled(s: State, id: nat)
    requires InPhase(s, id, Hooked)
    ensures Enabled(s, Enqueue(id))
  {
  }

  ghost predicate AllowedRun(limit: nat, b: Both, steps: seq<Step>, k: Key)
    decreases |steps|
  {
    steps == [] || (Allowed(b, steps[0], k) && AllowedRun(limit, Do(limit, b, steps[0], k), steps[1..], k))
  }

  ghost function DoAll(limit: nat, b: Both, steps: seq<Step>, k: Key): Both
    requires AllowedRun(limit, b, steps, k)
    decreases |steps|
  {
    if steps == [] then b else DoAll(limit, Do(limit, b, steps[0], k), steps[1..], k)
  }

  ghost function AllCacheSteps(limit: nat, b: Both, steps: seq<Step>, k: Key): seq<Event>
    requires AllowedRun(limit, b, steps, k)
    decreases |steps|
  {
    if steps == [] then [] else CacheSteps(b, steps[0]) + AllCacheSteps(limit, Do(limit, b, steps[0], k), steps[1..], k)
  }

  lemma {:induction false} Joined(limit: nat, s: State, a: seq<Event>, b: seq<Event>)
    requires Legal(limit, s, a) && Legal(limit, After(limit, s, a), b)
    ensures Legal(limit, s, a + b) && After(limit, s, a + b) == After(limit, After(limit, s, a), b)
    decreases |a|
  {
    hide Apply, Enabled;
    if a == [] {
      assert a + b == b;
    } else {
      assert (a + b)[0] == a[0] && (a + b)[1..] == a[1..] + b;
      Joined(limit, Apply(limit, s, a[0]), a[1..], b);
    }
  }

  lemma {:induction false} RunsAgree(limit: nat, b: Both, steps: seq<Step>, k: Key)
    requires Ok(limit, b, k) && AllowedRun(limit, b, steps, k)
    ensures Ok(limit, DoAll(limit, b, steps, k), k)
    ensures Legal(limit, b.s, AllCacheSteps(limit, b, steps, k))
    ensures After(limit, b.s, AllCacheSteps(limit, b, steps, k)) == DoAll(limit, b, steps, k).s
    decreases |steps|
  {
    hide Inv, Coupled, Do, CacheSteps;
    if steps != [] {
      StepsAgree(limit, b, steps[0], k);
      RunsAgree(limit, Do(limit, b, steps[0], k), steps[1..], k);
      Joined(limit, b.s, CacheSteps(b, steps[0]), AllCacheSteps(limit, Do(limit, b, steps[0], k), steps[1..], k));
    }
  }

  /** The promise chain refines the queue: every run in which only the chain grants the turns of k is,
      step for step, a run of FunctionCache, and at its end the queue of k is the unfinished tickets. */
  lemma ChainRefinesQueue(limit: nat, steps: seq<Step>, k: Key)
    requires limit >= 1 && AllowedRun(limit, Both(Start(), Q.Chain([], None), [], 0), steps, k)
    ensures var b := Both(Start(), Q.Chain([], None), [], 0); var b' := DoAll(limit, b, steps, k);
      && Legal(limit, Start(), AllCacheSteps(limit, b, steps, k))
      && b'.s == After(limit, Start(), AllCacheSteps(limit, b, steps, k))
      && Coupled(b'.s, k, b'.c, b'.ids, b'.d)
  {
    RunsAgree(limit, Both(Start(), Q.Chain([], None), [], 0), steps, k);
  }
}
