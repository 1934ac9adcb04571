/** Savepoint calls against an adapter that may misbehave. */
module SavepointAdmission {
  // The adapter may invoke the callback late, twice or never, settle before the callback does, or
  // report success although the callback failed. Frame 0 is the root attempt; every other frame is
  // one savepoint call, opened by the callback of its parent. Any number of calls is open at a time
  // and their steps interleave. A promise is its settlement; a queued start runs before the
  // continuation of the adapter's own promise, because it was queued first.

  /** The user callback of a frame. Admitted: invoked and waiting for its queued start. */
  datatype Callback = NotInvoked | Admitted | Running | Fulfilled | Rejected

  datatype Outcome = Pending | Success | Failure(unconfirmed: bool)

  /** Calling: store.savepoint() has not returned; Waiting: for its promise; Awaiting: the promise
      settled first and the callback is still to be waited for. */
  datatype Continuation = Calling | Waiting | Awaiting

  datatype Verdict = Open | Released | RolledBack | Unconfirmed | NoFrame

  /** `invocations` counts the callback's invocations while the call was open, and `misbehaved` says
      that a step of that time was noticed as a violation. */
  datatype Frame = Frame(
    parent: nat,
    callback: Callback,
    begun: bool,            // the transaction state was created
    adapter: Outcome,
    continuation: Continuation,
    protocolError: bool,
    rollbackOnly: bool,
    verdict: Verdict,
    invocations: nat,
    misbehaved: bool)

  type Frames = seq<Frame>

  predicate AdmissionOpen(f: Frame) { f.adapter.Pending? }
  predicate Settled(f: Frame) { f.callback.Fulfilled? || f.callback.Rejected? }

  ghost predicate Tree(fs: Frames) {
    |fs| > 0 && forall i :: 0 < i < |fs| ==> fs[i].parent < i
  }

  /** A frame and everything it is nested in: the chain the rollback-only loop walks. */
  ghost function Line(fs: Frames, p: nat): set<nat>
    requires Tree(fs) && p < |fs|
    ensures forall a :: a in Line(fs, p) ==> a <= p
    decreases p
  {
    {p} + if p == 0 then {} else Line(fs, fs[p].parent)
  }

  /** Sets the rollback-only error of p and of all its ancestors, unless they have one. */
  ghost function Poisoned(fs: Frames, p: nat): Frames
    requires Tree(fs) && p < |fs|
  {
    seq(|fs|, i requires 0 <= i < |fs| => if i in Line(fs, p) then fs[i].(rollbackOnly := true) else fs[i])
  }

  /** Marks p and everything p is nested in as rollback-only. */
  method PoisonLine(fs: Frames, p: nat) returns (marked: Frames)
    requires Tree(fs) && p < |fs|
    ensures marked == Poisoned(fs, p)
  {
    marked := fs;
    var current, more := p, true;
    while more
      invariant current < |fs| == |marked| && current in Line(fs, p)
      invariant forall a :: 0 <= a < |fs| ==>
        marked[a] == if a in Line(fs, p) && (a > current || !more) then fs[a].(rollbackOnly := true) else fs[a]
      invariant forall a :: a in Line(fs, p) && a <= current <==> a in Line(fs, current)
      invariant !more ==> current == 0
      decreases current, more
    {
      marked := marked[current := marked[current].(rollbackOnly := true)];
      if current == 0 { more := false; } else { current := fs[current].parent; }
    }
  }

  datatype Event =
    | OpenCall(parent: nat)
    | Invoke(i: nat)
    | SyncReturn(i: nat)
    | SyncThrow(i: nat, unconfirmed: bool)
    | AdapterSettles(i: nat, outcome: Outcome)
    | RunStart(i: nat)
    | CallbackFulfils(i: nat)
    | CallbackRejects(i: nat)
    | Conclude(i: nat)
    | AwaitDone(i: nat)

  predicate IsCall(fs: Frames, i: nat) { 0 < i < |fs| }

  /** The tracked operations of a callback: it does not settle while a savepoint of its own is open. */
  ghost predicate ChildrenClosed(fs: Frames, i: nat) {
    forall j :: 0 < j < |fs| && fs[j].parent == i ==> !fs[j].verdict.Open?
  }

  ghost predicate Enabled(fs: Frames, e: Event) {
    match e
    case OpenCall(p) => p < |fs| && fs[p].callback.Running? && fs[p].verdict.Open?
    case Invoke(i) => IsCall(fs, i)
    case SyncReturn(i) => IsCall(fs, i) && fs[i].verdict.Open? && fs[i].continuation.Calling?
    case SyncThrow(i, _) => IsCall(fs, i) && fs[i].verdict.Open? && fs[i].continuation.Calling?
    case AdapterSettles(i, o) => IsCall(fs, i) && fs[i].verdict.Open? && fs[i].continuation.Waiting? && fs[i].adapter.Pending? && !o.Pending?
    case RunStart(i) => IsCall(fs, i) && fs[i].callback.Admitted? && !fs[i].continuation.Calling?
    case CallbackFulfils(i) => i < |fs| && fs[i].callback.Running? && ChildrenClosed(fs, i) && !fs[i].rollbackOnly
    case CallbackRejects(i) => i < |fs| && fs[i].callback.Running? && ChildrenClosed(fs, i)
    case Conclude(i) => IsCall(fs, i) && fs[i].verdict.Open? && fs[i].continuation.Waiting? && !fs[i].adapter.Pending?
      && (fs[i].adapter.Success? ==> !fs[i].callback.Admitted?)
    case AwaitDone(i) => IsCall(fs, i) && fs[i].verdict.Open? && fs[i].continuation.Awaiting? && Settled(fs[i])
  }

  /** The savepoint call ends by throwing: a frame that began is rolled back, or left unconfirmed. */
  function Throws(f: Frame, unconfirmed: bool): Frame {
    f.(verdict := if !f.begun then NoFrame else if unconfirmed then Unconfirmed else RolledBack)
  }

  function Bad(f: Frame): Frame { f.(misbehaved := f.misbehaved || f.verdict.Open?) }

  ghost function Apply(fs: Frames, e: Event): Frames
    requires Tree(fs) && Enabled(fs, e)
  {
    match e
    case OpenCall(p) => fs + [Frame(p, NotInvoked, false, Pending, Calling, false, false, Open, 0, false)]
    case Invoke(i) =>
      var f := fs[i].(invocations := if fs[i].verdict.Open? then fs[i].invocations + 1 else fs[i].invocations);
      if AdmissionOpen(f) && f.callback.NotInvoked? then fs[i := f.(callback := Admitted)]
      else Poisoned(fs[i := Bad(f).(protocolError := true)], f.parent)
    case SyncReturn(i) => fs[i := fs[i].(continuation := Waiting)]
    case SyncThrow(i, u) => fs[i := fs[i].(continuation := Waiting, adapter := Failure(u))]
    case AdapterSettles(i, o) => fs[i := fs[i].(adapter := o)]
    case RunStart(i) =>
      if AdmissionOpen(fs[i]) then fs[i := fs[i].(callback := Running, begun := true)]
      else Poisoned(fs[i := Bad(fs[i]).(callback := Rejected, protocolError := true)], fs[i].parent)
    case CallbackFulfils(i) => fs[i := fs[i].(callback := Fulfilled)]
    case CallbackRejects(i) => fs[i := fs[i].(callback := Rejected)]
    case Conclude(i) =>
      var f := fs[i];
      if f.adapter.Failure? then
        if f.callback.Admitted? || f.callback.Running? then fs[i := Bad(f).(continuation := Awaiting)]
        else fs[i := Throws(f, f.protocolError || f.adapter.unconfirmed)]
      else if f.protocolError then fs[i := Throws(f, true)]
      else if !f.begun then fs[i := Throws(f, false)]
      else if !Settled(f) then fs[i := Bad(f).(continuation := Awaiting)]
      else if f.callback.Rejected? then Poisoned(fs[i := Throws(Bad(f), true)], f.parent)
      else fs[i := f.(verdict := Released)]
    case AwaitDone(i) =>
      var f := fs[i];
      if f.protocolError then fs[i := Throws(f, true)]
      else Poisoned(fs[i := Throws(f, true)], f.parent)
  }

  // ---------------------------------------------------------------- the invariant

  ghost predicate LinePoisoned(fs: Frames, p: nat)
    requires Tree(fs) && p < |fs|
  {
    forall a :: a in Line(fs, p) ==> a < |fs| && fs[a].rollbackOnly && !fs[a].callback.Fulfilled?
  }

  ghost predicate CallOk(fs: Frames, i: nat)
    requires Tree(fs) && IsCall(fs, i)
  {
    var f := fs[i];
    && (f.verdict.Open? ==> fs[f.parent].callback.Running?)
    && (f.callback.Admitted? ==> f.verdict.Open?)
    // A call that failed on a protocol error does not wait for its callback.
    && (f.callback.Running? ==> f.verdict.Open? || (f.verdict.Unconfirmed? && LinePoisoned(fs, f.parent)))
    && (f.callback.Running? || f.callback.Fulfilled? ==> f.begun)
    && (f.verdict.Open? ==>
          && (f.invocations == 0 ==> f.callback.NotInvoked?)
          && (f.callback.NotInvoked? ==> f.invocations == 0 || f.misbehaved)
          && (f.invocations > 1 || f.protocolError ==> f.misbehaved)
          && (f.misbehaved ==> f.protocolError || f.continuation.Awaiting?))
    && (!f.verdict.Open? ==> !AdmissionOpen(f))
    && (f.continuation.Awaiting? ==> f.misbehaved && !AdmissionOpen(f))
    && (f.verdict.Released? ==> f.callback.Fulfilled? && f.invocations == 1 && f.adapter.Success? && !f.misbehaved)
    && (f.misbehaved ==> (f.verdict.Open? && f.continuation.Awaiting? && !f.protocolError) || LinePoisoned(fs, f.parent))
    && (f.protocolError && f.verdict.Open? ==> LinePoisoned(fs, f.parent))
    && (f.misbehaved && !f.verdict.Open? ==> f.verdict == if f.begun then Unconfirmed else NoFrame)
  }

  ghost predicate Inv(fs: Frames) {
    && Tree(fs)
    && (!fs[0].callback.NotInvoked? && !fs[0].callback.Admitted?)
    && forall i :: 0 < i < |fs| ==> CallOk(fs, i)
  }

  lemma {:induction false} LineStable(fs: Frames, fs': Frames, p: nat)
    requires Tree(fs) && Tree(fs') && p < |fs| <= |fs'|
    requires forall i :: 0 <= i < |fs| ==> fs'[i].parent == fs[i].parent
    ensures Line(fs', p) == Line(fs, p)
    ensures forall a :: a in Line(fs, p) ==> a <= p
    decreases p
  {
    if p > 0 { LineStable(fs, fs', fs[p].parent); }
  }

  /** While a callback runs, none of the frames it is nested in has a fulfilled callback. */
  lemma {:induction false} LineRuns(fs: Frames, p: nat)
    requires Inv(fs) && p < |fs| && fs[p].callback.Running?
    ensures forall a :: a in Line(fs, p) ==> !fs[a].callback.Fulfilled?
    decreases p
  {
    if p > 0 {
      assert CallOk(fs, p);
      if fs[p].verdict.Open? { LineRuns(fs, fs[p].parent); }
    }
  }

  /** Frame i made its step; the others are untouched, or newly rollback-only. */
  ghost predicate StepOf(fs: Frames, fs': Frames, i: nat) {
    && |fs'| == |fs| && i < |fs|
    && (forall a :: 0 <= a < |fs| ==> fs'[a].parent == fs[a].parent && (fs[a].rollbackOnly ==> fs'[a].rollbackOnly))
    && (forall a :: 0 <= a < |fs| && a != i ==> fs'[a] == fs[a].(rollbackOnly := fs'[a].rollbackOnly))
    && (fs'[i].callback.Fulfilled? ==> fs[i].callback.Fulfilled? || !fs[i].rollbackOnly)
    && (fs[i].callback.Running? && !fs'[i].callback.Running? ==> ChildrenClosed(fs, i))
  }

  lemma PoisonKept(fs: Frames, fs': Frames, i: nat, p: nat)
    requires Tree(fs) && Tree(fs') && StepOf(fs, fs', i) && p < |fs| && LinePoisoned(fs, p)
    ensures LinePoisoned(fs', p)
  {
    LineStable(fs, fs', p);
  }

  lemma OtherCall(fs: Frames, fs': Frames, i: nat, j: nat)
    requires Tree(fs) && Tree(fs') && StepOf(fs, fs', i) && IsCall(fs, j) && j != i && CallOk(fs, j)
    ensures CallOk(fs', j)
  {
    hide LinePoisoned;
    if LinePoisoned(fs, fs[j].parent) { PoisonKept(fs, fs', i, fs[j].parent); }
  }

  lemma Assemble(fs: Frames, fs': Frames, i: nat)
    requires Inv(fs) && StepOf(fs, fs', i)
    requires Tree(fs') && (i == 0 ==> Settled(fs'[0]) || fs'[0].callback.Running?) && (i > 0 ==> CallOk(fs', i))
    ensures Inv(fs')
  {
    hide CallOk;
    forall j | 0 < j < |fs'| ensures CallOk(fs', j) {
      if j != i { OtherCall(fs, fs', i, j); }
    }
  }

  /** A step that poisons the ancestors while the call is open finds none of their callbacks fulfilled. */
  lemma PoisonStep(fs: Frames, i: nat, f: Frame)
    requires Inv(fs) && IsCall(fs, i) && fs[i].verdict.Open? && f.parent == fs[i].parent && (fs[i].rollbackOnly ==> f.rollbackOnly)
    requires !f.callback.Fulfilled? || fs[i].callback.Fulfilled?
    requires fs[i].callback.Running? ==> f.callback.Running?
    ensures Tree(fs[i := f])
    ensures StepOf(fs, Poisoned(fs[i := f], f.parent), i)
    ensures |Poisoned(fs[i := f], f.parent)| == |fs| && Poisoned(fs[i := f], f.parent)[i] == f
    ensures Tree(Poisoned(fs[i := f], f.parent)) && LinePoisoned(Poisoned(fs[i := f], f.parent), f.parent)
    ensures Poisoned(fs[i := f], f.parent)[f.parent].callback.Running?
  {
    assert CallOk(fs, i);
    LineRuns(fs, f.parent);
    LineStable(fs, fs[i := f], f.parent);
    LineStable(fs[i := f], Poisoned(fs[i := f], f.parent), f.parent);
  }

  /** A step that touches only frame i and poisons nobody. */
  lemma LocalStep(fs: Frames, i: nat, f: Frame)
    requires Inv(fs) && IsCall(fs, i) && f.parent == fs[i].parent && f.rollbackOnly == fs[i].rollbackOnly
    requires f.callback.Fulfilled? ==> fs[i].callback.Fulfilled? || !fs[i].rollbackOnly
    requires fs[i].callback.Running? && !f.callback.Running? ==> ChildrenClosed(fs, i)
    requires Tree(fs[i := f]) && CallOk(fs[i := f], i)
    ensures Inv(fs[i := f])
  {
    hide CallOk;
    Assemble(fs, fs[i := f], i);
  }

  lemma OpenStep(fs: Frames, p: nat)
    requires Inv(fs) && Enabled(fs, OpenCall(p))
    ensures Inv(Apply(fs, OpenCall(p)))
  {
    var fs' := Apply(fs, OpenCall(p));
    forall j | 0 < j < |fs'| ensures CallOk(fs', j) {
      if j < |fs| {
        assert CallOk(fs, j);
        LineStable(fs, fs', fs[j].parent);
      }
    }
  }

  lemma FirstInvokeStep(fs: Frames, i: nat)
    requires Inv(fs) && IsCall(fs, i) && AdmissionOpen(fs[i]) && fs[i].callback.NotInvoked?
    ensures Inv(Apply(fs, Invoke(i)))
  {
    assert CallOk(fs, i);
    LineStable(fs, Apply(fs, Invoke(i)), fs[i].parent);
    LocalStep(fs, i, Apply(fs, Invoke(i))[i]);
  }

  lemma BadInvokeStep(fs: Frames, i: nat)
    requires Inv(fs) && IsCall(fs, i) && fs[i].verdict.Open? && !(AdmissionOpen(fs[i]) && fs[i].callback.NotInvoked?)
    ensures Inv(Apply(fs, Invoke(i)))
  {
    hide Poisoned, Line, LinePoisoned, StepOf;
    assert CallOk(fs, i);
    var g := Bad(fs[i].(invocations := fs[i].invocations + 1)).(protocolError := true);
    var fs' := Poisoned(fs[i := g], g.parent);
    PoisonStep(fs, i, g);
    assert CallOk(fs', i);
    Assemble(fs, fs', i);
  }

  lemma LateInvokeStep(fs: Frames, i: nat)
    requires Inv(fs) && IsCall(fs, i) && !fs[i].verdict.Open?
    ensures Inv(Apply(fs, Invoke(i)))
  {
    hide LinePoisoned;
    assert CallOk(fs, i);
    var fs' := Apply(fs, Invoke(i));
    LineStable(fs, fs[i := fs'[i]], fs[i].parent);
    assert StepOf(fs, fs', i);
    hide Poisoned, Line, StepOf;
    if LinePoisoned(fs, fs[i].parent) { PoisonKept(fs, fs', i, fs[i].parent); }
    Assemble(fs, fs', i);
  }

  lemma InvokeStep(fs: Frames, i: nat)
    requires Inv(fs) && IsCall(fs, i)
    ensures Inv(Apply(fs, Invoke(i)))
  {
    hide Inv, Apply;
    if AdmissionOpen(fs[i]) && fs[i].callback.NotInvoked? { FirstInvokeStep(fs, i); }
    else if fs[i].verdict.Open? { BadInvokeStep(fs, i); }
    else { LateInvokeStep(fs, i); }
  }

  lemma RunStartStep(fs: Frames, i: nat)
    requires Inv(fs) && Enabled(fs, RunStart(i))
    ensures Inv(Apply(fs, RunStart(i)))
  {
    assert CallOk(fs, i);
    var fs' := Apply(fs, RunStart(i));
    if AdmissionOpen(fs[i]) {
      LineStable(fs, fs', fs[i].parent);
      LocalStep(fs, i, fs[i].(callback := Running, begun := true));
    } else {
      PoisonStep(fs, i, Bad(fs[i]).(callback := Rejected, protocolError := true));
      Assemble(fs, fs', i);
    }
  }

  lemma AdapterStep(fs: Frames, e: Event)
    requires Inv(fs) && Enabled(fs, e) && (e.SyncReturn? || e.SyncThrow? || e.AdapterSettles?)
    ensures Inv(Apply(fs, e))
  {
    assert CallOk(fs, e.i);
    LineStable(fs, Apply(fs, e), fs[e.i].parent);
    LocalStep(fs, e.i, Apply(fs, e)[e.i]);
  }

  lemma SettleStep(fs: Frames, e: Event)
    requires Inv(fs) && Enabled(fs, e) && (e.CallbackFulfils? || e.CallbackRejects?)
    ensures Inv(Apply(fs, e))
  {
    var fs' := Apply(fs, e);
    if e.i > 0 {
      assert CallOk(fs, e.i);
      LineStable(fs, fs', fs[e.i].parent);
      LocalStep(fs, e.i, fs'[e.i]);
    } else {
      Assemble(fs, fs', 0);
    }
  }

  lemma ConcludeStep(fs: Frames, i: nat)
    requires Inv(fs) && Enabled(fs, Conclude(i))
    ensures Inv(Apply(fs, Conclude(i)))
  {
    hide Poisoned, Line, LinePoisoned;
    assert CallOk(fs, i);
    var f, fs' := fs[i], Apply(fs, Conclude(i));
    if f.adapter.Success? && !f.protocolError && f.callback.Rejected? && f.begun {
      PoisonStep(fs, i, Throws(Bad(f), true));
      Assemble(fs, fs', i);
    } else {
      if LinePoisoned(fs, f.parent) { PoisonKept(fs, fs', i, f.parent); }
      LocalStep(fs, i, fs'[i]);
    }
  }

  lemma AwaitDoneStep(fs: Frames, i: nat)
    requires Inv(fs) && Enabled(fs, AwaitDone(i))
    ensures Inv(Apply(fs, AwaitDone(i)))
  {
    assert CallOk(fs, i);
    var f, fs' := fs[i], Apply(fs, AwaitDone(i));
    if f.protocolError {
      LineStable(fs, fs', f.parent);
      LocalStep(fs, i, fs'[i]);
    } else {
      PoisonStep(fs, i, Throws(f, true));
      Assemble(fs, fs', i);
    }
  }

  lemma {:induction false} StepKeepsInv(fs: Frames, e: Event)
    requires Inv(fs) && Enabled(fs, e)
    ensures Inv(Apply(fs, e))
  {
    hide CallOk, Apply, Poisoned;
    match e
    case OpenCall(p) => OpenStep(fs, p);
    case Invoke(i) => InvokeStep(fs, i);
    case RunStart(i) => RunStartStep(fs, i);
    case CallbackFulfils(_) => SettleStep(fs, e);
    case CallbackRejects(_) => SettleStep(fs, e);
    case Conclude(i) => ConcludeStep(fs, i);
    case AwaitDone(i) => AwaitDoneStep(fs, i);
    case _ => AdapterStep(fs, e);
  }

  // ---------------------------------------------------------------- runs

  ghost predicate Legal(fs: Frames, run: seq<Event>)
    requires Inv(fs)
    decreases |run|
  {
    run == [] || (Enabled(fs, run[0]) && (StepKeepsInv(fs, run[0]); Legal(Apply(fs, run[0]), run[1..])))
  }

  ghost function After(fs: Frames, run: seq<Event>): Frames
    requires Inv(fs) && Legal(fs, run)
    ensures Inv(After(fs, run))
    decreases |run|
  {
    if run == [] then fs
    else
      StepKeepsInv(fs, run[0]);
      After(Apply(fs, run[0]), run[1..])
  }

  /** One root attempt whose callback is running. */
  ghost function Start(): (fs: Frames)
    ensures Inv(fs)
  {
    [Frame(0, Running, true, Pending, Calling, false, false, Open, 0, false)]
  }

  /** A frame is released only if its callback was let in exactly once and had fulfilled when the
      savepoint call returned successfully, and no protocol violation was seen while it was open. */
  lemma ReleasedOnlyWhenClean(run: seq<Event>, i: nat)
    requires Legal(Start(), run) && IsCall(After(Start(), run), i) && After(Start(), run)[i].verdict.Released?
    ensures var f := After(Start(), run)[i];
      f.begun && f.callback.Fulfilled? && f.invocations == 1 && f.adapter.Success? && !f.misbehaved
  {
    assert CallOk(After(Start(), run), i);
  }

  /** Once a call that was flagged as misbehaving is over, its frame is not released, every frame it
      is nested in is rollback-only, and none of their callbacks has fulfilled: the root attempt
      cannot fulfil and no ancestor is released. SavepointViolations says which runs are flagged. */
  lemma FlaggedCallsPoisonAncestors(run: seq<Event>, i: nat)
    requires Legal(Start(), run) && IsCall(After(Start(), run), i)
    requires After(Start(), run)[i].misbehaved && !After(Start(), run)[i].verdict.Open?
    ensures var fs := After(Start(), run);
      && !fs[i].verdict.Released?
      && forall a :: a in Line(fs, fs[i].parent) ==>
           fs[a].rollbackOnly && !fs[a].callback.Fulfilled? && !Enabled(fs, CallbackFulfils(a)) && (a > 0 ==> !fs[a].verdict.Released?)
  {
    var fs := After(Start(), run);
    assert CallOk(fs, i);
    forall a | a in Line(fs, fs[i].parent) ensures a > 0 ==> !fs[a].verdict.Released? {
      if a > 0 { assert CallOk(fs, a); }
    }
  }

  /** A call that was not flagged, whose callback fulfilled before the adapter's success is seen, is
      released and poisons nobody. */
  lemma CleanCallsAreReleased(fs: Frames, i: nat)
    requires Inv(fs) && Enabled(fs, Conclude(i))
    requires !fs[i].misbehaved && fs[i].callback.Fulfilled? && fs[i].adapter.Success?
    ensures Apply(fs, Conclude(i)) == fs[i := fs[i].(verdict := Released)]
  {
    assert CallOk(fs, i);
  }
}
