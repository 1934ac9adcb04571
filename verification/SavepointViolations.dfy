/** What SavepointAdmission notices, in terms of the run. */
module SavepointViolations {
  import opened SavepointAdmission

  // Which adapter behaviour counts as a violation, which calls are released, and the early
  // settlement that nobody notices.

  predicate Settles(e: Event, i: nat) {
    (e.AdapterSettles? && e.i == i) || (e.SyncThrow? && e.i == i)
  }

  ghost predicate SettledIn(run: seq<Event>, i: nat) {
    exists m :: 0 <= m < |run| && Settles(run[m], i)
  }

  /** After the events `past`, the adapter (or the call) takes a step that breaks the contract of a
      savepoint: the callback is invoked again, is invoked or started after the settlement, the call
      goes on while an invoked callback has not settled, or success is reported of a callback that
      rejected. */
  ghost predicate Violates(past: seq<Event>, e: Event, i: nat) {
    || (e == Invoke(i) && (Invoke(i) in past || SettledIn(past, i)))
    || (e == RunStart(i) && SettledIn(past, i))
    || (e == Conclude(i) && Invoke(i) in past && CallbackFulfils(i) !in past && CallbackRejects(i) !in past)
    || (e == Conclude(i) && AdapterSettles(i, Success) in past && CallbackRejects(i) in past)
  }

  ghost predicate OpenIn(fs: Frames, i: nat) { IsCall(fs, i) && fs[i].verdict.Open? }

  // ---------------------------------------------------------------- runs, event by event

  lemma {:induction false} Split(fs: Frames, a: seq<Event>, b: seq<Event>)
    requires Inv(fs)
    ensures Legal(fs, a + b) <==> Legal(fs, a) && Legal(After(fs, a), b)
    ensures Legal(fs, a + b) ==> After(fs, a + b) == After(After(fs, a), b)
    decreases |a|
  {
    hide CallOk, Apply, Enabled;
    if a == [] {
      assert a + b == b;
    } else {
      assert (a + b)[0] == a[0] && (a + b)[1..] == a[1..] + b;
      if Enabled(fs, a[0]) {
        StepKeepsInv(fs, a[0]);
        Split(Apply(fs, a[0]), a[1..], b);
      }
    }
  }

  lemma OneStep(fs: Frames, e: Event)
    requires Inv(fs) && Enabled(fs, e)
    ensures Legal(fs, [e]) && After(fs, [e]) == Apply(fs, e)
  {
    hide Inv, Apply, Enabled;
    StepKeepsInv(fs, e);
    assert [e][1..] == [];
  }

  /** A run is its events but the last, and then the last. */
  lemma Last(run: seq<Event>)
    requires run != [] && Legal(Start(), run)
    ensures var past, e := run[..|run| - 1], run[|run| - 1];
      && Legal(Start(), past) && Enabled(After(Start(), past), e)
      && After(Start(), run) == Apply(After(Start(), past), e)
  {
    hide Inv, Apply, Enabled, Start;
    var past, e := run[..|run| - 1], run[|run| - 1];
    assert run == past + [e];
    Split(Start(), past, [e]);
    OneStep(After(Start(), past), e);
  }

  // ---------------------------------------------------------------- what a frame remembers of the run

  ghost predicate Remembers(f: Frame, run: seq<Event>, i: nat) {
    && (f.verdict.Open? ==> f.invocations == multiset(run)[Invoke(i)])
    && (!AdmissionOpen(f) <==> SettledIn(run, i))
    && (f.adapter.Success? <==> AdapterSettles(i, Success) in run)
    && (f.callback.Fulfilled? <==> CallbackFulfils(i) in run)
    && (CallbackRejects(i) in run ==> f.callback.Rejected? && f.begun)
    && (f.callback.Rejected? ==> CallbackRejects(i) in run || f.misbehaved)
    && (f.continuation.Calling? ==> AdmissionOpen(f))
    && (f.protocolError && f.callback.NotInvoked? ==> !AdmissionOpen(f))
    && (f.begun ==> !f.callback.NotInvoked? && !f.callback.Admitted?)
    && (f.verdict.Open? && f.protocolError && !f.callback.NotInvoked? && !f.callback.Rejected? ==> f.invocations > 1)
  }

  predicate About(e: Event, i: nat) { !e.OpenCall? && e.i == i }

  /** A step that is not about frame i changes at most its rollback-only mark. */
  lemma OthersKeep(fs: Frames, e: Event, i: nat)
    requires Inv(fs) && Enabled(fs, e) && i < |fs| && !About(e, i)
    ensures i < |Apply(fs, e)| && Apply(fs, e)[i] == fs[i].(rollbackOnly := Apply(fs, e)[i].rollbackOnly)
  {
  }

  lemma Extend(run: seq<Event>, e: Event, i: nat)
    ensures SettledIn(run + [e], i) <==> SettledIn(run, i) || Settles(e, i)
    ensures multiset(run + [e])[Invoke(i)] == multiset(run)[Invoke(i)] + (if e == Invoke(i) then 1 else 0)
    ensures forall x :: x in run + [e] <==> x in run || x == e
  {
    var s := run + [e];
    assert s[|run|] == e && forall m :: 0 <= m < |run| ==> s[m] == run[m];
  }

  lemma OwnStepRemembers(fs: Frames, run: seq<Event>, e: Event, i: nat)
    requires Inv(fs) && IsCall(fs, i) && Remembers(fs[i], run, i) && Enabled(fs, e) && About(e, i)
    ensures IsCall(Apply(fs, e), i) && Remembers(Apply(fs, e)[i], run + [e], i)
  {
    hide LinePoisoned, Line, SettledIn;
    assert CallOk(fs, i);
    Extend(run, e, i);
  }

  /** No event is about a frame that does not exist yet. */
  ghost predicate Known(run: seq<Event>, n: nat) {
    forall m :: 0 <= m < |run| ==> run[m].OpenCall? || run[m].i < n
  }

  lemma KnownStep(fs: Frames, run: seq<Event>, e: Event)
    requires Inv(fs) && Enabled(fs, e) && Known(run, |fs|)
    ensures Known(run + [e], |Apply(fs, e)|)
  {
  }

  lemma NothingYet(run: seq<Event>, i: nat)
    requires Known(run, i)
    ensures !SettledIn(run, i) && multiset(run)[Invoke(i)] == 0
    ensures forall e :: About(e, i) ==> e !in run
  {
  }

  lemma StepRemembers(fs: Frames, run: seq<Event>, e: Event, i: nat)
    requires Inv(fs) && Enabled(fs, e) && Known(run, |fs|) && IsCall(Apply(fs, e), i)
    requires IsCall(fs, i) ==> Remembers(fs[i], run, i)
    ensures Remembers(Apply(fs, e)[i], run + [e], i)
  {
    hide LinePoisoned, Line, SettledIn, CallOk;
    if About(e, i) {
      OwnStepRemembers(fs, run, e, i);
    } else {
      Extend(run, e, i);
      if i < |fs| { OthersKeep(fs, e, i); }
      else { NothingYet(run, i); }
    }
  }

  lemma NothingHappened()
    ensures Legal(Start(), []) && Known([], |After(Start(), [])|) && forall i: nat :: !IsCall(After(Start(), []), i)
  {
  }

  /** Every call of the final state, seen from the events of the run. */
  ghost predicate AllRemember(fs: Frames, run: seq<Event>) {
    Known(run, |fs|) && forall i: nat :: IsCall(fs, i) ==> Remembers(fs[i], run, i)
  }

  lemma AllRememberStep(fs: Frames, run: seq<Event>, e: Event)
    requires Inv(fs) && Enabled(fs, e) && AllRemember(fs, run)
    ensures AllRemember(Apply(fs, e), run + [e])
  {
    hide CallOk, Enabled, Apply, Remembers, Known;
    KnownStep(fs, run, e);
    forall i: nat | IsCall(Apply(fs, e), i) ensures Remembers(Apply(fs, e)[i], run + [e], i) {
      StepRemembers(fs, run, e, i);
    }
  }

  lemma {:induction false} RunRemembers(run: seq<Event>)
    requires Legal(Start(), run)
    ensures AllRemember(After(Start(), run), run)
    decreases |run|
  {
    hide Legal, After, Start, Enabled, Apply, Remembers, Known;
    if run == [] {
      NothingHappened();
    } else {
      var past, e := run[..|run| - 1], run[|run| - 1];
      Last(run);
      RunRemembers(past);
      AllRememberStep(After(Start(), past), past, e);
      assert run == past + [e];
    }
  }

  // ---------------------------------------------------------------- violations

  ghost predicate ViolatesAt(run: seq<Event>, m: nat, i: nat) {
    && m < |run| && Legal(Start(), run[..m]) && OpenIn(After(Start(), run[..m]), i)
    && Violates(run[..m], run[m], i)
  }

  /** Some step made while call i was open broke the contract of a savepoint. */
  ghost predicate ViolatedIn(run: seq<Event>, i: nat) {
    exists m :: ViolatesAt(run, m, i)
  }

  lemma StepFlags(fs: Frames, past: seq<Event>, e: Event, i: nat)
    requires Inv(fs) && Enabled(fs, e) && IsCall(fs, i) && Remembers(fs[i], past, i)
    ensures Apply(fs, e)[i].misbehaved <==> fs[i].misbehaved || (OpenIn(fs, i) && Violates(past, e, i))
  {
    hide LinePoisoned, Line, SettledIn;
    assert CallOk(fs, i);
    if !About(e, i) { OthersKeep(fs, e, i); }
  }

  lemma ViolatedStep(past: seq<Event>, e: Event, i: nat)
    requires Legal(Start(), past)
    ensures ViolatedIn(past + [e], i) <==> ViolatedIn(past, i) || (OpenIn(After(Start(), past), i) && Violates(past, e, i))
  {
    hide Legal, Start, Violates, After, OpenIn;
    var run := past + [e];
    assert run[..|past|] == past;
    assert forall m :: 0 <= m < |past| ==> run[..m] == past[..m] && run[m] == past[m];
    if ViolatedIn(past, i) {
      var m: nat :| ViolatesAt(past, m, i);
      assert ViolatesAt(run, m, i);
    }
    if OpenIn(After(Start(), past), i) && Violates(past, e, i) { assert ViolatesAt(run, |past|, i); }
    if ViolatedIn(run, i) {
      var m: nat :| ViolatesAt(run, m, i);
      if m < |past| { assert ViolatesAt(past, m, i); }
    }
  }

  /** The program notices a violation exactly when one happened. */
  lemma {:induction false} ViolationsAreNoticed(run: seq<Event>, i: nat)
    requires Legal(Start(), run) && IsCall(After(Start(), run), i)
    ensures After(Start(), run)[i].misbehaved <==> ViolatedIn(run, i)
    decreases |run|
  {
    if run != [] {
      var past, e := run[..|run| - 1], run[|run| - 1];
      Last(run);
      assert run == past + [e];
      ViolatedStep(past, e, i);
      RunRemembers(past);
      var fs := After(Start(), past);
      if i < |fs| {
        ViolationsAreNoticed(past, i);
        StepFlags(fs, past, e, i);
      } else {
        NoViolationYet(past, i);
      }
    }
  }

  lemma NoViolationYet(past: seq<Event>, i: nat)
    requires Legal(Start(), past) && i >= |After(Start(), past)|
    ensures !ViolatedIn(past, i)
  {
    RunRemembers(past);
    forall m | 0 <= m < |past| ensures !ViolatesAt(past, m, i) {
      assert past[m].OpenCall? || past[m].i < i;
    }
  }

  /** If, while the call was open, its callback was invoked twice, invoked or started after the
      settlement, still unsettled when the call went on, or had rejected although success was
      reported, then once the call is over its frame is not released, every frame it is nested in is
      rollback-only, and none of their callbacks has fulfilled or can: no ancestor is released. */
  lemma MisbehaviourPoisonsAncestors(run: seq<Event>, i: nat)
    requires Legal(Start(), run) && IsCall(After(Start(), run), i) && !After(Start(), run)[i].verdict.Open?
    requires ViolatedIn(run, i)
    ensures var fs := After(Start(), run);
      && !fs[i].verdict.Released?
      && forall a :: a in Line(fs, fs[i].parent) ==>
           fs[a].rollbackOnly && !fs[a].callback.Fulfilled? && !Enabled(fs, CallbackFulfils(a)) && (a > 0 ==> !fs[a].verdict.Released?)
  {
    ViolationsAreNoticed(run, i);
    FlaggedCallsPoisonAncestors(run, i);
  }

  /** A violated call whose callback began ends unconfirmed: what it recorded is not taken for undone. */
  lemma ViolatedCallEndsUnconfirmed(run: seq<Event>, i: nat)
    requires Legal(Start(), run) && IsCall(After(Start(), run), i) && !After(Start(), run)[i].verdict.Open?
    requires ViolatedIn(run, i)
    ensures var f := After(Start(), run)[i]; f.verdict == if f.begun then Unconfirmed else NoFrame
  {
    ViolationsAreNoticed(run, i);
    assert CallOk(After(Start(), run), i);
  }

  /** A call without a violation ends with what the adapter reported, if its callback began. */
  lemma CleanCallEndsAsReported(run: seq<Event>, i: nat)
    requires Legal(Start(), run) && Enabled(After(Start(), run), Conclude(i))
    requires !ViolatedIn(run, i) && !Violates(run, Conclude(i), i)
    ensures var f, f' := After(Start(), run)[i], Apply(After(Start(), run), Conclude(i))[i];
      f'.verdict == if f.begun then Reported(f.adapter) else NoFrame
  {
    var fs := After(Start(), run);
    RunRemembers(run);
    ViolationsAreNoticed(run, i);
    StepFlags(fs, run, Conclude(i), i);
    assert CallOk(fs, i);
    hide Legal, After, Start, Violates, ViolatedIn, LinePoisoned, Line;
  }

  /** Open calls go on and end: the adapter's call returns, its promise settles, a start that is queued runs, and
      then the call ends at once or waits for the callback that its adapter did not wait for, and ends after it. */
  lemma OpenCallsGoOn(fs: Frames, i: nat)
    requires Tree(fs) && IsCall(fs, i) && fs[i].verdict.Open?
    ensures var f := fs[i];
      && (f.continuation.Calling? ==> Enabled(fs, SyncReturn(i)))
      && (f.continuation.Waiting? && f.adapter.Pending? ==> Enabled(fs, AdapterSettles(i, Success)))
      && (f.continuation.Waiting? && !f.adapter.Pending? ==> Enabled(fs, Conclude(i)) || Enabled(fs, RunStart(i)))
      && (f.continuation.Awaiting? ==> if Settled(f) then Enabled(fs, AwaitDone(i)) else f.callback.Admitted? ==> Enabled(fs, RunStart(i)))
    ensures Enabled(fs, Conclude(i)) ==>
      var f' := Apply(fs, Conclude(i))[i]; !f'.verdict.Open? || (f'.continuation.Awaiting? && !Settled(f'))
    ensures Enabled(fs, AwaitDone(i)) ==> !Apply(fs, AwaitDone(i))[i].verdict.Open?
  {
  }

  /** A call that goes on after its settlement is released exactly if by then its callback was
      invoked once and has fulfilled and the adapter reported success; then nobody else is touched. */
  lemma ReleasedExactly(run: seq<Event>, i: nat)
    requires Legal(Start(), run) && Enabled(After(Start(), run), Conclude(i))
    ensures var fs := After(Start(), run); var fs' := Apply(fs, Conclude(i));
      && (fs'[i].verdict.Released? <==>
            multiset(run)[Invoke(i)] == 1 && CallbackFulfils(i) in run && AdapterSettles(i, Success) in run)
      && (fs'[i].verdict.Released? ==> fs' == fs[i := fs[i].(verdict := Released)])
  {
    RunRemembers(run);
    hide Legal, After, Start;
    assert CallOk(After(Start(), run), i);
  }

  // ---------------------------------------------------------------- settling before the callback does

  /** The verdict the adapter's own report asks for. */
  function Reported(o: Outcome): Verdict
    requires !o.Pending?
  {
    if o.Success? then Released else if o.unconfirmed then Unconfirmed else RolledBack
  }

  lemma ConcludeSettled(fs: Frames, run: seq<Event>, o: Outcome, i: nat)
    requires Inv(fs) && Enabled(fs, Conclude(i)) && Remembers(fs[i], run, i)
    requires fs[i].begun && fs[i].adapter == o && !fs[i].misbehaved
    ensures var fs' := Apply(fs, Conclude(i));
      var quiet := CallbackFulfils(i) in run || (CallbackRejects(i) in run && o.Failure?);
      && (!fs'[i].misbehaved <==> quiet)
      && (quiet ==> fs' == fs[i := fs[i].(verdict := Reported(o))])
      && (!quiet ==> fs'[i].continuation.Awaiting? || fs'[i].verdict == Unconfirmed)
  {
    hide LinePoisoned, Line, SettledIn;
    assert CallOk(fs, i);
  }

  /** The adapter settles while the callback runs, and nothing else breaks the contract before the
      call goes on. The settlement goes unnoticed, the call ending with the adapter's own report and
      touching nobody else, exactly if the callback settles before the call goes on (rejecting only
      under a reported failure); otherwise the call waits for the callback or poisons its ancestors. */
  lemma EarlySettlementUnnoticed(past: seq<Event>, o: Outcome, mid: seq<Event>, i: nat)
    requires Legal(Start(), past) && Enabled(After(Start(), past), AdapterSettles(i, o))
    requires After(Start(), past)[i].callback.Running?
    requires var run := past + [AdapterSettles(i, o)] + mid;
      Legal(Start(), run) && Enabled(After(Start(), run), Conclude(i)) && !ViolatedIn(run, i)
    ensures var fs := After(Start(), past + [AdapterSettles(i, o)] + mid); var fs' := Apply(fs, Conclude(i));
      var quiet := CallbackFulfils(i) in mid || (CallbackRejects(i) in mid && o.Failure?);
      && (!fs'[i].misbehaved <==> quiet)
      && (quiet ==> fs' == fs[i := fs[i].(verdict := Reported(o))])
      && (!quiet ==> fs'[i].continuation.Awaiting? || fs'[i].verdict == Unconfirmed)
  {
    var e := AdapterSettles(i, o);
    var run := past + [e] + mid;
    var fs := After(Start(), run);
    RunRemembers(past);
    RunRemembers(run);
    ViolationsAreNoticed(run, i);
    Split(Start(), past + [e], mid);
    Split(Start(), past, [e]);
    OneStep(After(Start(), past), e);
    SettleEarly(After(Start(), past), o, i);
    OutcomeKept(Apply(After(Start(), past), e), mid, i);
    assert CallbackFulfils(i) !in past && CallbackRejects(i) !in past;
    assert CallbackFulfils(i) in run <==> CallbackFulfils(i) in mid;
    assert CallbackRejects(i) in run <==> CallbackRejects(i) in mid;
    hide *;
    ConcludeSettled(fs, run, o, i);
  }

  lemma SettleEarly(fs: Frames, o: Outcome, i: nat)
    requires Inv(fs) && Enabled(fs, AdapterSettles(i, o)) && fs[i].callback.Running?
    ensures var f := Apply(fs, AdapterSettles(i, o))[i]; f.begun && f.adapter == o && !o.Pending? && !f.continuation.Calling?
  {
    assert CallOk(fs, i);
  }

  lemma {:induction false} OutcomeKept(fs: Frames, run: seq<Event>, i: nat)
    requires Inv(fs) && Legal(fs, run) && IsCall(fs, i) && fs[i].begun && !fs[i].adapter.Pending? && !fs[i].continuation.Calling?
    ensures IsCall(After(fs, run), i) && After(fs, run)[i].adapter == fs[i].adapter && After(fs, run)[i].begun
    decreases |run|
  {
    if run != [] {
      hide Apply, Enabled, CallOk;
      var fs' := Apply(fs, run[0]);
      OutcomeStep(fs, run[0], i);
      StepKeepsInv(fs, run[0]);
      OutcomeKept(fs', run[1..], i);
    }
  }

  lemma OutcomeStep(fs: Frames, e: Event, i: nat)
    requires Inv(fs) && Enabled(fs, e) && IsCall(fs, i) && fs[i].begun && !fs[i].adapter.Pending? && !fs[i].continuation.Calling?
    ensures IsCall(Apply(fs, e), i)
    ensures var f := Apply(fs, e)[i]; f.adapter == fs[i].adapter && f.begun && !f.continuation.Calling?
  {
    hide CallOk;
    if !About(e, i) { OthersKeep(fs, e, i); }
  }

  lemma Grow(run: seq<Event>, e: Event)
    requires Legal(Start(), run) && Enabled(After(Start(), run), e)
    ensures Legal(Start(), run + [e]) && After(Start(), run + [e]) == Apply(After(Start(), run), e)
  {
    hide Inv, Apply, Enabled, Start;
    Split(Start(), run, [e]);
    OneStep(After(Start(), run), e);
  }

  function EarlySettlement(): seq<Event> {
    [OpenCall(0), Invoke(1), SyncReturn(1), RunStart(1), AdapterSettles(1, Success), CallbackFulfils(1), Conclude(1)]
  }

  /** The root and its one savepoint call, whose callback runs. */
  function RunningCall(): Frames {
    [Frame(0, Running, true, Pending, Calling, false, false, Open, 0, false),
     Frame(0, Running, true, Pending, Waiting, false, false, Open, 1, false)]
  }

  lemma EarlySettlementStarts()
    ensures var run := [OpenCall(0), Invoke(1), SyncReturn(1), RunStart(1)];
      Legal(Start(), run) && After(Start(), run) == RunningCall()
  {
    var root, f := Start()[0], Frame(0, NotInvoked, false, Pending, Calling, false, false, Open, 0, false);
    var r1 := [] + [OpenCall(0)];
    Grow([], OpenCall(0));
    hide Legal, After, Tree;
    var r2 := r1 + [Invoke(1)];
    assert After(Start(), r1) == [root, f];
    Grow(r1, Invoke(1));
    var r3 := r2 + [SyncReturn(1)];
    assert After(Start(), r2) == [root, f.(callback := Admitted, invocations := 1)];
    Grow(r2, SyncReturn(1));
    assert After(Start(), r3) == [root, f.(callback := Admitted, invocations := 1, continuation := Waiting)];
    Grow(r3, RunStart(1));
    assert After(Start(), r3 + [RunStart(1)]) == RunningCall();
    assert r3 + [RunStart(1)] == [OpenCall(0), Invoke(1), SyncReturn(1), RunStart(1)];
  }

  /** "An adapter that settles before the callback is found out" is false: here the adapter reports
      success while the callback runs, the frame is released, and the root can still commit. */
  lemma EarlySettlementIsReleased()
    ensures var run := EarlySettlement();
      && Legal(Start(), run[..4]) && After(Start(), run[..4])[1].callback.Running? && run[4] == AdapterSettles(1, Success)
      && Legal(Start(), run) && !ViolatedIn(run, 1)
      && After(Start(), run)[1].verdict.Released? && Enabled(After(Start(), run), CallbackFulfils(0))
  {
    hide Legal, After, ViolatedIn, Tree, Start;
    EarlySettlementStarts();
    var r4, root, g := [OpenCall(0), Invoke(1), SyncReturn(1), RunStart(1)], RunningCall()[0], RunningCall()[1];
    var r5 := r4 + [AdapterSettles(1, Success)];
    Grow(r4, AdapterSettles(1, Success));
    var r6 := r5 + [CallbackFulfils(1)];
    assert After(Start(), r5) == [root, g.(adapter := Success)];
    Grow(r5, CallbackFulfils(1));
    var run := r6 + [Conclude(1)];
    assert After(Start(), r6) == [root, g.(adapter := Success, callback := Fulfilled)];
    Grow(r6, Conclude(1));
    assert After(Start(), run) == [root, g.(adapter := Success, callback := Fulfilled, verdict := Released)];
    ViolationsAreNoticed(run, 1);
    assert run == EarlySettlement() && run[..4] == r4;
  }

  // ---------------------------------------------------------------- a call that ends before its callback

  /** Exactly when a call does not wait for its callback: it goes on, and ends although the callback
      runs, if and only if the adapter reported success and invoked the callback more than once. */
  lemma CallEndsBeforeCallback(run: seq<Event>, i: nat)
    requires Legal(Start(), run) && Enabled(After(Start(), run), Conclude(i))
    ensures var fs := After(Start(), run); var f' := Apply(fs, Conclude(i))[i];
      !f'.verdict.Open? && f'.callback.Running?
      <==> fs[i].callback.Running? && AdapterSettles(i, Success) in run && multiset(run)[Invoke(i)] > 1
  {
    RunRemembers(run);
    hide Legal, After, Start, LinePoisoned, Line;
    assert CallOk(After(Start(), run), i);
  }

  /** A released or rolled back frame has no open calls in it. An open call in an ended frame is one that
      its parent's callback opened and that outlived the parent's call, which ended unconfirmed. */
  lemma OpenCallsOfEndedFrames(run: seq<Event>, j: nat)
    requires Legal(Start(), run) && IsCall(After(Start(), run), j) && After(Start(), run)[j].verdict.Open?
    ensures var fs := After(Start(), run); var p := fs[j].parent;
      p < j && fs[p].callback.Running? && (p > 0 && !fs[p].verdict.Open? ==> fs[p].verdict.Unconfirmed?)
  {
    var fs := After(Start(), run);
    assert CallOk(fs, j);
    if fs[j].parent > 0 { assert CallOk(fs, fs[j].parent); }
  }

  function OutlivedCall(): seq<Event> {
    [OpenCall(0), Invoke(1), SyncReturn(1), RunStart(1)]
    + [OpenCall(1), Invoke(2), SyncReturn(2), RunStart(2)]
    + [Invoke(1), AdapterSettles(1, Success), Conclude(1)]
    + [CallbackFulfils(2), AdapterSettles(2, Success), Conclude(2)]
  }

  /** Call 1 ends while its callback runs, because the adapter invoked it again; call 2, made by that
      callback, is released into the ended frame afterwards. */
  lemma ReleasedIntoEndedFrame()
    ensures Legal(Start(), OutlivedCall())
    ensures var fs := After(Start(), OutlivedCall());
      |fs| == 3 && fs[1].verdict.Unconfirmed? && fs[1].callback.Running? && fs[2].parent == 1 && fs[2].verdict.Released?
  {
    hide Legal, After, Tree, Start;
    EarlySettlementStarts();
    var r4 := [OpenCall(0), Invoke(1), SyncReturn(1), RunStart(1)];
    SecondCallStarts(r4);
    var r8 := r4 + [OpenCall(1), Invoke(2), SyncReturn(2), RunStart(2)];
    FirstCallEnds(r8);
    var r11 := r8 + [Invoke(1), AdapterSettles(1, Success), Conclude(1)];
    SecondCallEnds(r11);
  }

  /** The second call inside the first, both with their callbacks running. */
  function TwoRunning(): Frames {
    RunningCall() + [Frame(1, Running, true, Pending, Waiting, false, false, Open, 1, false)]
  }

  /** The first call has ended on a second invocation of its callback. */
  function FirstEnded(): Frames {
    [Frame(0, Running, true, Pending, Calling, false, true, Open, 0, false),
     Frame(0, Running, true, Success, Waiting, true, false, Unconfirmed, 2, true),
     Frame(1, Running, true, Pending, Waiting, false, false, Open, 1, false)]
  }

  lemma SecondCallStarts(run: seq<Event>)
    requires Legal(Start(), run) && After(Start(), run) == RunningCall()
    ensures var run' := run + [OpenCall(1), Invoke(2), SyncReturn(2), RunStart(2)];
      Legal(Start(), run') && After(Start(), run') == TwoRunning()
  {
    hide Legal, After, Tree, Start;
    var root, f, g := RunningCall()[0], RunningCall()[1], Frame(1, NotInvoked, false, Pending, Calling, false, false, Open, 0, false);
    Grow(run, OpenCall(1));
    var r1 := run + [OpenCall(1)];
    assert After(Start(), r1) == [root, f, g];
    Grow(r1, Invoke(2));
    var r2 := r1 + [Invoke(2)];
    assert After(Start(), r2) == [root, f, g.(callback := Admitted, invocations := 1)];
    Grow(r2, SyncReturn(2));
    var r3 := r2 + [SyncReturn(2)];
    assert After(Start(), r3) == [root, f, g.(callback := Admitted, invocations := 1, continuation := Waiting)];
    Grow(r3, RunStart(2));
    assert After(Start(), r3 + [RunStart(2)]) == TwoRunning();
    assert r3 + [RunStart(2)] == run + [OpenCall(1), Invoke(2), SyncReturn(2), RunStart(2)];
  }

  lemma FirstCallEnds(run: seq<Event>)
    requires Legal(Start(), run) && After(Start(), run) == TwoRunning()
    ensures var run' := run + [Invoke(1), AdapterSettles(1, Success), Conclude(1)];
      Legal(Start(), run') && After(Start(), run') == FirstEnded()
  {
    hide Legal, After, Start;
    var root, f, g := FirstEnded()[0], FirstEnded()[1], FirstEnded()[2];
    Grow(run, Invoke(1));
    var r1 := run + [Invoke(1)];
    assert After(Start(), r1) == [root, f.(adapter := Pending, verdict := Open), g];
    Grow(r1, AdapterSettles(1, Success));
    var r2 := r1 + [AdapterSettles(1, Success)];
    assert After(Start(), r2) == [root, f.(verdict := Open), g];
    Grow(r2, Conclude(1));
    assert After(Start(), r2 + [Conclude(1)]) == FirstEnded();
    assert r2 + [Conclude(1)] == run + [Invoke(1), AdapterSettles(1, Success), Conclude(1)];
  }

  lemma SecondCallEnds(run: seq<Event>)
    requires Legal(Start(), run) && After(Start(), run) == FirstEnded()
    ensures var run' := run + [CallbackFulfils(2), AdapterSettles(2, Success), Conclude(2)];
      && Legal(Start(), run')
      && After(Start(), run') == FirstEnded()[2 := FirstEnded()[2].(callback := Fulfilled, adapter := Success, verdict := Released)]
  {
    hide Legal, After, Tree, Start;
    var root, f, g := FirstEnded()[0], FirstEnded()[1], FirstEnded()[2];
    Grow(run, CallbackFulfils(2));
    var r1 := run + [CallbackFulfils(2)];
    assert After(Start(), r1) == [root, f, g.(callback := Fulfilled)];
    Grow(r1, AdapterSettles(2, Success));
    var r2 := r1 + [AdapterSettles(2, Success)];
    assert After(Start(), r2) == [root, f, g.(callback := Fulfilled, adapter := Success)];
    Grow(r2, Conclude(2));
    assert r2 + [Conclude(2)] == run + [CallbackFulfils(2), AdapterSettles(2, Success), Conclude(2)];
  }
}
