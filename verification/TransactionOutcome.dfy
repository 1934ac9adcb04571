/** The attempts and the outcome of one root transaction call. */
module TransactionOutcome {
  // The store adapter runs the callback any number of times, one attempt after another, and then
  // settles. Which attempt is closed how, which deferred tasks run, and what the caller is told
  // about the outcome.

  datatype ErrorKind = CommittedError | RolledBackError | OtherError

  /** A thrown value, known by its identity; only objects are remembered as callback errors. */
  datatype Error = Error(id: nat, kind: ErrorKind, isObject: bool)

  predicate WellFormed(e: Error) { e.isObject || e.kind.OtherError? }

  datatype Closed = Open | Committed | RolledBack | Failed

  datatype Callback = Running | Fulfilled | Rejected

  /** `tasks` are the rollback tasks the attempt registered, in order. */
  datatype Attempt = Attempt(closed: Closed, callback: Callback, tasks: seq<nat>)

  datatype Outcome = NotCommitted | Unknown | CommittedOutcome

  datatype Phase = Checking | Calling | Done

  /** `ranCommit` lists the attempts whose commit tasks ran, `ranRollback` the rollback tasks run. */
  datatype State = State(
    phase: Phase,
    outcome: Outcome,
    attempts: seq<Attempt>,
    confirmed: bool,
    callbackErrors: set<Error>,
    ranCommit: seq<nat>,
    ranRollback: seq<nat>)

  const Start: State := State(Checking, NotCommitted, [], false, {}, [], [])

  datatype Event =
    | Refuse
    | CallStore
    | RunStart
    | Register(task: nat)
    | CallbackFulfils
    | CallbackRejects(error: Error)
    | Confirm
    | Resolve
    | Reject(error: Error)

  predicate Active(s: State) { s.attempts != [] && s.attempts[|s.attempts| - 1].callback.Running? }

  predicate Enabled(s: State, e: Event) {
    match e
    case Refuse => s.phase.Checking?
    case CallStore => s.phase.Checking?
    case RunStart => s.phase.Calling? && !Active(s)
    case Register(_) => s.phase.Calling? && Active(s)
    case CallbackFulfils => s.phase.Calling? && Active(s)
    case CallbackRejects(error) => s.phase.Calling? && Active(s) && WellFormed(error)
    case Confirm => s.phase.Calling?
    case Resolve => s.phase.Calling?
    case Reject(error) => s.phase.Calling? && WellFormed(error)
  }

  function SetLast(attempts: seq<Attempt>, a: Attempt): seq<Attempt>
    requires attempts != []
  {
    attempts[|attempts| - 1 := a]
  }

  function Last(attempts: seq<Attempt>): Attempt
    requires attempts != []
  {
    attempts[|attempts| - 1]
  }

  /** rollbackAttempt: does nothing when the attempt is already closed. */
  function RollBackLast(s: State): State
    requires s.attempts != []
  {
    if !Last(s.attempts).closed.Open? then s
    else s.(attempts := SetLast(s.attempts, Last(s.attempts).(closed := RolledBack)),
            ranRollback := s.ranRollback + Last(s.attempts).tasks)
  }

  function CommitLast(s: State): State {
    if s.attempts == [] then s
    else s.(attempts := SetLast(s.attempts, Last(s.attempts).(closed := Committed)), ranCommit := s.ranCommit + [|s.attempts| - 1])
  }

  /** The adapter's own error of that kind, not one the callback threw. */
  predicate Own(s: State, error: Error, kind: ErrorKind) { error.kind == kind && error !in s.callbackErrors }

  function Apply(s: State, e: Event): State
    requires Enabled(s, e)
  {
    match e
    case Refuse => s.(phase := Done)
    case CallStore => s.(phase := Calling, outcome := Unknown)
    case RunStart =>
      var r := if s.attempts == [] then s else RollBackLast(s);
      r.(confirmed := false, attempts := r.attempts + [Attempt(Open, Running, [])])
    case Register(t) => s.(attempts := SetLast(s.attempts, Last(s.attempts).(tasks := Last(s.attempts).tasks + [t])))
    case CallbackFulfils => s.(attempts := SetLast(s.attempts, Last(s.attempts).(callback := Fulfilled)))
    case CallbackRejects(error) =>
      s.(attempts := SetLast(s.attempts, Last(s.attempts).(callback := Rejected)),
         callbackErrors := if error.isObject then s.callbackErrors + {error} else s.callbackErrors)
    case Confirm => s.(confirmed := true)
    case Resolve =>
      if s.attempts == [] then s.(phase := Done)
      else CommitLast(s).(phase := Done, outcome := CommittedOutcome)
    case Reject(error) =>
      if Own(s, error, CommittedError) then CommitLast(s).(phase := Done, outcome := CommittedOutcome)
      else
        var rolledBack := s.confirmed || Own(s, error, RolledBackError);
        var r := s.(phase := Done, outcome := if rolledBack then NotCommitted else s.outcome);
        if s.attempts == [] then r
        else if rolledBack then RollBackLast(r)
        else if Last(s.attempts).closed.Open? then r.(attempts := SetLast(r.attempts, Last(r.attempts).(closed := Failed)))
        else r
  }

  predicate Legal(s: State, run: seq<Event>)
    decreases |run|
  {
    run == [] || (Enabled(s, run[0]) && Legal(Apply(s, run[0]), run[1..]))
  }

  function After(s: State, run: seq<Event>): State
    requires Legal(s, run)
    decreases |run|
  {
    if run == [] then s else After(Apply(s, run[0]), run[1..])
  }

  // ---------------------------------------------------------------- how attempts are closed

  /** The rollback tasks of the attempts that are closed as rolled back, attempt by attempt. */
  function RolledBackTasks(attempts: seq<Attempt>): seq<nat> {
    if attempts == [] then []
    else RolledBackTasks(attempts[..|attempts| - 1]) + if Last(attempts).closed.RolledBack? then Last(attempts).tasks else []
  }

  predicate Ending(s: State, a: Attempt) {
    match a.closed
    case Open => !s.phase.Done?
    case Committed => s.phase.Done? && s.outcome.CommittedOutcome?
    case RolledBack => s.phase.Done? && s.outcome.NotCommitted?
    case Failed => s.phase.Done? && s.outcome.Unknown?
  }

  predicate Inv(s: State) {
    && (s.phase.Checking? ==> s == Start)
    && (s.phase.Calling? ==> s.outcome.Unknown?)
    && (forall i :: 0 <= i < |s.attempts| - 1 ==> s.attempts[i].closed.RolledBack?)
    && (s.attempts != [] ==> Ending(s, Last(s.attempts)))
    && s.ranRollback == RolledBackTasks(s.attempts)
    && s.ranCommit == (if s.attempts != [] && Last(s.attempts).closed.Committed? then [|s.attempts| - 1] else [])
  }

  lemma SetLastTasks(attempts: seq<Attempt>, a: Attempt)
    requires attempts != []
    ensures SetLast(attempts, a)[..|attempts| - 1] == attempts[..|attempts| - 1]
    ensures Last(SetLast(attempts, a)) == a
  {
  }

  lemma NewAttemptTasks(attempts: seq<Attempt>, a: Attempt)
    requires !a.closed.RolledBack?
    ensures RolledBackTasks(attempts + [a]) == RolledBackTasks(attempts)
  {
    assert (attempts + [a])[..|attempts + [a]| - 1] == attempts;
  }

  lemma RunStartStep(s: State)
    requires Inv(s) && Enabled(s, RunStart)
    ensures Inv(Apply(s, RunStart))
  {
    var r := if s.attempts == [] then s else RollBackLast(s);
    if s.attempts != [] { SetLastTasks(s.attempts, Last(s.attempts).(closed := RolledBack)); }
    NewAttemptTasks(r.attempts, Attempt(Open, Running, []));
  }

  lemma CallbackStep(s: State, e: Event)
    requires Inv(s) && Enabled(s, e) && (e.Register? || e.CallbackFulfils? || e.CallbackRejects?)
    ensures Inv(Apply(s, e))
  {
    SetLastTasks(s.attempts, Last(Apply(s, e).attempts));
  }

  lemma SettleStep(s: State, e: Event)
    requires Inv(s) && Enabled(s, e) && (e.Resolve? || e.Reject?)
    ensures Inv(Apply(s, e))
  {
    if s.attempts != [] { SetLastTasks(s.attempts, Last(Apply(s, e).attempts)); }
  }

  lemma {:induction false} StepKeepsInv(s: State, e: Event)
    requires Inv(s) && Enabled(s, e)
    ensures Inv(Apply(s, e))
  {
    match e
    case RunStart => RunStartStep(s);
    case Resolve => SettleStep(s, e);
    case Reject(_) => SettleStep(s, e);
    case Register(_) => CallbackStep(s, e);
    case CallbackFulfils => CallbackStep(s, e);
    case CallbackRejects(_) => CallbackStep(s, e);
    case _ =>
  }

  lemma {:induction false} RunKeepsInv(s: State, run: seq<Event>)
    requires Inv(s) && Legal(s, run)
    ensures Inv(After(s, run))
    decreases |run|
  {
    if run != [] {
      StepKeepsInv(s, run[0]);
      RunKeepsInv(Apply(s, run[0]), run[1..]);
    }
  }

  /** Whatever the adapter does: at most one attempt is closed as committed and it is the last; every
      earlier one is closed as rolled back; the rollback tasks run are exactly those of the attempts
      closed as rolled back, once and in order; commit tasks run for the committed attempt only; and
      how the last attempt is closed agrees with the reported outcome. */
  lemma AttemptsCloseOnce(run: seq<Event>)
    requires Legal(Start, run)
    ensures var s := After(Start, run);
      && (forall i :: 0 <= i < |s.attempts| - 1 ==> s.attempts[i].closed.RolledBack?)
      && (forall i :: 0 <= i < |s.attempts| && s.attempts[i].closed.Committed? ==> i == |s.attempts| - 1)
      && s.ranRollback == RolledBackTasks(s.attempts)
      && s.ranCommit == (if s.attempts != [] && Last(s.attempts).closed.Committed? then [|s.attempts| - 1] else [])
      && (s.phase.Done? && s.attempts != [] ==>
            && (Last(s.attempts).closed.Committed? <==> s.outcome.CommittedOutcome?)
            && (Last(s.attempts).closed.RolledBack? <==> s.outcome.NotCommitted?)
            && (Last(s.attempts).closed.Failed? <==> s.outcome.Unknown?))
  {
    RunKeepsInv(Start, run);
  }

  // ---------------------------------------------------------------- what the outcome means for the run

  /** The adapter confirmed a rollback after it last started the callback. */
  predicate ConfirmedLast(run: seq<Event>) {
    run != [] && (run[|run| - 1].Confirm? || (!run[|run| - 1].RunStart? && ConfirmedLast(run[..|run| - 1])))
  }

  predicate ThrownByCallback(run: seq<Event>, error: Error) { CallbackRejects(error) in run }

  lemma {:induction false} AfterLast(s: State, run: seq<Event>)
    requires run != [] && Legal(s, run)
    ensures var before := run[..|run| - 1];
      Legal(s, before) && Enabled(After(s, before), run[|run| - 1]) && After(s, run) == Apply(After(s, before), run[|run| - 1])
    decreases |run|
  {
    if |run| > 1 {
      AfterLast(Apply(s, run[0]), run[1..]);
      assert run[1..][..|run| - 2] == run[..|run| - 1][1..];
    }
  }

  /** What the state remembers of the run that led to it. */
  ghost predicate Remembers(s: State, run: seq<Event>) {
    && s.confirmed == ConfirmedLast(run)
    && (forall error :: error in s.callbackErrors <==> error.isObject && ThrownByCallback(run, error))
    && (s.attempts == [] <==> RunStart !in run)
    && (s.phase.Checking? <==> run == [])
    && (s.phase.Calling? ==> CallStore in run && s.outcome.Unknown?)
  }

  /** What the run did in each attempt: the rollback tasks registered in it and how its callback ended. */
  datatype Story = Story(tasks: seq<nat>, callback: Callback)

  function Stories(run: seq<Event>): (stories: seq<Story>) {
    if run == [] then []
    else
      var before := Stories(run[..|run| - 1]);
      if run[|run| - 1].RunStart? then before + [Story([], Running)]
      else if before == [] then []
      else
        var now := before[|before| - 1];
        var now' :=
          match run[|run| - 1]
          case Register(t) => Story(now.tasks + [t], now.callback)
          case CallbackFulfils => now.(callback := Fulfilled)
          case CallbackRejects(_) => now.(callback := Rejected)
          case _ => now;
        before[..|before| - 1] + [now']
  }

  ghost predicate Tells(attempts: seq<Attempt>, stories: seq<Story>) {
    && |attempts| == |stories|
    && forall i :: 0 <= i < |attempts| ==> attempts[i].tasks == stories[i].tasks && attempts[i].callback == stories[i].callback
  }

  lemma OneMoreStory(before: seq<Event>, last: Event)
    ensures last.RunStart? ==> Stories(before + [last]) == Stories(before) + [Story([], Running)]
    ensures last.Refuse? || last.CallStore? || last.Confirm? || last.Resolve? || last.Reject? ==>
      Stories(before + [last]) == Stories(before)
  {
    assert (before + [last])[..|before|] == before;
    var stories := Stories(before);
    if stories != [] { assert stories[..|stories| - 1] + [stories[|stories| - 1]] == stories; }
  }

  lemma AttemptStoryStep(s: State, before: seq<Event>, last: Event)
    requires Tells(s.attempts, Stories(before)) && Enabled(s, last) && !(last.Register? || last.CallbackFulfils? || last.CallbackRejects?)
    ensures Tells(Apply(s, last).attempts, Stories(before + [last]))
  {
    OneMoreStory(before, last);
    hide Own, Stories;
  }

  lemma CallbackStoryStep(s: State, before: seq<Event>, last: Event)
    requires Tells(s.attempts, Stories(before)) && Enabled(s, last) && (last.Register? || last.CallbackFulfils? || last.CallbackRejects?)
    ensures Tells(Apply(s, last).attempts, Stories(before + [last]))
  {
    assert (before + [last])[..|before|] == before;
  }

  lemma StoryStep(s: State, before: seq<Event>, last: Event)
    requires Tells(s.attempts, Stories(before)) && Enabled(s, last)
    ensures Tells(Apply(s, last).attempts, Stories(before + [last]))
  {
    hide Tells, Apply, Enabled, Stories;
    if last.Register? || last.CallbackFulfils? || last.CallbackRejects? {
      CallbackStoryStep(s, before, last);
    } else {
      AttemptStoryStep(s, before, last);
    }
  }

  /** The attempts are the starts of the callback in the run, each with the tasks registered in it, in order,
      and with how its callback ended. */
  lemma {:induction false} AttemptsTellTheRun(run: seq<Event>)
    requires Legal(Start, run)
    ensures Tells(After(Start, run).attempts, Stories(run))
    decreases |run|
  {
    if run != [] {
      var before, last := run[..|run| - 1], run[|run| - 1];
      AfterLast(Start, run);
      AttemptsTellTheRun(before);
      assert run == before + [last];
      hide Tells, Apply, Enabled, Legal, After, Stories;
      StoryStep(After(Start, before), before, last);
    }
  }

  lemma OneMoreEvent(before: seq<Event>, last: Event)
    ensures forall e :: e in before + [last] <==> e in before || e == last
    ensures ConfirmedLast(before + [last]) <==> last.Confirm? || (!last.RunStart? && ConfirmedLast(before))
  {
    assert (before + [last])[..|before|] == before;
  }

  lemma RememberStep(s: State, before: seq<Event>, last: Event)
    requires Remembers(s, before) && Enabled(s, last)
    ensures Remembers(Apply(s, last), before + [last])
  {
    OneMoreEvent(before, last);
    hide ConfirmedLast, Legal;
  }

  lemma {:induction false} StateTellsTheRun(run: seq<Event>)
    requires Legal(Start, run)
    ensures Remembers(After(Start, run), run)
    decreases |run|
  {
    if run != [] {
      var before, last := run[..|run| - 1], run[|run| - 1];
      AfterLast(Start, run);
      StateTellsTheRun(before);
      assert run == before + [last];
      hide Remembers, Apply, Enabled, Legal, After;
      RememberStep(After(Start, before), before, last);
    }
  }

  /** transactionResult() reports "not_committed" if and only if the call was refused before the store
      transaction started, or the store rejected, not with its own committed error, and its rollback
      was confirmed: after the last start of the callback, or by its own rolled-back error. */
  lemma NotCommittedMeansNoCommit(run: seq<Event>)
    requires Legal(Start, run) && After(Start, run).phase.Done?
    ensures run != []
    ensures var last, before := run[|run| - 1], run[..|run| - 1];
      After(Start, run).outcome.NotCommitted? <==>
        || CallStore !in run
        || (&& last.Reject?
            && !(last.error.kind.CommittedError? && !ThrownByCallback(run, last.error))
            && (ConfirmedLast(before) || (last.error.kind.RolledBackError? && !ThrownByCallback(run, last.error))))
  {
    CallEnded(run);
    hide Legal, After, ConfirmedLast;
    var last, before := run[|run| - 1], run[..|run| - 1];
    assert last.Refuse? ==> before == [];
    assert CallStore in run <==> CallStore in before;
  }

  lemma EndedRunHasEvents(run: seq<Event>)
    requires Legal(Start, run) && After(Start, run).phase.Done?
    ensures run != []
  {
    hide Apply, Enabled;
  }

  /** The event that ended the call, and the state it ended. */
  lemma CallEnded(run: seq<Event>)
    requires Legal(Start, run) && After(Start, run).phase.Done?
    ensures run != []
    ensures var last, before := run[|run| - 1], run[..|run| - 1];
      && Legal(Start, before) && Remembers(After(Start, before), before) && Inv(After(Start, before))
      && Enabled(After(Start, before), last) && After(Start, run) == Apply(After(Start, before), last)
      && forall e :: e in run <==> e in before || e == last
  {
    assert Inv(Start);
    hide *;
    EndedRunHasEvents(run);
    AfterLast(Start, run);
    SplitAtLast(run);
    var before := run[..|run| - 1];
    StateTellsTheRun(before);
    RunKeepsInv(Start, before);
  }

  lemma SplitAtLast(run: seq<Event>)
    requires run != []
    ensures forall e :: e in run <==> e in run[..|run| - 1] || e == run[|run| - 1]
  {
    assert run == run[..|run| - 1] + [run[|run| - 1]];
  }

  /** It reports "committed" if and only if the store resolved after running the callback, or rejected
      with a committed error of its own. */
  lemma CommittedMeansStoreSaidSo(run: seq<Event>)
    requires Legal(Start, run) && After(Start, run).phase.Done?
    ensures run != []
    ensures var last := run[|run| - 1];
      After(Start, run).outcome.CommittedOutcome? <==>
        || (last.Resolve? && RunStart in run)
        || (last.Reject? && last.error.kind.CommittedError? && !ThrownByCallback(run, last.error))
  {
    CallEnded(run);
    hide Legal, After, ConfirmedLast;
  }

  /** So a callback that rejected does not keep the outcome from being "committed": here the store
      resolves after it, and the attempt's commit tasks run. */
  lemma CommittedAlthoughRejected(error: Error)
    requires WellFormed(error)
    ensures var run := [CallStore, RunStart, CallbackRejects(error), Resolve];
      Legal(Start, run) && After(Start, run).outcome.CommittedOutcome? && After(Start, run).ranCommit == [0]
      && After(Start, run).attempts == [Attempt(Committed, Rejected, [])]
  {
    var run := [CallStore, RunStart, CallbackRejects(error), Resolve];
    var s1 := Start.(phase := Calling, outcome := Unknown);
    var s2 := s1.(attempts := [Attempt(Open, Running, [])]);
    var s3 := s2.(attempts := [Attempt(Open, Rejected, [])], callbackErrors := if error.isObject then {error} else {});
    assert Apply(Start, CallStore) == s1 && Apply(s1, RunStart) == s2 && Apply(s2, CallbackRejects(error)) == s3;
    assert run[1..] == [RunStart, CallbackRejects(error), Resolve] && run[1..][1..] == [CallbackRejects(error), Resolve];
    assert run[1..][1..][1..] == [Resolve] && [Resolve][1..] == [];
    assert Legal(s3, [Resolve]) && After(s3, [Resolve]) == Apply(s3, Resolve);
    hide Apply;
    assert Legal(s2, run[1..][1..]) && After(s2, run[1..][1..]) == After(s3, [Resolve]);
    assert Legal(s1, run[1..]) && After(s1, run[1..]) == After(s2, run[1..][1..]);
  }

  /** The callback can be started, again and again, whenever the store has been called and no attempt is
      running, and registers and ends only while it runs. */
  lemma CallbackMayStartIff(run: seq<Event>, task: nat, error: Error)
    requires Legal(Start, run) && After(Start, run).phase.Calling?
    ensures var stories := Stories(run); var s := After(Start, run);
      && (Enabled(s, RunStart) <==> stories == [] || !stories[|stories| - 1].callback.Running?)
      && (Enabled(s, Register(task)) <==> stories != [] && stories[|stories| - 1].callback.Running?)
      && (Enabled(s, CallbackFulfils) <==> Enabled(s, Register(task)))
      && Enabled(s, Confirm) && Enabled(s, Resolve)
      && (error.isObject || error.kind.OtherError? ==>
            Enabled(s, Reject(error)) && (Enabled(s, CallbackRejects(error)) <==> Enabled(s, Register(task))))
  {
    AttemptsTellTheRun(run);
    hide Legal, After, Stories;
  }

  lemma PhaseStep(s: State, e: Event)
    requires Enabled(s, e)
    ensures Apply(s, e).phase.Done? <==> e.Refuse? || e.Resolve? || e.Reject?
    ensures !s.phase.Done?
  {
  }

  /** The call is over exactly when it was refused or the store has settled, and nothing happens afterwards. */
  lemma CallEndsWhenSettled(run: seq<Event>, e: Event)
    requires Legal(Start, run)
    ensures After(Start, run).phase.Done? <==> run != [] && (run[|run| - 1].Refuse? || run[|run| - 1].Resolve? || run[|run| - 1].Reject?)
    ensures After(Start, run).phase.Done? ==> !Enabled(After(Start, run), e)
  {
    if run != [] {
      AfterLast(Start, run);
      hide Legal, After, Apply, Enabled;
      PhaseStep(After(Start, run[..|run| - 1]), run[|run| - 1]);
    }
    hide Apply;
  }
}
