/** Failed savepoints on the SQLite store, over many transactions. */
module SavepointErrors {
  import opened Epochs
  import T = TransactionFrames

  // Transactions of other stores in the process may mark errors at any time. A savepoint whose
  // rollback fails rejects with a new error that carries a mark, and its transaction cannot commit.
  // A savepoint that was rolled back rejects with the very error its callback threw, and leaves the
  // mark on it as it is; the context closes the frame as unconfirmed when the error is marked.
  // Errors are objects, known by their numbers; the application may keep one and throw it again
  // later.

  /** `doomed`: a savepoint rollback of this transaction failed. `foreign` and `reused` are history: the
      errors marked outside the transaction, and whether it threw one of them in a savepoint that was
      then rolled back. */
  datatype World = World(tx: T.State, marked: set<nat>, doomed: bool, foreign: set<nat>, reused: bool)

  datatype Event =
    | Within(e: T.Event)
    | Fails(f: nat, thrown: nat, undone: bool, made: nat)
    | MarkedElsewhere(error: nat)
    | BeginNext

  /** Other steps of a transaction than closing a savepoint that failed. */
  predicate Plain(e: T.Event) { !e.FailFrame? && (e.RollBackFrame? ==> e.f == 0) }

  ghost predicate Enabled(w: World, e: Event) {
    match e
    case Within(e) => Plain(e) && T.Enabled(w.tx, e) && (e.CommitRoot? ==> !w.doomed && !w.tx.frames[0].rollbackOnly)
    case Fails(f, _, _, made) => f > 0 && T.Enabled(w.tx, T.RollBackFrame(f)) && T.Enabled(w.tx, T.FailFrame(f, false)) && made !in w.marked
    case MarkedElsewhere(_) => true
    case BeginNext => |w.tx.frames| > 0 && !w.tx.frames[0].status.Open?
  }

  /** What the savepoint call rejects with. */
  function Rejection(e: Event): nat
    requires e.Fails?
  {
    if e.undone then e.thrown else e.made
  }

  function Marked(w: World, e: Event): set<nat>
    requires e.Fails?
  {
    if e.undone then w.marked else w.marked + {e.made}
  }

  function Closing(w: World, e: Event): T.Event
    requires e.Fails?
  {
    if Rejection(e) in Marked(w, e) then T.FailFrame(e.f, false) else T.RollBackFrame(e.f)
  }

  ghost function Apply(w: World, e: Event): World
    requires Enabled(w, e)
  {
    match e
    case Within(e) => w.(tx := T.Apply(w.tx, e))
    case Fails(f, thrown, undone, made) =>
      World(T.Apply(w.tx, Closing(w, e)), Marked(w, e), w.doomed || !undone, w.foreign, w.reused || (undone && thrown in w.foreign))
    case MarkedElsewhere(x) => w.(marked := w.marked + {x}, foreign := w.foreign + {x})
    case BeginNext => World(T.Start(), w.marked, false, w.marked, false)
  }

  ghost function First(): World { World(T.Start(), {}, false, {}, false) }

  ghost predicate Unconfirmed(s: T.State) { exists f: nat :: f < |s.frames| && s.frames[f].status.Failed? }

  /** Only a doomed transaction marks errors, so in others all marked ones come from outside. */
  ghost predicate Inv(w: World) {
    && T.Inv(w.tx) && T.TasksWereAsked(w.tx)
    && (!w.doomed ==> w.marked == w.foreign && (Unconfirmed(w.tx) <==> w.reused))
  }

  ghost predicate Commits(w: World) { Enabled(w, Within(T.CommitRoot)) }

  // ---------------------------------------------------------------- every step keeps it

  lemma PlainKeepsUnconfirmed(s: T.State, e: T.Event)
    requires T.Inv(s) && T.Enabled(s, e) && Plain(e)
    ensures Unconfirmed(T.Apply(s, e)) <==> Unconfirmed(s)
  {
    var s' := T.Apply(s, e);
    assert |s'.frames| >= |s.frames| && forall f :: 0 <= f < |s.frames| ==> (s'.frames[f].status.Failed? <==> s.frames[f].status.Failed?);
    assert forall f :: |s.frames| <= f < |s'.frames| ==> s'.frames[f].status.Open?;
    hide T.Inv, T.Enabled, T.Apply;
    if Unconfirmed(s) {
      var f: nat :| f < |s.frames| && s.frames[f].status.Failed?;
      assert s'.frames[f].status.Failed?;
    }
  }

  lemma ClosingUnconfirms(s: T.State, f: nat, e: T.Event)
    requires T.Inv(s) && f > 0 && T.Enabled(s, T.FailFrame(f, false)) && T.Enabled(s, T.RollBackFrame(f)) && (e == T.FailFrame(f, false) || e == T.RollBackFrame(f))
    ensures T.Enabled(s, e) && (Unconfirmed(T.Apply(s, e)) <==> Unconfirmed(s) || e.FailFrame?)
  {
    hide T.Inv;
    var s' := T.Apply(s, e);
    assert |s'.frames| == |s.frames| && s'.frames[f].status == if e.FailFrame? then T.Failed else T.RolledBack;
    assert forall g :: 0 <= g < |s.frames| && g != f ==> s'.frames[g].status == s.frames[g].status;
    if Unconfirmed(s) {
      var g: nat :| g < |s.frames| && s.frames[g].status.Failed?;
      assert g != f && s'.frames[g].status.Failed?;
    }
  }

  lemma StartIsConfirmed()
    ensures T.Inv(T.Start()) && T.TasksWereAsked(T.Start()) && !Unconfirmed(T.Start())
  {
    T.StartInv();
  }

  lemma {:induction false} StepKeepsInv(w: World, e: Event)
    requires Inv(w) && Enabled(w, e)
    ensures Inv(Apply(w, e))
  {
    hide T.Inv, T.Enabled, T.Apply, T.TasksWereAsked, Unconfirmed, T.Start;
    match e
    case Within(e) =>
      T.StepKeepsInv(w.tx, e);
      T.AskedStep(w.tx, e);
      PlainKeepsUnconfirmed(w.tx, e);
    case Fails(f, thrown, undone, made) =>
      ClosingUnconfirms(w.tx, f, Closing(w, e));
      T.StepKeepsInv(w.tx, Closing(w, e));
      T.AskedStep(w.tx, Closing(w, e));
    case MarkedElsewhere(_) => {}
    case BeginNext => StartIsConfirmed();
  }

  ghost predicate Legal(w: World, run: seq<Event>)
    decreases |run|
  {
    run == [] || (Enabled(w, run[0]) && Legal(Apply(w, run[0]), run[1..]))
  }

  ghost function After(w: World, run: seq<Event>): World
    requires Legal(w, run)
    decreases |run|
  {
    if run == [] then w else After(Apply(w, run[0]), run[1..])
  }

  lemma {:induction false} RunKeepsInv(w: World, run: seq<Event>)
    requires Inv(w) && Legal(w, run)
    ensures Inv(After(w, run))
    decreases |run|
  {
    hide Inv, Apply, Enabled;
    if run != [] {
      StepKeepsInv(w, run[0]);
      RunKeepsInv(Apply(w, run[0]), run[1..]);
    }
  }

  // ---------------------------------------------------------------- what is lost, and when

  /** A savepoint whose callback failed ends rolled back exactly if its rollback was done and the error it
      rejects with carries no mark, and otherwise unconfirmed; an undone rollback leaves the error unmarked. */
  lemma FailedSavepointIsUnconfirmedIff(w: World, e: Event)
    requires Enabled(w, e) && e.Fails?
    ensures Apply(w, e).tx.frames[e.f].status == if e.undone && e.thrown !in w.marked then T.RolledBack else T.Failed
    ensures Apply(w, e).marked == if e.undone then w.marked else w.marked + {e.made}
    ensures !e.undone ==> !Commits(Apply(w, e))
  {
  }

  /** A transaction that may commit contains an unconfirmed savepoint if and only if a callback of it
      threw an error that had been marked outside it. */
  lemma UnconfirmedIffErrorReused(run: seq<Event>)
    requires Legal(First(), run) && Commits(After(First(), run))
    ensures var w := After(First(), run); Unconfirmed(w.tx) <==> w.reused
  {
    StartIsConfirmed();
    hide T.Inv;
    RunKeepsInv(First(), run);
  }

  /** If no savepoint callback of the transaction throws an error that was marked outside it, the
      keys evicted at its commit are exactly those invalidated in surviving frames, each by one task. */
  lemma KeysAreEvictedUnlessErrorReused(run: seq<Event>, k: Key)
    requires Legal(First(), run) && Commits(After(First(), run)) && !After(First(), run).reused
    ensures T.Inv(After(First(), run).tx)
    ensures var s := After(First(), run).tx;
      var ran := T.Apply(s, T.CommitRoot).ranCommit;
      && (T.AskedBySurvivor(s, k) <==> exists t :: T.Evicts(s, ran, t, k))
      && (forall t, t' :: T.Evicts(s, ran, t, k) && T.Evicts(s, ran, t', k) ==> t == t')
  {
    StartIsConfirmed();
    RunKeepsInv(First(), run);
    hide Legal, After;
    T.EvictsTheSurvivorsKeys(After(First(), run).tx, k);
  }

  /** The first transaction marks error 1 and is rolled back. In the second a savepoint invalidates k
      and throws error 1; the root then invalidates k too. */
  function ReuseRun(k: Key): seq<Event> {
    [Within(T.OpenFrame(0)), Fails(1, 0, false, 1), Within(T.RollBackFrame(0)), BeginNext,
     Within(T.OpenFrame(0)), Within(T.Invalidate(1, k)), Fails(1, 1, true, 2), Within(T.Invalidate(0, k))]
  }

  lemma Before(w: World, e: Event, rest: seq<Event>)
    requires Enabled(w, e) && Legal(Apply(w, e), rest)
    ensures Legal(w, [e] + rest) && After(w, [e] + rest) == After(Apply(w, e), rest)
  {
    hide Enabled, Apply;
    assert ([e] + rest)[1..] == rest;
  }

  /** The first transaction ends with error 1 marked. */
  lemma FirstTransaction(k: Key, rest: seq<Event>)
    requires Legal(World(T.Start(), {1}, false, {1}, false), rest)
    ensures var run := [Within(T.OpenFrame(0)), Fails(1, 0, false, 1), Within(T.RollBackFrame(0)), BeginNext] + rest;
      Legal(First(), run) && After(First(), run) == After(World(T.Start(), {1}, false, {1}, false), rest)
  {
    hide Legal, After;
    T.LossStep(k, 0);
    var w1 := Apply(First(), Within(T.OpenFrame(0)));
    var w2 := Apply(w1, Fails(1, 0, false, 1));
    assert w2.marked == {1};
    var w3 := Apply(w2, Within(T.RollBackFrame(0)));
    Before(w3, BeginNext, rest);
    Before(w2, Within(T.RollBackFrame(0)), [BeginNext] + rest);
    Before(w1, Fails(1, 0, false, 1), [Within(T.RollBackFrame(0))] + ([BeginNext] + rest));
    Before(First(), Within(T.OpenFrame(0)), [Fails(1, 0, false, 1)] + ([Within(T.RollBackFrame(0))] + ([BeginNext] + rest)));
    assert [Within(T.OpenFrame(0))] + ([Fails(1, 0, false, 1)] + ([Within(T.RollBackFrame(0))] + ([BeginNext] + rest)))
        == [Within(T.OpenFrame(0)), Fails(1, 0, false, 1), Within(T.RollBackFrame(0)), BeginNext] + rest;
  }

  function SecondRun(k: Key): seq<Event> {
    [Within(T.OpenFrame(0)), Within(T.Invalidate(1, k)), Fails(1, 1, true, 2), Within(T.Invalidate(0, k))]
  }

  lemma LossMayRollBack(k: Key)
    ensures T.Enabled(T.LossState(k, 2), T.RollBackFrame(1))
  {
  }

  lemma SecondTransaction(k: Key)
    ensures var w := World(T.Start(), {1}, false, {1}, false);
      Legal(w, SecondRun(k)) && After(w, SecondRun(k)) == World(T.LossState(k, 4), {1}, false, {1}, true)
  {
    LossMayRollBack(k);
    hide T.Enabled, T.Apply, T.Start;
    T.LossStep(k, 0);
    T.LossStep(k, 1);
    T.LossStep(k, 2);
    T.LossStep(k, 3);
    assert T.LossState(k, 0) == T.Start();
    hide T.LossState;
    var w0, w1 := World(T.Start(), {1}, false, {1}, false), World(T.LossState(k, 1), {1}, false, {1}, false);
    var w2, w3 := w1.(tx := T.LossState(k, 2)), World(T.LossState(k, 3), {1}, false, {1}, true);
    var e0, e1, e2, e3 := Within(T.OpenFrame(0)), Within(T.Invalidate(1, k)), Fails(1, 1, true, 2), Within(T.Invalidate(0, k));
    Before(w3, e3, []);
    Before(w2, e2, [e3]);
    Before(w1, e1, [e2, e3]);
    Before(w0, e0, [e1, e2, e3]);
    assert [e3] + [] == [e3] && [e2] + [e3] == [e2, e3] && [e1] + [e2, e3] == [e1, e2, e3] && [e0] + [e1, e2, e3] == SecondRun(k);
  }

  /** With a reused error the key can be lost: the surviving root asked for it, the transaction may
      commit, and no task evicts it. */
  lemma ReusedErrorLosesInvalidation(k: Key)
    ensures Legal(First(), ReuseRun(k)) && Commits(After(First(), ReuseRun(k))) && T.Inv(After(First(), ReuseRun(k)).tx)
    ensures var s := After(First(), ReuseRun(k)).tx;
      T.AskedBySurvivor(s, k) && !exists t :: T.Evicts(s, T.Apply(s, T.CommitRoot).ranCommit, t, k)
  {
    SecondTransaction(k);
    FirstTransaction(k, SecondRun(k));
    assert [Within(T.OpenFrame(0)), Fails(1, 0, false, 1), Within(T.RollBackFrame(0)), BeginNext] + SecondRun(k) == ReuseRun(k);
    T.LossPrefix(k, 4);
    hide Legal, After;
    hide T.Inv;
    assert T.Survives(T.LossState(k, 4).frames, 0) && (0, k) in T.LossState(k, 4).asked;
  }
}
