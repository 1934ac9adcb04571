/** The transaction state of one frame as it is updated in place, proved against the functions on
    values that TransactionFrames reasons about, and the runner of deferred tasks. */
module TransactionStates {
  import opened Epochs
  import opened TransactionFrames

  class TransactionState {
    var internalAfterCommit: seq<nat>
    var afterCommit: seq<nat>
    var afterRollback: seq<nat>
    var cacheInvalidations: map<Key, nat>
    var closed: Status

    constructor ()
      ensures Value() == EmptyTx() && closed == Open
    {
      internalAfterCommit, afterCommit, afterRollback, cacheInvalidations, closed := [], [], [], map[], Open;
    }

    function Value(): Tx
      reads this
    {
      Tx(internalAfterCommit, afterCommit, afterRollback, cacheInvalidations)
    }

    /** invalidate() inside a transaction: one task per key and frame. */
    method Invalidate(k: Key, task: nat)
      modifies this`internalAfterCommit, this`cacheInvalidations
      ensures Value() == if k in old(cacheInvalidations) then old(Value()) else Add(old(Value()), Invalidation(k), task)
    {
      if k !in cacheInvalidations {
        cacheInvalidations := cacheInvalidations[k := task];
        internalAfterCommit := internalAfterCommit + [task];
      }
    }

    method ReleaseInto(parent: TransactionState)
      requires parent != this
      modifies parent, this`closed
      ensures parent.Value() == Release(old(parent.Value()), old(Value()))
      ensures closed == Released && parent.closed == old(parent.closed)
    {
      var childTasks, accepted := MergeInvalidationsInto(parent);
      InheritTasks(parent, childTasks, accepted, old(parent.Value()));
      parent.afterCommit := parent.afterCommit + afterCommit;
      parent.afterRollback := parent.afterRollback + afterRollback;
      closed := Released;
    }

    /** Pushes onto the parent the internal tasks that are not invalidations, or whose key was new to it. */
    method InheritTasks(parent: TransactionState, childTasks: set<nat>, accepted: set<nat>, ghost before: Tx)
      requires parent != this
      requires childTasks == cacheInvalidations.Values && forall t :: t in accepted <==> Accepted(before, Value(), t)
      modifies parent`internalAfterCommit
      ensures parent.internalAfterCommit == old(parent.internalAfterCommit) + Filter(internalAfterCommit, KeptTasks(before, Value()))
    {
      ghost var keep := KeptTasks(before, Value());
      var i := 0;
      while i < |internalAfterCommit|
        invariant 0 <= i <= |internalAfterCommit|
        invariant parent.internalAfterCommit == old(parent.internalAfterCommit) + Filter(internalAfterCommit[..i], keep)
      {
        var task := internalAfterCommit[i];
        FilterLast(internalAfterCommit[..i], task, keep);
        assert internalAfterCommit[..i] + [task] == internalAfterCommit[..i + 1];
        if task !in childTasks || task in accepted {
          parent.internalAfterCommit := parent.internalAfterCommit + [task];
        }
        i := i + 1;
      }
      assert internalAfterCommit[..i] == internalAfterCommit;
    }

    method FailInto(parent: TransactionState)
      requires parent != this
      modifies parent, this`closed
      ensures parent.Value() == Fail(old(parent.Value()), old(Value()))
      ensures closed == Failed && parent.closed == old(parent.closed)
    {
      closed := Failed;
      parent.afterRollback := parent.afterRollback + afterRollback;
      var _, _ := MergeInvalidationsInto(parent);
    }

    /** Records in the parent every key that is new to it; visits the keys in any order. */
    method MergeInvalidationsInto(parent: TransactionState) returns (childTasks: set<nat>, accepted: set<nat>)
      requires parent != this
      modifies parent`cacheInvalidations
      ensures parent.cacheInvalidations == cacheInvalidations + old(parent.cacheInvalidations)
      ensures childTasks == cacheInvalidations.Values
      ensures forall t :: t in accepted <==> Accepted(old(parent.Value()), Value(), t)
    {
      ghost var before := parent.Value();
      childTasks, accepted := {}, {};
      var todo := cacheInvalidations.Keys;
      while todo != {}
        invariant todo <= cacheInvalidations.Keys
        invariant parent.cacheInvalidations == (map k | k in cacheInvalidations && k !in todo :: cacheInvalidations[k]) + before.cacheInvalidations
        invariant forall t :: t in childTasks <==> exists k :: k in cacheInvalidations && k !in todo && cacheInvalidations[k] == t
        invariant forall t :: t in accepted <==>
          exists k :: k in cacheInvalidations && k !in todo && cacheInvalidations[k] == t && k !in before.cacheInvalidations
      {
        var k :| k in todo;
        todo := todo - {k};
        childTasks := childTasks + {cacheInvalidations[k]};
        if k !in parent.cacheInvalidations {
          parent.cacheInvalidations := parent.cacheInvalidations[k := cacheInvalidations[k]];
          accepted := accepted + {cacheInvalidations[k]};
        }
      }
    }
  }

  lemma {:induction false} FilterLast(xs: seq<nat>, x: nat, keep: nat -> bool)
    ensures Filter(xs + [x], keep) == Filter(xs, keep) + if keep(x) then [x] else []
  {
    if xs == [] {
      assert xs + [x] == [x] && [x][1..] == [];
    } else {
      FilterLast(xs[1..], x, keep);
      assert (xs + [x])[1..] == xs[1..] + [x];
    }
  }

  function Failing(failing: set<nat>): nat -> bool { (t: nat) => t in failing }

  /** Runs every task in order; a task that fails does not stop the ones after it. */
  method RunDeferredTasks(tasks: seq<nat>, failing: set<nat>) returns (ran: seq<nat>, errors: seq<nat>)
    ensures ran == tasks
    ensures errors == Filter(tasks, Failing(failing))
  {
    ran, errors := [], [];
    ghost var fails := Failing(failing);
    for i := 0 to |tasks|
      invariant ran == tasks[..i] && errors == Filter(tasks[..i], fails)
    {
      FilterLast(tasks[..i], tasks[i], fails);
      assert tasks[..i] + [tasks[i]] == tasks[..i + 1];
      ran := ran + [tasks[i]];
      if tasks[i] in failing { errors := errors + [tasks[i]]; }
    }
    assert tasks[..|tasks|] == tasks;
  }

  /** Internal tasks, then user tasks; the commit stands and all failures are reported together. */
  method RunAfterCommitTasks(state: TransactionState, failing: set<nat>) returns (ran: seq<nat>, errors: seq<nat>)
    ensures ran == state.internalAfterCommit + state.afterCommit
    ensures errors == Filter(ran, Failing(failing))
  {
    var internalRan, internalErrors := RunDeferredTasks(state.internalAfterCommit, failing);
    var userRan, userErrors := RunDeferredTasks(state.afterCommit, failing);
    ran, errors := internalRan + userRan, internalErrors + userErrors;
    FilterJoin(internalRan, userRan, Failing(failing));
  }

  lemma {:induction false} FilterJoin(xs: seq<nat>, ys: seq<nat>, keep: nat -> bool)
    ensures Filter(xs + ys, keep) == Filter(xs, keep) + Filter(ys, keep)
  {
    if xs == [] { assert xs + ys == ys; }
    else {
      FilterJoin(xs[1..], ys, keep);
      assert (xs + ys)[1..] == xs[1..] + ys && (xs + ys)[0] == xs[0];
      var first := if keep(xs[0]) then [xs[0]] else [];
      assert Filter(xs + ys, keep) == first + Filter(xs[1..] + ys, keep);
    }
  }
}
