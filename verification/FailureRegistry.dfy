/** The registry of cache keys whose invalidation failed; reads of such a key bypass the cache. Both
    of its collections are bounded. When the failures overflow, a new generation poisons every key,
    and only a key that recovered in that generation may be read again. */
module FailureRegistry {
  import opened OrderedMaps
  import opened Epochs

  /** The WeakMap holds no entry for a cache without failures: NoEntry. */
  datatype Failures =
    | NoEntry
    | Failures(failures: set<Key>, poisonGeneration: nat, recovered: OrderedMap<Key, nat>)
  {
    /** hasCacheInvalidationFailure */
    predicate Reported(k: Key) {
      && Failures?
      && (k in failures || (poisonGeneration > 0 && !(recovered.Has(k) && recovered.entries[k] == poisonGeneration)))
    }

    function OrEmpty(): Failures { if NoEntry? then Failures({}, 0, Empty()) else this }

    /** The failure was not recorded as a new generation because the counter is exhausted. */
    predicate MarkThrows(limit: nat, k: Key) {
      var s := OrEmpty();
      |s.failures + {k}| > limit && s.poisonGeneration >= MAX_SAFE_INTEGER
    }

    function Mark(limit: nat, k: Key): Failures {
      var s := OrEmpty();
      if |s.failures + {k}| <= limit || MarkThrows(limit, k) then Failures(s.failures + {k}, s.poisonGeneration, s.recovered.Delete(k))
      else Failures({}, s.poisonGeneration + 1, Empty())
    }

    function Clear(limit: nat, k: Key): Failures {
      if NoEntry? then NoEntry
      else if poisonGeneration > 0 then
        Failures(failures - {k}, poisonGeneration, Trim(recovered.SetLast(k, poisonGeneration), limit))
      else if failures - {k} == {} then NoEntry
      else this.(failures := failures - {k})
    }

    ghost predicate Valid(limit: nat) {
      Failures? ==>
        && recovered.Valid()
        && recovered.Size() <= limit
        && poisonGeneration <= MAX_SAFE_INTEGER
        && (|failures| <= limit || poisonGeneration == MAX_SAFE_INTEGER)
    }
  }

  /** The oldest recovered keys are forgotten until the map is within its limit. */
  function Trim(m: OrderedMap<Key, nat>, limit: nat): OrderedMap<Key, nat> {
    if m.Size() <= limit then m else m.Delete(m.order[0])
  }

  // ---------------------------------------------------------------- the registry in place

  class FailureTable {
    const limit: nat
    var present: bool
    var failures: set<Key>
    var poisonGeneration: nat
    var recovered: OrderedMap<Key, nat>

    constructor (limit: nat)
      requires limit >= 1
      ensures Valid() && this.limit == limit && Value() == NoEntry
    {
      this.limit := limit;
      present, failures, poisonGeneration, recovered := false, {}, 0, Empty();
    }

    function Value(): Failures
      reads this
    {
      if present then Failures(failures, poisonGeneration, recovered) else NoEntry
    }

    ghost predicate Valid()
      reads this
    {
      limit >= 1 && Value().Valid(limit)
    }

    method HasFailure(k: Key) returns (reported: bool)
      ensures reported == Value().Reported(k)
    {
      if !present { return false; }
      if k in failures { return true; }
      reported := poisonGeneration > 0 && !(recovered.Has(k) && recovered.entries[k] == poisonGeneration);
    }

    method Mark(k: Key) returns (thrown: bool)
      requires Valid()
      modifies this
      ensures Valid()
      ensures thrown == old(Value()).MarkThrows(limit, k)
      ensures Value() == old(Value()).Mark(limit, k)
    {
      MarkIsValid(Value(), limit, k);
      if !present { present, failures, poisonGeneration, recovered := true, {}, 0, Empty(); }
      failures := failures + {k};
      recovered := recovered.Delete(k);
      if |failures| <= limit { return false; }
      if poisonGeneration >= MAX_SAFE_INTEGER { return true; }
      poisonGeneration := poisonGeneration + 1;
      failures := {};
      recovered := Empty();
      return false;
    }

    method Clear(k: Key)
      requires Valid()
      modifies this
      ensures Valid()
      ensures Value() == old(Value()).Clear(limit, k)
    {
      ClearIsValid(Value(), limit, k);
      if !present { return; }
      failures := failures - {k};
      if poisonGeneration > 0 {
        recovered.DeleteValid(k);
        recovered.SetLastValid(k, poisonGeneration);
        recovered := recovered.Delete(k);
        recovered := recovered.Set(k, poisonGeneration);
        ghost var full := recovered;
        while recovered.Size() > limit
          invariant recovered.Valid() && recovered.Size() <= limit + 1
          invariant recovered == if recovered.Size() > limit then full else Trim(full, limit)
          invariant present == old(present) && failures == old(failures) - {k} && poisonGeneration == old(poisonGeneration)
          decreases recovered.Size()
        {
          recovered.DeleteValid(recovered.order[0]);
          recovered := recovered.Delete(recovered.order[0]);
        }
        return;
      }
      if failures == {} { present := false; }
    }
  }

  // ---------------------------------------------------------------- runs

  lemma MarkIsValid(s: Failures, limit: nat, k: Key)
    requires s.Valid(limit)
    ensures s.Mark(limit, k).Valid(limit)
  {
    s.OrEmpty().recovered.DeleteValid(k);
  }

  lemma ClearIsValid(s: Failures, limit: nat, k: Key)
    requires s.Valid(limit) && limit >= 1
    ensures s.Clear(limit, k).Valid(limit)
  {
    hide Without, Distinct;
    if s.Failures? {
      var r := s.recovered.SetLast(k, s.poisonGeneration);
      s.recovered.SetLastValid(k, s.poisonGeneration);
      if r.Size() > limit { r.DeleteValid(r.order[0]); }
    }
  }

  datatype Op = MarkFailed(key: Key) | ClearFailed(key: Key)

  ghost function After(s: Failures, limit: nat, run: seq<Op>): Failures
    decreases |run|
  {
    if run == [] then s
    else
      var before := After(s, limit, run[..|run| - 1]);
      match run[|run| - 1]
      case MarkFailed(k) => before.Mark(limit, k)
      case ClearFailed(k) => before.Clear(limit, k)
  }

  /** The invalidation of k failed and nothing has cleared k since. */
  predicate FailedLast(run: seq<Op>, k: Key) {
    run != [] && (run[|run| - 1] == MarkFailed(k) || (run[|run| - 1] != ClearFailed(k) && FailedLast(run[..|run| - 1], k)))
  }

  /** Operations on other keys never hide a reported key; its own failure reports it. */
  lemma MarkReports(s: Failures, limit: nat, k: Key, q: Key)
    requires s.Valid(limit) && (k == q || s.Reported(q))
    ensures s.Mark(limit, k).Reported(q)
  {
  }

  lemma ClearOfOtherKey(s: Failures, limit: nat, k: Key, q: Key)
    requires s.Valid(limit) && limit >= 1 && k != q && s.Reported(q)
    ensures s.Clear(limit, k).Reported(q)
  {
    var r := s.recovered.SetLast(k, s.poisonGeneration);
  }

  /** A key whose invalidation failed and has not been cleared since is always reported as failed:
      through overflow of the failure set, new generations, eviction of recovered keys, and a
      failure that throws because the generations are exhausted. */
  lemma {:induction false} FailedKeysStayReported(limit: nat, run: seq<Op>, k: Key)
    requires limit >= 1
    ensures After(NoEntry, limit, run).Valid(limit)
    ensures FailedLast(run, k) ==> After(NoEntry, limit, run).Reported(k)
    decreases |run|
  {
    if run != [] {
      var before, last := run[..|run| - 1], run[|run| - 1];
      var s := After(NoEntry, limit, before);
      FailedKeysStayReported(limit, before, k);
      match last
      case MarkFailed(j) =>
        MarkIsValid(s, limit, j);
        if FailedLast(run, k) { MarkReports(s, limit, j, k); }
      case ClearFailed(j) =>
        ClearIsValid(s, limit, j);
        if FailedLast(run, k) { ClearOfOtherKey(s, limit, j, k); }
    }
  }

  /** Until the failures first overflow, exactly the failed keys are reported. */
  lemma {:induction false} ExactBeforeOverflow(limit: nat, run: seq<Op>, k: Key)
    requires limit >= 1
    requires var s := After(NoEntry, limit, run); s.Failures? ==> s.poisonGeneration == 0
    ensures After(NoEntry, limit, run).Reported(k) <==> FailedLast(run, k)
    decreases |run|
  {
    if run != [] {
      ExactBeforeOverflow(limit, run[..|run| - 1], k);
    }
  }

  /** A successful invalidation makes its own key readable again, at once and in any generation. */
  lemma ClearedKeyIsReadable(s: Failures, limit: nat, k: Key)
    requires s.Valid(limit) && limit >= 1
    ensures !s.Clear(limit, k).Reported(k)
  {
    hide Without, Distinct;
    if s.Failures? && s.poisonGeneration > 0 {
      var r := s.recovered.SetLast(k, s.poisonGeneration);
      s.recovered.SetLastValid(k, s.poisonGeneration);
      if r.Size() > limit {
        assert r.order[|r.order| - 1] == k;
        LastIsNotFirst(r.order);
      }
    }
  }

  ghost predicate Failing(run: seq<Op>, keys: set<Key>) {
    forall i :: 0 <= i < |run| && run[i].MarkFailed? ==> run[i].key in keys
  }

  /** While there is room, a mark adds its key and changes no generation, and it never throws. */
  lemma MarksWithinTheLimit(s: Failures, limit: nat, k: Key)
    requires s.Valid(limit) && |s.OrEmpty().failures + {k}| <= limit
    ensures !s.MarkThrows(limit, k)
    ensures var m := s.Mark(limit, k); m.Failures? && m.failures == s.OrEmpty().failures + {k} && m.poisonGeneration == s.OrEmpty().poisonGeneration
  {
  }

  /** The registry does not overflow before more keys than the limit have failed. */
  lemma {:induction false} NoEarlyOverflow(limit: nat, run: seq<Op>, keys: set<Key>)
    requires limit >= 1 && Failing(run, keys) && |keys| <= limit
    ensures var s := After(NoEntry, limit, run); s.Failures? ==> s.poisonGeneration == 0 && s.failures <= keys
    decreases |run|
  {
    if run != [] {
      var before, last := run[..|run| - 1], run[|run| - 1];
      NoEarlyOverflow(limit, before, keys);
      var s := After(NoEntry, limit, before);
      if last.MarkFailed? {
        assert last.key in keys;
        Fits(s.OrEmpty().failures + {last.key}, keys);
      }
    }
  }

  lemma {:induction false} Fits(a: set<Key>, b: set<Key>)
    requires a <= b
    ensures |a| <= |b|
  {
    if a != {} {
      var x :| x in a;
      Fits(a - {x}, b - {x});
    }
  }

  /** So with at most that many failing keys, exactly the keys whose last operation was a failure are
      reported. */
  lemma FewFailuresAreReportedExactly(limit: nat, run: seq<Op>, keys: set<Key>, k: Key)
    requires limit >= 1 && Failing(run, keys) && |keys| <= limit
    ensures After(NoEntry, limit, run).Reported(k) <==> FailedLast(run, k)
  {
    NoEarlyOverflow(limit, run, keys);
    ExactBeforeOverflow(limit, run, k);
  }
}
