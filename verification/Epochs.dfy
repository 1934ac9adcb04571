/** The epoch registries. A reader captures the epoch of a key and later asks whether it is
    unchanged. Both registries keep at most `limit` keys and evict the oldest; an evicted key falls
    back to a default that is pushed past every epoch it ever had. */
module Epochs {
  import opened OrderedMaps

  const MAX_SAFE_INTEGER: nat := 9007199254740991

  /** A cache key; only its identity matters here. */
  datatype Key = Key(text: string)

  function Max(a: nat, b: nat): nat { if a < b then b else a }

  // ---------------------------------------------------------------- entity cache registry

  datatype Registry = Registry(epochs: OrderedMap<Key, nat>, defaultEpoch: nat) {
    ghost predicate Valid(limit: nat) {
      && epochs.Valid()
      && epochs.Size() <= limit
      && (forall k :: k in epochs.entries ==> epochs.entries[k] < MAX_SAFE_INTEGER)
      && defaultEpoch <= MAX_SAFE_INTEGER
    }

    function Epoch(k: Key): nat {
      if k in epochs.entries then epochs.entries[k] else defaultEpoch
    }

    predicate Exhausted(k: Key) { Epoch(k) >= MAX_SAFE_INTEGER - 1 }

    function EvictOldest(): Registry
      requires epochs.Size() > 0
    {
      var oldest := epochs.order[0];
      Registry(epochs.Delete(oldest), Max(defaultEpoch, Epoch(oldest) + 1))
    }

    /** The eviction loop: between bumps the registry is within its limit, so it runs at most once. */
    function Prune(limit: nat): Registry {
      if epochs.Size() <= limit then this else EvictOldest()
    }

    function Bump(limit: nat, k: Key): Registry {
      Registry(epochs.SetLast(k, Epoch(k) + 1), defaultEpoch).Prune(limit)
    }
  }

  function EmptyRegistry(): Registry { Registry(Empty(), 0) }

  ghost predicate NoneLower(r: Registry, r': Registry) {
    forall q :: r'.Epoch(q) >= r.Epoch(q)
  }

  lemma BumpUnpruned(r: Registry, limit: nat, k: Key)
    requires r.Valid(limit) && !r.Exhausted(k)
    ensures var s := Registry(r.epochs.SetLast(k, r.Epoch(k) + 1), r.defaultEpoch);
      && s.Valid(limit + 1) && NoneLower(r, s) && s.Epoch(k) == r.Epoch(k) + 1
      && k in s.epochs.entries && s.epochs.order == Without(r.epochs.order, k) + [k]
  {
    hide Without, Distinct;
    r.epochs.SetLastValid(k, r.Epoch(k) + 1);
  }

  lemma EvictOldestRaises(r: Registry, limit: nat)
    requires r.Valid(limit + 1) && r.epochs.Size() > 0
    ensures var r' := r.EvictOldest();
      && r'.Valid(limit) && NoneLower(r, r')
      && (forall q :: q != r.epochs.order[0] && q in r.epochs.entries ==> r'.Epoch(q) == r.Epoch(q))
  {
    hide Without, Distinct;
    r.epochs.DeleteValid(r.epochs.order[0]);
  }

  /** A bump raises the epoch of its key by exactly one, lowers nobody's epoch, and keeps the
      registry within its limit and the safe-integer range. */
  lemma BumpRaises(r: Registry, limit: nat, k: Key)
    requires r.Valid(limit) && limit >= 1 && !r.Exhausted(k)
    ensures r.Bump(limit, k).Valid(limit)
    ensures r.Bump(limit, k).Epoch(k) == r.Epoch(k) + 1
    ensures NoneLower(r, r.Bump(limit, k))
  {
    hide Without, Distinct;
    hide OrderedMap.SetLast;
    var s := Registry(r.epochs.SetLast(k, r.Epoch(k) + 1), r.defaultEpoch);
    BumpUnpruned(r, limit, k);
    if s.epochs.Size() > limit {
      assert s.epochs.order[|s.epochs.order| - 1] == k;
      assert s.epochs.order[0] != k by { LastIsNotFirst(s.epochs.order); }
      EvictOldestRaises(s, limit);
    }
  }

  /** Nothing is evicted while there is room, and otherwise one entry, the oldest, whose epoch then rises. */
  lemma BumpEvictsOnlyTheOldest(r: Registry, limit: nat, k: Key)
    requires r.Valid(limit) && limit >= 1 && !r.Exhausted(k)
    ensures var r' := r.Bump(limit, k); var room := k in r.epochs.entries || r.epochs.Size() < limit;
      && (forall q :: q in r'.epochs.entries <==> (q in r.epochs.entries || q == k) && (room || q != r.epochs.order[0]))
      && (forall q :: q != k && q in r'.epochs.entries ==> r'.epochs.entries[q] == r.epochs.entries[q])
      && (room ==> r'.defaultEpoch == r.defaultEpoch)
      && (!room ==> r'.Epoch(r.epochs.order[0]) > r.Epoch(r.epochs.order[0]))
  {
    hide Without, Distinct;
    BumpUnpruned(r, limit, k);
    if k !in r.epochs.entries { WithoutAbsent(r.epochs.order, k); }
    var s := Registry(r.epochs.SetLast(k, r.Epoch(k) + 1), r.defaultEpoch);
    r.epochs.SetLastValid(k, r.Epoch(k) + 1);
    if s.epochs.Size() > limit { LastIsNotFirst(s.epochs.order); }
  }

  lemma LastIsNotFirst(order: seq<Key>)
    requires Distinct(order) && |order| > 1
    ensures order[0] != order[|order| - 1]
  {
    assert order[|order| - 1] == order[1..][|order| - 2];
  }

  /** The bumps of a run of the entity registry; an exhausted key makes its bump throw and change nothing. */
  ghost function AfterBumps(r: Registry, limit: nat, run: seq<Key>): Registry
    requires r.Valid(limit) && limit >= 1
    ensures AfterBumps(r, limit, run).Valid(limit)
    decreases |run|
  {
    if run == [] then r
    else if r.Exhausted(run[0]) then AfterBumps(r, limit, run[1..])
    else
      BumpRaises(r, limit, run[0]);
      AfterBumps(r.Bump(limit, run[0]), limit, run[1..])
  }

  /** Whatever was evicted on the way: an epoch never goes down, and if it is unchanged since it
      was captured then no bump of that key succeeded in between. */
  lemma {:induction false} UnchangedMeansNotBumped(r: Registry, limit: nat, run: seq<Key>, q: Key)
    requires r.Valid(limit) && limit >= 1
    ensures AfterBumps(r, limit, run).Epoch(q) >= r.Epoch(q)
    ensures AfterBumps(r, limit, run).Epoch(q) == r.Epoch(q) && q in run ==> r.Exhausted(q)
    decreases |run|
  {
    if run != [] {
      if r.Exhausted(run[0]) {
        UnchangedMeansNotBumped(r, limit, run[1..], q);
      } else {
        BumpRaises(r, limit, run[0]);
        UnchangedMeansNotBumped(r.Bump(limit, run[0]), limit, run[1..], q);
      }
      assert q in run ==> q == run[0] || q in run[1..];
    }
  }

  /** The registry as the context keeps it: a Map and a default, updated in place. */
  class EpochTable {
    const limit: nat
    var epochs: OrderedMap<Key, nat>
    var defaultEpoch: nat

    ghost function Value(): Registry reads this { Registry(epochs, defaultEpoch) }

    ghost predicate Valid() reads this { limit >= 1 && Value().Valid(limit) }

    constructor (limit: nat)
      requires limit >= 1
      ensures Valid() && this.limit == limit && Value() == EmptyRegistry()
    {
      this.limit := limit;
      epochs := Empty();
      defaultEpoch := 0;
    }

    method CacheEpoch(key: Key) returns (epoch: nat)
      ensures epoch == Value().Epoch(key)
    {
      epoch := if epochs.Has(key) then epochs.entries[key] else defaultEpoch;
    }

    /** Throws (ok is false) exactly when the counter of the key is exhausted. */
    method BumpCacheEpoch(key: Key) returns (ok: bool)
      requires Valid()
      modifies this
      ensures Valid()
      ensures ok <==> !old(Value()).Exhausted(key)
      ensures Value() == if ok then old(Value()).Bump(limit, key) else old(Value())
    {
      var current := CacheEpoch(key);
      if current >= MAX_SAFE_INTEGER - 1 { return false; }
      ghost var before := Value();
      hide Without, Distinct;
      epochs.SetLastValid(key, current + 1);
      epochs := epochs.Delete(key);
      epochs := epochs.Set(key, current + 1);
      EvictToLimit();
      assert Value() == before.Bump(limit, key);
      BumpRaises(before, limit, key);
      return true;
    }

    method EvictToLimit()
      requires epochs.Valid() && epochs.Size() <= limit + 1
      modifies this
      ensures Value() == old(Value()).Prune(limit)
    {
      while epochs.Size() > limit
        invariant epochs.Valid() && epochs.Size() <= limit + 1
        invariant Value() == if epochs.Size() > limit then old(Value()) else old(Value()).Prune(limit)
        decreases epochs.Size()
      {
        epochs.DeleteValid(epochs.order[0]);
        var oldest := epochs.order[0];
        var evicted := CacheEpoch(oldest);
        epochs := epochs.Delete(oldest);
        defaultEpoch := Max(defaultEpoch, evicted + 1);
      }
    }
  }

  // ---------------------------------------------------------------- function cache registry

  /** Invalidations reject old reads; refreshes only fence publication. */
  datatype EpochPair = EpochPair(invalidation: nat, publication: nat)

  datatype PairRegistry = PairRegistry(epochs: OrderedMap<Key, EpochPair>, defaultEpoch: nat) {
    ghost predicate Valid(limit: nat) {
      && epochs.Valid()
      && epochs.Size() <= limit
      && (forall k :: k in epochs.entries ==> epochs.entries[k].invalidation <= epochs.entries[k].publication)
    }

    function Invalidation(k: Key): nat {
      if k in epochs.entries then epochs.entries[k].invalidation else defaultEpoch
    }

    function Publication(k: Key): nat {
      if k in epochs.entries then epochs.entries[k].publication else defaultEpoch
    }

    function EvictOldest(): PairRegistry
      requires epochs.Size() > 0
    {
      var oldest := epochs.order[0];
      PairRegistry(epochs.Delete(oldest), Max(defaultEpoch, Max(Invalidation(oldest), Publication(oldest)) + 1))
    }

    /** The eviction loop: between bumps the registry is within its limit, so it runs at most once. */
    function Prune(limit: nat): PairRegistry {
      if epochs.Size() <= limit then this else EvictOldest()
    }

    function SetEpochs(limit: nat, k: Key, pair: EpochPair): PairRegistry {
      PairRegistry(epochs.SetLast(k, pair), defaultEpoch).Prune(limit)
    }

    function BumpPublication(limit: nat, k: Key): PairRegistry {
      SetEpochs(limit, k, EpochPair(Invalidation(k), Publication(k) + 1))
    }

    function BumpInvalidation(limit: nat, k: Key): PairRegistry {
      var epoch := Max(Invalidation(k), Publication(k)) + 1;
      SetEpochs(limit, k, EpochPair(epoch, epoch))
    }
  }

  function EmptyPairRegistry(): PairRegistry { PairRegistry(Empty(), 0) }

  ghost predicate NoLower(r: PairRegistry, r': PairRegistry) {
    forall q :: r'.Invalidation(q) >= r.Invalidation(q) && r'.Publication(q) >= r.Publication(q)
  }

  lemma SetEpochsUnpruned(r: PairRegistry, limit: nat, k: Key, pair: EpochPair)
    requires r.Valid(limit)
    requires r.Invalidation(k) <= pair.invalidation <= pair.publication && r.Publication(k) <= pair.publication
    ensures var s := PairRegistry(r.epochs.SetLast(k, pair), r.defaultEpoch);
      && s.Valid(limit + 1) && s.epochs.order == Without(r.epochs.order, k) + [k]
      && s.Invalidation(k) == pair.invalidation && s.Publication(k) == pair.publication
      && NoLower(r, s)
  {
    hide Without, Distinct;
    r.epochs.SetLastValid(k, pair);
  }

  lemma EvictOldestPairRaises(r: PairRegistry, limit: nat)
    requires r.Valid(limit + 1) && r.epochs.Size() > 0
    ensures var r' := r.EvictOldest();
      && r'.Valid(limit)
      && NoLower(r, r')
      && (forall q :: q in r.epochs.entries && q != r.epochs.order[0] ==>
            r'.Invalidation(q) == r.Invalidation(q) && r'.Publication(q) == r.Publication(q))
  {
    hide Without, Distinct;
    r.epochs.DeleteValid(r.epochs.order[0]);
  }

  lemma SetEpochsRaises(r: PairRegistry, limit: nat, k: Key, pair: EpochPair)
    requires r.Valid(limit) && limit >= 1
    requires r.Invalidation(k) <= pair.invalidation <= pair.publication && r.Publication(k) <= pair.publication
    ensures var r' := r.SetEpochs(limit, k, pair);
      && r'.Valid(limit) && r'.Invalidation(k) == pair.invalidation && r'.Publication(k) == pair.publication
      && NoLower(r, r')
  {
    hide Without, Distinct;
    hide OrderedMap.SetLast;
    var s := PairRegistry(r.epochs.SetLast(k, pair), r.defaultEpoch);
    SetEpochsUnpruned(r, limit, k, pair);
    if s.epochs.Size() > limit {
      assert s.epochs.order[|s.epochs.order| - 1] == k && k in s.epochs.entries;
      assert s.epochs.order[0] != k by { LastIsNotFirst(s.epochs.order); }
      EvictOldestPairRaises(s, limit);
      assert s.Prune(limit) == s.EvictOldest();
    }
  }

  lemma PublicationCoversInvalidation(r: PairRegistry, limit: nat, q: Key)
    requires r.Valid(limit)
    ensures r.Invalidation(q) <= r.Publication(q)
  {
  }

  datatype PairBump = Invalidated(key: Key) | Refreshed(key: Key)

  function ApplyBump(r: PairRegistry, limit: nat, b: PairBump): PairRegistry {
    match b
    case Invalidated(k) => r.BumpInvalidation(limit, k)
    case Refreshed(k) => r.BumpPublication(limit, k)
  }

  lemma InvalidationBumpRaises(r: PairRegistry, limit: nat, k: Key)
    requires r.Valid(limit) && limit >= 1
    ensures var r' := r.BumpInvalidation(limit, k);
      && r'.Valid(limit) && NoLower(r, r')
      && r'.Invalidation(k) == r'.Publication(k) == Max(r.Invalidation(k), r.Publication(k)) + 1
  {
    hide PairRegistry.SetEpochs;
    var epoch := Max(r.Invalidation(k), r.Publication(k)) + 1;
    SetEpochsRaises(r, limit, k, EpochPair(epoch, epoch));
  }

  lemma PublicationBumpRaises(r: PairRegistry, limit: nat, k: Key)
    requires r.Valid(limit) && limit >= 1
    ensures var r' := r.BumpPublication(limit, k);
      && r'.Valid(limit) && NoLower(r, r')
      && r'.Invalidation(k) == r.Invalidation(k) && r'.Publication(k) == r.Publication(k) + 1
  {
    hide PairRegistry.SetEpochs;
    PublicationCoversInvalidation(r, limit, k);
    SetEpochsRaises(r, limit, k, EpochPair(r.Invalidation(k), r.Publication(k) + 1));
  }

  /** Bumping keeps invalidation <= publication for every key, lowers no epoch, and strictly raises
      the epochs the bump is about. */
  lemma PairBumpRaises(r: PairRegistry, limit: nat, b: PairBump)
    requires r.Valid(limit) && limit >= 1
    ensures ApplyBump(r, limit, b).Valid(limit) && NoLower(r, ApplyBump(r, limit, b))
    ensures ApplyBump(r, limit, b).Publication(b.key) > r.Publication(b.key)
    ensures b.Invalidated? ==> ApplyBump(r, limit, b).Invalidation(b.key) > r.Publication(b.key)
    ensures b.Refreshed? ==> ApplyBump(r, limit, b).Invalidation(b.key) == r.Invalidation(b.key)
  {
    if b.Invalidated? {
      InvalidationBumpRaises(r, limit, b.key);
    } else {
      PublicationBumpRaises(r, limit, b.key);
    }
  }

  ghost function AfterPairBumps(r: PairRegistry, limit: nat, run: seq<PairBump>): PairRegistry
    requires r.Valid(limit) && limit >= 1
    ensures AfterPairBumps(r, limit, run).Valid(limit)
    decreases |run|
  {
    if run == [] then r
    else
      PairBumpRaises(r, limit, run[0]);
      AfterPairBumps(ApplyBump(r, limit, run[0]), limit, run[1..])
  }

  lemma {:induction false} PairUnchangedMeansNotBumped(r: PairRegistry, limit: nat, run: seq<PairBump>, q: Key)
    requires r.Valid(limit) && limit >= 1
    ensures var r' := AfterPairBumps(r, limit, run);
      && r'.Invalidation(q) >= r.Invalidation(q) && r'.Publication(q) >= r.Publication(q)
      && r'.Invalidation(q) <= r'.Publication(q)
      && (r'.Invalidation(q) == r.Invalidation(q) ==> Invalidated(q) !in run)
      && (r'.Publication(q) == r.Publication(q) ==> Invalidated(q) !in run && Refreshed(q) !in run)
    decreases |run|
  {
    if run != [] {
      PairBumpRaises(r, limit, run[0]);
      PairUnchangedMeansNotBumped(ApplyBump(r, limit, run[0]), limit, run[1..], q);
      assert forall b :: b in run ==> b == run[0] || b in run[1..];
    }
  }

  /** The module-level Map and default of the function cache. */
  class PairEpochTable {
    const limit: nat
    var epochs: OrderedMap<Key, EpochPair>
    var defaultEpoch: nat

    ghost function Value(): PairRegistry reads this { PairRegistry(epochs, defaultEpoch) }

    ghost predicate Valid() reads this { limit >= 1 && Value().Valid(limit) }

    constructor (limit: nat)
      requires limit >= 1
      ensures Valid() && this.limit == limit && Value() == EmptyPairRegistry()
    {
      this.limit := limit;
      epochs := Empty();
      defaultEpoch := 0;
    }

    method BumpPublicationEpoch(key: Key) returns (epoch: nat)
      requires Valid()
      modifies this
      ensures Valid() && Value() == old(Value()).BumpPublication(limit, key)
      ensures epoch == Value().Publication(key) == old(Value()).Publication(key) + 1
    {
      ghost var before := Value();
      PublicationBumpRaises(before, limit, key);
      epoch := (if epochs.Has(key) then epochs.entries[key].publication else defaultEpoch) + 1;
      var invalidation := if epochs.Has(key) then epochs.entries[key].invalidation else defaultEpoch;
      SetEpochs(key, EpochPair(invalidation, epoch));
      assert Value() == before.BumpPublication(limit, key);
    }

    method BumpInvalidationEpoch(key: Key) returns (epoch: nat)
      requires Valid()
      modifies this
      ensures Valid() && Value() == old(Value()).BumpInvalidation(limit, key)
      ensures epoch == Value().Invalidation(key) == Value().Publication(key)
    {
      ghost var before := Value();
      InvalidationBumpRaises(before, limit, key);
      var publication := if epochs.Has(key) then epochs.entries[key].publication else defaultEpoch;
      var invalidation := if epochs.Has(key) then epochs.entries[key].invalidation else defaultEpoch;
      epoch := Max(invalidation, publication) + 1;
      SetEpochs(key, EpochPair(epoch, epoch));
      assert Value() == before.BumpInvalidation(limit, key);
    }

    method SetEpochs(key: Key, pair: EpochPair)
      requires epochs.Valid() && epochs.Size() <= limit
      modifies this
      ensures Value() == old(Value()).SetEpochs(limit, key, pair)
    {
      epochs.SetLastValid(key, pair);
      if epochs.Has(key) {
        epochs := epochs.Delete(key);
      } else {
        assert Without(epochs.order, key) == epochs.order by { WithoutAbsent(epochs.order, key); }
        assert epochs.entries - {key} == epochs.entries;
      }
      epochs := epochs.Set(key, pair);
      ghost var unpruned := Value();
      while epochs.Size() > limit
        invariant epochs.Valid() && epochs.Size() <= limit + 1
        invariant Value() == if epochs.Size() > limit then unpruned else unpruned.Prune(limit)
        decreases epochs.Size()
      {
        epochs.DeleteValid(epochs.order[0]);
        var oldest := epochs.order[0];
        var pair := epochs.entries[oldest];
        epochs := epochs.Delete(oldest);
        defaultEpoch := Max(defaultEpoch, Max(pair.invalidation, pair.publication) + 1);
      }
    }
  }

  lemma WithoutAbsent(s: seq<Key>, k: Key)
    requires k !in s
    ensures Without(s, k) == s
  {
  }
}
