/** Ownership of custom entity-cache keys: each key belongs to one entity and each entity keeps one
    key. A context holds the confirmed maps; concurrent root transactions stage their own entries
    in a stack of frames, one per open savepoint, of which only the innermost claims. */
module KeyOwnership {
  import opened Epochs
  import opened Options

  datatype Owner = Owner(name: string)

  /** cacheKeyOwners and entityCacheKeys of a context or of a frame. */
  datatype Maps = Maps(owners: map<Key, Owner>, keys: map<Owner, Key>) {
    function Plus(m: Maps): Maps { Maps(owners + m.owners, keys + m.keys) }
    function Put(k: Key, o: Owner): Maps { Maps(owners[k := o], keys[o := k]) }
  }

  const NoKeys: Maps := Maps(map[], map[])

  /** The two maps are inverses of each other. */
  ghost predicate Inverse(m: Maps) {
    && (forall k :: k in m.owners ==> m.owners[k] in m.keys && m.keys[m.owners[k]] == k)
    && (forall o :: o in m.keys ==> m.keys[o] in m.owners && m.owners[m.keys[o]] == o)
  }

  /** assertStableEntityCacheKeyMaps: neither the key nor the owner is bound to something else. */
  predicate Stable(m: Maps, o: Owner, k: Key) {
    (k in m.owners ==> m.owners[k] == o) && (o in m.keys ==> m.keys[o] == k)
  }

  ghost predicate Compatible(m: Maps, staged: Maps) {
    && (forall k :: k in staged.owners ==> Stable(m, staged.owners[k], k))
    && (forall o :: o in staged.keys ==> Stable(m, o, staged.keys[o]))
  }

  predicate Fits(limit: Option<nat>, keys: set<Key>) { limit.Some? ==> |keys| <= limit.value }

  datatype Verdict = Accepted | Conflict | OverLimit

  /** A claim outside a transaction. */
  function RootClaim(limit: Option<nat>, root: Maps, o: Owner, k: Key): (Verdict, Maps) {
    if !Stable(root, o, k) then (Conflict, root)
    else if !Fits(limit, root.owners.Keys + {k}) then (OverLimit, root)
    else (Accepted, root.Put(k, o))
  }

  /** A claim in a transaction is checked against both levels and staged unless the root has it. */
  function FrameClaim(limit: Option<nat>, root: Maps, frame: Maps, o: Owner, k: Key): (Verdict, Maps) {
    if !Stable(root, o, k) || !Stable(frame, o, k) then (Conflict, frame)
    else if !Fits(limit, root.owners.Keys + frame.owners.Keys + {k}) then (OverLimit, frame)
    else
      (Accepted, Maps(if k in root.owners then frame.owners else frame.owners[k := o],
                      if o in root.keys then frame.keys else frame.keys[o := k]))
  }

  /** mergeTransactionCacheKeyOwnership: all the checks come before the first change. */
  ghost function Merge(limit: Option<nat>, root: Maps, staged: Maps): (Verdict, Maps) {
    if !Fits(limit, root.owners.Keys + staged.owners.Keys) then (OverLimit, root)
    else if !Compatible(root, staged) then (Conflict, root)
    else (Accepted, root.Plus(staged))
  }

  /** The end of a savepoint's callback: its entries are checked against the frame around it. */
  ghost function ReleaseInto(limit: Option<nat>, root: Maps, parent: Maps, child: Maps): (Verdict, Maps) {
    if !Fits(limit, root.owners.Keys + child.owners.Keys) then (OverLimit, parent)
    else if exists k :: k in child.owners && !Stable(parent, child.owners[k], k) then (Conflict, parent)
    else (Accepted, parent.Plus(child))
  }

  // ---------------------------------------------------------------- the maps in place

  lemma UnionStep<T>(a: set<T>, b: set<T>, todo: set<T>, k: T)
    requires k in todo && todo <= b
    ensures |a + (b - (todo - {k}))| == |a + (b - todo)| + if k in a then 0 else 1
  {
    assert a + (b - (todo - {k})) == if k in a then a + (b - todo) else (a + (b - todo)) + {k};
  }

  /** Counts the elements of a, then those of b that a lacks. */
  method SizeOfUnion<T(==)>(a: set<T>, b: set<T>) returns (count: nat)
    ensures count == |a + b|
  {
    count := |a|;
    var todo := b;
    while todo != {}
      invariant todo <= b && count == |a + (b - todo)|
    {
      var k :| k in todo;
      UnionStep(a, b, todo, k);
      todo := todo - {k};
      if k !in a { count := count + 1; }
    }
  }

  class OwnershipMaps {
    var owners: map<Key, Owner>
    var keys: map<Owner, Key>

    constructor ()
      ensures Value() == NoKeys
    {
      owners, keys := map[], map[];
    }

    function Value(): Maps
      reads this
    {
      Maps(owners, keys)
    }

    /** assertCacheKeyOwnerLimit: counts the confirmed keys, then the staged and claimed ones among the rest. */
    method WithinLimit(limit: Option<nat>, staged: Maps, additional: Option<Key>) returns (ok: bool)
      ensures ok == Fits(limit, owners.Keys + staged.owners.Keys + if additional.Some? then {additional.value} else {})
    {
      var all := owners.Keys + staged.owners.Keys;
      var count := SizeOfUnion(owners.Keys, staged.owners.Keys);
      if additional.Some? {
        assert all + {additional.value} == if additional.value in all then all else all + {additional.value};
        if additional.value !in owners && additional.value !in staged.owners { count := count + 1; }
      } else {
        assert all + {} == all;
      }
      ok := limit.None? || count <= limit.value;
    }

    method Claim(limit: Option<nat>, o: Owner, k: Key) returns (verdict: Verdict)
      modifies this
      ensures (verdict, Value()) == RootClaim(limit, old(Value()), o, k)
    {
      if !Stable(Value(), o, k) { return Conflict; }
      var ok := WithinLimit(limit, NoKeys, Some(k));
      assert owners.Keys + NoKeys.owners.Keys + {k} == owners.Keys + {k};
      if !ok { return OverLimit; }
      owners := owners[k := o];
      keys := keys[o := k];
      return Accepted;
    }

    /** A claim made on this frame of a transaction of root. */
    method ClaimStaged(limit: Option<nat>, root: OwnershipMaps, o: Owner, k: Key) returns (verdict: Verdict)
      requires root != this
      modifies this
      ensures (verdict, Value()) == FrameClaim(limit, root.Value(), old(Value()), o, k)
    {
      if !Stable(root.Value(), o, k) || !Stable(Value(), o, k) { return Conflict; }
      var ok := root.WithinLimit(limit, Value(), Some(k));
      if !ok { return OverLimit; }
      if k !in root.owners { owners := owners[k := o]; }
      if o !in root.keys { keys := keys[o := k]; }
      return Accepted;
    }

    method CompatibleWith(staged: Maps) returns (ok: bool)
      ensures ok == Compatible(Value(), staged)
    {
      var todo := staged.owners.Keys;
      while todo != {}
        invariant todo <= staged.owners.Keys
        invariant forall k :: k in staged.owners && k !in todo ==> Stable(Value(), staged.owners[k], k)
      {
        var k :| k in todo;
        if !Stable(Value(), staged.owners[k], k) { return false; }
        todo := todo - {k};
      }
      var owed := staged.keys.Keys;
      while owed != {}
        invariant owed <= staged.keys.Keys
        invariant forall o :: o in staged.keys && o !in owed ==> Stable(Value(), o, staged.keys[o])
      {
        var o :| o in owed;
        if !Stable(Value(), o, staged.keys[o]) { return false; }
        owed := owed - {o};
      }
      return true;
    }

    method Take(staged: Maps)
      modifies this
      ensures Value() == old(Value()).Plus(staged)
    {
      TakeOwners(staged.owners);
      TakeKeys(staged.keys);
    }

    method TakeOwners(staged: map<Key, Owner>)
      modifies this`owners
      ensures owners == old(owners) + staged
    {
      var todo := staged.Keys;
      while todo != {}
        invariant todo <= staged.Keys
        invariant owners.Keys == old(owners.Keys) + (staged.Keys - todo)
        invariant forall k :: k in owners ==> owners[k] == if k in staged && k !in todo then staged[k] else old(owners)[k]
      {
        var k :| k in todo;
        owners := owners[k := staged[k]];
        todo := todo - {k};
      }
      assert owners == old(owners) + staged;
    }

    method TakeKeys(staged: map<Owner, Key>)
      modifies this`keys
      ensures keys == old(keys) + staged
    {
      var todo := staged.Keys;
      while todo != {}
        invariant todo <= staged.Keys
        invariant keys.Keys == old(keys.Keys) + (staged.Keys - todo)
        invariant forall o :: o in keys ==> keys[o] == if o in staged && o !in todo then staged[o] else old(keys)[o]
      {
        var o :| o in todo;
        keys := keys[o := staged[o]];
        todo := todo - {o};
      }
      assert keys == old(keys) + staged;
    }

    method MergeStaged(limit: Option<nat>, staged: Maps) returns (verdict: Verdict)
      modifies this
      ensures (verdict, Value()) == Merge(limit, old(Value()), staged)
    {
      var fits := WithinLimit(limit, staged, None);
      assert owners.Keys + staged.owners.Keys + {} == owners.Keys + staged.owners.Keys;
      if !fits { return OverLimit; }
      var compatible := CompatibleWith(staged);
      if !compatible { return Conflict; }
      Take(staged);
      return Accepted;
    }
  }

  // ---------------------------------------------------------------- concurrent transactions

  /** Each open transaction is its stack of frames, the root attempt first. */
  datatype State = State(root: Maps, open: map<nat, seq<Maps>>)

  datatype Event =
    | ClaimOutside(owner: Owner, key: Key)
    | Begin(tx: nat)
    | Claim(tx: nat, owner: Owner, key: Key)
    | OpenSavepoint(tx: nat)
    | Release(tx: nat)
    | RollBackSavepoint(tx: nat)
    | RollBack(tx: nat)
    | Commit(tx: nat)

  predicate Enabled(s: State, e: Event) {
    match e
    case ClaimOutside(_, _) => true
    case Begin(t) => t !in s.open
    case Claim(t, _, _) => t in s.open && s.open[t] != []
    case OpenSavepoint(t) => t in s.open && s.open[t] != []
    case Release(t) => t in s.open && |s.open[t]| > 1
    case RollBackSavepoint(t) => t in s.open && |s.open[t]| > 1
    case RollBack(t) => t in s.open
    case Commit(t) => t in s.open && |s.open[t]| == 1
  }

  function Top(frames: seq<Maps>): Maps
    requires frames != []
  {
    frames[|frames| - 1]
  }

  function Below(frames: seq<Maps>): seq<Maps>
    requires frames != []
  {
    frames[..|frames| - 1]
  }

  ghost function Apply(limit: Option<nat>, s: State, e: Event): State
    requires Enabled(s, e)
  {
    match e
    case ClaimOutside(o, k) => s.(root := RootClaim(limit, s.root, o, k).1)
    case Begin(t) => s.(open := s.open[t := [NoKeys]])
    case Claim(t, o, k) =>
      s.(open := s.open[t := Below(s.open[t]) + [FrameClaim(limit, s.root, Top(s.open[t]), o, k).1]])
    case OpenSavepoint(t) => s.(open := s.open[t := s.open[t] + [Top(s.open[t])]])
    case Release(t) =>
      // A savepoint that is refused is rolled back; its entries are dropped.
      var rest := Below(s.open[t]);
      s.(open := s.open[t := Below(rest) + [ReleaseInto(limit, s.root, Top(rest), Top(s.open[t])).1]])
    case RollBackSavepoint(t) => s.(open := s.open[t := Below(s.open[t])])
    case RollBack(t) => s.(open := s.open - {t})
    case Commit(t) => State(Merge(limit, s.root, Top(s.open[t])).1, s.open - {t})
  }

  /** b has every entry of a. */
  ghost predicate Extends(b: Maps, a: Maps) {
    && (forall k :: k in a.owners ==> k in b.owners && b.owners[k] == a.owners[k])
    && (forall o :: o in a.keys ==> o in b.keys && b.keys[o] == a.keys[o])
  }

  ghost predicate FramesOk(frames: seq<Maps>) {
    && frames != []
    && (forall i :: 0 <= i < |frames| ==> Inverse(frames[i]))
    && (forall i :: 0 < i < |frames| ==> Extends(frames[i], frames[i - 1]))
  }

  ghost predicate Inv(limit: Option<nat>, s: State) {
    && Inverse(s.root)
    && Fits(limit, s.root.owners.Keys)
    && (forall t :: t in s.open ==> FramesOk(s.open[t]))
  }

  lemma PutKeepsInverse(m: Maps, o: Owner, k: Key)
    requires Inverse(m) && Stable(m, o, k)
    ensures Inverse(m.Put(k, o))
    ensures Extends(m.Put(k, o), m)
  {
  }

  /** Merging compatible inverse maps gives inverse maps that keep every old entry. */
  lemma PlusKeepsInverse(m: Maps, staged: Maps)
    requires Inverse(m) && Inverse(staged) && Compatible(m, staged)
    ensures Inverse(m.Plus(staged))
    ensures Extends(m.Plus(staged), m) && Extends(m.Plus(staged), staged)
  {
    var p := m.Plus(staged);
    forall k | k in p.owners ensures p.owners[k] in p.keys && p.keys[p.owners[k]] == k {
      if k !in staged.owners && m.owners[k] in staged.keys { assert Stable(m, m.owners[k], staged.keys[m.owners[k]]); }
    }
    forall o | o in p.keys ensures p.keys[o] in p.owners && p.owners[p.keys[o]] == o {
      if o !in staged.keys && m.keys[o] in staged.owners { assert Stable(m, staged.owners[m.keys[o]], m.keys[o]); }
    }
    forall k | k in m.owners ensures p.owners[k] == m.owners[k] {
      if k in staged.owners { assert Stable(m, staged.owners[k], k); }
    }
    forall o | o in m.keys ensures p.keys[o] == m.keys[o] {
      if o in staged.keys { assert Stable(m, o, staged.keys[o]); }
    }
  }

  /** A claim accepted in a transaction stages both directions or neither. */
  lemma ClaimKeepsInverse(limit: Option<nat>, root: Maps, frame: Maps, o: Owner, k: Key)
    requires Inverse(root) && Inverse(frame)
    ensures var (verdict, frame') := FrameClaim(limit, root, frame, o, k);
      Inverse(frame') && Extends(frame', frame) && (frame' == frame || frame' == frame.Put(k, o))
  {
    var (verdict, frame') := FrameClaim(limit, root, frame, o, k);
    if verdict.Accepted? {
      assert k in root.owners <==> o in root.keys;
      if k !in root.owners { PutKeepsInverse(frame, o, k); }
    }
  }

  /** While the frame around it was idle, a savepoint's entries never conflict with it: the savepoint
      is refused only over the limit, and otherwise the frame ends with exactly its entries. */
  lemma ReleaseIsRefusedOnlyOverLimit(limit: Option<nat>, root: Maps, parent: Maps, child: Maps)
    requires Inverse(child) && Extends(child, parent)
    ensures !ReleaseInto(limit, root, parent, child).0.Conflict?
    ensures ReleaseInto(limit, root, parent, child).0.Accepted? <==> Fits(limit, root.owners.Keys + child.owners.Keys)
    ensures ReleaseInto(limit, root, parent, child).1 == if Fits(limit, root.owners.Keys + child.owners.Keys) then child else parent
  {
    hide Fits;
    forall k | k in child.owners ensures Stable(parent, child.owners[k], k) {}
    assert parent.owners + child.owners == child.owners;
    assert parent.keys + child.keys == child.keys;
  }

  lemma ReplaceTop(frames: seq<Maps>, m: Maps)
    requires FramesOk(frames) && Inverse(m) && Extends(m, Top(frames))
    ensures FramesOk(Below(frames) + [m])
  {
    var frames' := Below(frames) + [m];
    forall i | 0 < i < |frames'| ensures Extends(frames'[i], frames'[i - 1]) {
      assert Extends(frames[i], frames[i - 1]);
    }
  }

  lemma ClaimOnFrames(limit: Option<nat>, root: Maps, frames: seq<Maps>, o: Owner, k: Key)
    requires Inverse(root) && FramesOk(frames)
    ensures FramesOk(Below(frames) + [FrameClaim(limit, root, Top(frames), o, k).1])
  {
    ClaimKeepsInverse(limit, root, Top(frames), o, k);
    hide Inverse, FrameClaim, Extends;
    ReplaceTop(frames, FrameClaim(limit, root, Top(frames), o, k).1);
  }

  lemma ReleaseOnFrames(limit: Option<nat>, root: Maps, frames: seq<Maps>)
    requires FramesOk(frames) && |frames| > 1
    ensures var rest := Below(frames); FramesOk(Below(rest) + [ReleaseInto(limit, root, Top(rest), Top(frames)).1])
  {
    hide Inverse, ReleaseInto, Fits;
    var rest := Below(frames);
    assert Extends(frames[|frames| - 1], frames[|frames| - 2]);
    ReleaseIsRefusedOnlyOverLimit(limit, root, Top(rest), Top(frames));
    ExtendsItself(Top(rest));
    hide Extends;
    ReplaceTop(rest, ReleaseInto(limit, root, Top(rest), Top(frames)).1);
  }

  lemma OpenOnFrames(frames: seq<Maps>)
    requires FramesOk(frames)
    ensures FramesOk(frames + [Top(frames)]) && (|frames| > 1 ==> FramesOk(Below(frames)))
  {
    hide Inverse;
    ExtendsItself(Top(frames));
    hide Extends;
  }

  lemma FrameStep(limit: Option<nat>, s: State, e: Event)
    requires Inv(limit, s) && Enabled(s, e) && (e.Claim? || e.OpenSavepoint? || e.Release? || e.RollBackSavepoint?)
    ensures Inv(limit, Apply(limit, s, e))
  {
    hide Inverse, FramesOk, Extends, FrameClaim, ReleaseInto, Fits;
    var frames := s.open[e.tx];
    match e
    case Claim(_, o, k) => ClaimOnFrames(limit, s.root, frames, o, k);
    case Release(_) => ReleaseOnFrames(limit, s.root, frames);
    case _ => OpenOnFrames(frames);
  }

  lemma ClaimOutsideStep(limit: Option<nat>, root: Maps, o: Owner, k: Key)
    requires Inverse(root) && Fits(limit, root.owners.Keys)
    ensures var (_, root') := RootClaim(limit, root, o, k); Inverse(root') && Extends(root', root) && Fits(limit, root'.owners.Keys)
  {
    if Stable(root, o, k) { PutKeepsInverse(root, o, k); }
    hide Inverse, Extends;
    assert root.owners[k := o].Keys == root.owners.Keys + {k};
  }

  lemma MergeStep(limit: Option<nat>, root: Maps, staged: Maps)
    requires Inverse(root) && Fits(limit, root.owners.Keys) && Inverse(staged)
    ensures var (_, root') := Merge(limit, root, staged); Inverse(root') && Extends(root', root) && Fits(limit, root'.owners.Keys)
  {
    if Compatible(root, staged) { PlusKeepsInverse(root, staged); }
    hide Inverse, Compatible, Extends;
    assert root.Plus(staged).owners.Keys == root.owners.Keys + staged.owners.Keys;
    assert Extends(root, root) by { ExtendsItself(root); }
  }

  lemma ExtendsItself(m: Maps)
    ensures Extends(m, m)
  {
  }

  lemma RootStep(limit: Option<nat>, s: State, e: Event)
    requires Inv(limit, s) && Enabled(s, e) && (e.ClaimOutside? || e.Commit?)
    ensures Inv(limit, Apply(limit, s, e)) && Extends(Apply(limit, s, e).root, s.root)
  {
    hide Inverse, Extends, Merge, RootClaim, Fits;
    if e.ClaimOutside? {
      ClaimOutsideStep(limit, s.root, e.owner, e.key);
    } else {
      assert FramesOk(s.open[e.tx]);
      MergeStep(limit, s.root, Top(s.open[e.tx]));
    }
  }

  lemma {:induction false} StepKeepsInv(limit: Option<nat>, s: State, e: Event)
    requires Inv(limit, s) && Enabled(s, e)
    ensures Inv(limit, Apply(limit, s, e)) && Extends(Apply(limit, s, e).root, s.root)
  {
    hide Inverse, FrameClaim, RootClaim, Merge, ReleaseInto;
    match e
    case ClaimOutside(_, _) => RootStep(limit, s, e);
    case Commit(_) => RootStep(limit, s, e);
    case Begin(_) => NoKeysInverse();
    case RollBack(_) =>
    case _ => FrameStep(limit, s, e);
  }

  lemma NoKeysInverse()
    ensures Inverse(NoKeys)
  {
  }

  // ---------------------------------------------------------------- runs

  ghost predicate Legal(limit: Option<nat>, s: State, run: seq<Event>)
    decreases |run|
  {
    run == [] || (Enabled(s, run[0]) && Legal(limit, Apply(limit, s, run[0]), run[1..]))
  }

  ghost function After(limit: Option<nat>, s: State, run: seq<Event>): State
    requires Legal(limit, s, run)
    decreases |run|
  {
    if run == [] then s else After(limit, Apply(limit, s, run[0]), run[1..])
  }

  const Start: State := State(NoKeys, map[])

  /** From a state of the invariant on, no root entry is ever changed or lost. */
  lemma {:induction false} RunKeepsInv(limit: Option<nat>, s: State, run: seq<Event>)
    requires Inv(limit, s) && Legal(limit, s, run)
    ensures Inv(limit, After(limit, s, run)) && Extends(After(limit, s, run).root, s.root)
    decreases |run|
  {
    hide Inv, Apply, Enabled;
    if run != [] {
      StepKeepsInv(limit, s, run[0]);
      RunKeepsInv(limit, Apply(limit, s, run[0]), run[1..]);
    }
  }

  /** With any number of concurrent transactions: the root's two maps are inverses of each other and
      within the limit, so are the maps of every open frame, and no confirmed entry ever changes. */
  lemma OwnershipIsOneToOne(limit: Option<nat>, run: seq<Event>, later: seq<Event>)
    requires Legal(limit, Start, run) && Legal(limit, After(limit, Start, run), later)
    ensures var s := After(limit, Start, run);
      && Inverse(s.root)
      && (limit.Some? ==> |s.root.owners.Keys| <= limit.value)
      && (forall t, i :: t in s.open && 0 <= i < |s.open[t]| ==> Inverse(s.open[t][i]))
      && Extends(After(limit, s, later).root, s.root)
  {
    NoKeysInverse();
    hide Apply, Enabled, Inverse;
    RunKeepsInv(limit, Start, run);
    RunKeepsInv(limit, After(limit, Start, run), later);
  }

  /** In every state of a run, a commit merges all of its staged entries or none: all exactly when
      they fit the limit and none of them is bound differently at the root. */
  lemma CommitMergesAllOrNothing(limit: Option<nat>, s: State, t: nat)
    requires Inv(limit, s) && Enabled(s, Commit(t))
    ensures var staged, root' := s.open[t][0], Apply(limit, s, Commit(t)).root;
      && (Merge(limit, s.root, staged).0.Accepted? <==>
            && (limit.Some? ==> |s.root.owners.Keys + staged.owners.Keys| <= limit.value)
            && forall k :: k in staged.owners ==> Stable(s.root, staged.owners[k], k))
      && (Merge(limit, s.root, staged).0.OverLimit? <==> limit.Some? && |s.root.owners.Keys + staged.owners.Keys| > limit.value)
      && (Merge(limit, s.root, staged).0.Accepted? ==> Extends(root', staged))
      && (|| root' == s.root
          || (Extends(root', staged) && Extends(root', s.root) && root'.owners.Keys == s.root.owners.Keys + staged.owners.Keys))
      && (Extends(root', staged) <==>
            Extends(s.root, staged)
            || (Fits(limit, s.root.owners.Keys + staged.owners.Keys)
                && forall k :: k in staged.owners ==> Stable(s.root, staged.owners[k], k)))
  {
    assert FramesOk(s.open[t]) && Inverse(s.open[t][0]);
    hide Inv, Extends, Inverse, Merge, FramesOk;
    MergeIsAllOrNothing(limit, s.root, s.open[t][0]);
  }

  lemma MergeIsAllOrNothing(limit: Option<nat>, root: Maps, staged: Maps)
    requires Inverse(root) && Inverse(staged)
    ensures var (verdict, root') := Merge(limit, root, staged);
      && (verdict.Accepted? <==>
            Fits(limit, root.owners.Keys + staged.owners.Keys) && forall k :: k in staged.owners ==> Stable(root, staged.owners[k], k))
      && (verdict.OverLimit? <==> !Fits(limit, root.owners.Keys + staged.owners.Keys))
      && (verdict.Accepted? ==> Extends(root', staged))
      && (|| root' == root
          || (Extends(root', staged) && Extends(root', root) && root'.owners.Keys == root.owners.Keys + staged.owners.Keys))
      && (Extends(root', staged) <==>
            Extends(root, staged)
            || (Fits(limit, root.owners.Keys + staged.owners.Keys)
                && forall k :: k in staged.owners ==> Stable(root, staged.owners[k], k)))
  {
    assert Compatible(root, staged) <==> forall k :: k in staged.owners ==> Stable(root, staged.owners[k], k);
    if Compatible(root, staged) { PlusKeepsInverse(root, staged); }
    hide Inverse, Compatible, Fits;
    assert root.Plus(staged).owners.Keys == root.owners.Keys + staged.owners.Keys;
    if Extends(root, staged) { MergeOfKnown(root, staged); }
  }

  lemma MergeOfKnown(root: Maps, staged: Maps)
    requires Extends(root, staged)
    ensures root.Plus(staged) == root
  {
    assert root.owners + staged.owners == root.owners;
    assert root.keys + staged.keys == root.keys;
  }

  /** A claim in a transaction succeeds exactly when both levels allow it and it fits; the pair is then
      bound at the root or in the innermost frame. */
  lemma ClaimBindsThePair(limit: Option<nat>, root: Maps, frame: Maps, o: Owner, k: Key)
    requires Inverse(root) && Inverse(frame)
    ensures var (verdict, frame') := FrameClaim(limit, root, frame, o, k);
      && (verdict.Conflict? <==> !Stable(root, o, k) || !Stable(frame, o, k))
      && (verdict.OverLimit? ==> limit.Some? && |root.owners.Keys + frame.owners.Keys + {k}| > limit.value)
      && (verdict.Accepted? ==> limit.Some? ==> |root.owners.Keys + frame.owners.Keys + {k}| <= limit.value)
      && (verdict.Accepted? ==>
            || (k in root.owners && root.owners[k] == o && root.keys[o] == k && frame' == frame)
            || (k in frame'.owners && frame'.owners[k] == o && frame'.keys[o] == k))
      && (!verdict.Accepted? ==> frame' == frame)
  {
    ClaimKeepsInverse(limit, root, frame, o, k);
  }

  /** A claim outside a transaction is accepted exactly if it conflicts with nothing and fits; then the root
      binds the pair and all it bound before, and nothing else. */
  lemma RootClaimBindsThePair(limit: Option<nat>, s: State, o: Owner, k: Key)
    requires Inv(limit, s)
    ensures Enabled(s, ClaimOutside(o, k))
    ensures var (verdict, root') := RootClaim(limit, s.root, o, k);
      && Apply(limit, s, ClaimOutside(o, k)) == State(root', s.open)
      && (verdict.Conflict? <==> !Stable(s.root, o, k))
      && (verdict.Accepted? <==> Stable(s.root, o, k) && (limit.Some? ==> |s.root.owners.Keys + {k}| <= limit.value))
      && (verdict.Accepted? ==> Binds(root', o, k) && Extends(root', s.root) && root'.owners.Keys == s.root.owners.Keys + {k})
      && (!verdict.Accepted? ==> root' == s.root)
  {
    PutBinds(s.root, o, k);
    hide Inverse, Stable, Binds, Extends;
  }

  lemma PutBinds(m: Maps, o: Owner, k: Key)
    requires Inverse(m)
    ensures Binds(m.Put(k, o), o, k) && m.Put(k, o).owners.Keys == m.owners.Keys + {k}
    ensures Stable(m, o, k) ==> Extends(m.Put(k, o), m)
  {
    assert m.owners[k := o].Keys == m.owners.Keys + {k};
  }

  // ---------------------------------------------------------------- what becomes of a claim

  predicate Binds(m: Maps, o: Owner, k: Key) { k in m.owners && m.owners[k] == o && o in m.keys && m.keys[o] == k }

  /** The pair is bound at the root or in the innermost frame of t. */
  predicate BoundFor(s: State, t: nat, o: Owner, k: Key) {
    Binds(s.root, o, k) || (t in s.open && s.open[t] != [] && Binds(Top(s.open[t]), o, k))
  }

  /** The event drops entries of t: a rollback, or the end of a savepoint that does not fit. */
  predicate Drops(limit: Option<nat>, s: State, e: Event, t: nat) {
    || e == RollBack(t)
    || e == RollBackSavepoint(t)
    || (e == Release(t) && Enabled(s, e) && !Fits(limit, s.root.owners.Keys + Top(s.open[t]).owners.Keys))
  }

  ghost predicate KeptIn(limit: Option<nat>, s: State, run: seq<Event>, t: nat)
    requires Legal(limit, s, run)
    decreases |run|
  {
    run == [] || (!Drops(limit, s, run[0], t) && run[0] != Commit(t) && KeptIn(limit, Apply(limit, s, run[0]), run[1..], t))
  }

  lemma ExtensionBinds(b: Maps, a: Maps, o: Owner, k: Key)
    requires Extends(b, a) && Binds(a, o, k)
    ensures Binds(b, o, k)
  {
  }

  lemma ReleaseKeepsBinding(limit: Option<nat>, s: State, t: nat, o: Owner, k: Key)
    requires Inv(limit, s) && Enabled(s, Release(t)) && !Drops(limit, s, Release(t), t) && BoundFor(s, t, o, k)
    ensures BoundFor(Apply(limit, s, Release(t)), t, o, k)
  {
    var frames := s.open[t];
    hide Inverse, Fits, Binds, Extends, ReleaseInto;
    assert FramesOk(frames);
    assert Extends(frames[|frames| - 1], frames[|frames| - 2]) && Inverse(frames[|frames| - 1]);
    hide Inv, FramesOk;
    ReleaseIsRefusedOnlyOverLimit(limit, s.root, Top(Below(frames)), Top(frames));
  }

  lemma ClaimKeepsBinding(limit: Option<nat>, s: State, e: Event, t: nat, o: Owner, k: Key)
    requires Inv(limit, s) && Enabled(s, e) && e.Claim? && BoundFor(s, t, o, k)
    ensures BoundFor(Apply(limit, s, e), t, o, k)
  {
    if e.tx == t {
      assert FramesOk(s.open[t]) && Inverse(Top(s.open[t]));
      ClaimKeepsInverse(limit, s.root, Top(s.open[t]), e.owner, e.key);
      hide Inverse, Fits, FrameClaim, Inv, FramesOk;
    }
  }

  lemma BindingStep(limit: Option<nat>, s: State, e: Event, t: nat, o: Owner, k: Key)
    requires Inv(limit, s) && Enabled(s, e) && !Drops(limit, s, e, t) && e != Commit(t) && BoundFor(s, t, o, k)
    ensures BoundFor(Apply(limit, s, e), t, o, k)
  {
    hide Inverse, Fits, ReleaseInto, FrameClaim, RootClaim, Merge, FramesOk, Inv;
    match e
    case Claim(_, _, _) => ClaimKeepsBinding(limit, s, e, t, o, k);
    case Release(_) => if e.tx == t { ReleaseKeepsBinding(limit, s, t, o, k); }
    case ClaimOutside(_, _) => RootStep(limit, s, e);
    case Commit(_) => RootStep(limit, s, e);
    case _ =>
  }

  lemma {:induction false} BindingStays(limit: Option<nat>, s: State, run: seq<Event>, t: nat, o: Owner, k: Key)
    requires Inv(limit, s) && Legal(limit, s, run) && KeptIn(limit, s, run, t) && BoundFor(s, t, o, k)
    ensures BoundFor(After(limit, s, run), t, o, k)
    decreases |run|
  {
    hide Inv, Apply, Enabled, Drops, BoundFor;
    if run != [] {
      BindingStep(limit, s, run[0], t, o, k);
      StepKeepsInv(limit, s, run[0]);
      BindingStays(limit, Apply(limit, s, run[0]), run[1..], t, o, k);
    }
  }

  /** A pair that a transaction has claimed, in whatever savepoint, stays bound for it through releases and
      whatever others do, until a rollback drops it; if nothing does and its commit is accepted, the root
      binds the pair. */
  lemma AcceptedClaimsReachTheRoot(limit: Option<nat>, s: State, t: nat, o: Owner, k: Key, run: seq<Event>)
    requires Inv(limit, s) && Enabled(s, Claim(t, o, k)) && FrameClaim(limit, s.root, Top(s.open[t]), o, k).0.Accepted?
    requires var s1 := Apply(limit, s, Claim(t, o, k)); Legal(limit, s1, run) && KeptIn(limit, s1, run, t)
    ensures var s2 := After(limit, Apply(limit, s, Claim(t, o, k)), run);
      && BoundFor(s2, t, o, k)
      && (Enabled(s2, Commit(t)) && Merge(limit, s2.root, Top(s2.open[t])).0.Accepted? ==>
            Binds(Apply(limit, s2, Commit(t)).root, o, k))
  {
    hide Inv, FrameClaim, BoundFor, Merge, Binds;
    ClaimIsBound(limit, s, t, o, k);
    StepKeepsInv(limit, s, Claim(t, o, k));
    hide Apply, Enabled, Top;
    BindingReachesTheRoot(limit, Apply(limit, s, Claim(t, o, k)), t, o, k, run);
  }

  lemma BindingReachesTheRoot(limit: Option<nat>, s: State, t: nat, o: Owner, k: Key, run: seq<Event>)
    requires Inv(limit, s) && BoundFor(s, t, o, k) && Legal(limit, s, run) && KeptIn(limit, s, run, t)
    ensures var s2 := After(limit, s, run);
      && BoundFor(s2, t, o, k)
      && (Enabled(s2, Commit(t)) && Merge(limit, s2.root, Top(s2.open[t])).0.Accepted? ==>
            Binds(Apply(limit, s2, Commit(t)).root, o, k))
  {
    hide Inv, BoundFor, Merge, Binds, Apply;
    BindingStays(limit, s, run, t, o, k);
    RunKeepsInv(limit, s, run);
    var s2 := After(limit, s, run);
    hide Legal, After, KeptIn;
    if Enabled(s2, Commit(t)) && Merge(limit, s2.root, Top(s2.open[t])).0.Accepted? { AcceptedMergeBinds(limit, s2, t, o, k); }
  }

  lemma ClaimIsBound(limit: Option<nat>, s: State, t: nat, o: Owner, k: Key)
    requires Inv(limit, s) && Enabled(s, Claim(t, o, k)) && FrameClaim(limit, s.root, Top(s.open[t]), o, k).0.Accepted?
    ensures BoundFor(Apply(limit, s, Claim(t, o, k)), t, o, k)
  {
    hide Fits, FrameClaim, Binds, Stable, Extends;
    assert FramesOk(s.open[t]) && Inverse(Top(s.open[t]));
    hide Inv, FramesOk;
    AcceptedClaimBinds(limit, s.root, Top(s.open[t]), o, k);
  }

  lemma AcceptedClaimBinds(limit: Option<nat>, root: Maps, frame: Maps, o: Owner, k: Key)
    requires Inverse(root) && Inverse(frame) && FrameClaim(limit, root, frame, o, k).0.Accepted?
    ensures Binds(root, o, k) || Binds(FrameClaim(limit, root, frame, o, k).1, o, k)
  {
    ClaimBindsThePair(limit, root, frame, o, k);
    hide Fits;
  }

  lemma AcceptedMergeBinds(limit: Option<nat>, s: State, t: nat, o: Owner, k: Key)
    requires Inv(limit, s) && t in s.open && |s.open[t]| == 1 && BoundFor(s, t, o, k)
    requires Merge(limit, s.root, Top(s.open[t])).0.Accepted?
    ensures Binds(Apply(limit, s, Commit(t)).root, o, k)
  {
    assert FramesOk(s.open[t]) && Inverse(Top(s.open[t]));
    hide FramesOk, Fits;
    PlusKeepsInverse(s.root, Top(s.open[t]));
    hide Inverse, Compatible;
  }

  // ---------------------------------------------------------------- what a rollback drops

  /** The stack of t stays higher than `depth` all along. */
  ghost predicate Above(limit: Option<nat>, s: State, run: seq<Event>, t: nat, depth: nat)
    requires Legal(limit, s, run)
    decreases |run|
  {
    && t in s.open && |s.open[t]| > depth
    && (run == [] || Above(limit, Apply(limit, s, run[0]), run[1..], t, depth))
  }

  lemma LowerFramesStep(limit: Option<nat>, s: State, e: Event, t: nat, depth: nat)
    requires Enabled(s, e) && t in s.open && |s.open[t]| > depth
    requires t in Apply(limit, s, e).open && |Apply(limit, s, e).open[t]| > depth
    ensures Apply(limit, s, e).open[t][..depth] == s.open[t][..depth]
  {
    hide ReleaseInto, FrameClaim, RootClaim, Merge;
  }

  lemma {:induction false} LowerFramesStay(limit: Option<nat>, s: State, run: seq<Event>, t: nat, depth: nat)
    requires Legal(limit, s, run) && Above(limit, s, run, t, depth)
    ensures t in After(limit, s, run).open && |After(limit, s, run).open[t]| > depth
    ensures After(limit, s, run).open[t][..depth] == s.open[t][..depth]
    decreases |run|
  {
    hide Apply, Enabled;
    if run != [] {
      LowerFramesStep(limit, s, run[0], t, depth);
      LowerFramesStay(limit, Apply(limit, s, run[0]), run[1..], t, depth);
    }
  }

  /** A savepoint starts with the entries of the frame around it, and rolling it back leaves that frame as it
      was, whatever was claimed in the savepoint and in savepoints inside it; nothing reaches the root. */
  lemma RolledBackSavepointLeavesNothing(limit: Option<nat>, s: State, t: nat, run: seq<Event>)
    requires Enabled(s, OpenSavepoint(t)) && Legal(limit, Apply(limit, s, OpenSavepoint(t)), run)
    requires Above(limit, Apply(limit, s, OpenSavepoint(t)), run, t, |s.open[t]|)
    requires var s2 := After(limit, Apply(limit, s, OpenSavepoint(t)), run); t in s2.open && |s2.open[t]| == |s.open[t]| + 1
    ensures Top(Apply(limit, s, OpenSavepoint(t)).open[t]) == Top(s.open[t])
    ensures var s2 := After(limit, Apply(limit, s, OpenSavepoint(t)), run);
      && Enabled(s2, RollBackSavepoint(t))
      && Apply(limit, s2, RollBackSavepoint(t)).open[t] == s.open[t]
      && Apply(limit, s2, RollBackSavepoint(t)).root == s2.root
  {
    LowerFramesStay(limit, Apply(limit, s, OpenSavepoint(t)), run, t, |s.open[t]|);
    hide Legal, After, Above;
    assert Apply(limit, s, OpenSavepoint(t)).open[t][..|s.open[t]|] == s.open[t];
  }

  /** Only claims outside transactions and commits change the root. */
  lemma RootChangesByClaimOrCommit(limit: Option<nat>, s: State, e: Event)
    requires Enabled(s, e) && !e.ClaimOutside? && !e.Commit?
    ensures Apply(limit, s, e).root == s.root
  {
  }

  // ---------------------------------------------------------------- which transactions are open

  /** Of the events that begin or end t, the last one began it. */
  predicate BegunLast(run: seq<Event>, t: nat) {
    && run != []
    && var last := run[|run| - 1];
       last == Begin(t) || (last != RollBack(t) && last != Commit(t) && BegunLast(run[..|run| - 1], t))
  }

  lemma {:induction false} AfterLast(limit: Option<nat>, s: State, run: seq<Event>)
    requires run != [] && Legal(limit, s, run)
    ensures var before, last := run[..|run| - 1], run[|run| - 1];
      && Legal(limit, s, before) && Enabled(After(limit, s, before), last)
      && After(limit, s, run) == Apply(limit, After(limit, s, before), last)
    decreases |run|
  {
    if |run| > 1 {
      AfterLast(limit, Apply(limit, s, run[0]), run[1..]);
      assert run[1..][..|run| - 2] == run[..|run| - 1][1..];
    }
  }

  /** The frames that t has open after the run: one, and one more for every savepoint that has not ended. */
  function Depth(run: seq<Event>, t: nat): int {
    if run == [] then 0
    else
      var last, before := run[|run| - 1], run[..|run| - 1];
      if last == Begin(t) then 1
      else if last == OpenSavepoint(t) then Depth(before, t) + 1
      else if last == Release(t) || last == RollBackSavepoint(t) then Depth(before, t) - 1
      else Depth(before, t)
  }

  lemma OpenStep(limit: Option<nat>, s: State, e: Event, t: nat)
    requires Enabled(s, e)
    ensures t in Apply(limit, s, e).open <==> e == Begin(t) || (t in s.open && e != RollBack(t) && e != Commit(t))
    ensures e == Begin(t) ==> Apply(limit, s, e).open[t] == [NoKeys]
    ensures t in Apply(limit, s, e).open && e != Begin(t) ==>
      |Apply(limit, s, e).open[t]| == |s.open[t]| + (if e == OpenSavepoint(t) then 1 else if e == Release(t) || e == RollBackSavepoint(t) then -1 else 0)
  {
    hide Fits, FrameClaim, RootClaim, Merge, ReleaseInto;
  }

  /** A transaction is open from its beginning, where it has one frame without entries, to its rollback or
      commit, and then has a frame for every savepoint that was opened and has not ended. */
  lemma {:induction false} OpenIffBegunLast(limit: Option<nat>, run: seq<Event>, t: nat)
    requires Legal(limit, Start, run)
    ensures var open := After(limit, Start, run).open;
      && (t in open <==> BegunLast(run, t))
      && (t in open ==> |open[t]| == Depth(run, t))
      && (run != [] && run[|run| - 1] == Begin(t) ==> t in open && open[t] == [NoKeys])
    decreases |run|
  {
    hide Apply, Enabled;
    if run != [] {
      AfterLast(limit, Start, run);
      OpenIffBegunLast(limit, run[..|run| - 1], t);
      hide Legal, After;
      OpenStep(limit, After(limit, Start, run[..|run| - 1]), run[|run| - 1], t);
    }
  }

  /** An open transaction can claim, open savepoints and roll back; it can end a savepoint while one is open, and
      commit when none is. */
  lemma OpenTransactionsGoOn(limit: Option<nat>, run: seq<Event>, t: nat, o: Owner, k: Key)
    requires Legal(limit, Start, run) && BegunLast(run, t)
    ensures var s := After(limit, Start, run);
      && Enabled(s, Claim(t, o, k)) && Enabled(s, OpenSavepoint(t)) && Enabled(s, RollBack(t))
      && (Enabled(s, Release(t)) <==> Depth(run, t) > 1) && (Enabled(s, RollBackSavepoint(t)) <==> Depth(run, t) > 1)
      && (Enabled(s, Commit(t)) <==> Depth(run, t) == 1)
  {
    NoKeysInverse();
    hide Inverse, Legal, After, BegunLast;
    RunKeepsInv(limit, Start, run);
    OpenIffBegunLast(limit, run, t);
    assert FramesOk(After(limit, Start, run).open[t]);
  }
}
