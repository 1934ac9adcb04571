/** The deferred work of nested transactions. */
module TransactionFrames {
  import opened Epochs

  // Commit tasks, rollback tasks and pending cache invalidations are merged or run as savepoints are
  // released, rolled back or left unconfirmed. Frame 0 is the root attempt. Frames of one
  // transaction may be open side by side and register tasks in any interleaving. A frame is released
  // or rolled back after the savepoints opened in it have ended; a frame left unconfirmed, and the
  // root, may end before them, and what is handed to an ended frame stays there.

  /** Internal tasks run before user tasks. An invalidation task evicts one key. */
  datatype Kind = Internal | User | Rollback | Invalidation(key: Key)

  /** A registered task; its number is its position in the history of registrations. */
  datatype Task = Task(kind: Kind, frame: nat)

  datatype Status = Open | Released | RolledBack | Failed | Committed | Unknown

  /** TransactionState: the three task lists and the invalidation recorded for each key. */
  datatype Tx = Tx(
    internalAfterCommit: seq<nat>,
    afterCommit: seq<nat>,
    afterRollback: seq<nat>,
    cacheInvalidations: map<Key, nat>)

  function EmptyTx(): Tx { Tx([], [], [], map[]) }

  /** The numbers of xs that satisfy keep, in order. */
  function Filter(xs: seq<nat>, keep: nat -> bool): seq<nat> {
    if xs == [] then [] else (if keep(xs[0]) then [xs[0]] else []) + Filter(xs[1..], keep)
  }

  /** The child's invalidation task for a key is accepted when the parent has none recorded. */
  predicate Accepted(parent: Tx, child: Tx, t: nat) {
    exists k :: k in child.cacheInvalidations && child.cacheInvalidations[k] == t && k !in parent.cacheInvalidations
  }

  predicate Kept(parent: Tx, child: Tx, t: nat) {
    t in child.cacheInvalidations.Values ==> Accepted(parent, child, t)
  }

  function KeptTasks(parent: Tx, child: Tx): nat -> bool { (t: nat) => Kept(parent, child, t) }

  /** The parent after releasing the child into it. */
  function Release(parent: Tx, child: Tx): Tx {
    Tx(parent.internalAfterCommit + Filter(child.internalAfterCommit, KeptTasks(parent, child)),
       parent.afterCommit + child.afterCommit,
       parent.afterRollback + child.afterRollback,
       child.cacheInvalidations + parent.cacheInvalidations)
  }

  /** The parent after a child whose rollback is not confirmed: no commit task is inherited. */
  function Fail(parent: Tx, child: Tx): Tx {
    parent.(afterRollback := parent.afterRollback + child.afterRollback,
            cacheInvalidations := child.cacheInvalidations + parent.cacheInvalidations)
  }

  /** `late` is history: the frame was handed on although its parent had ended. */
  datatype Frame = Frame(parent: nat, status: Status, rollbackOnly: bool, late: bool, tx: Tx)

  /** `tasks`, `asked` and `ran...` are history: every registration, every invalidate() call with the
      frame it was made in, and the tasks that were run. */
  datatype State = State(
    frames: seq<Frame>,
    tasks: seq<Task>,
    asked: set<(nat, Key)>,
    ranCommit: seq<nat>,
    ranRollback: seq<nat>,
    evicted: map<Key, nat>)

  datatype Event =
    | OpenFrame(parent: nat)
    | Register(f: nat, kind: Kind)
    | Invalidate(f: nat, key: Key)
    | ReleaseFrame(f: nat)
    | RollBackFrame(f: nat)
    | FailFrame(f: nat, marksAncestors: bool)
    | CommitRoot
    | UnknownRoot

  predicate IsOpen(s: State, f: nat) { f < |s.frames| && s.frames[f].status.Open? }

  ghost predicate ChildrenClosed(s: State, f: nat) {
    forall c :: 0 < c < |s.frames| && s.frames[c].parent == f ==> !s.frames[c].status.Open?
  }

  /** The callback of the frame may still run, and savepoints may still begin or end in it. */
  predicate MayRun(s: State, f: nat) {
    f < |s.frames| && (f == 0 || s.frames[f].status.Open? || s.frames[f].status.Failed?)
  }

  ghost predicate Enabled(s: State, e: Event) {
    match e
    case OpenFrame(p) => MayRun(s, p)
    case Register(f, kind) => IsOpen(s, f) && !kind.Invalidation?
    case Invalidate(f, _) => IsOpen(s, f)
    case ReleaseFrame(f) => f > 0 && IsOpen(s, f) && ChildrenClosed(s, f) && s.frames[f].parent < f
    case RollBackFrame(f) => IsOpen(s, f) && (f > 0 ==> ChildrenClosed(s, f))
    case FailFrame(f, _) => f > 0 && IsOpen(s, f) && s.frames[f].parent < f
    case CommitRoot => IsOpen(s, 0)
    case UnknownRoot => IsOpen(s, 0)
  }

  function Add(tx: Tx, kind: Kind, t: nat): Tx {
    match kind
    case Internal => tx.(internalAfterCommit := tx.internalAfterCommit + [t])
    case User => tx.(afterCommit := tx.afterCommit + [t])
    case Rollback => tx.(afterRollback := tx.afterRollback + [t])
    case Invalidation(k) => tx.(internalAfterCommit := tx.internalAfterCommit + [t], cacheInvalidations := tx.cacheInvalidations[k := t])
  }

  /** A frame below its parent: an unconfirmed savepoint makes every frame around it rollback-only. */
  ghost predicate Around(fs: seq<Frame>, a: nat, f: nat)
    decreases f
  {
    f > 0 && f < |fs| && fs[f].parent < f && (a == fs[f].parent || Around(fs, a, fs[f].parent))
  }

  ghost function Apply(s: State, e: Event): State
    requires Enabled(s, e)
  {
    match e
    case OpenFrame(p) => s.(frames := s.frames + [Frame(p, Open, false, false, EmptyTx())])
    case Register(f, kind) =>
      s.(tasks := s.tasks + [Task(kind, f)], frames := s.frames[f := s.frames[f].(tx := Add(s.frames[f].tx, kind, |s.tasks|))])
    case Invalidate(f, k) =>
      var asked := s.asked + {(f, k)};
      if k in s.frames[f].tx.cacheInvalidations then s.(asked := asked)
      else
        s.(asked := asked, tasks := s.tasks + [Task(Invalidation(k), f)],
           frames := s.frames[f := s.frames[f].(tx := Add(s.frames[f].tx, Invalidation(k), |s.tasks|))])
    case ReleaseFrame(f) =>
      var p := s.frames[f].parent;
      s.(frames := s.frames[p := s.frames[p].(tx := Release(s.frames[p].tx, s.frames[f].tx))][f := s.frames[f].(status := Released, late := !IsOpen(s, p))])
    case RollBackFrame(f) =>
      s.(frames := s.frames[f := s.frames[f].(status := RolledBack)], ranRollback := s.ranRollback + s.frames[f].tx.afterRollback)
    case FailFrame(f, marks) =>
      var p := s.frames[f].parent;
      var fs := s.frames[p := s.frames[p].(tx := Fail(s.frames[p].tx, s.frames[f].tx))][f := s.frames[f].(status := Failed, late := !IsOpen(s, p))];
      s.(frames := if marks then seq(|fs|, i requires 0 <= i < |fs| => if Around(fs, i, f) then fs[i].(rollbackOnly := true) else fs[i]) else fs)
    case CommitRoot =>
      s.(frames := s.frames[0 := s.frames[0].(status := Committed)],
         ranCommit := s.frames[0].tx.internalAfterCommit + s.frames[0].tx.afterCommit)
    case UnknownRoot =>
      s.(frames := s.frames[0 := s.frames[0].(status := Unknown)], evicted := s.frames[0].tx.cacheInvalidations)
  }

  /** A root attempt starts with one internal task, the merge of its cache-key ownership. */
  ghost function Start(): State {
    State([Frame(0, Open, false, false, Tx([0], [], [], map[]))], [Task(Internal, 0)], {}, [], [], map[])
  }

  // ---------------------------------------------------------------- who holds a frame's tasks

  ghost predicate Tree(fs: seq<Frame>) {
    |fs| > 0 && forall i :: 0 < i < |fs| ==> fs[i].parent < i
  }

  /** The frame has handed its rollback tasks and recorded invalidations to its parent. */
  predicate Handed(f: Frame) { f.status.Released? || f.status.Failed? }

  /** It did so while the parent was open; commit tasks are handed on by a release only. */
  predicate PassedOn(f: Frame, uncertain: bool) { !f.late && (f.status.Released? || (uncertain && f.status.Failed?)) }

  /** The frame that now holds what frame g collected: with `uncertain`, its rollback tasks and recorded
      invalidations, otherwise its commit tasks. */
  ghost function Holder(fs: seq<Frame>, g: nat, uncertain: bool): (h: nat)
    requires Tree(fs) && g < |fs|
    ensures h <= g
    decreases g
  {
    if g > 0 && PassedOn(fs[g], uncertain) then Holder(fs, fs[g].parent, uncertain) else g
  }

  /** Released into its parent, and so on all the way up to the root. */
  ghost predicate Survives(fs: seq<Frame>, g: nat)
    requires Tree(fs) && g < |fs|
    decreases g
  {
    g == 0 || (fs[g].status.Released? && Survives(fs, fs[g].parent))
  }

  /** A frame that was handed on late had a parent that was left unconfirmed, or was the ended root. */
  ghost predicate LateShape(fs: seq<Frame>)
    requires Tree(fs)
  {
    forall i :: 0 <= i < |fs| && fs[i].late ==>
      i > 0 && Handed(fs[i]) && if fs[i].parent == 0 then !fs[0].status.Open? else fs[fs[i].parent].status.Failed?
  }

  lemma {:induction false} SurvivesMeansHeldByRoot(fs: seq<Frame>, g: nat)
    requires Tree(fs) && LateShape(fs) && fs[0].status.Open? && g < |fs|
    ensures Survives(fs, g) <==> Holder(fs, g, false) == 0
    decreases g
  {
    if g > 0 { SurvivesMeansHeldByRoot(fs, fs[g].parent); }
  }

  /** What frame c held moves to its parent if c passes it on; nothing else moves. */
  lemma {:induction false} HolderMoves(fs: seq<Frame>, fs': seq<Frame>, c: nat, g: nat, uncertain: bool)
    requires Tree(fs) && Tree(fs') && g < |fs| <= |fs'|
    requires forall i :: 0 <= i < |fs| ==>
      fs'[i].parent == fs[i].parent && (i != c ==> fs'[i].status == fs[i].status && fs'[i].late == fs[i].late)
    requires c < |fs| && fs[c].status.Open?
    requires c > 0 && PassedOn(fs'[c], uncertain) ==> fs[fs[c].parent].status.Open?
    ensures Holder(fs', g, uncertain) ==
      if Holder(fs, g, uncertain) != c then Holder(fs, g, uncertain)
      else if c > 0 && PassedOn(fs'[c], uncertain) then fs[c].parent else c
    decreases g
  {
    if g > 0 && PassedOn(fs[g], uncertain) {
      HolderMoves(fs, fs', c, fs[g].parent, uncertain);
    }
  }

  lemma {:induction false} HoldersAgree(fs: seq<Frame>, g: nat)
    requires Tree(fs) && g < |fs|
    ensures (forall i :: 0 <= i < |fs| ==> !fs[i].status.Failed?) ==> Holder(fs, g, true) == Holder(fs, g, false)
    ensures fs[Holder(fs, g, false)].status.Open? ==> Holder(fs, g, true) == Holder(fs, g, false)
    decreases g
  {
    if g > 0 && PassedOn(fs[g], false) { HoldersAgree(fs, fs[g].parent); }
  }

  // ---------------------------------------------------------------- the invariant

  ghost predicate Shape(s: State) {
    && Tree(s.frames)
    && (forall t :: 0 <= t < |s.tasks| ==> s.tasks[t].frame < |s.frames|)
    && (forall i :: 0 < i < |s.frames| && s.frames[i].status.Open? ==> MayRun(s, s.frames[i].parent))
    && LateShape(s.frames)
    && (forall a :: a in s.asked ==> a.0 < |s.frames|)
  }

  ghost predicate HeldBy(s: State, t: nat, f: nat, uncertain: bool)
    requires Shape(s)
  {
    t < |s.tasks| && Holder(s.frames, s.tasks[t].frame, uncertain) == f
  }

  /** Tasks of one frame appear in the order they were registered; in particular none appears twice. */
  ghost predicate InOrder(tasks: seq<Task>, list: seq<nat>) {
    forall i, j :: 0 <= i < j < |list| && list[i] < |tasks| && list[j] < |tasks| && tasks[list[i]].frame == tasks[list[j]].frame ==>
      list[i] < list[j]
  }

  /** The list holds exactly the tasks of one kind that belong to f. */
  ghost predicate ListOk(s: State, list: seq<nat>, kind: Kind, f: nat, uncertain: bool)
    requires Shape(s)
  {
    && (forall t: nat :: t in list <==> HeldBy(s, t, f, uncertain) && s.tasks[t].kind == kind)
    && InOrder(s.tasks, list)
  }

  predicate Recorded(kind: Kind, ci: map<Key, nat>, t: nat) {
    kind.Internal? || (kind.Invalidation? && kind.key in ci && ci[kind.key] == t)
  }

  ghost predicate InternalOk(s: State, list: seq<nat>, ci: map<Key, nat>, f: nat)
    requires Shape(s)
  {
    && (forall t: nat :: t in list <==> HeldBy(s, t, f, false) && Recorded(s.tasks[t].kind, ci, t))
    && InOrder(s.tasks, list)
  }

  ghost predicate InvalidationsOk(s: State, ci: map<Key, nat>, f: nat)
    requires Shape(s)
  {
    && (forall k :: k in ci ==> HeldBy(s, ci[k], f, true) && s.tasks[ci[k]].kind == Invalidation(k))
    && (forall a :: a in s.asked && Holder(s.frames, a.0, true) == f ==> a.1 in ci)
  }

  ghost predicate TxOk(s: State, tx: Tx, f: nat)
    requires Shape(s)
  {
    && ListOk(s, tx.afterCommit, User, f, false)
    && ListOk(s, tx.afterRollback, Rollback, f, true)
    && InternalOk(s, tx.internalAfterCommit, tx.cacheInvalidations, f)
    && InvalidationsOk(s, tx.cacheInvalidations, f)
  }

  ghost predicate FrameOk(s: State, f: nat)
    requires Shape(s) && f < |s.frames|
  {
    s.frames[f].status.Open? ==> TxOk(s, s.frames[f].tx, f)
  }

  ghost predicate RanOk(s: State)
    requires Shape(s)
  {
    && (forall t: nat :: t in s.ranRollback <==>
         t < |s.tasks| && s.tasks[t].kind.Rollback? && s.frames[Holder(s.frames, s.tasks[t].frame, true)].status.RolledBack?)
    && InOrder(s.tasks, s.ranRollback)
  }

  ghost predicate Core(s: State) {
    && Shape(s)
    && (forall f :: 0 <= f < |s.frames| ==> FrameOk(s, f))
    && RanOk(s)
    && (s.frames[0].status.Open? ==> s.ranCommit == [] && s.evicted == map[])
  }

  // ---------------------------------------------------------------- frames a step leaves alone

  /** What frame h holds is the same in both states; later registrations went elsewhere. */
  ghost predicate SameFor(s: State, s': State, h: nat)
    requires Shape(s) && Shape(s')
  {
    && |s.tasks| <= |s'.tasks| && s'.tasks[..|s.tasks|] == s.tasks
    && (forall t: nat, u: bool :: t < |s'.tasks| ==> (HeldBy(s', t, h, u) <==> HeldBy(s, t, h, u)))
    && (forall a :: a in s'.asked && Holder(s'.frames, a.0, true) == h ==> a in s.asked && Holder(s.frames, a.0, true) == h)
  }

  lemma OrderKept(tasks: seq<Task>, tasks': seq<Task>, list: seq<nat>)
    requires |tasks| <= |tasks'| && tasks'[..|tasks|] == tasks && InOrder(tasks, list) && forall t :: t in list ==> t < |tasks|
    ensures InOrder(tasks', list)
  {
    assert forall i :: 0 <= i < |list| ==> list[i] in list && tasks'[..|tasks|][list[i]] == tasks[list[i]];
  }

  lemma TxKept(s: State, s': State, tx: Tx, h: nat)
    requires Shape(s) && Shape(s') && SameFor(s, s', h) && TxOk(s, tx, h)
    ensures TxOk(s', tx, h)
  {
    hide InOrder, Shape;
    assert forall t :: 0 <= t < |s.tasks| ==> s'.tasks[..|s.tasks|][t] == s'.tasks[t];
    assert forall t: nat, u: bool :: HeldBy(s', t, h, u) <==> HeldBy(s, t, h, u);
    OrderKept(s.tasks, s'.tasks, tx.afterCommit);
    OrderKept(s.tasks, s'.tasks, tx.afterRollback);
    OrderKept(s.tasks, s'.tasks, tx.internalAfterCommit);
  }

  // ---------------------------------------------------------------- the steps

  /** Adding a frame, or changing only what open frames collect, moves nothing. */
  lemma {:induction false} HolderSame(fs: seq<Frame>, fs': seq<Frame>, g: nat, u: bool)
    requires Tree(fs) && Tree(fs') && g < |fs| <= |fs'|
    requires forall i :: 0 <= i < |fs| ==>
      fs'[i].parent == fs[i].parent && fs'[i].status == fs[i].status && fs'[i].late == fs[i].late
    ensures Holder(fs', g, u) == Holder(fs, g, u)
    decreases g
  {
    if Holder(fs, g, u) != g { HolderSame(fs, fs', fs[g].parent, u); }
  }

  lemma EmptyTxOk(s: State, n: nat)
    requires Shape(s)
    requires forall t: nat, u: bool :: !HeldBy(s, t, n, u)
    requires forall a :: a in s.asked ==> Holder(s.frames, a.0, true) != n
    ensures TxOk(s, EmptyTx(), n)
  {
  }

  lemma OpenHolders(s: State, s': State, p: nat)
    requires Core(s) && MayRun(s, p) && s' == s.(frames := s.frames + [Frame(p, Open, false, false, EmptyTx())])
    ensures Shape(s')
    ensures forall g: nat, u: bool :: g < |s.frames| ==> Holder(s'.frames, g, u) == Holder(s.frames, g, u)
    ensures forall t: nat, u: bool, h: nat :: HeldBy(s', t, h, u) <==> HeldBy(s, t, h, u)
    ensures forall t: nat, u: bool :: !HeldBy(s', t, |s.frames|, u)
  {
    hide TxOk, RanOk, FrameOk;
    assert Shape(s');
    forall g: nat, u: bool | g < |s.frames| ensures Holder(s'.frames, g, u) == Holder(s.frames, g, u) {
      HolderSame(s.frames, s'.frames, g, u);
    }
  }

  lemma KeptFrame(s: State, s': State, f: nat)
    requires Shape(s) && Shape(s') && f < |s.frames| <= |s'.frames| && s'.frames[f] == s.frames[f] && SameFor(s, s', f) && FrameOk(s, f)
    ensures FrameOk(s', f)
  {
    hide Shape, TxOk, SameFor;
    if s.frames[f].status.Open? { TxKept(s, s', s.frames[f].tx, f); }
  }

  lemma OldFrameAfterOpen(s: State, s': State, p: nat, f: nat)
    requires Core(s) && MayRun(s, p) && s' == s.(frames := s.frames + [Frame(p, Open, false, false, EmptyTx())]) && f < |s.frames|
    ensures Shape(s') && FrameOk(s', f)
  {
    assert Shape(s) && FrameOk(s, f);
    hide *;
    OpenHolders(s, s', p);
    KeptFrame(s, s', f);
  }

  lemma RanAfterOpen(s: State, s': State, p: nat)
    requires Core(s) && MayRun(s, p) && s' == s.(frames := s.frames + [Frame(p, Open, false, false, EmptyTx())])
    ensures Shape(s') && RanOk(s')
  {
    hide FrameOk, InOrder;
    OpenHolders(s, s', p);
    hide Holder, HeldBy;
  }

  lemma NewFrameAfterOpen(s: State, s': State, p: nat)
    requires Core(s) && MayRun(s, p) && s' == s.(frames := s.frames + [Frame(p, Open, false, false, EmptyTx())])
    ensures Shape(s') && FrameOk(s', |s.frames|)
  {
    hide FrameOk, RanOk, TxOk, InOrder, HeldBy;
    OpenHolders(s, s', p);
    forall a | a in s'.asked ensures Holder(s'.frames, a.0, true) != |s.frames| {
      assert Holder(s'.frames, a.0, true) == Holder(s.frames, a.0, true);
    }
    hide Holder, Core;
    EmptyTxOk(s', |s.frames|);
    NewFrameOk(s', |s.frames|);
  }

  lemma NewFrameOk(s: State, f: nat)
    requires Shape(s) && f < |s.frames| && s.frames[f].tx == EmptyTx() && TxOk(s, EmptyTx(), f)
    ensures FrameOk(s, f)
  {
  }

  lemma OpenStep(s: State, p: nat)
    requires Core(s) && Enabled(s, OpenFrame(p))
    ensures Core(Apply(s, OpenFrame(p)))
  {
    hide Shape, FrameOk, RanOk;
    var s' := Apply(s, OpenFrame(p));
    NewFrameAfterOpen(s, s', p);
    RanAfterOpen(s, s', p);
    forall f | 0 <= f < |s'.frames| ensures FrameOk(s', f) {
      if f < |s.frames| { OldFrameAfterOpen(s, s', p, f); }
    }
  }

  lemma AppendInOrder(tasks: seq<Task>, list: seq<nat>, task: Task)
    requires InOrder(tasks, list) && forall t :: t in list ==> t < |tasks|
    ensures InOrder(tasks + [task], list + [|tasks|])
  {
    assert forall i :: 0 <= i < |list| ==> list[i] in list;
  }

  /** Frame f registers a task of its own, in the state around it. */
  ghost predicate Added(s: State, s': State, f: nat, kind: Kind)
    requires Core(s)
  {
    && IsOpen(s, f)
    && (kind.Invalidation? ==> kind.key !in s.frames[f].tx.cacheInvalidations)
    && s'.frames == s.frames[f := s.frames[f].(tx := Add(s.frames[f].tx, kind, |s.tasks|))]
    && s'.tasks == s.tasks + [Task(kind, f)]
    && s'.asked == (if kind.Invalidation? then s.asked + {(f, kind.key)} else s.asked)
    && (s'.ranCommit, s'.ranRollback, s'.evicted) == (s.ranCommit, s.ranRollback, s.evicted)
  }

  lemma AddHolders(s: State, s': State, f: nat, kind: Kind)
    requires Core(s) && Added(s, s', f, kind)
    ensures Shape(s')
    ensures forall g: nat, u: bool :: g < |s.frames| ==> Holder(s'.frames, g, u) == Holder(s.frames, g, u)
    ensures forall h: nat, t: nat, u: bool :: h < |s.frames| ==>
      (HeldBy(s', t, h, u) <==> if t == |s.tasks| then h == f else HeldBy(s, t, h, u))
  {
    hide TxOk, InOrder;
    assert Shape(s');
    forall g: nat, u: bool | g < |s.frames| ensures Holder(s'.frames, g, u) == Holder(s.frames, g, u) {
      HolderSame(s.frames, s'.frames, g, u);
    }
  }

  lemma ListAfterAdd(s: State, s': State, f: nat, kind: Kind, list: seq<nat>, of: Kind, u: bool)
    requires Core(s) && Added(s, s', f, kind) && ListOk(s, list, of, f, u)
    ensures Shape(s') && ListOk(s', if kind == of then list + [|s.tasks|] else list, of, f, u)
  {
    hide Core, TxOk, InOrder;
    AddHolders(s, s', f, kind);
    AppendInOrder(s.tasks, list, Task(kind, f));
    OrderKept(s.tasks, s'.tasks, list);
  }

  lemma InternalAfterAdd(s: State, s': State, f: nat, kind: Kind, tx: Tx)
    requires Core(s) && Added(s, s', f, kind) && tx == s.frames[f].tx && TxOk(s, tx, f)
    ensures Shape(s') && InternalOk(s', Add(tx, kind, |s.tasks|).internalAfterCommit, Add(tx, kind, |s.tasks|).cacheInvalidations, f)
  {
    hide Core, InOrder, ListOk, InvalidationsOk;
    AddHolders(s, s', f, kind);
    AppendInOrder(s.tasks, tx.internalAfterCommit, Task(kind, f));
    OrderKept(s.tasks, s'.tasks, tx.internalAfterCommit);
    hide Shape, HeldBy;
  }

  lemma InvalidationsAfterAdd(s: State, s': State, f: nat, kind: Kind, tx: Tx)
    requires Core(s) && Added(s, s', f, kind) && tx == s.frames[f].tx && TxOk(s, tx, f)
    ensures Shape(s') && InvalidationsOk(s', Add(tx, kind, |s.tasks|).cacheInvalidations, f)
  {
    hide Core, InOrder, ListOk, InternalOk;
    AddHolders(s, s', f, kind);
  }

  lemma OwnTxAfterAdd(s: State, s': State, f: nat, kind: Kind)
    requires Core(s) && Added(s, s', f, kind)
    ensures Shape(s') && TxOk(s', s'.frames[f].tx, f)
  {
    hide InOrder, ListOk, InternalOk, InvalidationsOk, HeldBy, Holder;
    var tx := s.frames[f].tx;
    assert FrameOk(s, f);
    ListAfterAdd(s, s', f, kind, tx.afterCommit, User, false);
    ListAfterAdd(s, s', f, kind, tx.afterRollback, Rollback, true);
    InternalAfterAdd(s, s', f, kind, tx);
    InvalidationsAfterAdd(s, s', f, kind, tx);
  }

  lemma AddIsElsewhere(s: State, s': State, f: nat, kind: Kind, h: nat)
    requires Core(s) && Added(s, s', f, kind) && h < |s.frames| && h != f
    ensures Shape(s') && SameFor(s, s', h)
  {
    AddHolders(s, s', f, kind);
    HolderOfOpen(s.frames, f, true);
    hide Core, Shape, Holder, Add, HeldBy;
  }

  lemma OtherAfterAdd(s: State, s': State, f: nat, kind: Kind, h: nat)
    requires Core(s) && Added(s, s', f, kind) && h < |s.frames| && h != f
    ensures Shape(s') && FrameOk(s', h)
  {
    hide TxOk, InOrder, Holder, RanOk, SameFor, HeldBy, Add;
    AddIsElsewhere(s, s', f, kind, h);
    assert FrameOk(s, h);
    if s.frames[h].status.Open? { TxKept(s, s', s.frames[h].tx, h); }
  }

  lemma RanAfterAdd(s: State, s': State, f: nat, kind: Kind)
    requires Core(s) && Added(s, s', f, kind)
    ensures Shape(s') && RanOk(s')
  {
    hide TxOk, FrameOk, InOrder, Holder;
    AddHolders(s, s', f, kind);
    OrderKept(s.tasks, s'.tasks, s.ranRollback);
    assert Holder(s'.frames, f, true) == f by { assert s.frames[f].status.Open?; HolderOfOpen(s.frames, f, true); }
  }

  lemma HolderOfOpen(fs: seq<Frame>, f: nat, u: bool)
    requires Tree(fs) && f < |fs| && !fs[f].status.Released? && !fs[f].status.Failed?
    ensures Holder(fs, f, u) == f
  {
  }

  lemma AddStep(s: State, s': State, f: nat, kind: Kind)
    requires Core(s) && Added(s, s', f, kind)
    ensures Core(s')
  {
    hide TxOk, InOrder, Holder, Shape, RanOk, Add;
    RanAfterAdd(s, s', f, kind);
    forall h | 0 <= h < |s'.frames| ensures FrameOk(s', h) {
      if h == f { OwnTxAfterAdd(s, s', f, kind); } else { OtherAfterAdd(s, s', f, kind, h); }
    }
  }

  /** invalidate() for a key that the frame has already recorded. */
  lemma AskAgainStep(s: State, f: nat, k: Key)
    requires Core(s) && IsOpen(s, f) && k in s.frames[f].tx.cacheInvalidations
    ensures Core(s.(asked := s.asked + {(f, k)}))
  {
    hide InOrder, ListOk, InternalOk, RanOk;
    var s' := s.(asked := s.asked + {(f, k)});
    assert Shape(s');
    HolderOfOpen(s.frames, f, true);
    forall h | 0 <= h < |s'.frames| ensures FrameOk(s', h) {
      assert FrameOk(s, h);
      if s.frames[h].status.Open? { AskedTx(s, s', s.frames[h].tx, h); }
    }
    assert RanOk(s') by { AskedRan(s, s'); }
  }

  lemma AskedTx(s: State, s': State, tx: Tx, h: nat)
    requires Shape(s) && Shape(s') && s' == s.(asked := s'.asked) && TxOk(s, tx, h)
    requires forall a :: a in s'.asked && a !in s.asked && Holder(s.frames, a.0, true) == h ==> a.1 in tx.cacheInvalidations
    ensures TxOk(s', tx, h)
  {
    assert forall t: nat, u: bool :: HeldBy(s', t, h, u) <==> HeldBy(s, t, h, u);
    hide InOrder, HeldBy;
  }

  lemma AskedRan(s: State, s': State)
    requires Shape(s) && Shape(s') && s' == s.(asked := s'.asked) && RanOk(s)
    ensures RanOk(s')
  {
  }

  // ---------------------------------------------------------------- closing a savepoint

  lemma {:induction false} FilterMembers(xs: seq<nat>, keep: nat -> bool)
    ensures forall t: nat :: t in Filter(xs, keep) <==> t in xs && keep(t)
  {
    if xs != [] { FilterMembers(xs[1..], keep); }
  }

  lemma {:induction false} FilterInOrder(tasks: seq<Task>, xs: seq<nat>, keep: nat -> bool)
    requires InOrder(tasks, xs)
    ensures InOrder(tasks, Filter(xs, keep))
  {
    if xs != [] {
      FilterInOrder(tasks, xs[1..], keep);
      FilterMembers(xs[1..], keep);
      var rest := Filter(xs[1..], keep);
      assert forall i :: 0 <= i < |rest| ==> rest[i] in rest;
    }
  }

  /** Lists whose tasks come from different frames can be joined. */
  lemma JoinInOrder(tasks: seq<Task>, a: seq<nat>, b: seq<nat>)
    requires InOrder(tasks, a) && InOrder(tasks, b)
    requires forall x, y :: x in a && y in b ==> x < |tasks| && y < |tasks| && tasks[x].frame != tasks[y].frame
    ensures InOrder(tasks, a + b)
  {
    assert forall i :: 0 <= i < |a| ==> a[i] in a;
    assert forall i :: 0 <= i < |b| ==> b[i] in b;
  }

  /** Savepoint c ends as released or failed; only its status and what its parent holds change. */
  ghost predicate Closed(s: State, s': State, c: nat)
    requires Core(s)
  {
    && 0 < c && IsOpen(s, c) && |s'.frames| == |s.frames|
    && (s'.tasks, s'.asked, s'.ranCommit, s'.ranRollback, s'.evicted) == (s.tasks, s.asked, s.ranCommit, s.ranRollback, s.evicted)
    && (s'.frames[c].status.Failed? || (s'.frames[c].status.Released? && ChildrenClosed(s, c)))
    && s'.frames[c].late == !IsOpen(s, s.frames[c].parent)
    && (forall h :: 0 <= h < |s.frames| ==>
          && s'.frames[h].parent == s.frames[h].parent
          && (h != c ==> s'.frames[h].status == s.frames[h].status && s'.frames[h].late == s.frames[h].late)
          && (h != s.frames[c].parent ==> s'.frames[h].tx == s.frames[h].tx))
  }

  lemma CloseHolders(s: State, s': State, c: nat)
    requires Core(s) && Closed(s, s', c)
    ensures Shape(s')
    ensures forall g: nat, u: bool :: g < |s.frames| ==>
      Holder(s'.frames, g, u) ==
        if Holder(s.frames, g, u) != c then Holder(s.frames, g, u)
        else if PassedOn(s'.frames[c], u) then s.frames[c].parent else c
  {
    hide RanOk, FrameOk;
    forall g: nat, u: bool | g < |s.frames|
      ensures Holder(s'.frames, g, u) ==
        if Holder(s.frames, g, u) != c then Holder(s.frames, g, u)
        else if PassedOn(s'.frames[c], u) then s.frames[c].parent else c
    {
      HolderMoves(s.frames, s'.frames, c, g, u);
    }
  }

  lemma CloseHeld(s: State, s': State, c: nat)
    requires Core(s) && Closed(s, s', c)
    ensures Shape(s')
    ensures var p := s.frames[c].parent; forall t: nat, u: bool ::
      HeldBy(s', t, p, u) <==> HeldBy(s, t, p, u) || (PassedOn(s'.frames[c], u) && HeldBy(s, t, c, u))
    ensures forall t: nat, u: bool, h: nat :: h != c && h != s.frames[c].parent ==> (HeldBy(s', t, h, u) <==> HeldBy(s, t, h, u))
    ensures forall t: nat, u: bool :: !(HeldBy(s, t, c, u) && HeldBy(s, t, s.frames[c].parent, u))
  {
    CloseHolders(s, s', c);
    hide Core, Holder;
  }

  lemma ListAfterClose(s: State, s': State, c: nat, list: seq<nat>, moved: seq<nat>, of: Kind, u: bool)
    requires Core(s) && Closed(s, s', c)
    requires ListOk(s, list, of, s.frames[c].parent, u) && ListOk(s, moved, of, c, u)
    ensures Shape(s') && ListOk(s', if PassedOn(s'.frames[c], u) then list + moved else list, of, s.frames[c].parent, u)
  {
    hide Core, InOrder, Holder;
    CloseHeld(s, s', c);
    JoinInOrder(s.tasks, list, moved);
  }

  lemma OtherAfterClose(s: State, s': State, c: nat, h: nat)
    requires Core(s) && Closed(s, s', c) && h < |s.frames| && h != s.frames[c].parent
    ensures Shape(s') && FrameOk(s', h)
  {
    hide TxOk, RanOk, Holder, HeldBy, SameFor;
    CloseHolders(s, s', c);
    assert FrameOk(s, h);
    if h != c && s.frames[h].status.Open? {
      CloseIsElsewhere(s, s', c, h);
      TxKept(s, s', s.frames[h].tx, h);
    }
  }

  lemma CloseIsElsewhere(s: State, s': State, c: nat, h: nat)
    requires Core(s) && Closed(s, s', c) && h < |s.frames| && h != s.frames[c].parent && h != c
    ensures Shape(s') && SameFor(s, s', h)
  {
    CloseHolders(s, s', c);
    CloseHeld(s, s', c);
    hide Core, Shape, Holder, HeldBy;
  }

  lemma RanAfterClose(s: State, s': State, c: nat)
    requires Core(s) && Closed(s, s', c)
    ensures Shape(s') && RanOk(s')
  {
    hide FrameOk, InOrder;
    CloseHolders(s, s', c);
    hide Holder;
  }

  /** The keys recorded by either side, the parent's task winning. */
  lemma InvalidationsAfterClose(s: State, s': State, c: nat, parent: map<Key, nat>, child: map<Key, nat>)
    requires Core(s) && Closed(s, s', c) && IsOpen(s, s.frames[c].parent)
    requires InvalidationsOk(s, parent, s.frames[c].parent) && InvalidationsOk(s, child, c)
    ensures Shape(s') && InvalidationsOk(s', child + parent, s.frames[c].parent)
  {
    hide Core, Holder;
    CloseHolders(s, s', c);
    CloseHeld(s, s', c);
    hide HeldBy, Shape;
  }

  /** A parent keeps its own tasks and inherits only the child's tasks for keys new to it. */
  lemma MergedTasks(s: State, parent: Tx, child: Tx, c: nat, t: nat)
    requires Shape(s) && 0 < c && IsOpen(s, c) && IsOpen(s, s.frames[c].parent)
    requires InvalidationsOk(s, parent.cacheInvalidations, s.frames[c].parent) && InvalidationsOk(s, child.cacheInvalidations, c)
    ensures HeldBy(s, t, c, false) && Recorded(s.tasks[t].kind, child.cacheInvalidations, t) ==>
      (Kept(parent, child, t) <==> Recorded(s.tasks[t].kind, child.cacheInvalidations + parent.cacheInvalidations, t))
    ensures HeldBy(s, t, c, false) && Recorded(s.tasks[t].kind, child.cacheInvalidations + parent.cacheInvalidations, t) ==>
      Recorded(s.tasks[t].kind, child.cacheInvalidations, t)
    ensures HeldBy(s, t, s.frames[c].parent, false) ==>
      (Recorded(s.tasks[t].kind, parent.cacheInvalidations, t)
       <==> Recorded(s.tasks[t].kind, child.cacheInvalidations + parent.cacheInvalidations, t))
  {
    if t < |s.tasks| { HoldersAgree(s.frames, s.tasks[t].frame); }
  }

  lemma InternalAfterRelease(s: State, s': State, c: nat, parent: Tx, child: Tx)
    requires Core(s) && Closed(s, s', c) && s'.frames[c].status.Released? && IsOpen(s, s.frames[c].parent)
    requires TxOk(s, parent, s.frames[c].parent) && TxOk(s, child, c)
    ensures Shape(s')
    ensures InternalOk(s', Release(parent, child).internalAfterCommit, Release(parent, child).cacheInvalidations, s.frames[c].parent)
  {
    CloseHeld(s, s', c);
    hide Core, InOrder, Holder, HeldBy, ListOk, Kept, Recorded, InvalidationsOk;
    var keep := KeptTasks(parent, child);
    var inherited := Filter(child.internalAfterCommit, keep);
    FilterMembers(child.internalAfterCommit, keep);
    FilterInOrder(s.tasks, child.internalAfterCommit, keep);
    forall t: nat { MergedTasks(s, parent, child, c, t); }
    JoinInOrder(s.tasks, parent.internalAfterCommit, inherited);
  }

  lemma InternalAfterFail(s: State, s': State, c: nat, parent: Tx, child: Tx)
    requires Core(s) && Closed(s, s', c) && s'.frames[c].status.Failed? && IsOpen(s, s.frames[c].parent)
    requires TxOk(s, parent, s.frames[c].parent) && TxOk(s, child, c)
    ensures Shape(s') && InternalOk(s', parent.internalAfterCommit, Fail(parent, child).cacheInvalidations, s.frames[c].parent)
  {
    CloseHeld(s, s', c);
    hide Core, InOrder, Holder, HeldBy, ListOk, Kept, Recorded, InvalidationsOk;
    forall t: nat { MergedTasks(s, parent, child, c, t); }
  }

  lemma ParentAfterClose(s: State, s': State, c: nat)
    requires Core(s) && Closed(s, s', c) && IsOpen(s, s.frames[c].parent)
    requires var p := s.frames[c].parent;
      s'.frames[p].tx == if s'.frames[c].status.Released? then Release(s.frames[p].tx, s.frames[c].tx) else Fail(s.frames[p].tx, s.frames[c].tx)
    ensures Shape(s') && FrameOk(s', s.frames[c].parent)
  {
    var p := s.frames[c].parent;
    var parent, child := s.frames[p].tx, s.frames[c].tx;
    assert FrameOk(s, p) && FrameOk(s, c);
    hide Core, InternalOk, ListOk, InvalidationsOk, Holder;
    ListAfterClose(s, s', c, parent.afterCommit, child.afterCommit, User, false);
    ListAfterClose(s, s', c, parent.afterRollback, child.afterRollback, Rollback, true);
    InvalidationsAfterClose(s, s', c, parent.cacheInvalidations, child.cacheInvalidations);
    if s'.frames[c].status.Released? { InternalAfterRelease(s, s', c, parent, child); }
    else { InternalAfterFail(s, s', c, parent, child); }
  }

  lemma EndedFrameOk(s: State, h: nat)
    requires Shape(s) && h < |s.frames| && !s.frames[h].status.Open?
    ensures FrameOk(s, h)
  {
  }

  lemma CloseStep(s: State, s': State, c: nat)
    requires Core(s) && Closed(s, s', c)
    requires var p := s.frames[c].parent;
      s'.frames[p].tx == if s'.frames[c].status.Released? then Release(s.frames[p].tx, s.frames[c].tx) else Fail(s.frames[p].tx, s.frames[c].tx)
    ensures Core(s')
  {
    hide FrameOk, RanOk, Release, Fail;
    RanAfterClose(s, s', c);
    forall h | 0 <= h < |s'.frames| ensures FrameOk(s', h) {
      if h != s.frames[c].parent { OtherAfterClose(s, s', c, h); }
      else if IsOpen(s, h) { ParentAfterClose(s, s', c); }
      else { EndedFrameOk(s', h); }
    }
  }

  // ---------------------------------------------------------------- rolling back, and the root's end

  /** Frame f ends without handing anything on. */
  lemma EndHolders(s: State, s': State, f: nat, status: Status)
    requires Core(s) && IsOpen(s, f) && (f > 0 ==> status.RolledBack? && ChildrenClosed(s, f))
    requires !status.Open? && !status.Released? && !status.Failed? && s'.frames == s.frames[f := s.frames[f].(status := status)]
    requires s'.tasks == s.tasks && s'.asked == s.asked
    ensures Shape(s')
    ensures forall g: nat, u: bool :: g < |s.frames| ==> Holder(s'.frames, g, u) == Holder(s.frames, g, u)
    ensures forall h :: 0 <= h < |s.frames| ==> FrameOk(s', h)
  {
    hide RanOk, TxOk;
    assert Shape(s');
    forall g: nat, u: bool | g < |s.frames| ensures Holder(s'.frames, g, u) == Holder(s.frames, g, u) {
      HolderMoves(s.frames, s'.frames, f, g, u);
    }
    forall h | 0 <= h < |s.frames| ensures FrameOk(s', h) {
      assert FrameOk(s, h);
      if h != f && s.frames[h].status.Open? { TxKept(s, s', s.frames[h].tx, h); }
    }
  }

  lemma RollBackStep(s: State, f: nat)
    requires Core(s) && Enabled(s, RollBackFrame(f))
    ensures Core(Apply(s, RollBackFrame(f)))
  {
    var s' := Apply(s, RollBackFrame(f));
    EndHolders(s, s', f, RolledBack);
    assert FrameOk(s, f);
    hide Holder, InOrder, InternalOk, InvalidationsOk, FrameOk;
    JoinInOrder(s.tasks, s.ranRollback, s.frames[f].tx.afterRollback);
  }

  lemma EndRootStep(s: State, e: Event)
    requires Core(s) && Enabled(s, e) && (e.CommitRoot? || e.UnknownRoot?)
    ensures Core(Apply(s, e))
  {
    EndHolders(s, Apply(s, e), 0, if e.CommitRoot? then Committed else Unknown);
    hide Holder, InOrder, FrameOk;
  }

  lemma ReleaseCloses(s: State, f: nat)
    requires Core(s) && Enabled(s, ReleaseFrame(f))
    ensures var s' := Apply(s, ReleaseFrame(f));
      Closed(s, s', f) && s'.frames[s.frames[f].parent].tx == Release(s.frames[s.frames[f].parent].tx, s.frames[f].tx)
  {
    hide Core, Release, ChildrenClosed;
  }

  lemma FailCloses(s: State, f: nat, marks: bool)
    requires Core(s) && Enabled(s, FailFrame(f, marks))
    ensures var s' := Apply(s, FailFrame(f, marks));
      && Closed(s, s', f) && s'.frames[f].status.Failed?
      && s'.frames[s.frames[f].parent].tx == Fail(s.frames[s.frames[f].parent].tx, s.frames[f].tx)
  {
    hide Core, Fail, Around, ChildrenClosed;
    var s', p := Apply(s, FailFrame(f, marks)), s.frames[f].parent;
    assert |s'.frames| == |s.frames| && s'.frames[f].status.Failed? && s'.frames[f].late == !IsOpen(s, p);
    assert s'.frames[p].tx == Fail(s.frames[p].tx, s.frames[f].tx);
    forall h | 0 <= h < |s.frames|
      ensures s'.frames[h].parent == s.frames[h].parent
      ensures h != f ==> s'.frames[h].status == s.frames[h].status && s'.frames[h].late == s.frames[h].late
      ensures h != p ==> s'.frames[h].tx == s.frames[h].tx
    {
    }
    hide Apply, Enabled;
  }

  lemma HandingCloses(s: State, e: Event)
    requires Core(s) && Enabled(s, e) && (e.ReleaseFrame? || e.FailFrame?)
    ensures Closed(s, Apply(s, e), e.f)
    ensures var p, s' := s.frames[e.f].parent, Apply(s, e);
      s'.frames[p].tx == if s'.frames[e.f].status.Released? then Release(s.frames[p].tx, s.frames[e.f].tx) else Fail(s.frames[p].tx, s.frames[e.f].tx)
  {
    ParentIsBelow(s, e.f);
    if e.ReleaseFrame? {
      ReleaseCloses(s, e.f);
      assert Apply(s, e).frames[e.f].status.Released?;
    } else {
      FailCloses(s, e.f, e.marksAncestors);
    }
    hide Core, Release, Fail, Apply, Enabled;
  }

  lemma HandingStep(s: State, e: Event)
    requires Core(s) && Enabled(s, e) && (e.ReleaseFrame? || e.FailFrame?)
    ensures Core(Apply(s, e))
  {
    HandingCloses(s, e);
    hide Core, Release, Fail, Apply, Enabled, Closed;
    CloseStep(s, Apply(s, e), e.f);
  }

  lemma {:induction false} StepKeepsCore(s: State, e: Event)
    requires Core(s) && Enabled(s, e)
    ensures Core(Apply(s, e))
  {
    hide Core, Release, Fail, Around, Add;
    var s' := Apply(s, e);
    match e
    case OpenFrame(p) => OpenStep(s, p);
    case Register(f, kind) => AddStep(s, s', f, kind);
    case Invalidate(f, k) =>
      if k in s.frames[f].tx.cacheInvalidations { AskAgainStep(s, f, k); } else { AddStep(s, s', f, Invalidation(k)); }
    case ReleaseFrame(_) => HandingStep(s, e);
    case FailFrame(_, _) => HandingStep(s, e);
    case RollBackFrame(f) => RollBackStep(s, f);
    case _ => EndRootStep(s, e);
  }

  lemma ParentIsBelow(s: State, f: nat)
    requires Core(s) && 0 < f && IsOpen(s, f)
    ensures s.frames[f].parent < f
  {
  }

  // ---------------------------------------------------------------- what was handed on late

  /** What frame x has ended up with was handed on, frame by frame, to frame h. */
  ghost predicate Chain(fs: seq<Frame>, x: nat, h: nat)
    requires Tree(fs) && x < |fs|
    decreases x
  {
    x == h || (x > 0 && Handed(fs[x]) && Chain(fs, fs[x].parent, h))
  }

  /** What frame g collected was handed on late, to frame h in the end. */
  ghost predicate LateWith(fs: seq<Frame>, g: nat, h: nat)
    requires Tree(fs) && g < |fs|
  {
    fs[Holder(fs, g, true)].late && Chain(fs, Holder(fs, g, true), h)
  }

  /** The lists of a frame that was handed on late hold its rollback tasks and recorded keys, and those
      of frames that were handed on to it late. */
  ghost predicate LateTxOk(s: State, tx: Tx, h: nat)
    requires Shape(s)
  {
    && (forall t: nat :: HeldBy(s, t, h, true) && s.tasks[t].kind.Rollback? ==> t in tx.afterRollback)
    && (forall t :: t in tx.afterRollback ==> t < |s.tasks| && s.tasks[t].kind.Rollback? && LateWith(s.frames, s.tasks[t].frame, h))
    && (forall a :: a in s.asked && Holder(s.frames, a.0, true) == h ==> a.1 in tx.cacheInvalidations)
    && (forall k :: k in tx.cacheInvalidations ==>
          var t := tx.cacheInvalidations[k];
          t < |s.tasks| && s.tasks[t].kind == Invalidation(k) && LateWith(s.frames, s.tasks[t].frame, h))
  }

  ghost predicate LateOk(s: State, h: nat)
    requires Shape(s) && h < |s.frames|
  {
    s.frames[h].late ==> LateTxOk(s, s.frames[h].tx, h)
  }

  /** Once the root's outcome is unknown, the evicted keys are those whose record had reached the root. */
  ghost predicate EvictedOk(s: State)
    requires Shape(s)
  {
    s.frames[0].status.Unknown? ==>
      && s.ranCommit == []
      && (forall a :: a in s.asked && Holder(s.frames, a.0, true) == 0 ==> a.1 in s.evicted)
      && (forall k :: k in s.evicted ==> HeldBy(s, s.evicted[k], 0, true) && s.tasks[s.evicted[k]].kind == Invalidation(k))
  }

  ghost predicate Inv(s: State) {
    Core(s) && EvictedOk(s) && forall h :: 0 <= h < |s.frames| ==> LateOk(s, h)
  }

  /** Ended frames stay as they are, and nothing reaches them or leaves them by being passed on. */
  ghost predicate Steady(s: State, s': State)
    requires Shape(s) && Shape(s')
  {
    && |s.frames| <= |s'.frames| && |s.tasks| <= |s'.tasks| && s'.tasks[..|s.tasks|] == s.tasks
    && (forall i :: 0 <= i < |s.frames| ==> s'.frames[i].parent == s.frames[i].parent)
    && (forall i :: 0 <= i < |s.frames| && !s.frames[i].status.Open? ==>
          s'.frames[i].status == s.frames[i].status && s'.frames[i].late == s.frames[i].late)
    && (forall g: nat, h: nat :: g < |s.frames| && h < |s.frames| && !s.frames[h].status.Open? ==>
          (Holder(s'.frames, g, true) == h <==> Holder(s.frames, g, true) == h))
    && (forall t: nat, h: nat :: |s.tasks| <= t < |s'.tasks| && h < |s.frames| && !s.frames[h].status.Open? ==>
          Holder(s'.frames, s'.tasks[t].frame, true) != h)
    && (forall a :: a in s'.asked && a !in s.asked ==>
          a.0 < |s.frames| && s.frames[Holder(s.frames, a.0, true)].status.Open?)
  }

  lemma {:induction false} ChainKept(fs: seq<Frame>, fs': seq<Frame>, x: nat, h: nat)
    requires Tree(fs) && Tree(fs') && x < |fs| <= |fs'| && Chain(fs, x, h)
    requires forall i :: 0 <= i < |fs| ==> fs'[i].parent == fs[i].parent && (Handed(fs[i]) ==> Handed(fs'[i]))
    ensures Chain(fs', x, h)
    decreases x
  {
    if x != h { ChainKept(fs, fs', fs[x].parent, h); }
  }

  lemma LateWithKept(s: State, s': State, g: nat, h: nat)
    requires Shape(s) && Shape(s') && Steady(s, s') && g < |s.frames| && LateWith(s.frames, g, h)
    ensures LateWith(s'.frames, g, h)
  {
    var x := Holder(s.frames, g, true);
    assert !s.frames[x].status.Open?;
    ChainKept(s.frames, s'.frames, x, h);
  }

  /** A late frame to whose lists nothing was added. */
  lemma LateTxKept(s: State, s': State, tx: Tx, h: nat)
    requires Shape(s) && Shape(s') && Steady(s, s') && h < |s.frames| && !s.frames[h].status.Open? && LateTxOk(s, tx, h)
    requires s.asked <= s'.asked
    ensures LateTxOk(s', tx, h)
  {
    assert forall t :: 0 <= t < |s.tasks| ==> s'.tasks[..|s.tasks|][t] == s'.tasks[t];
    forall g: nat | g < |s.frames| && LateWith(s.frames, g, h) ensures LateWith(s'.frames, g, h) { LateWithKept(s, s', g, h); }
    hide Shape, LateWith, Holder;
  }

  /** Frame c was handed on late to frame h: what it held is late with h. */
  lemma HandedLate(s: State, s': State, c: nat, g: nat)
    requires Core(s) && Closed(s, s', c) && s'.frames[c].late && g < |s.frames| && Holder(s.frames, g, true) == c
    ensures Shape(s') && LateWith(s'.frames, g, c) && LateWith(s'.frames, g, s.frames[c].parent)
  {
    CloseHolders(s, s', c);
    assert Tree(s'.frames) && s.frames[c].parent < c;
    assert Chain(s'.frames, s.frames[c].parent, s.frames[c].parent);
    hide Core, Shape, Tree;
  }

  /** The new late frame's own lists. */
  lemma LateBorn(s: State, s': State, c: nat)
    requires Core(s) && Closed(s, s', c) && s'.frames[c].late
    ensures Shape(s') && LateTxOk(s', s.frames[c].tx, c)
  {
    CloseHolders(s, s', c);
    assert FrameOk(s, c);
    forall g: nat | g < |s.frames| && Holder(s.frames, g, true) == c ensures LateWith(s'.frames, g, c) { HandedLate(s, s', c, g); }
    hide Core, LateWith, Holder, InOrder, InternalOk;
  }

  /** What the late frame adds to the lists of the ended frame it is handed to. */
  lemma LateReceived(s: State, s': State, c: nat, tx: Tx)
    requires Core(s) && Closed(s, s', c) && s'.frames[c].late
    requires var h := s.frames[c].parent;
      && Shape(s') && LateTxOk(s', s.frames[h].tx, h)
      && tx.afterRollback == s.frames[h].tx.afterRollback + s.frames[c].tx.afterRollback
      && tx.cacheInvalidations == s.frames[c].tx.cacheInvalidations + s.frames[h].tx.cacheInvalidations
    ensures LateTxOk(s', tx, s.frames[c].parent)
  {
    var h := s.frames[c].parent;
    assert FrameOk(s, c);
    forall g: nat | g < |s.frames| && Holder(s.frames, g, true) == c ensures LateWith(s'.frames, g, h) { HandedLate(s, s', c, g); }
    hide Core, Shape, LateWith, Holder, InOrder, InternalOk;
  }

  lemma SteadyClose(s: State, s': State, c: nat)
    requires Core(s) && Closed(s, s', c)
    ensures Shape(s') && Steady(s, s')
  {
    CloseHolders(s, s', c);
    hide Core, Holder, ChildrenClosed, MayRun;
  }

  lemma LateAfterClose(s: State, s': State, c: nat, h: nat)
    requires Inv(s) && Closed(s, s', c) && h < |s.frames|
    requires var p := s.frames[c].parent;
      s'.frames[p].tx == if s'.frames[c].status.Released? then Release(s.frames[p].tx, s.frames[c].tx) else Fail(s.frames[p].tx, s.frames[c].tx)
    ensures Shape(s') && LateOk(s', h)
  {
    SteadyClose(s, s', c);
    assert LateOk(s, h);
    assert s.frames[h].late ==> !s.frames[h].status.Open?;
    assert c > s.frames[c].parent;
    hide Core, Inv, LateTxOk, Holder, Shape, Steady;
    if h == c {
      if s'.frames[c].late { LateBorn(s, s', c); }
    } else if s.frames[h].late {
      LateTxKept(s, s', s.frames[h].tx, h);
      if h == s.frames[c].parent { LateReceived(s, s', c, s'.frames[h].tx); }
    }
  }

  /** A step that closes no savepoint leaves the lists of ended frames alone. */
  lemma LateElsewhere(s: State, s': State)
    requires Inv(s) && Shape(s') && Steady(s, s') && s.asked <= s'.asked
    requires forall h :: 0 <= h < |s.frames| && s.frames[h].late ==> s'.frames[h].tx == s.frames[h].tx
    requires forall h :: 0 <= h < |s'.frames| && s'.frames[h].late ==> h < |s.frames| && s.frames[h].late
    ensures forall h :: 0 <= h < |s'.frames| ==> LateOk(s', h)
  {
    assert Shape(s);
    hide Core, LateTxOk, Steady, Holder;
    forall h | 0 <= h < |s'.frames| ensures LateOk(s', h) {
      if s'.frames[h].late {
        assert LateOk(s, h) && LateShape(s.frames);
        LateTxKept(s, s', s.frames[h].tx, h);
      }
    }
  }

  lemma EvictedKept(s: State, s': State)
    requires Shape(s) && Shape(s') && Steady(s, s') && EvictedOk(s) && !s.frames[0].status.Open?
    requires s'.evicted == s.evicted && s'.ranCommit == s.ranCommit
    ensures EvictedOk(s')
  {
    assert forall t :: 0 <= t < |s.tasks| ==> s'.tasks[..|s.tasks|][t] == s'.tasks[t];
    assert s'.frames[0].status == s.frames[0].status;
    hide LateShape;
  }

  lemma SteadyOpen(s: State, p: nat)
    requires Core(s) && Enabled(s, OpenFrame(p))
    ensures Shape(Apply(s, OpenFrame(p))) && Steady(s, Apply(s, OpenFrame(p)))
  {
    OpenHolders(s, Apply(s, OpenFrame(p)), p);
    hide Core, Holder, LateShape;
  }

  lemma SteadyAdd(s: State, s': State, f: nat, kind: Kind)
    requires Core(s) && Added(s, s', f, kind)
    ensures Shape(s') && Steady(s, s')
  {
    AddHolders(s, s', f, kind);
    HolderOfOpen(s.frames, f, true);
    hide Core, Holder, LateShape, Add;
  }

  lemma SteadyAsk(s: State, s': State, f: nat, k: Key)
    requires Core(s) && IsOpen(s, f) && s' == s.(asked := s.asked + {(f, k)})
    ensures Shape(s') && Steady(s, s')
  {
    HolderOfOpen(s.frames, f, true);
    hide Core, Holder, LateShape;
  }

  lemma SteadyEnd(s: State, s': State, f: nat, status: Status)
    requires Core(s) && IsOpen(s, f) && (f > 0 ==> status.RolledBack? && ChildrenClosed(s, f))
    requires !status.Open? && !status.Released? && !status.Failed? && s'.frames == s.frames[f := s.frames[f].(status := status)]
    requires s'.tasks == s.tasks && s'.asked == s.asked
    ensures Shape(s') && Steady(s, s')
  {
    EndHolders(s, s', f, status);
    hide Core, Holder, LateShape;
  }

  lemma RestAfterOpen(s: State, p: nat)
    requires Inv(s) && Enabled(s, OpenFrame(p))
    ensures var s' := Apply(s, OpenFrame(p)); Shape(s') && EvictedOk(s') && forall h :: 0 <= h < |s'.frames| ==> LateOk(s', h)
  {
    var s' := Apply(s, OpenFrame(p));
    SteadyOpen(s, p);
    hide Core, LateOk, Steady, Holder;
    LateElsewhere(s, s');
    if !s.frames[0].status.Open? { EvictedKept(s, s'); }
  }

  lemma RestAfterAdd(s: State, s': State, f: nat, kind: Kind)
    requires Inv(s) && Added(s, s', f, kind)
    ensures Shape(s') && EvictedOk(s') && forall h :: 0 <= h < |s'.frames| ==> LateOk(s', h)
  {
    SteadyAdd(s, s', f, kind);
    assert Shape(s);
    hide Core, LateOk, Steady, Holder, Add;
    LateElsewhere(s, s');
    if !s.frames[0].status.Open? { EvictedKept(s, s'); }
  }

  lemma RestAfterAsk(s: State, s': State, f: nat, k: Key)
    requires Inv(s) && IsOpen(s, f) && s' == s.(asked := s.asked + {(f, k)})
    ensures Shape(s') && EvictedOk(s') && forall h :: 0 <= h < |s'.frames| ==> LateOk(s', h)
  {
    SteadyAsk(s, s', f, k);
    hide Core, LateOk, Steady, Holder;
    LateElsewhere(s, s');
    if !s.frames[0].status.Open? { EvictedKept(s, s'); }
  }

  lemma RestAfterClose(s: State, s': State, c: nat)
    requires Inv(s) && Closed(s, s', c)
    requires var p := s.frames[c].parent;
      s'.frames[p].tx == if s'.frames[c].status.Released? then Release(s.frames[p].tx, s.frames[c].tx) else Fail(s.frames[p].tx, s.frames[c].tx)
    ensures Shape(s') && EvictedOk(s') && forall h :: 0 <= h < |s'.frames| ==> LateOk(s', h)
  {
    SteadyClose(s, s', c);
    assert Shape(s);
    hide Core, LateOk, Steady, Holder, Release, Fail;
    forall h | 0 <= h < |s'.frames| ensures LateOk(s', h) { LateAfterClose(s, s', c, h); }
    if !s.frames[0].status.Open? { EvictedKept(s, s'); }
  }

  lemma RestAfterHanding(s: State, e: Event)
    requires Inv(s) && Enabled(s, e) && (e.ReleaseFrame? || e.FailFrame?)
    ensures var s' := Apply(s, e); Shape(s') && EvictedOk(s') && forall h :: 0 <= h < |s'.frames| ==> LateOk(s', h)
  {
    HandingCloses(s, e);
    hide Core, Release, Fail, Apply, Enabled, Closed, LateOk, EvictedOk;
    RestAfterClose(s, Apply(s, e), e.f);
  }

  lemma RestAfterEnd(s: State, s': State, f: nat, status: Status)
    requires Inv(s) && IsOpen(s, f) && (f > 0 ==> status.RolledBack? && ChildrenClosed(s, f))
    requires !status.Open? && !status.Released? && !status.Failed? && s'.frames == s.frames[f := s.frames[f].(status := status)]
    requires s'.tasks == s.tasks && s'.asked == s.asked
    requires status.Unknown? || f > 0 ==> s'.ranCommit == s.ranCommit
    requires s'.evicted == if status.Unknown? then s.frames[0].tx.cacheInvalidations else s.evicted
    ensures Shape(s') && EvictedOk(s') && forall h :: 0 <= h < |s'.frames| ==> LateOk(s', h)
  {
    SteadyEnd(s, s', f, status);
    assert Shape(s) && FrameOk(s, 0);
    EndHolders(s, s', f, status);
    hide LateOk, Steady, Holder, InOrder, InternalOk, ListOk, RanOk;
    LateElsewhere(s, s');
    if !s.frames[0].status.Open? { EvictedKept(s, s'); }
  }

  lemma {:induction false} StepKeepsInv(s: State, e: Event)
    requires Inv(s) && Enabled(s, e)
    ensures Inv(Apply(s, e))
  {
    StepKeepsCore(s, e);
    hide Core, Release, Fail, Around, Add, LateOk, EvictedOk;
    var s' := Apply(s, e);
    match e
    case OpenFrame(p) => RestAfterOpen(s, p);
    case Register(f, kind) => RestAfterAdd(s, s', f, kind);
    case Invalidate(f, k) =>
      if k in s.frames[f].tx.cacheInvalidations { RestAfterAsk(s, s', f, k); } else { RestAfterAdd(s, s', f, Invalidation(k)); }
    case RollBackFrame(f) => RestAfterEnd(s, s', f, RolledBack);
    case CommitRoot => RestAfterEnd(s, s', 0, Committed);
    case UnknownRoot => RestAfterEnd(s, s', 0, Unknown);
    case _ => RestAfterHanding(s, e);
  }

  // ---------------------------------------------------------------- runs

  lemma StartInv()
    ensures Inv(Start())
  {
  }

  ghost predicate Legal(s: State, run: seq<Event>)
    requires Inv(s)
    decreases |run|
  {
    run == [] || (Enabled(s, run[0]) && (StepKeepsInv(s, run[0]); Legal(Apply(s, run[0]), run[1..])))
  }

  ghost function After(s: State, run: seq<Event>): State
    requires Inv(s) && Legal(s, run)
    ensures Inv(After(s, run))
    decreases |run|
  {
    if run == [] then s
    else
      StepKeepsInv(s, run[0]);
      After(Apply(s, run[0]), run[1..])
  }

  ghost predicate Reachable(s: State) {
    StartInv();
    exists run :: Legal(Start(), run) && s == After(Start(), run)
  }

  ghost predicate NoRepeats(list: seq<nat>) {
    forall i, j :: 0 <= i < j < |list| ==> list[i] != list[j]
  }

  lemma InOrderHasNoRepeats(tasks: seq<Task>, list: seq<nat>)
    requires InOrder(tasks, list) && forall t :: t in list ==> t < |tasks|
    ensures NoRepeats(list)
  {
    assert forall i :: 0 <= i < |list| ==> list[i] in list;
  }

  /** Frame a is g itself or one g is nested in. */
  ghost predicate OnLine(fs: seq<Frame>, a: nat, g: nat) { a == g || Around(fs, a, g) }

  lemma {:induction false} SurvivorsAreReleased(fs: seq<Frame>, a: nat, g: nat)
    requires Tree(fs) && g < |fs| && OnLine(fs, a, g) && Survives(fs, g) && a > 0
    ensures a < |fs| && fs[a].status.Released?
    decreases g
  {
    if a != g { SurvivorsAreReleased(fs, a, fs[g].parent); }
  }

  /** Internal tasks first, then user tasks; each part keeps every frame's own order. */
  ghost predicate InternalThenUser(tasks: seq<Task>, ran: seq<nat>) {
    exists n :: 0 <= n <= |ran| && InOrder(tasks, ran[..n]) && InOrder(tasks, ran[n..])
      && forall i :: 0 <= i < |ran| ==> ran[i] < |tasks| && (i >= n <==> tasks[ran[i]].kind.User?)
  }

  /** The root's commit runs, for every frame, all of its commit tasks if it was released all the way
      up and none otherwise; no task runs twice. (Of the invalidation tasks, one per key runs: see
      OneInvalidationPerKey.) */
  lemma CommitRunsTheSurvivorsTasks(s: State)
    requires Reachable(s) && Enabled(s, CommitRoot)
    ensures Inv(s)
    ensures var ran := Apply(s, CommitRoot).ranCommit;
      && (forall t: nat :: t < |s.tasks| && (s.tasks[t].kind.Internal? || s.tasks[t].kind.User?) ==>
            (t in ran <==> Survives(s.frames, s.tasks[t].frame)))
      && (forall t :: t in ran ==> t < |s.tasks| && !s.tasks[t].kind.Rollback? && Survives(s.frames, s.tasks[t].frame))
      && NoRepeats(ran)
  {
    var tx, ran := s.frames[0].tx, Apply(s, CommitRoot).ranCommit;
    assert FrameOk(s, 0);
    forall g: nat | g < |s.frames| ensures Survives(s.frames, g) <==> Holder(s.frames, g, false) == 0 {
      SurvivesMeansHeldByRoot(s.frames, g);
    }
    hide Inv, Holder, Survives, FrameOk, InvalidationsOk, Enabled, Reachable;
    InOrderHasNoRepeats(s.tasks, tx.internalAfterCommit);
    InOrderHasNoRepeats(s.tasks, tx.afterCommit);
    hide InOrder;
    assert forall i :: 0 <= i < |tx.internalAfterCommit| ==> ran[i] in tx.internalAfterCommit;
    assert forall i :: |tx.internalAfterCommit| <= i < |ran| ==> ran[i] == tx.afterCommit[i - |tx.internalAfterCommit|] && ran[i] in tx.afterCommit;
  }

  lemma CommitRunsInternalTasksFirst(s: State)
    requires Reachable(s) && Enabled(s, CommitRoot)
    ensures InternalThenUser(s.tasks, Apply(s, CommitRoot).ranCommit)
  {
    hide Holder, InvalidationsOk, InOrder, LateOk, EvictedOk;
    var tx, ran := s.frames[0].tx, Apply(s, CommitRoot).ranCommit;
    assert FrameOk(s, 0);
    hide Inv, FrameOk, Enabled, Reachable;
    var n := |tx.internalAfterCommit|;
    assert ran[..n] == tx.internalAfterCommit && ran[n..] == tx.afterCommit;
    forall i | 0 <= i < |ran| ensures ran[i] < |s.tasks| && (i >= n <==> s.tasks[ran[i]].kind.User?) {
      if i < n { assert ran[i] in tx.internalAfterCommit; } else { assert ran[i] == tx.afterCommit[i - n] && ran[i] in tx.afterCommit; }
    }
  }

  /** No commit task of a frame runs when it, or a frame around it, was rolled back or left unconfirmed. */
  lemma LostFramesRunNoCommitTask(s: State, a: nat, t: nat)
    requires Reachable(s) && Enabled(s, CommitRoot)
    requires a < |s.frames| && (s.frames[a].status.RolledBack? || s.frames[a].status.Failed?)
    requires t < |s.tasks| && OnLine(s.frames, a, s.tasks[t].frame)
    ensures t !in Apply(s, CommitRoot).ranCommit
  {
    CommitRunsTheSurvivorsTasks(s);
    if Survives(s.frames, s.tasks[t].frame) && a > 0 { SurvivorsAreReleased(s.frames, a, s.tasks[t].frame); }
  }

  /** At any moment, the rollback tasks run so far are, each once, those of the frames that were
      rolled back or whose tasks had been passed on to a frame that was rolled back. */
  lemma RollbackTasksRunOnce(s: State)
    requires Reachable(s)
    ensures Inv(s) && NoRepeats(s.ranRollback) && InOrder(s.tasks, s.ranRollback)
    ensures forall t: nat :: t in s.ranRollback <==>
      t < |s.tasks| && s.tasks[t].kind.Rollback? && s.frames[Holder(s.frames, s.tasks[t].frame, true)].status.RolledBack?
  {
    InOrderHasNoRepeats(s.tasks, s.ranRollback);
  }

  /** The frame that what g collected was meant for: up through released and unconfirmed frames, whether
      or not they were handed on in time. */
  ghost function Heir(fs: seq<Frame>, g: nat): (r: nat)
    requires Tree(fs) && g < |fs|
    ensures r <= g
    decreases g
  {
    if g > 0 && Handed(fs[g]) then Heir(fs, fs[g].parent) else g
  }

  lemma {:induction false} HeirOfHolder(fs: seq<Frame>, g: nat)
    requires Tree(fs) && g < |fs|
    ensures var x := Holder(fs, g, true); Heir(fs, g) == Heir(fs, x) && (fs[x].late || Heir(fs, g) == x)
    decreases g
  {
    if g > 0 && PassedOn(fs[g], true) { HeirOfHolder(fs, fs[g].parent); }
  }

  lemma {:induction false} HeirOfChain(fs: seq<Frame>, x: nat, h: nat)
    requires Tree(fs) && x < |fs| && Chain(fs, x, h)
    ensures h <= x && Heir(fs, x) == Heir(fs, h)
    decreases x
  {
    if x != h { HeirOfChain(fs, fs[x].parent, h); }
  }

  /** Rollback tasks were handed on late on their way to frame r. */
  ghost predicate LateRollbackTasks(s: State, r: nat)
    requires Shape(s)
  {
    exists h: nat :: h < |s.frames| && s.frames[h].late && Heir(s.frames, h) == r && s.frames[h].tx.afterRollback != []
  }

  /** Exactly when all is undone: once a frame was rolled back, every rollback task meant for it has run
      (once: RollbackTasksRunOnce) if and only if no frame with rollback tasks was handed on, on the way
      to it, into a frame that had ended. */
  lemma RollbackTasksRunIffHandedInTime(s: State, r: nat)
    requires Reachable(s) && r < |s.frames| && s.frames[r].status.RolledBack?
    ensures Inv(s)
    ensures (forall t: nat :: t < |s.tasks| && s.tasks[t].kind.Rollback? && Heir(s.frames, s.tasks[t].frame) == r ==> t in s.ranRollback)
      <==> !LateRollbackTasks(s, r)
  {
    assert Inv(s);
    hide Reachable;
    if LateRollbackTasks(s, r) {
      var h: nat :| h < |s.frames| && s.frames[h].late && Heir(s.frames, h) == r && s.frames[h].tx.afterRollback != [];
      LateTaskNeverRuns(s, h);
    } else {
      forall t: nat | t < |s.tasks| && s.tasks[t].kind.Rollback? && Heir(s.frames, s.tasks[t].frame) == r ensures t in s.ranRollback {
        TimelyTaskRuns(s, t, r);
      }
    }
  }

  lemma LateTaskNeverRuns(s: State, h: nat)
    requires Inv(s) && h < |s.frames| && s.frames[h].late && s.frames[h].tx.afterRollback != []
    ensures var t := s.frames[h].tx.afterRollback[0];
      t < |s.tasks| && s.tasks[t].kind.Rollback? && Heir(s.frames, s.tasks[t].frame) == Heir(s.frames, h) && t !in s.ranRollback
  {
    assert LateOk(s, h);
    var t := s.frames[h].tx.afterRollback[0];
    assert t in s.frames[h].tx.afterRollback;
    LateHeir(s, s.tasks[t].frame, h);
  }

  lemma LateHeir(s: State, g: nat, h: nat)
    requires Shape(s) && g < |s.frames| && LateWith(s.frames, g, h)
    ensures h < |s.frames| && Heir(s.frames, g) == Heir(s.frames, h) && Handed(s.frames[Holder(s.frames, g, true)])
  {
    HeirOfHolder(s.frames, g);
    HeirOfChain(s.frames, Holder(s.frames, g, true), h);
  }

  lemma TimelyTaskRuns(s: State, t: nat, r: nat)
    requires Inv(s) && r < |s.frames| && s.frames[r].status.RolledBack? && !LateRollbackTasks(s, r)
    requires t < |s.tasks| && s.tasks[t].kind.Rollback? && Heir(s.frames, s.tasks[t].frame) == r
    ensures t in s.ranRollback
  {
    var x := Holder(s.frames, s.tasks[t].frame, true);
    HeirOfHolder(s.frames, s.tasks[t].frame);
    assert LateOk(s, x);
    assert HeldBy(s, t, x, true);
  }

  // ---------------------------------------------------------------- cache invalidations

  /** Every failed savepoint made the frames around it rollback-only. */
  predicate FailuresMarkAncestors(run: seq<Event>) {
    forall i :: 0 <= i < |run| && run[i].FailFrame? ==> run[i].marksAncestors
  }

  ghost predicate FailuresReachRoot(s: State) {
    |s.frames| > 0 && forall i :: 0 <= i < |s.frames| && s.frames[i].status.Failed? ==> s.frames[0].rollbackOnly
  }

  lemma {:induction false} RootIsAround(fs: seq<Frame>, f: nat)
    requires Tree(fs) && 0 < f < |fs|
    ensures Around(fs, 0, f)
    decreases f
  {
    if fs[f].parent > 0 { RootIsAround(fs, fs[f].parent); }
  }

  lemma {:induction false} AroundKept(fs: seq<Frame>, fs': seq<Frame>, a: nat, f: nat)
    requires |fs| == |fs'| && forall i :: 0 <= i < |fs| ==> fs'[i].parent == fs[i].parent
    ensures Around(fs', a, f) == Around(fs, a, f)
    decreases f
  {
    if f > 0 && f < |fs| && fs[f].parent < f { AroundKept(fs, fs', a, fs[f].parent); }
  }

  lemma FailMarksRoot(s: State, f: nat)
    requires Inv(s) && Enabled(s, FailFrame(f, true))
    ensures Apply(s, FailFrame(f, true)).frames[0].rollbackOnly
  {
    hide FrameOk, RanOk, Release, Fail, LateOk, EvictedOk;
    ParentIsBelow(s, f);
    var p := s.frames[f].parent;
    var fs := s.frames[p := s.frames[p].(tx := Fail(s.frames[p].tx, s.frames[f].tx))][f := s.frames[f].(status := Failed, late := !IsOpen(s, p))];
    hide Inv, Core;
    RootIsAround(s.frames, f);
    AroundKept(s.frames, fs, 0, f);
  }

  lemma MarkedStep(s: State, e: Event)
    requires Inv(s) && Enabled(s, e) && FailuresReachRoot(s) && (e.FailFrame? ==> e.marksAncestors)
    ensures FailuresReachRoot(Apply(s, e))
  {
    if e.FailFrame? { FailMarksRoot(s, e.f); }
    hide Inv, Release, Fail, Add, Around;
  }

  lemma {:induction false} FailuresStayMarked(s: State, run: seq<Event>)
    requires Inv(s) && Legal(s, run) && FailuresReachRoot(s) && FailuresMarkAncestors(run)
    ensures FailuresReachRoot(After(s, run))
    decreases |run|
  {
    if run != [] {
      StepKeepsInv(s, run[0]);
      MarkedStep(s, run[0]);
      FailuresStayMarked(Apply(s, run[0]), run[1..]);
    }
  }

  /** An invalidation task exists only because its frame asked for it. */
  ghost predicate TasksWereAsked(s: State) {
    forall t :: 0 <= t < |s.tasks| && s.tasks[t].kind.Invalidation? ==> (s.tasks[t].frame, s.tasks[t].kind.key) in s.asked
  }

  lemma AskedStep(s: State, e: Event)
    requires Enabled(s, e) && TasksWereAsked(s)
    ensures TasksWereAsked(Apply(s, e))
  {
    hide Release, Fail, Around, Add;
  }

  lemma {:induction false} TasksStayAsked(s: State, run: seq<Event>)
    requires Inv(s) && Legal(s, run) && TasksWereAsked(s)
    ensures TasksWereAsked(After(s, run))
    decreases |run|
  {
    if run != [] {
      StepKeepsInv(s, run[0]);
      AskedStep(s, run[0]);
      hide Inv, Apply, Enabled, TasksWereAsked;
      TasksStayAsked(Apply(s, run[0]), run[1..]);
    }
  }

  /** The tasks in the list that evict key k. */
  ghost predicate Evicts(s: State, list: seq<nat>, t: nat, k: Key) {
    t in list && t < |s.tasks| && s.tasks[t].kind == Invalidation(k)
  }

  /** The key was invalidated in a frame that was released all the way up. */
  ghost predicate AskedBySurvivor(s: State, k: Key)
    requires Shape(s)
  {
    exists g: nat :: g < |s.frames| && (g, k) in s.asked && Survives(s.frames, g)
  }

  /** The task that the root has recorded for a key, and what its frame's fate says about it. */
  lemma RecorderDecides(s: State, k: Key)
    requires Inv(s) && TasksWereAsked(s) && Enabled(s, CommitRoot)
    ensures var ci, ran := s.frames[0].tx.cacheInvalidations, Apply(s, CommitRoot).ranCommit;
      && (AskedBySurvivor(s, k) ==> k in ci)
      && (k in ci ==> ci[k] < |s.tasks| && (Evicts(s, ran, ci[k], k) <==> Survives(s.frames, s.tasks[ci[k]].frame)))
      && (k in ci ==> (s.tasks[ci[k]].frame, k) in s.asked)
      && (forall t :: Evicts(s, ran, t, k) ==> k in ci && t == ci[k])
  {
    var tx, ran := s.frames[0].tx, Apply(s, CommitRoot).ranCommit;
    assert FrameOk(s, 0);
    forall g: nat | g < |s.frames| ensures Survives(s.frames, g) <==> Holder(s.frames, g, false) == 0 {
      SurvivesMeansHeldByRoot(s.frames, g);
      HoldersAgree(s.frames, g);
    }
    forall g: nat | g < |s.frames| && Survives(s.frames, g) ensures Holder(s.frames, g, true) == 0 {
      HoldersAgree(s.frames, g);
    }
    hide Holder, Survives, InOrder, RanOk, Enabled;
    forall t: nat | Evicts(s, ran, t, k) ensures k in tx.cacheInvalidations && t == tx.cacheInvalidations[k] {
      assert t in tx.internalAfterCommit;
    }
  }

  /** When no savepoint failed, or all frames around a failed one were made rollback-only, the keys
      evicted at root commit are exactly those invalidated in a surviving frame, each by one task. */
  lemma EvictsTheSurvivorsKeys(s: State, k: Key)
    requires Inv(s) && TasksWereAsked(s) && FailuresReachRoot(s) && Enabled(s, CommitRoot) && !s.frames[0].rollbackOnly
    ensures var ran := Apply(s, CommitRoot).ranCommit;
      && (AskedBySurvivor(s, k) <==> exists t :: Evicts(s, ran, t, k))
      && (forall t, t' :: Evicts(s, ran, t, k) && Evicts(s, ran, t', k) ==> t == t')
  {
    RecorderDecides(s, k);
    var ci := s.frames[0].tx.cacheInvalidations;
    if k in ci {
      assert FrameOk(s, 0);
      var g := s.tasks[ci[k]].frame;
      HoldersAgree(s.frames, g);
      SurvivesMeansHeldByRoot(s.frames, g);
    }
    hide Holder, Survives, InOrder, RanOk;
  }

  /** So over any run whose failed savepoints made the frames around them rollback-only, if the root
      is not: a store that commits although the callback rejected is covered by
      EvictedIffRecorderSurvives only. */
  lemma OneInvalidationPerKey(run: seq<Event>, k: Key)
    requires Inv(Start()) && Legal(Start(), run) && FailuresMarkAncestors(run) && Enabled(After(Start(), run), CommitRoot)
    requires !After(Start(), run).frames[0].rollbackOnly
    ensures var s := After(Start(), run);
      var ran := Apply(s, CommitRoot).ranCommit;
      && (AskedBySurvivor(s, k) <==> exists t :: Evicts(s, ran, t, k))
      && (forall t, t' :: Evicts(s, ran, t, k) && Evicts(s, ran, t', k) ==> t == t')
  {
    FailuresStayMarked(Start(), run);
    TasksStayAsked(Start(), run);
    EvictsTheSurvivorsKeys(After(Start(), run), k);
  }

  /** Whatever the failed savepoints did: a key invalidated in a surviving frame is evicted at commit,
      by exactly one task, if and only if the frame whose task is recorded for it at the root survived;
      otherwise by none. */
  lemma EvictedIffRecorderSurvives(run: seq<Event>, k: Key)
    requires Inv(Start()) && Legal(Start(), run) && Enabled(After(Start(), run), CommitRoot)
    requires AskedBySurvivor(After(Start(), run), k)
    ensures var s := After(Start(), run);
      var ci, ran := s.frames[0].tx.cacheInvalidations, Apply(s, CommitRoot).ranCommit;
      && k in ci && ci[k] < |s.tasks|
      && (Survives(s.frames, s.tasks[ci[k]].frame) ==> forall t :: Evicts(s, ran, t, k) <==> t == ci[k])
      && (!Survives(s.frames, s.tasks[ci[k]].frame) ==> forall t :: !Evicts(s, ran, t, k))
  {
    TasksStayAsked(Start(), run);
    RecorderDecides(After(Start(), run), k);
    hide Legal, After, Inv, Survives, Enabled;
  }

  /** A savepoint fails without marking its ancestors, the root invalidates the same key and commits.
      SavepointErrors says when a store lets that happen. */
  function UnmarkedFailure(k: Key): seq<Event> {
    [OpenFrame(0), Invalidate(1, k), FailFrame(1, false), Invalidate(0, k)]
  }

  /** The state after n events of UnmarkedFailure. */
  ghost function LossState(k: Key, n: nat): State {
    if n == 0 then Start()
    else if n == 1 then State([Start().frames[0], Frame(0, Open, false, false, EmptyTx())], Start().tasks, {}, [], [], map[])
    else
      var tasks := [Task(Internal, 0), Task(Invalidation(k), 1)];
      var child := Tx([1], [], [], map[k := 1]);
      if n == 2 then State([Start().frames[0], Frame(0, Open, false, false, child)], tasks, {(1, k)}, [], [], map[])
      else State([Frame(0, Open, false, false, Tx([0], [], [], map[k := 1])), Frame(0, Failed, false, false, child)], tasks,
                 if n == 3 then {(1, k)} else {(1, k), (0, k)}, [], [], map[])
  }

  lemma LossStep(k: Key, n: nat)
    requires n < 4
    ensures Enabled(LossState(k, n), UnmarkedFailure(k)[n])
    ensures Apply(LossState(k, n), UnmarkedFailure(k)[n]) == LossState(k, n + 1)
  {
    var s, s', e := LossState(k, n), LossState(k, n + 1), UnmarkedFailure(k)[n];
    assert Enabled(s, e);
    var r := Apply(s, e);
    if n == 1 { assert r.frames[1].tx == s'.frames[1].tx; }
    if n == 2 { assert r.frames[0].tx.cacheInvalidations == map[k := 1]; assert r.frames[0].tx == s'.frames[0].tx; }
    assert r.frames == s'.frames;
    assert r.tasks == s'.tasks && r.asked == s'.asked;
  }

  lemma {:induction false} LossPrefix(k: Key, n: nat)
    requires n <= 4
    ensures Inv(LossState(k, n))
  {
    hide Inv, Enabled, Apply;
    if n == 0 { StartInv(); }
    else {
      LossPrefix(k, n - 1);
      LossStep(k, n - 1);
      StepKeepsInv(LossState(k, n - 1), UnmarkedFailure(k)[n - 1]);
    }
  }

  /** When the root's outcome is unknown, exactly the keys recorded in frames that were not rolled
      back are evicted, each by one task; no commit task and no root rollback task runs. */
  lemma UnknownOutcomeEvictsEveryRecordedKey(run: seq<Event>, k: Key)
    requires Inv(Start()) && Legal(Start(), run) && Enabled(After(Start(), run), UnknownRoot)
    ensures var s := After(Start(), run);
      var s' := Apply(s, UnknownRoot);
      && s'.ranCommit == [] && s'.ranRollback == s.ranRollback
      && (forall t: nat :: HeldBy(s, t, 0, true) ==> t !in s'.ranRollback)
      && (k in s'.evicted <==> exists g: nat :: g < |s.frames| && (g, k) in s.asked && Holder(s.frames, g, true) == 0)
      && (k in s'.evicted ==> Evicts(s, [s'.evicted[k]], s'.evicted[k], k))
  {
    var s := After(Start(), run);
    TasksStayAsked(Start(), run);
    assert FrameOk(s, 0);
    hide Holder, Legal, After, InOrder;
    if k in s.frames[0].tx.cacheInvalidations {
      var t := s.frames[0].tx.cacheInvalidations[k];
      assert (s.tasks[t].frame, k) in s.asked;
    }
  }

  /** Some frame that invalidated the key had its record passed on to the root. */
  ghost predicate RecordedInTime(s: State, k: Key)
    requires Shape(s)
  {
    exists g: nat :: g < |s.frames| && (g, k) in s.asked && Holder(s.frames, g, true) == 0
  }

  /** A frame that was handed on late on its way to the root had recorded a key that no frame recorded
      in time. */
  ghost predicate LateKeys(s: State)
    requires Shape(s)
  {
    exists h: nat, k :: h < |s.frames| && s.frames[h].late && Heir(s.frames, h) == 0
      && k in s.frames[h].tx.cacheInvalidations && !RecordedInTime(s, k)
  }

  lemma EvictedMeansRecorded(s: State, k: Key)
    requires Inv(s) && TasksWereAsked(s) && s.frames[0].status.Unknown?
    ensures k in s.evicted <==> RecordedInTime(s, k)
  {
    assert EvictedOk(s);
    hide Holder, Core, LateOk;
    if k in s.evicted { assert (s.tasks[s.evicted[k]].frame, k) in s.asked; }
  }

  /** Once the root's outcome is unknown, at any later moment: every key recorded in a frame meant for
      the root has been evicted if and only if every key of a frame that was handed on late, on the way
      to the root, was recorded in time by another frame as well. */
  lemma RecordedKeysEvictedIffHandedInTime(run: seq<Event>)
    requires Inv(Start()) && Legal(Start(), run) && After(Start(), run).frames[0].status.Unknown?
    ensures var s := After(Start(), run);
      (forall a :: a in s.asked && Heir(s.frames, a.0) == 0 ==> a.1 in s.evicted) <==> !LateKeys(s)
  {
    var s := After(Start(), run);
    TasksStayAsked(Start(), run);
    assert Inv(s) && TasksWereAsked(s);
    hide Legal, After, Start;
    if LateKeys(s) {
      var h: nat, k :| h < |s.frames| && s.frames[h].late && Heir(s.frames, h) == 0
        && k in s.frames[h].tx.cacheInvalidations && !RecordedInTime(s, k);
      LateKeyWasAsked(s, h, k);
      EvictedMeansRecorded(s, k);
    } else {
      forall a | a in s.asked && Heir(s.frames, a.0) == 0 ensures a.1 in s.evicted { TimelyKeyIsEvicted(s, a); }
    }
  }

  lemma LateKeyWasAsked(s: State, h: nat, k: Key)
    requires Inv(s) && TasksWereAsked(s) && h < |s.frames| && s.frames[h].late && k in s.frames[h].tx.cacheInvalidations
    ensures var t := s.frames[h].tx.cacheInvalidations[k];
      && t < |s.tasks| && (s.tasks[t].frame, k) in s.asked && s.tasks[t].frame < |s.frames|
      && Heir(s.frames, s.tasks[t].frame) == Heir(s.frames, h)
  {
    assert LateOk(s, h);
    LateHeir(s, s.tasks[s.frames[h].tx.cacheInvalidations[k]].frame, h);
  }

  lemma TimelyKeyIsEvicted(s: State, a: (nat, Key))
    requires Inv(s) && TasksWereAsked(s) && s.frames[0].status.Unknown? && !LateKeys(s)
    requires a in s.asked && Heir(s.frames, a.0) == 0
    ensures a.1 in s.evicted
  {
    EvictedMeansRecorded(s, a.1);
    var x := Holder(s.frames, a.0, true);
    HeirOfHolder(s.frames, a.0);
    assert LateOk(s, x);
    if s.frames[x].late { assert a.1 in s.frames[x].tx.cacheInvalidations; }
  }

  // ---------------------------------------------------------------- late releases

  /** The step opens savepoints in open frames only, and ends a frame after those opened in it. */
  ghost predicate InOrderOfNesting(s: State, e: Event) {
    match e
    case OpenFrame(p) => IsOpen(s, p)
    case FailFrame(f, _) => ChildrenClosed(s, f)
    case RollBackFrame(f) => ChildrenClosed(s, f)
    case CommitRoot => ChildrenClosed(s, 0)
    case UnknownRoot => ChildrenClosed(s, 0)
    case _ => true
  }

  ghost predicate Nested(s: State, run: seq<Event>)
    requires Inv(s) && Legal(s, run)
    decreases |run|
  {
    run == [] || (InOrderOfNesting(s, run[0]) && (StepKeepsInv(s, run[0]); Nested(Apply(s, run[0]), run[1..])))
  }

  ghost predicate NothingLate(s: State) {
    && (forall i :: 0 <= i < |s.frames| ==> !s.frames[i].late)
    && (forall i :: 0 < i < |s.frames| && s.frames[i].status.Open? ==> IsOpen(s, s.frames[i].parent))
  }

  lemma NestedStep(s: State, e: Event)
    requires Inv(s) && Enabled(s, e) && InOrderOfNesting(s, e) && NothingLate(s)
    ensures NothingLate(Apply(s, e))
  {
    hide Inv, Apply, NothingLate;
    if e.FailFrame? { NestedFailure(s, e.f, e.marksAncestors); }
    else if e.ReleaseFrame? || e.RollBackFrame? || e.CommitRoot? || e.UnknownRoot? { NestedEnd(s, e); }
    else { NestedWork(s, e); }
  }

  lemma NestedWork(s: State, e: Event)
    requires Inv(s) && Enabled(s, e) && InOrderOfNesting(s, e) && NothingLate(s) && (e.OpenFrame? || e.Register? || e.Invalidate?)
    ensures NothingLate(Apply(s, e))
  {
    assert Tree(s.frames);
    hide Inv, Add;
  }

  lemma NestedEnd(s: State, e: Event)
    requires Inv(s) && Enabled(s, e) && InOrderOfNesting(s, e) && NothingLate(s)
    requires e.ReleaseFrame? || e.RollBackFrame? || e.CommitRoot? || e.UnknownRoot?
    ensures NothingLate(Apply(s, e))
  {
    hide Inv, Release;
  }

  lemma NestedFailure(s: State, f: nat, marks: bool)
    requires Inv(s) && Enabled(s, FailFrame(f, marks)) && ChildrenClosed(s, f) && NothingLate(s)
    ensures NothingLate(Apply(s, FailFrame(f, marks)))
  {
    hide Inv, Fail, Around;
    var s' := Apply(s, FailFrame(f, marks));
    assert |s'.frames| == |s.frames| && forall i :: 0 <= i < |s.frames| ==>
      s'.frames[i].parent == s.frames[i].parent && (i != f ==> s'.frames[i].status == s.frames[i].status && s'.frames[i].late == s.frames[i].late);
    assert !s'.frames[f].late && s'.frames[f].status.Failed?;
    hide Apply, Enabled;
  }

  /** If every frame ends after the savepoints opened in it, nothing is handed on late. */
  lemma {:induction false} NestedRunsAreInTime(s: State, run: seq<Event>)
    requires Inv(s) && Legal(s, run) && Nested(s, run) && NothingLate(s)
    ensures NothingLate(After(s, run))
    decreases |run|
  {
    if run != [] {
      StepKeepsInv(s, run[0]);
      NestedStep(s, run[0]);
      hide Inv, Apply, Enabled, InOrderOfNesting, NothingLate;
      NestedRunsAreInTime(Apply(s, run[0]), run[1..]);
    }
  }

  /** A savepoint is left unconfirmed while its callback still runs; the savepoint inside it, which did
      something, is released into it afterwards, and then the root ends. */
  function LateRelease(did: Event, end: Event): seq<Event> {
    [OpenFrame(0), OpenFrame(1), did, FailFrame(1, true), ReleaseFrame(2), end]
  }

  function Did(kind: Kind): Event
    requires kind.Rollback? || kind.Invalidation?
  {
    if kind.Rollback? then Register(2, Rollback) else Invalidate(2, kind.key)
  }

  /** The state after the first n events. */
  ghost function LateState(kind: Kind, n: nat): State
    requires kind.Rollback? || kind.Invalidation?
  {
    var root, open := Start().frames[0], Frame(0, Open, false, false, EmptyTx());
    var child := Add(EmptyTx(), kind, 1);
    var s := Start().(tasks := [Task(Internal, 0), Task(kind, 2)], asked := if kind.Invalidation? then {(2, kind.key)} else {});
    if n == 0 then Start()
    else if n == 1 then Start().(frames := [root, open])
    else if n == 2 then Start().(frames := [root, open, open.(parent := 1)])
    else if n == 3 then s.(frames := [root, open, open.(parent := 1, tx := child)])
    else if n == 4 then s.(frames := [root.(rollbackOnly := true), open.(status := Failed), open.(parent := 1, tx := child)])
    else s.(frames := [root.(rollbackOnly := true), open.(status := Failed, tx := Release(EmptyTx(), child)),
                       open.(parent := 1, status := Released, late := true, tx := child)])
  }

  lemma LateBegins(kind: Kind)
    requires kind.Rollback? || kind.Invalidation?
    ensures LateState(kind, 0) == Start()
    ensures Enabled(LateState(kind, 0), OpenFrame(0)) && Apply(LateState(kind, 0), OpenFrame(0)) == LateState(kind, 1)
    ensures Enabled(LateState(kind, 1), OpenFrame(1)) && Apply(LateState(kind, 1), OpenFrame(1)) == LateState(kind, 2)
  {
    assert Apply(LateState(kind, 0), OpenFrame(0)).frames == LateState(kind, 1).frames;
    assert Apply(LateState(kind, 1), OpenFrame(1)).frames == LateState(kind, 2).frames;
  }

  lemma LateActs(kind: Kind)
    requires kind.Rollback? || kind.Invalidation?
    ensures Enabled(LateState(kind, 2), Did(kind)) && Apply(LateState(kind, 2), Did(kind)) == LateState(kind, 3)
  {
    var r := Apply(LateState(kind, 2), Did(kind));
    assert r.frames == LateState(kind, 3).frames;
    assert r.asked == LateState(kind, 3).asked;
  }

  lemma LateFails(kind: Kind)
    requires kind.Rollback? || kind.Invalidation?
    ensures Enabled(LateState(kind, 3), FailFrame(1, true)) && Apply(LateState(kind, 3), FailFrame(1, true)) == LateState(kind, 4)
  {
    hide Add, Release;
    var s, s' := LateState(kind, 3), LateState(kind, 4);
    assert Enabled(s, FailFrame(1, true));
    var r := Apply(s, FailFrame(1, true));
    var tx := Fail(s.frames[0].tx, s.frames[1].tx);
    assert tx.cacheInvalidations == map[];
    var fs := s.frames[0 := s.frames[0].(tx := tx)][1 := s.frames[1].(status := Failed, late := !IsOpen(s, 0))];
    assert Around(fs, 0, 1) && !Around(fs, 1, 0) && !Around(fs, 1, 1) && !Around(fs, 2, 0) && !Around(fs, 2, 1);
    assert |r.frames| == 3 && r.frames[0].tx == s'.frames[0].tx && r.frames[1] == s'.frames[1];
    assert r.frames[2] == s'.frames[2];
    assert r.frames == s'.frames;
  }

  lemma LateReleases(kind: Kind)
    requires kind.Rollback? || kind.Invalidation?
    ensures Enabled(LateState(kind, 4), ReleaseFrame(2)) && Apply(LateState(kind, 4), ReleaseFrame(2)) == LateState(kind, 5)
  {
    hide Add, Release;
    var s, s' := LateState(kind, 4), LateState(kind, 5);
    assert Enabled(s, ReleaseFrame(2));
    assert Apply(s, ReleaseFrame(2)).frames == s'.frames;
  }

  lemma Prepend(s: State, e: Event, rest: seq<Event>)
    requires Inv(s) && Enabled(s, e) && Inv(Apply(s, e)) && Legal(Apply(s, e), rest)
    ensures Legal(s, [e] + rest) && After(s, [e] + rest) == After(Apply(s, e), rest)
  {
    hide Inv, Enabled, Apply;
    assert ([e] + rest)[1..] == rest;
  }

  lemma LateRun(kind: Kind, end: Event)
    requires (kind.Rollback? || kind.Invalidation?) && (end == RollBackFrame(0) || end == UnknownRoot)
    ensures Inv(Start()) && Legal(Start(), LateRelease(Did(kind), end)) && Enabled(LateState(kind, 5), end)
    ensures After(Start(), LateRelease(Did(kind), end)) == Apply(LateState(kind, 5), end)
  {
    StartInv();
    assert Enabled(LateState(kind, 5), end);
    hide Inv, Enabled, Apply, LateState, Start, Did;
    LateBegins(kind);
    LateActs(kind);
    LateFails(kind);
    LateReleases(kind);
    StepKeepsInv(LateState(kind, 0), OpenFrame(0));
    StepKeepsInv(LateState(kind, 1), OpenFrame(1));
    StepKeepsInv(LateState(kind, 2), Did(kind));
    StepKeepsInv(LateState(kind, 3), FailFrame(1, true));
    StepKeepsInv(LateState(kind, 4), ReleaseFrame(2));
    StepKeepsInv(LateState(kind, 5), end);
    assert Legal(Apply(LateState(kind, 5), end), []) && After(Apply(LateState(kind, 5), end), []) == Apply(LateState(kind, 5), end);
    hide *;
    Six(OpenFrame(0), OpenFrame(1), Did(kind), FailFrame(1, true), ReleaseFrame(2), end);
    Prepend(LateState(kind, 5), end, []);
    Prepend(LateState(kind, 4), ReleaseFrame(2), [end] + []);
    Prepend(LateState(kind, 3), FailFrame(1, true), [ReleaseFrame(2)] + ([end] + []));
    Prepend(LateState(kind, 2), Did(kind), [FailFrame(1, true)] + ([ReleaseFrame(2)] + ([end] + [])));
    Prepend(LateState(kind, 1), OpenFrame(1), [Did(kind)] + ([FailFrame(1, true)] + ([ReleaseFrame(2)] + ([end] + []))));
    Prepend(LateState(kind, 0), OpenFrame(0), [OpenFrame(1)] + ([Did(kind)] + ([FailFrame(1, true)] + ([ReleaseFrame(2)] + ([end] + [])))));
  }

  lemma Six(a: Event, b: Event, c: Event, d: Event, e: Event, f: Event)
    ensures [a] + ([b] + ([c] + ([d] + ([e] + ([f] + []))))) == [a, b, c, d, e, f]
  {
  }

  lemma LateEnds(kind: Kind, end: Event)
    requires (kind.Rollback? || kind.Invalidation?) && (end == RollBackFrame(0) || end == UnknownRoot)
    ensures Enabled(LateState(kind, 5), end)
    ensures var s := Apply(LateState(kind, 5), end);
      && |s.frames| == 3 && |s.tasks| == 2 && s.tasks[1] == Task(kind, 2) && s.frames[2].late
      && s.frames[0].status == (if end.UnknownRoot? then Unknown else RolledBack)
      && s.frames[2].tx == Add(EmptyTx(), kind, 1) && (kind.Invalidation? ==> (2, kind.key) in s.asked)
      && s.ranRollback == [] && s.evicted == map[]
      && Tree(s.frames) && Heir(s.frames, 2) == 0
  {
    hide Add, Release;
    var fs := Apply(LateState(kind, 5), end).frames;
    assert Tree(fs);
    assert Heir(fs, 1) == 0;
  }

  /** The rollback task of the late savepoint is meant for the root, which is rolled back, and never runs. */
  lemma LateReleaseLosesRollbackTask()
    ensures Inv(Start()) && Legal(Start(), LateRelease(Did(Rollback), RollBackFrame(0)))
    ensures var s := After(Start(), LateRelease(Did(Rollback), RollBackFrame(0)));
      && s.frames[0].status.RolledBack? && |s.tasks| == 2 && s.tasks[1] == Task(Rollback, 2) && |s.frames| == 3
      && Heir(s.frames, 2) == 0 && 1 !in s.ranRollback
  {
    LateRun(Rollback, RollBackFrame(0));
    LateEnds(Rollback, RollBackFrame(0));
    hide *;
  }

  /** The key that the late savepoint recorded is not evicted although the root's outcome is unknown. */
  lemma LateReleaseLosesKey(k: Key)
    ensures Inv(Start()) && Legal(Start(), LateRelease(Did(Invalidation(k)), UnknownRoot))
    ensures var s := After(Start(), LateRelease(Did(Invalidation(k)), UnknownRoot));
      s.frames[0].status.Unknown? && (2, k) in s.asked && |s.frames| == 3 && Heir(s.frames, 2) == 0 && k !in s.evicted
  {
    LateRun(Invalidation(k), UnknownRoot);
    LateEnds(Invalidation(k), UnknownRoot);
    hide *;
  }
}
