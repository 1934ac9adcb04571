/** Rewriting a query plan so that it can run on stored rows: every operand on a codec's path is
    encoded, in the whole tree of branches, once. */
module QueryPlans {
  import opened Options
  import opened FieldPaths
  import opened FieldCodecs

  /** One operand; two for between; any number for in; none for the null operators. */
  datatype Where = Where(field: Path, op: Operator, operands: seq<Value>)

  predicate NullOperator(op: Operator) { op.IsNull? || op.IsNotNull? }

  predicate Arity(w: Where) {
    && (w.op.Between? ==> |w.operands| == 2)
    && (!w.op.In? && !w.op.Between? && !NullOperator(w.op) ==> |w.operands| == 1)
  }

  /** `encoded` is the marker that the operands of this node and below are encoded. */
  datatype Plan = Plan(where: seq<Where>, or: seq<Plan>, sort: seq<Path>, encoded: bool)

  /** How values compare (None is NaN), what the remaining operators test, and which operands are valid. */
  datatype Semantics = Semantics(
    range: (Value, Value) -> Option<int>,
    test: (Operator, Value, Value) -> bool,
    valid: (Operator, seq<Value>) -> bool)

  // ---------------------------------------------------------------- matching

  predicate Compares(sem: Semantics, v: Value, w: Value, sign: int -> bool) {
    sem.range(v, w).Some? && sign(sem.range(v, w).value)
  }

  /** compareWhere, on the value at the field; None is undefined. */
  predicate Holds(sem: Semantics, w: Where, value: Option<Value>)
    requires Arity(w)
  {
    if w.op.IsNull? then value.None? || value.value.Null?
    else if w.op.IsNotNull? then value.Some? && !value.value.Null?
    else value.Some? && HoldsOf(sem, w, value.value)
  }

  predicate HoldsOf(sem: Semantics, w: Where, v: Value)
    requires Arity(w) && !NullOperator(w.op)
  {
    match w.op
    case Eq => v == w.operands[0]
    case Ne => v != w.operands[0]
    case Lt => Compares(sem, v, w.operands[0], c => c < 0)
    case Le => Compares(sem, v, w.operands[0], c => c <= 0)
    case Gt => Compares(sem, v, w.operands[0], c => c > 0)
    case Ge => Compares(sem, v, w.operands[0], c => c >= 0)
    case In => v in w.operands
    case Between => Compares(sem, v, w.operands[0], c => c >= 0) && Compares(sem, v, w.operands[1], c => c <= 0)
    case _ => sem.test(w.op, v, w.operands[0])
  }

  predicate PlanArity(plan: Plan) {
    && (forall i :: 0 <= i < |plan.where| ==> Arity(plan.where[i]))
    && (forall i :: 0 <= i < |plan.or| ==> PlanArity(plan.or[i]))
  }

  /** matchesPlan: the conditions and the branches are alternatives, once there are any of both. */
  predicate MatchesPlan(sem: Semantics, row: Value, plan: Plan)
    requires PlanArity(plan)
  {
    var base := forall i :: 0 <= i < |plan.where| ==> Holds(sem, plan.where[i], ValueFor(row, plan.where[i].field));
    if plan.or == [] then base
    else (plan.where != [] && base) || exists i :: 0 <= i < |plan.or| && MatchesPlan(sem, row, plan.or[i])
  }

  /** The order that range comparison gives to numbers. */
  ghost predicate OrdersScalars(sem: Semantics) {
    forall x, y :: sem.range(Scalar(x), Scalar(y)).Some?
      && (sem.range(Scalar(x), Scalar(y)).value < 0 <==> x < y) && (sem.range(Scalar(x), Scalar(y)).value > 0 <==> x > y)
  }

  /** What the conditions say of numbers. */
  lemma ConditionsOnScalars(sem: Semantics, field: Path, x: int, a: int, b: int, operands: seq<Value>)
    requires OrdersScalars(sem)
    ensures var v := Some(Scalar(x));
      && (Holds(sem, Where(field, Eq, [Scalar(a)]), v) <==> x == a) && (Holds(sem, Where(field, Ne, [Scalar(a)]), v) <==> x != a)
      && (Holds(sem, Where(field, Lt, [Scalar(a)]), v) <==> x < a) && (Holds(sem, Where(field, Le, [Scalar(a)]), v) <==> x <= a)
      && (Holds(sem, Where(field, Gt, [Scalar(a)]), v) <==> x > a) && (Holds(sem, Where(field, Ge, [Scalar(a)]), v) <==> x >= a)
      && (Holds(sem, Where(field, Between, [Scalar(a), Scalar(b)]), v) <==> a <= x <= b)
      && (Holds(sem, Where(field, In, operands), v) <==> exists i :: 0 <= i < |operands| && operands[i] == Scalar(x))
  {
  }

  /** The remaining operators look for their operand in the row's value. */
  lemma ConditionsOnContents(sem: Semantics, field: Path, op: Operator, value: Value, sought: Value)
    requires op.ArrayContains? || op.TextContains? || op.JsonContains? || op.BeginsWith?
    ensures Holds(sem, Where(field, op, [sought]), Some(value)) <==> sem.test(op, value, sought)
  {
  }

  /** Only the test for null holds of undefined, and of values that have no order none of the comparisons. */
  lemma ConditionsOnNothing(sem: Semantics, w: Where, value: Option<Value>)
    requires Arity(w)
    ensures value.None? || value.value.Null? ==> (w.op.IsNull? ==> Holds(sem, w, value)) && (w.op.IsNotNull? ==> !Holds(sem, w, value))
    ensures value.Some? && !value.value.Null? ==> (w.op.IsNull? ==> !Holds(sem, w, value)) && (w.op.IsNotNull? ==> Holds(sem, w, value))
    ensures value.None? && Holds(sem, w, value) ==> w.op.IsNull?
    ensures value.Some? && (w.op.Lt? || w.op.Le? || w.op.Gt? || w.op.Ge? || w.op.Between?) && sem.range(value.value, w.operands[0]).None? ==>
      !Holds(sem, w, value)
  {
  }

  /** The lists of conditions of a plan's nodes; a node with branches and no conditions of its own has none. */
  function Alternatives(plan: Plan): seq<seq<Where>>
    decreases plan, |plan.or| + 1
  {
    (if plan.or == [] || plan.where != [] then [plan.where] else []) + BranchAlternatives(plan, |plan.or|)
  }

  function BranchAlternatives(plan: Plan, n: nat): seq<seq<Where>>
    requires n <= |plan.or|
    decreases plan, n
  {
    if n == 0 then [] else BranchAlternatives(plan, n - 1) + Alternatives(plan.or[n - 1])
  }

  predicate AllHold(sem: Semantics, row: Value, ws: seq<Where>) {
    forall i :: 0 <= i < |ws| ==> Arity(ws[i]) && Holds(sem, ws[i], ValueFor(row, ws[i].field))
  }

  /** A plan matches a row if and only if all the conditions of one of its nodes hold. */
  lemma {:induction false} MatchesIffAnAlternativeHolds(sem: Semantics, row: Value, plan: Plan)
    requires PlanArity(plan)
    ensures MatchesPlan(sem, row, plan) <==> exists ws :: ws in Alternatives(plan) && AllHold(sem, row, ws)
    decreases plan, |plan.or| + 1
  {
    BranchMatchesIff(sem, row, plan, |plan.or|);
    hide Holds;
    assert AllHold(sem, row, plan.where) <==>
      forall i :: 0 <= i < |plan.where| ==> Holds(sem, plan.where[i], ValueFor(row, plan.where[i].field));
  }

  lemma {:induction false} BranchMatchesIff(sem: Semantics, row: Value, plan: Plan, n: nat)
    requires PlanArity(plan) && n <= |plan.or|
    ensures (exists i :: 0 <= i < n && MatchesPlan(sem, row, plan.or[i])) <==>
      exists ws :: ws in BranchAlternatives(plan, n) && AllHold(sem, row, ws)
    decreases plan, n
  {
    hide Holds, AllHold;
    if n > 0 {
      BranchMatchesIff(sem, row, plan, n - 1);
      MatchesIffAnAlternativeHolds(sem, row, plan.or[n - 1]);
      hide MatchesPlan, Alternatives;
    }
  }

  // ---------------------------------------------------------------- encoding

  /** The first codec whose path overlaps the field. */
  function FindMatch(codecs: seq<Codec>, field: Path): (i: nat)
    ensures i <= |codecs|
    ensures i < |codecs| ==> !PathRelation(field, codecs[i].path).Unrelated?
    ensures forall j :: 0 <= j < i ==> PathRelation(field, codecs[j].path).Unrelated?
  {
    if codecs == [] || !PathRelation(field, codecs[0].path).Unrelated? then 0
    else
      var i := FindMatch(codecs[1..], field);
      assert forall j :: 0 < j < |codecs| ==> codecs[j] == codecs[1..][j - 1];
      1 + i
  }

  function EncodeOperand(c: Codec, op: Operator, v: Value): Option<Value> {
    if c.encodeQuery.None? || op !in c.operators then None else c.encodeQuery.value(v, op)
  }

  function EncodeOperands(c: Codec, op: Operator, operands: seq<Value>): (r: Option<seq<Value>>)
    ensures r.Some? ==> |r.value| == |operands|
  {
    if operands == [] then Some([])
    else
      var last := |operands| - 1;
      var before, v := EncodeOperands(c, op, operands[..last]), EncodeOperand(c, op, operands[last]);
      if before.None? || v.None? then None else Some(before.value + [v.value])
  }

  function EncodeWhere(sem: Semantics, codecs: seq<Codec>, w: Where): (r: Option<Where>)
    ensures r.Some? ==> r.value.field == w.field && r.value.op == w.op && (Arity(w) ==> Arity(r.value))
  {
    var i := FindMatch(codecs, w.field);
    if i == |codecs| then Some(w)
    else if !PathRelation(w.field, codecs[i].path).Exact? || NullOperator(w.op) then None
    else
      var operands := EncodeOperands(codecs[i], w.op, w.operands);
      if operands.None? || !sem.valid(w.op, operands.value) then None else Some(w.(operands := operands.value))
  }

  function EncodeWheres(sem: Semantics, codecs: seq<Codec>, ws: seq<Where>): (r: Option<seq<Where>>)
    ensures r.Some? ==> |r.value| == |ws| && forall i :: 0 <= i < |ws| ==> EncodeWhere(sem, codecs, ws[i]) == Some(r.value[i])
  {
    if ws == [] then Some([])
    else
      var last := |ws| - 1;
      var before, w := EncodeWheres(sem, codecs, ws[..last]), EncodeWhere(sem, codecs, ws[last]);
      if before.None? || w.None? then None else Some(before.value + [w.value])
  }

  /** Sorting on a codec's path needs an encoding that keeps the order, declared by '<' and '>'. */
  predicate SortAllowed(codecs: seq<Codec>, field: Path) {
    var i := FindMatch(codecs, field);
    i < |codecs| ==>
      && PathRelation(field, codecs[i].path).Exact?
      && codecs[i].encodeQuery.Some? && Lt in codecs[i].operators && Gt in codecs[i].operators
  }

  predicate SortsAllowed(codecs: seq<Codec>, sort: seq<Path>) {
    forall i :: 0 <= i < |sort| ==> SortAllowed(codecs, sort[i])
  }

  /** encodeQueryPlanFieldCodecs */
  function EncodePlan(sem: Semantics, codecs: seq<Codec>, plan: Plan): Option<Plan>
    decreases plan, 1
  {
    if !SortsAllowed(codecs, plan.sort) then None
    else if plan.encoded then Some(plan)
    else
      var where, or := EncodeWheres(sem, codecs, plan.where), EncodeBranches(sem, codecs, plan, |plan.or|);
      if where.None? || or.None? then None else Some(Plan(where.value, or.value, plan.sort, true))
  }

  /** The first n branches of the plan. */
  function EncodeBranches(sem: Semantics, codecs: seq<Codec>, plan: Plan, n: nat): (r: Option<seq<Plan>>)
    requires n <= |plan.or|
    ensures r.Some? ==> |r.value| == n && forall i :: 0 <= i < n ==> EncodePlan(sem, codecs, plan.or[i]) == Some(r.value[i])
    decreases plan, 0, n
  {
    if n == 0 then Some([])
    else
      var before, branch := EncodeBranches(sem, codecs, plan, n - 1), EncodePlan(sem, codecs, plan.or[n - 1]);
      if before.None? || branch.None? then None else Some(before.value + [branch.value])
  }

  /** Aggregate plans sort nothing; their branches are query plans. */
  function EncodeAggregatePlan(sem: Semantics, codecs: seq<Codec>, plan: Plan): Option<Plan> {
    if plan.encoded then Some(plan)
    else
      var where, or := EncodeWheres(sem, codecs, plan.where), EncodeBranches(sem, codecs, plan, |plan.or|);
      if where.None? || or.None? then None else Some(Plan(where.value, or.value, plan.sort, true))
  }

  // ---------------------------------------------------------------- the loops

  method EncodeOperandList(c: Codec, op: Operator, operands: seq<Value>) returns (encoded: Option<seq<Value>>)
    ensures encoded == EncodeOperands(c, op, operands)
  {
    var done: seq<Value> := [];
    for i := 0 to |operands|
      invariant EncodeOperands(c, op, operands[..i]) == Some(done)
    {
      assert operands[..i + 1][..i] == operands[..i];
      var v := EncodeOperand(c, op, operands[i]);
      if v.None? {
        OperandsFailEarly(c, op, operands, i + 1);
        return None;
      }
      done := done + [v.value];
    }
    assert operands[..|operands|] == operands;
    return Some(done);
  }

  lemma {:induction false} OperandsFailEarly(c: Codec, op: Operator, operands: seq<Value>, n: nat)
    requires n <= |operands| && EncodeOperands(c, op, operands[..n]).None?
    ensures EncodeOperands(c, op, operands).None?
    decreases |operands| - n
  {
    if n == |operands| { assert operands[..n] == operands; }
    else {
      assert operands[..n + 1][..n] == operands[..n];
      OperandsFailEarly(c, op, operands, n + 1);
    }
  }

  method EncodeOneWhere(sem: Semantics, codecs: seq<Codec>, w: Where) returns (encoded: Option<Where>)
    ensures encoded == EncodeWhere(sem, codecs, w)
  {
    var i := FindMatch(codecs, w.field);
    if i == |codecs| { return Some(w); }
    if !PathRelation(w.field, codecs[i].path).Exact? || NullOperator(w.op) { return None; }
    var operands := EncodeOperandList(codecs[i], w.op, w.operands);
    if operands.None? || !sem.valid(w.op, operands.value) { return None; }
    return Some(w.(operands := operands.value));
  }

  method EncodeWhereList(sem: Semantics, codecs: seq<Codec>, ws: seq<Where>) returns (encoded: Option<seq<Where>>)
    ensures encoded == EncodeWheres(sem, codecs, ws)
  {
    hide EncodeWhere;
    var done: seq<Where> := [];
    for i := 0 to |ws|
      invariant EncodeWheres(sem, codecs, ws[..i]) == Some(done)
    {
      assert ws[..i + 1][..i] == ws[..i];
      var w := EncodeOneWhere(sem, codecs, ws[i]);
      if w.None? {
        return None;
      }
      done := done + [w.value];
    }
    assert ws[..|ws|] == ws;
    return Some(done);
  }

  method EncodeQueryPlan(sem: Semantics, codecs: seq<Codec>, plan: Plan) returns (encoded: Option<Plan>)
    ensures encoded == EncodePlan(sem, codecs, plan)
    decreases plan
  {
    for i := 0 to |plan.sort|
      invariant forall j :: 0 <= j < i ==> SortAllowed(codecs, plan.sort[j])
    {
      if !SortAllowed(codecs, plan.sort[i]) { return None; }
    }
    if plan.encoded { return Some(plan); }
    var where := EncodeWhereList(sem, codecs, plan.where);
    if where.None? { return None; }
    var or: seq<Plan> := [];
    for i := 0 to |plan.or|
      invariant EncodeBranches(sem, codecs, plan, i) == Some(or)
    {
      var branch := EncodeQueryPlan(sem, codecs, plan.or[i]);
      if branch.None? {
        return None;
      }
      or := or + [branch.value];
    }
    return Some(Plan(where.value, or, plan.sort, true));
  }

  // ---------------------------------------------------------------- what is kept, and when it succeeds

  /** The plans have the same sorts, fields and operators, branch by branch; only operands may differ. */
  predicate SameShape(plan: Plan, encoded: Plan)
    decreases plan
  {
    && encoded.sort == plan.sort && |encoded.where| == |plan.where| && |encoded.or| == |plan.or|
    && (forall i :: 0 <= i < |plan.where| ==>
          && encoded.where[i].field == plan.where[i].field && encoded.where[i].op == plan.where[i].op
          && |encoded.where[i].operands| == |plan.where[i].operands|)
    && (forall i :: 0 <= i < |plan.or| ==> SameShape(plan.or[i], encoded.or[i]))
  }

  lemma {:induction false} ShapeOfItself(plan: Plan)
    ensures SameShape(plan, plan)
    decreases plan
  {
    forall i | 0 <= i < |plan.or| ensures SameShape(plan.or[i], plan.or[i]) { ShapeOfItself(plan.or[i]); }
  }

  /** Encoding keeps the sorts and the shape of the plan and of every branch, and marks it as encoded. */
  lemma {:induction false} EncodingKeepsShape(sem: Semantics, codecs: seq<Codec>, plan: Plan)
    requires EncodePlan(sem, codecs, plan).Some?
    ensures var encoded := EncodePlan(sem, codecs, plan).value; encoded.encoded && SameShape(plan, encoded)
    decreases plan
  {
    if plan.encoded {
      ShapeOfItself(plan);
    } else {
      var encoded := EncodePlan(sem, codecs, plan).value;
      forall i | 0 <= i < |plan.or| ensures SameShape(plan.or[i], encoded.or[i]) { EncodingKeepsShape(sem, codecs, plan.or[i]); }
      forall i | 0 <= i < |plan.where| ensures |encoded.where[i].operands| == |plan.where[i].operands| {
        assert EncodeWhere(sem, codecs, plan.where[i]) == Some(encoded.where[i]);
      }
    }
  }

  /** Codec i is the first whose path is the field, or contains it or is contained in it. */
  predicate Concerns(codecs: seq<Codec>, field: Path, i: nat) {
    i < |codecs| && !Disjoint(codecs[i].path, field) && forall j :: 0 <= j < i ==> Disjoint(codecs[j].path, field)
  }

  predicate Untouched(codecs: seq<Codec>, field: Path) { forall j :: 0 <= j < |codecs| ==> Disjoint(codecs[j].path, field) }

  lemma FirstMatchConcerns(codecs: seq<Codec>, field: Path)
    ensures var i := FindMatch(codecs, field); if i < |codecs| then Concerns(codecs, field, i) else Untouched(codecs, field)
    ensures forall i: nat :: Concerns(codecs, field, i) ==> i == FindMatch(codecs, field)
  {
    hide FindMatch;
    assert forall i :: 0 <= i < |codecs| ==> (PathRelation(field, codecs[i].path).Unrelated? <==> Disjoint(codecs[i].path, field)) by {
      forall i | 0 <= i < |codecs| ensures PathRelation(field, codecs[i].path).Unrelated? <==> Disjoint(codecs[i].path, field) {
        UnrelatedIffDisjoint(field, codecs[i].path);
      }
    }
    hide PathRelation, Disjoint;
  }

  lemma UnrelatedIffDisjoint(field: Path, codec: Path)
    ensures PathRelation(field, codec).Unrelated? <==> Disjoint(codec, field)
  {
  }

  /** The codec supports the operator for the operand, and encodes it so. */
  predicate OperandBecomes(c: Codec, op: Operator, v: Value, encoded: Value) {
    c.encodeQuery.Some? && op in c.operators && c.encodeQuery.value(v, op) == Some(encoded)
  }

  predicate OperandsBecome(c: Codec, w: Where, encoded: seq<Value>) {
    |encoded| == |w.operands| && forall j :: 0 <= j < |encoded| ==> OperandBecomes(c, w.op, w.operands[j], encoded[j])
  }

  /** A condition can be encoded: no codec concerns its field, or the first that does stands exactly
      there, supports the operator for every operand, and makes valid operands of them. */
  ghost predicate ConditionEncodes(sem: Semantics, codecs: seq<Codec>, w: Where) {
    || Untouched(codecs, w.field)
    || exists i: nat, encoded: seq<Value> :: Concerns(codecs, w.field, i) && codecs[i].path == w.field
         && OperandsBecome(codecs[i], w, encoded) && !NullOperator(w.op) && sem.valid(w.op, encoded)
  }

  /** A field can be sorted by: no codec concerns it, or the first that does stands exactly there and
      encodes in an order that it declares to be kept. */
  ghost predicate SortEncodes(codecs: seq<Codec>, field: Path) {
    || Untouched(codecs, field)
    || exists i: nat :: Concerns(codecs, field, i) && codecs[i].path == field
         && codecs[i].encodeQuery.Some? && Lt in codecs[i].operators && Gt in codecs[i].operators
  }

  ghost predicate PlanEncodes(sem: Semantics, codecs: seq<Codec>, plan: Plan)
    decreases plan
  {
    && (forall i :: 0 <= i < |plan.sort| ==> SortEncodes(codecs, plan.sort[i]))
    && (plan.encoded
        || (&& (forall i :: 0 <= i < |plan.where| ==> ConditionEncodes(sem, codecs, plan.where[i]))
            && (forall i :: 0 <= i < |plan.or| ==> PlanEncodes(sem, codecs, plan.or[i]))))
  }

  lemma {:induction false} OperandsEncodeIff(c: Codec, w: Where, encoded: seq<Value>)
    ensures EncodeOperands(c, w.op, w.operands) == Some(encoded) <==> OperandsBecome(c, w, encoded)
    decreases |w.operands|
  {
    if w.operands != [] {
      var last := |w.operands| - 1;
      var before := w.(operands := w.operands[..last]);
      if |encoded| == |w.operands| {
        assert encoded == encoded[..last] + [encoded[last]];
        OperandsEncodeIff(c, before, encoded[..last]);
        assert OperandsBecome(c, w, encoded) <==> OperandsBecome(c, before, encoded[..last]) && OperandBecomes(c, w.op, w.operands[last], encoded[last]);
      }
    }
  }

  lemma ConditionEncodesIff(sem: Semantics, codecs: seq<Codec>, w: Where)
    ensures EncodeWhere(sem, codecs, w).Some? <==> ConditionEncodes(sem, codecs, w)
  {
    FirstMatchConcerns(codecs, w.field);
    var i := FindMatch(codecs, w.field);
    if i < |codecs| {
      var operands := EncodeOperands(codecs[i], w.op, w.operands);
      forall encoded ensures operands == Some(encoded) <==> OperandsBecome(codecs[i], w, encoded) { OperandsEncodeIff(codecs[i], w, encoded); }
      hide EncodeOperands, OperandsBecome, FindMatch;
      if EncodeWhere(sem, codecs, w).Some? { assert OperandsBecome(codecs[i], w, operands.value); }
    }
  }

  lemma SortEncodesIff(codecs: seq<Codec>, field: Path)
    ensures SortAllowed(codecs, field) <==> SortEncodes(codecs, field)
  {
    FirstMatchConcerns(codecs, field);
    hide FindMatch;
  }

  lemma {:induction false} WheresEncodeIff(sem: Semantics, codecs: seq<Codec>, ws: seq<Where>)
    ensures EncodeWheres(sem, codecs, ws).Some? <==> forall i :: 0 <= i < |ws| ==> EncodeWhere(sem, codecs, ws[i]).Some?
  {
    hide EncodeWhere;
    if ws != [] { WheresEncodeIff(sem, codecs, ws[..|ws| - 1]); }
  }

  lemma {:induction false} BranchesEncodeIff(sem: Semantics, codecs: seq<Codec>, plan: Plan, n: nat)
    requires n <= |plan.or|
    ensures EncodeBranches(sem, codecs, plan, n).Some? <==> forall i :: 0 <= i < n ==> EncodePlan(sem, codecs, plan.or[i]).Some?
    decreases n
  {
    hide EncodePlan;
    if n > 0 { BranchesEncodeIff(sem, codecs, plan, n - 1); }
  }

  /** Exactly when a plan can be encoded. */
  lemma {:induction false} EncodingSucceedsIff(sem: Semantics, codecs: seq<Codec>, plan: Plan)
    ensures EncodePlan(sem, codecs, plan).Some? <==> PlanEncodes(sem, codecs, plan)
    decreases plan
  {
    forall i | 0 <= i < |plan.sort| ensures SortAllowed(codecs, plan.sort[i]) <==> SortEncodes(codecs, plan.sort[i]) {
      SortEncodesIff(codecs, plan.sort[i]);
    }
    forall i | 0 <= i < |plan.where| ensures EncodeWhere(sem, codecs, plan.where[i]).Some? <==> ConditionEncodes(sem, codecs, plan.where[i]) {
      ConditionEncodesIff(sem, codecs, plan.where[i]);
    }
    forall i | 0 <= i < |plan.or| ensures EncodePlan(sem, codecs, plan.or[i]).Some? <==> PlanEncodes(sem, codecs, plan.or[i]) {
      EncodingSucceedsIff(sem, codecs, plan.or[i]);
    }
    hide SortAllowed, SortEncodes, ConditionEncodes, EncodeWhere, EncodeWheres, EncodeBranches;
    WheresEncodeIff(sem, codecs, plan.where);
    BranchesEncodeIff(sem, codecs, plan, |plan.or|);
  }

  // ---------------------------------------------------------------- the same rows match

  /** encodeQuery agrees with encode: on every operator the codec allows, a value satisfies a condition
      exactly when its encoding satisfies the encoded condition. */
  ghost predicate Faithful(sem: Semantics, c: Codec) {
    forall w: Where, x: Value :: Arity(w) && w.op in c.operators && !NullOperator(w.op) && c.encode(x).Some? && EncodeOperands(c, w.op, w.operands).Some? ==>
      (HoldsOf(sem, w, x) <==> HoldsOf(sem, w.(operands := EncodeOperands(c, w.op, w.operands).value), c.encode(x).value))
  }

  predicate TestsEquality(op: Operator) { op.Eq? || op.Ne? || op.In? }

  /** Operands that are only compared for equality are encoded like stored values. */
  ghost predicate EncodesEqually(c: Codec) {
    c.encodeQuery.Some? ==> forall op, v :: TestsEquality(op) ==> c.encodeQuery.value(v, op) == c.encode(v)
  }

  /** The same as Faithful, for the operators that look at more than equality. */
  ghost predicate FaithfulBeyondEquality(sem: Semantics, c: Codec) {
    forall w: Where, x: Value :: Arity(w) && w.op in c.operators && !TestsEquality(w.op) && !NullOperator(w.op) && c.encode(x).Some? && EncodeOperands(c, w.op, w.operands).Some? ==>
      (HoldsOf(sem, w, x) <==> HoldsOf(sem, w.(operands := EncodeOperands(c, w.op, w.operands).value), c.encode(x).value))
  }

  /** Each encoded operand equals the encoded value exactly where the operand equals the value. */
  lemma {:induction false} OperandsEncodeEqually(c: Codec, op: Operator, operands: seq<Value>, x: Value)
    requires Lossless(c) && EncodesEqually(c) && TestsEquality(op) && c.encode(x).Some?
    requires EncodeOperands(c, op, operands).Some?
    ensures var encoded := EncodeOperands(c, op, operands).value;
      forall i :: 0 <= i < |operands| ==> (encoded[i] == c.encode(x).value <==> operands[i] == x)
  {
    if operands != [] {
      var last := |operands| - 1;
      OperandsEncodeEqually(c, op, operands[..last], x);
      var v := operands[last];
      assert EncodeOperand(c, op, v) == c.encode(v);
      assert c.decode(c.encode(x).value) == Some(x) && c.decode(c.encode(v).value) == Some(v);
    }
  }

  /** A lossless codec that encodes the operands of =, != and in like stored values is faithful on
      them; only for its other operators that has to be known. */
  lemma LosslessIsFaithful(sem: Semantics, c: Codec)
    requires Lossless(c) && EncodesEqually(c) && FaithfulBeyondEquality(sem, c)
    ensures Faithful(sem, c)
  {
    forall w: Where, x: Value | Arity(w) && w.op in c.operators && !NullOperator(w.op) && c.encode(x).Some? && EncodeOperands(c, w.op, w.operands).Some?
      ensures HoldsOf(sem, w, x) <==> HoldsOf(sem, w.(operands := EncodeOperands(c, w.op, w.operands).value), c.encode(x).value)
    {
      if TestsEquality(w.op) { EqualityKept(sem, c, w, x); }
    }
  }

  lemma EqualityKept(sem: Semantics, c: Codec, w: Where, x: Value)
    requires Lossless(c) && EncodesEqually(c) && Arity(w) && TestsEquality(w.op) && c.encode(x).Some?
    requires EncodeOperands(c, w.op, w.operands).Some?
    ensures HoldsOf(sem, w, x) <==> HoldsOf(sem, w.(operands := EncodeOperands(c, w.op, w.operands).value), c.encode(x).value)
  {
    OperandsEncodeEqually(c, w.op, w.operands, x);
    hide Lossless, EncodesEqually;
    var encoded := EncodeOperands(c, w.op, w.operands).value;
    hide EncodeOperands;
    if w.op.In? {
      if x in w.operands {
        var i :| 0 <= i < |w.operands| && w.operands[i] == x;
        assert encoded[i] in encoded;
      }
      if c.encode(x).value in encoded {
        var i :| 0 <= i < |encoded| && encoded[i] == c.encode(x).value;
        assert w.operands[i] in w.operands;
      }
    }
  }

  /** On the codec's own field: the encoded condition holds of the encoded value when the condition
      holds of the value. */
  lemma OwnWhereKept(sem: Semantics, c: Codec, w: Where, value: Option<Value>)
    requires Faithful(sem, c) && Arity(w) && !NullOperator(w.op) && EncodeOperands(c, w.op, w.operands).Some?
    requires value.Some? ==> c.encode(value.value).Some?
    ensures var w' := w.(operands := EncodeOperands(c, w.op, w.operands).value);
      Holds(sem, w', if value.None? then None else c.encode(value.value)) <==> Holds(sem, w, value)
  {
    if w.operands != [] { OperatorIsAllowed(c, w.op, w.operands); }
    hide EncodeOperands;
  }

  lemma OperatorIsAllowed(c: Codec, op: Operator, operands: seq<Value>)
    requires operands != [] && EncodeOperands(c, op, operands).Some?
    ensures op in c.operators
  {
  }

  /** A condition on a stored row holds exactly when the original holds of the row. */
  lemma WhereKept(sem: Semantics, codecs: seq<Codec>, w: Where, row: Value, stored: Value)
    requires HavePaths(codecs) && NoOverlap(codecs) && forall i :: 0 <= i < |codecs| ==> Faithful(sem, codecs[i])
    requires ApplyAll(codecs, row, Write) == Some(stored)
    requires Arity(w) && EncodeWhere(sem, codecs, w).Some?
    ensures Holds(sem, EncodeWhere(sem, codecs, w).value, ValueFor(stored, w.field)) <==> Holds(sem, w, ValueFor(row, w.field))
  {
    WrittenValues(codecs, row, stored, w.field);
    hide EncodeOperands, ApplyAll, NoOverlap, Holds, HoldsOf;
    var i := FindMatch(codecs, w.field);
    if i == |codecs| {
      forall j | 0 <= j < |codecs| ensures Disjoint(codecs[j].path, w.field) { UnrelatedIffDisjoint(w.field, codecs[j].path); }
    } else {
      assert codecs[i].path == w.field && Faithful(sem, codecs[i]);
      hide Faithful;
      OwnWhereKept(sem, codecs[i], w, ValueFor(row, w.field));
    }
  }

  /** What a plan asks of a row: a node that is already encoded looks at the stored form. */
  ghost predicate Means(sem: Semantics, row: Value, stored: Value, plan: Plan)
    requires PlanArity(plan)
    decreases plan
  {
    if plan.encoded then MatchesPlan(sem, stored, plan)
    else
      var base := forall i :: 0 <= i < |plan.where| ==> Holds(sem, plan.where[i], ValueFor(row, plan.where[i].field));
      if plan.or == [] then base
      else (plan.where != [] && base) || exists i :: 0 <= i < |plan.or| && Means(sem, row, stored, plan.or[i])
  }

  ghost predicate Unmarked(plan: Plan) { !plan.encoded && forall i :: 0 <= i < |plan.or| ==> Unmarked(plan.or[i]) }

  lemma {:induction false} UnmarkedMeansMatches(sem: Semantics, row: Value, stored: Value, plan: Plan)
    requires PlanArity(plan) && Unmarked(plan)
    ensures Means(sem, row, stored, plan) <==> MatchesPlan(sem, row, plan)
    decreases plan
  {
    forall i | 0 <= i < |plan.or| ensures Means(sem, row, stored, plan.or[i]) <==> MatchesPlan(sem, row, plan.or[i]) {
      UnmarkedMeansMatches(sem, row, stored, plan.or[i]);
    }
  }

  lemma {:induction false} EncodedArity(sem: Semantics, codecs: seq<Codec>, plan: Plan)
    requires PlanArity(plan) && EncodePlan(sem, codecs, plan).Some?
    ensures PlanArity(EncodePlan(sem, codecs, plan).value)
    decreases plan
  {
    if !plan.encoded {
      var or := EncodeBranches(sem, codecs, plan, |plan.or|).value;
      forall i | 0 <= i < |or| ensures PlanArity(or[i]) { EncodedArity(sem, codecs, plan.or[i]); }
    }
  }

  /** Conditions and branches that agree one by one make plans that agree. */
  lemma SameAlternatives(sem: Semantics, plan: Plan, encoded: Plan, row: Value, stored: Value)
    requires PlanArity(plan) && PlanArity(encoded) && !plan.encoded
    requires |encoded.where| == |plan.where| && |encoded.or| == |plan.or|
    requires forall i :: 0 <= i < |plan.where| ==>
      (Holds(sem, encoded.where[i], ValueFor(stored, encoded.where[i].field)) <==> Holds(sem, plan.where[i], ValueFor(row, plan.where[i].field)))
    requires forall i :: 0 <= i < |plan.or| ==> (MatchesPlan(sem, stored, encoded.or[i]) <==> Means(sem, row, stored, plan.or[i]))
    ensures MatchesPlan(sem, stored, encoded) <==> Means(sem, row, stored, plan)
  {
    hide Holds, ValueFor;
  }

  /** The encoded plan matches a stored row exactly when the plan meant the row. */
  lemma {:induction false} EncodingKeepsMeaning(sem: Semantics, codecs: seq<Codec>, plan: Plan, row: Value, stored: Value)
    requires HavePaths(codecs) && NoOverlap(codecs) && forall i :: 0 <= i < |codecs| ==> Faithful(sem, codecs[i])
    requires ApplyAll(codecs, row, Write) == Some(stored)
    requires PlanArity(plan) && EncodePlan(sem, codecs, plan).Some?
    ensures PlanArity(EncodePlan(sem, codecs, plan).value)
    ensures MatchesPlan(sem, stored, EncodePlan(sem, codecs, plan).value) <==> Means(sem, row, stored, plan)
    decreases plan
  {
    EncodedArity(sem, codecs, plan);
    hide ApplyAll, NoOverlap, Faithful, Holds, ValueFor, EncodeWhere, EncodeWheres;
    if !plan.encoded {
      var encoded := EncodePlan(sem, codecs, plan).value;
      forall i | 0 <= i < |plan.where|
        ensures Holds(sem, encoded.where[i], ValueFor(stored, encoded.where[i].field)) <==> Holds(sem, plan.where[i], ValueFor(row, plan.where[i].field))
      {
        WhereKept(sem, codecs, plan.where[i], row, stored);
      }
      forall i | 0 <= i < |plan.or|
        ensures MatchesPlan(sem, stored, encoded.or[i]) <==> Means(sem, row, stored, plan.or[i])
      {
        EncodingKeepsMeaning(sem, codecs, plan.or[i], row, stored);
      }
      SameAlternatives(sem, plan, encoded, row, stored);
    }
  }

  /** A plan with no part encoded yet: the encoded plan selects, among stored rows, exactly the rows
      that the original plan selects. */
  lemma EncodedPlanSelectsSameRows(sem: Semantics, codecs: seq<Codec>, plan: Plan, row: Value, stored: Value)
    requires HavePaths(codecs) && NoOverlap(codecs) && forall i :: 0 <= i < |codecs| ==> Faithful(sem, codecs[i])
    requires ApplyAll(codecs, row, Write) == Some(stored)
    requires PlanArity(plan) && Unmarked(plan) && EncodePlan(sem, codecs, plan).Some?
    ensures PlanArity(EncodePlan(sem, codecs, plan).value)
    ensures MatchesPlan(sem, stored, EncodePlan(sem, codecs, plan).value) <==> MatchesPlan(sem, row, plan)
  {
    EncodingKeepsMeaning(sem, codecs, plan, row, stored);
    UnmarkedMeansMatches(sem, row, stored, plan);
  }

  /** The same for lossless codecs, with nothing assumed about =, != and in but that their operands
      are encoded like stored values. */
  lemma LosslessPlansSelectSameRows(sem: Semantics, codecs: seq<Codec>, plan: Plan, row: Value, stored: Value)
    requires HavePaths(codecs) && NoOverlap(codecs)
    requires forall i :: 0 <= i < |codecs| ==> Lossless(codecs[i]) && EncodesEqually(codecs[i]) && FaithfulBeyondEquality(sem, codecs[i])
    requires ApplyAll(codecs, row, Write) == Some(stored)
    requires PlanArity(plan) && Unmarked(plan) && EncodePlan(sem, codecs, plan).Some?
    ensures PlanArity(EncodePlan(sem, codecs, plan).value)
    ensures MatchesPlan(sem, stored, EncodePlan(sem, codecs, plan).value) <==> MatchesPlan(sem, row, plan)
  {
    hide Lossless, EncodesEqually, FaithfulBeyondEquality, Faithful;
    forall i | 0 <= i < |codecs| ensures Faithful(sem, codecs[i]) { LosslessIsFaithful(sem, codecs[i]); }
    EncodedPlanSelectsSameRows(sem, codecs, plan, row, stored);
  }

  /** Encoding an encoded plan changes nothing, and never fails: by its marker it is left alone. */
  lemma EncodingTwiceIsOnce(sem: Semantics, codecs: seq<Codec>, plan: Plan)
    requires EncodePlan(sem, codecs, plan).Some?
    ensures EncodePlan(sem, codecs, EncodePlan(sem, codecs, plan).value) == EncodePlan(sem, codecs, plan)
    ensures EncodeAggregatePlan(sem, codecs, EncodePlan(sem, codecs, plan).value) == EncodePlan(sem, codecs, plan)
  {
  }

  lemma {:induction false} BranchesIgnoreSort(sem: Semantics, codecs: seq<Codec>, plan: Plan, n: nat)
    requires n <= |plan.or|
    ensures EncodeBranches(sem, codecs, plan.(sort := []), n) == EncodeBranches(sem, codecs, plan, n)
    decreases n
  {
    if n > 0 { BranchesIgnoreSort(sem, codecs, plan, n - 1); }
  }

  lemma SortIsNotMatched(sem: Semantics, row: Value, plan: Plan, other: Plan)
    requires PlanArity(plan) && other.where == plan.where && other.or == plan.or
    ensures PlanArity(other) && (MatchesPlan(sem, row, other) <==> MatchesPlan(sem, row, plan))
  {
    hide Holds;
  }

  /** An aggregate's plan, whose sort does not matter, is encoded like a query without sort; it can be encoded
      exactly when that can, and then selects the same rows. */
  lemma AggregatePlansSelectSameRows(sem: Semantics, codecs: seq<Codec>, plan: Plan, row: Value, stored: Value)
    requires HavePaths(codecs) && NoOverlap(codecs) && PlanArity(plan) && ApplyAll(codecs, row, Write) == Some(stored)
    requires (forall i :: 0 <= i < |codecs| ==> Faithful(sem, codecs[i])) && Unmarked(plan)
    ensures PlanArity(plan.(sort := []))
    ensures EncodeAggregatePlan(sem, codecs, plan).Some? <==> EncodePlan(sem, codecs, plan.(sort := [])).Some?
    ensures EncodeAggregatePlan(sem, codecs, plan).Some? ==>
      && PlanArity(EncodeAggregatePlan(sem, codecs, plan).value) && EncodeAggregatePlan(sem, codecs, plan).value.encoded
      && EncodeAggregatePlan(sem, codecs, plan).value.sort == plan.sort
      && (MatchesPlan(sem, stored, EncodeAggregatePlan(sem, codecs, plan).value) <==> MatchesPlan(sem, row, plan))
  {
    var query := plan.(sort := []);
    BranchesIgnoreSort(sem, codecs, plan, |plan.or|);
    SortIsNotMatched(sem, row, plan, query);
    assert Unmarked(query) && SortsAllowed(codecs, []);
    hide EncodeWheres, EncodeBranches, HavePaths, NoOverlap, PlanArity, Unmarked, MatchesPlan, Faithful;
    var encoded := EncodePlan(sem, codecs, query);
    if encoded.Some? {
      EncodedPlanSelectsSameRows(sem, codecs, query, row, stored);
      SortIsNotMatched(sem, stored, encoded.value, EncodeAggregatePlan(sem, codecs, plan).value);
    }
  }
}
