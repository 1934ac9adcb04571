/** Keyset pagination: a total order on the values rows are sorted by, made strict by the id, and
    cursors that cut the sorted rows after a given row. */
module Cursors {
  import opened Options
  import opened Epochs
  import opened Texts

  datatype Comparable = Null | Bool(b: bool) | Num(n: real) | Str(s: string)

  /** What a row may hold in a field; Other stands for invalid dates, non-finite numbers, objects. */
  datatype Cell = Missing | Plain(value: Comparable) | Date(iso: string) | Other

  type Row = map<Key, Cell>

  datatype SortEntry = SortEntry(field: Key, ascending: bool)

  function CellAt(row: Row, field: Key): Cell { if field in row then row[field] else Missing }

  /** comparable; None is the configuration error. */
  function ToComparable(c: Cell): Option<Comparable> {
    match c
    case Missing => Some(Null)
    case Plain(v) => Some(v)
    case Date(iso) => Some(Str(iso))
    case Other => None
  }

  function TypeRank(c: Comparable): int {
    match c
    case Null => 0
    case Bool(_) => 1
    case Num(_) => 2
    case Str(_) => 3
  }

  function CompareValues(a: Comparable, b: Comparable): int {
    if a == b then 0
    else if a.Null? then -1
    else if b.Null? then 1
    else if TypeRank(a) != TypeRank(b) then TypeRank(a) - TypeRank(b)
    else
      match a
      case Bool(x) => (if x then 1 else 0) - (if b.b then 1 else 0)
      case Num(x) => if x > b.n then 1 else -1
      case Str(x) => if Less(b.s, x) then 1 else -1
  }

  function Sign(n: int): int { if n < 0 then -1 else if n > 0 then 1 else 0 }

  lemma CompareValuesIsTotal(a: Comparable, b: Comparable)
    ensures CompareValues(a, b) == 0 <==> a == b
    ensures Sign(CompareValues(b, a)) == -Sign(CompareValues(a, b))
  {
    if a.Str? && b.Str? { LessTotal(a.s, b.s); }
  }

  lemma CompareValuesIsTransitive(a: Comparable, b: Comparable, c: Comparable)
    requires CompareValues(a, b) <= 0 && CompareValues(b, c) <= 0
    ensures CompareValues(a, c) <= 0
  {
    if a.Str? && b.Str? && c.Str? {
      LessTotal(a.s, b.s);
      LessTotal(b.s, c.s);
      LessTotal(a.s, c.s);
      if Less(a.s, b.s) && Less(b.s, c.s) { LessTransitive(a.s, b.s, c.s); }
    }
  }

  /** The order that is meant: missing values, booleans, numbers, texts, each kind in its own order. */
  predicate Below(a: Comparable, b: Comparable) {
    match a
    case Null => !b.Null?
    case Bool(x) => b.Num? || b.Str? || (b.Bool? && !x && b.b)
    case Num(x) => b.Str? || (b.Num? && x < b.n)
    case Str(x) => b.Str? && Less(x, b.s)
  }

  lemma CompareValuesIsThatOrder(a: Comparable, b: Comparable)
    ensures CompareValues(a, b) < 0 <==> Below(a, b)
    ensures CompareValues(a, b) > 0 <==> Below(b, a)
  {
    if a.Str? && b.Str? { LessTotal(a.s, b.s); }
  }

  // ---------------------------------------------------------------- sort keys

  /** One entry's verdict on two values. */
  function EntryOrder(e: SortEntry, a: Comparable, b: Comparable): int {
    if e.ascending then CompareValues(a, b) else -CompareValues(a, b)
  }

  type SortKey = seq<Comparable>

  /** compareKeys of prepareRowSort */
  function CompareKeys(sort: seq<SortEntry>, a: SortKey, b: SortKey): int
    requires |a| == |sort| == |b|
  {
    if sort == [] then 0
    else if CompareValues(a[0], b[0]) != 0 then EntryOrder(sort[0], a[0], b[0])
    else CompareKeys(sort[1..], a[1..], b[1..])
  }

  /** cursorValues: the comparable value of every sort field; None when one has none. */
  function KeyOf(row: Row, sort: seq<SortEntry>): (k: Option<SortKey>)
    ensures k.Some? ==> |k.value| == |sort| && forall i :: 0 <= i < |sort| ==> ToComparable(CellAt(row, sort[i].field)) == Some(k.value[i])
  {
    if sort == [] then Some([])
    else
      var last := |sort| - 1;
      var before, v := KeyOf(row, sort[..last]), ToComparable(CellAt(row, sort[last].field));
      if before.None? || v.None? then None else Some(before.value + [v.value])
  }

  /** What a row counts as in a field: nothing there is null, a date is its text. */
  predicate HasValue(row: Row, field: Key, v: Comparable) {
    if field !in row then v.Null?
    else
      match row[field]
      case Missing => v.Null?
      case Plain(w) => v == w
      case Date(iso) => v == Str(iso)
      case Other => false
  }

  predicate Unordered(row: Row, field: Key) { field in row && row[field].Other? }

  /** A row has a key unless one of its sort fields holds something without order; the key holds the values
      of the sort fields, in order. */
  lemma {:induction false} KeyHoldsTheValues(row: Row, sort: seq<SortEntry>)
    ensures KeyOf(row, sort).None? <==> exists i :: 0 <= i < |sort| && Unordered(row, sort[i].field)
    ensures KeyOf(row, sort).Some? ==> forall i :: 0 <= i < |sort| ==> HasValue(row, sort[i].field, KeyOf(row, sort).value[i])
    decreases |sort|
  {
    if sort != [] {
      var last := |sort| - 1;
      KeyHoldsTheValues(row, sort[..last]);
      if i :| 0 <= i < last && Unordered(row, sort[i].field) { assert Unordered(row, sort[..last][i].field); }
    }
  }

  /** Keys are ordered by the first value in which they differ, in the direction of its sort entry. */
  lemma {:induction false} KeysAreOrderedByFirstDifference(sort: seq<SortEntry>, a: SortKey, b: SortKey, n: nat)
    requires |a| == |sort| == |b| && n < |sort| && a[..n] == b[..n] && a[n] != b[n]
    ensures CompareKeys(sort, a, b) < 0 <==> if sort[n].ascending then Below(a[n], b[n]) else Below(b[n], a[n])
    decreases n
  {
    CompareValuesIsThatOrder(a[n], b[n]);
    if n > 0 {
      assert a[0] == a[..n][0] == b[..n][0] == b[0];
      assert a[1..][..n - 1] == a[..n][1..] && b[1..][..n - 1] == b[..n][1..];
      KeysAreOrderedByFirstDifference(sort[1..], a[1..], b[1..], n - 1);
    }
    CompareValuesIsTotal(a[0], b[0]);
  }

  lemma {:induction false} CompareKeysIsTotal(sort: seq<SortEntry>, a: SortKey, b: SortKey)
    requires |a| == |sort| == |b|
    ensures CompareKeys(sort, a, b) == 0 <==> a == b
    ensures Sign(CompareKeys(sort, b, a)) == -Sign(CompareKeys(sort, a, b))
  {
    if sort != [] {
      CompareValuesIsTotal(a[0], b[0]);
      CompareKeysIsTotal(sort[1..], a[1..], b[1..]);
      assert a == [a[0]] + a[1..] && b == [b[0]] + b[1..];
    }
  }

  lemma {:induction false} CompareKeysIsTransitive(sort: seq<SortEntry>, a: SortKey, b: SortKey, c: SortKey)
    requires |a| == |sort| == |b| && |c| == |sort|
    requires CompareKeys(sort, a, b) <= 0 && CompareKeys(sort, b, c) <= 0
    ensures CompareKeys(sort, a, c) <= 0
  {
    if sort != [] {
      hide CompareValues;
      CompareValuesIsTotal(a[0], b[0]);
      CompareValuesIsTotal(b[0], c[0]);
      CompareValuesIsTotal(a[0], c[0]);
      if a[0] == b[0] == c[0] {
        CompareKeysIsTransitive(sort[1..], a[1..], b[1..], c[1..]);
      } else if sort[0].ascending {
        CompareValuesIsTransitive(a[0], b[0], c[0]);
      } else {
        CompareValuesIsTotal(c[0], b[0]);
        CompareValuesIsTotal(b[0], a[0]);
        CompareValuesIsTransitive(c[0], b[0], a[0]);
      }
    }
  }

  /** sortWithStableId */
  method SortWithStableId(planSort: seq<SortEntry>, idField: Key) returns (sort: seq<SortEntry>)
    ensures sort == StableSort(planSort, idField)
  {
    var hasIdField := false;
    for index := 0 to |planSort|
      invariant !hasIdField && forall i :: 0 <= i < index ==> planSort[i].field != idField
    {
      if planSort[index].field == idField {
        hasIdField := true;
        break;
      }
    }
    sort := if hasIdField then planSort else planSort + [SortEntry(idField, true)];
  }

  function StableSort(planSort: seq<SortEntry>, idField: Key): seq<SortEntry> {
    if exists i :: 0 <= i < |planSort| && planSort[i].field == idField then planSort
    else planSort + [SortEntry(idField, true)]
  }

  /** With the id among the sort fields, rows with different ids never compare as equal. */
  lemma StableSortIsStrict(planSort: seq<SortEntry>, idField: Key, a: Row, b: Row)
    requires KeyOf(a, StableSort(planSort, idField)).Some? && KeyOf(b, StableSort(planSort, idField)).Some?
    requires ToComparable(CellAt(a, idField)) != ToComparable(CellAt(b, idField))
    ensures var sort := StableSort(planSort, idField); CompareKeys(sort, KeyOf(a, sort).value, KeyOf(b, sort).value) != 0
  {
    var sort := StableSort(planSort, idField);
    assert exists i :: 0 <= i < |sort| && sort[i].field == idField by {
      if forall i :: 0 <= i < |planSort| ==> planSort[i].field != idField { assert sort[|planSort|].field == idField; }
    }
    CompareKeysIsTotal(sort, KeyOf(a, sort).value, KeyOf(b, sort).value);
  }

  lemma EqualKeysHaveEqualValues(sort: seq<SortEntry>, i: nat, a: Row, b: Row, x: Comparable, y: Comparable)
    requires KeyOf(a, sort).Some? && KeyOf(a, sort) == KeyOf(b, sort) && i < |sort|
    requires HasValue(a, sort[i].field, x) && HasValue(b, sort[i].field, y)
    ensures x == y && !Below(x, y)
  {
    KeyHoldsTheValues(a, sort);
    KeyHoldsTheValues(b, sort);
    hide KeyOf;
    var v := KeyOf(a, sort).value[i];
    assert HasValue(a, sort[i].field, v) && HasValue(b, sort[i].field, v);
    OneValue(a, sort[i].field, x, v);
    OneValue(b, sort[i].field, y, v);
  }

  lemma OneValue(row: Row, field: Key, x: Comparable, y: Comparable)
    requires HasValue(row, field, x) && HasValue(row, field, y)
    ensures x == y && !Below(x, y)
  {
    if x.Str? { LessTotal(x.s, y.s); }
  }

  lemma IdInThePlan(sort: seq<SortEntry>, i: nat, a: Row, b: Row)
    requires KeyOf(a, sort).Some? && KeyOf(b, sort).Some? && i < |sort|
    requires CompareKeys(sort, KeyOf(a, sort).value, KeyOf(b, sort).value) == 0
    ensures forall x, y :: HasValue(a, sort[i].field, x) && HasValue(b, sort[i].field, y) ==> !Below(x, y)
  {
    hide HasValue, Below, KeyOf;
    CompareKeysIsTotal(sort, KeyOf(a, sort).value, KeyOf(b, sort).value);
    forall x, y | HasValue(a, sort[i].field, x) && HasValue(b, sort[i].field, y) ensures !Below(x, y) {
      EqualKeysHaveEqualValues(sort, i, a, b, x, y);
    }
  }

  lemma IdAfterThePlan(planSort: seq<SortEntry>, idField: Key, a: Row, b: Row, x: Comparable, y: Comparable)
    requires var sort := planSort + [SortEntry(idField, true)]; KeyOf(a, sort).Some? && KeyOf(b, sort).Some?
    requires HasValue(a, idField, x) && HasValue(b, idField, y)
    ensures KeyOf(a, planSort).Some? && KeyOf(b, planSort).Some?
    ensures var sort := planSort + [SortEntry(idField, true)];
      var plan := CompareKeys(planSort, KeyOf(a, planSort).value, KeyOf(b, planSort).value);
      var stable := CompareKeys(sort, KeyOf(a, sort).value, KeyOf(b, sort).value);
      (plan != 0 ==> stable == plan) && (plan == 0 ==> (stable < 0 <==> Below(x, y)))
  {
    var sort := planSort + [SortEntry(idField, true)];
    assert sort[..|planSort|] == planSort;
    assert KeyOf(a, sort) == Some(KeyOf(a, planSort).value + [x]) && KeyOf(b, sort) == Some(KeyOf(b, planSort).value + [y]);
    hide KeyOf, HasValue;
    CompareExtended(planSort, SortEntry(idField, true), KeyOf(a, planSort).value, KeyOf(b, planSort).value, x, y);
    CompareValuesIsThatOrder(x, y);
  }

  /** The id decides only between rows that the plan's own sort leaves equal, and then in ascending order. */
  lemma StableSortRefines(planSort: seq<SortEntry>, idField: Key, a: Row, b: Row, x: Comparable, y: Comparable)
    requires KeyOf(a, StableSort(planSort, idField)).Some? && KeyOf(b, StableSort(planSort, idField)).Some?
    requires HasValue(a, idField, x) && HasValue(b, idField, y)
    ensures KeyOf(a, planSort).Some? && KeyOf(b, planSort).Some?
    ensures var sort := StableSort(planSort, idField);
      var plan := CompareKeys(planSort, KeyOf(a, planSort).value, KeyOf(b, planSort).value);
      var stable := CompareKeys(sort, KeyOf(a, sort).value, KeyOf(b, sort).value);
      && (plan != 0 ==> stable == plan)
      && (plan == 0 ==> (stable < 0 <==> Below(x, y)))
  {
    hide CompareKeys, KeyOf, HasValue, Below;
    if i :| 0 <= i < |planSort| && planSort[i].field == idField {
      assert StableSort(planSort, idField) == planSort;
      if CompareKeys(planSort, KeyOf(a, planSort).value, KeyOf(b, planSort).value) == 0 {
        IdInThePlan(planSort, i, a, b);
        assert HasValue(a, planSort[i].field, x) && HasValue(b, planSort[i].field, y);
      }
    } else {
      IdAfterThePlan(planSort, idField, a, b, x, y);
    }
  }

  lemma {:induction false} CompareExtended(sort: seq<SortEntry>, e: SortEntry, a: SortKey, b: SortKey, x: Comparable, y: Comparable)
    requires |a| == |sort| == |b|
    ensures CompareKeys(sort + [e], a + [x], b + [y]) ==
      if CompareKeys(sort, a, b) != 0 then CompareKeys(sort, a, b) else EntryOrder(e, x, y)
    decreases |sort|
  {
    CompareValuesIsTotal(x, y);
    if sort != [] {
      CompareExtended(sort[1..], e, a[1..], b[1..], x, y);
      CompareValuesIsTotal(a[0], b[0]);
      assert (sort + [e])[1..] == sort[1..] + [e] && (a + [x])[1..] == a[1..] + [x] && (b + [y])[1..] == b[1..] + [y];
    }
  }

  /** compareRowsBySort: reads the rows field by field and stops at the first difference; None is the
      error for a value that has no order. With both keys defined it agrees with compareKeys. */
  method CompareRowsBySort(a: Row, b: Row, sort: seq<SortEntry>) returns (order: Option<int>)
    ensures KeyOf(a, sort).Some? && KeyOf(b, sort).Some? ==> order == Some(CompareKeys(sort, KeyOf(a, sort).value, KeyOf(b, sort).value))
    ensures order.None? ==>
      exists i :: 0 <= i < |sort| && (ToComparable(CellAt(a, sort[i].field)).None? || ToComparable(CellAt(b, sort[i].field)).None?)
  {
    ghost var defined := KeyOf(a, sort).Some? && KeyOf(b, sort).Some?;
    for index := 0 to |sort|
      invariant defined ==>
        CompareKeys(sort, KeyOf(a, sort).value, KeyOf(b, sort).value)
        == CompareKeys(sort[index..], KeyOf(a, sort).value[index..], KeyOf(b, sort).value[index..])
    {
      var x, y := ToComparable(CellAt(a, sort[index].field)), ToComparable(CellAt(b, sort[index].field));
      if x.None? || y.None? { return None; }
      var c := CompareValues(x.value, y.value);
      if c != 0 { return Some(if sort[index].ascending then c else -c); }
    }
    return Some(0);
  }

  /** compareRowToCursor: the cursor's values are comparable already. */
  method CompareRowToCursor(row: Row, sort: seq<SortEntry>, values: SortKey) returns (order: Option<int>)
    requires |values| == |sort|
    ensures KeyOf(row, sort).Some? ==> order == Some(CompareKeys(sort, KeyOf(row, sort).value, values))
    ensures order.None? ==> exists i :: 0 <= i < |sort| && ToComparable(CellAt(row, sort[i].field)).None?
  {
    ghost var defined := KeyOf(row, sort).Some?;
    for index := 0 to |sort|
      invariant defined ==> CompareKeys(sort, KeyOf(row, sort).value, values) == CompareKeys(sort[index..], KeyOf(row, sort).value[index..], values[index..])
    {
      var x := ToComparable(CellAt(row, sort[index].field));
      if x.None? { return None; }
      var c := CompareValues(x.value, values[index]);
      if c != 0 { return Some(if sort[index].ascending then c else -c); }
    }
    return Some(0);
  }
}
