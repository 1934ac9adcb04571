/** The in-memory store's query: rows sorted by a bottom-up merge sort, cut after a cursor and into
    pages. Walking the pages visits every row once, in order. */
module Pages {
  import opened Options
  import opened Epochs
  import opened Cursors

  type Sort = seq<SortEntry>

  /** A row with its key, which is computed once; the tag tells rows apart. */
  datatype Entry = Entry(tag: nat, key: SortKey)

  predicate Keyed(sort: Sort, entries: seq<Entry>) {
    forall i :: 0 <= i < |entries| ==> |entries[i].key| == |sort|
  }

  /** Every entry is at most each of the later ones. */
  ghost predicate Sorted(sort: Sort, entries: seq<Entry>)
    requires Keyed(sort, entries)
  {
    entries == [] || (AtMostAll(sort, entries[0], entries[1..]) && Sorted(sort, entries[1..]))
  }

  ghost predicate AtMostAll(sort: Sort, x: Entry, entries: seq<Entry>)
    requires |x.key| == |sort| && Keyed(sort, entries)
  {
    forall e :: e in entries ==> |e.key| == |sort| && CompareKeys(sort, x.key, e.key) <= 0
  }

  // ---------------------------------------------------------------- the merge sort

  /** Two runs merged, the left one first among equals. */
  function Merge(sort: Sort, a: seq<Entry>, b: seq<Entry>): (m: seq<Entry>)
    requires Keyed(sort, a) && Keyed(sort, b)
    ensures Keyed(sort, m) && |m| == |a| + |b|
  {
    if a == [] then b
    else if b == [] then a
    else if CompareKeys(sort, a[0].key, b[0].key) <= 0 then [a[0]] + Merge(sort, a[1..], b)
    else [b[0]] + Merge(sort, a, b[1..])
  }

  method MergeRuns(sort: Sort, source: seq<Entry>, start: nat, middle: nat, end: nat) returns (merged: seq<Entry>)
    requires Keyed(sort, source) && start <= middle <= end <= |source|
    ensures merged == Merge(sort, source[start..middle], source[middle..end])
  {
    hide Merge;
    ghost var whole := Merge(sort, source[start..middle], source[middle..end]);
    var left, right := start, middle;
    merged := [];
    for output := start to end
      invariant start <= left <= middle <= right <= end && left - start + right - middle == output - start
      invariant merged + Merge(sort, source[left..middle], source[right..end]) == whole
    {
      Advance(sort, source, left, middle, right, end, merged, whole);
      if left < middle && (right >= end || CompareKeys(sort, source[left].key, source[right].key) <= 0) {
        merged := merged + [source[left]];
        left := left + 1;
      } else {
        merged := merged + [source[right]];
        right := right + 1;
      }
    }
    NothingLeft(sort, source, middle, end);
    assert merged + [] == merged;
  }

  lemma NothingLeft(sort: Sort, source: seq<Entry>, middle: nat, end: nat)
    requires middle <= end <= |source|
    ensures Merge(sort, source[middle..middle], source[end..end]) == []
  {
  }

  /** Taking the next entry keeps what the merge will come to. */
  lemma Advance(sort: Sort, source: seq<Entry>, left: nat, middle: nat, right: nat, end: nat, merged: seq<Entry>, whole: seq<Entry>)
    requires Keyed(sort, source) && left <= middle <= right <= end <= |source| && (left < middle || right < end)
    requires merged + Merge(sort, source[left..middle], source[right..end]) == whole
    ensures left < middle && (right >= end || CompareKeys(sort, source[left].key, source[right].key) <= 0) ==>
      merged + [source[left]] + Merge(sort, source[left + 1..middle], source[right..end]) == whole
    ensures !(left < middle && (right >= end || CompareKeys(sort, source[left].key, source[right].key) <= 0)) ==>
      merged + [source[right]] + Merge(sort, source[left..middle], source[right + 1..end]) == whole
  {
    hide Merge;
    NextOfRuns(sort, source, left, middle, right, end);
  }

  /** The next entry of two runs merged. */
  lemma NextOfRuns(sort: Sort, source: seq<Entry>, left: nat, middle: nat, right: nat, end: nat)
    requires Keyed(sort, source) && left <= middle <= right <= end <= |source| && (left < middle || right < end)
    ensures Merge(sort, source[left..middle], source[right..end]) ==
      if left < middle && (right >= end || CompareKeys(sort, source[left].key, source[right].key) <= 0)
      then [source[left]] + Merge(sort, source[left + 1..middle], source[right..end])
      else [source[right]] + Merge(sort, source[left..middle], source[right + 1..end])
  {
    var a, b := source[left..middle], source[right..end];
    assert left < middle ==> a[0] == source[left] && a[1..] == source[left + 1..middle];
    assert right < end ==> b[0] == source[right] && b[1..] == source[right + 1..end];
    hide Merge;
    if left < middle && (right >= end || CompareKeys(sort, source[left].key, source[right].key) <= 0) { TakeLeft(sort, a, b); }
    else { TakeRight(sort, a, b); }
  }

  lemma TakeLeft(sort: Sort, a: seq<Entry>, b: seq<Entry>)
    requires Keyed(sort, a) && Keyed(sort, b) && a != [] && (b == [] || CompareKeys(sort, a[0].key, b[0].key) <= 0)
    ensures Merge(sort, a, b) == [a[0]] + Merge(sort, a[1..], b)
  {
    if |a| == 1 { assert a[1..] == []; }
  }

  lemma TakeRight(sort: Sort, a: seq<Entry>, b: seq<Entry>)
    requires Keyed(sort, a) && Keyed(sort, b) && b != [] && (a == [] || CompareKeys(sort, a[0].key, b[0].key) > 0)
    ensures Merge(sort, a, b) == [b[0]] + Merge(sort, a, b[1..])
  {
    if |b| == 1 { assert b[1..] == []; }
  }

  function Min(a: nat, b: nat): nat { if a < b then a else b }

  /** One pass: neighbouring runs of the given width are merged. */
  function Pass(sort: Sort, entries: seq<Entry>, width: nat): (p: seq<Entry>)
    requires Keyed(sort, entries) && width > 0
    ensures Keyed(sort, p) && |p| == |entries|
    decreases |entries|
  {
    if entries == [] then []
    else
      var middle, end := Min(width, |entries|), Min(width * 2, |entries|);
      Merge(sort, entries[..middle], entries[middle..end]) + Pass(sort, entries[end..], width)
  }

  /** sortMemoryRows */
  method SortRows(sort: Sort, rows: seq<Entry>) returns (sorted: seq<Entry>)
    requires Keyed(sort, rows)
    ensures Keyed(sort, sorted) && Sorted(sort, sorted) && multiset(sorted) == multiset(rows)
  {
    var source := rows;
    var width := 1;
    UnitRuns(sort, rows);
    while width < |source|
      invariant width >= 1 && |source| == |rows| && Keyed(sort, source)
      invariant multiset(source) == multiset(rows) && Runs(sort, source, width)
      decreases |rows| - width
    {
      PassSorts(sort, source, width);
      source := MergePass(sort, source, width);
      width := width * 2;
    }
    sorted := source;
  }

  method MergePass(sort: Sort, source: seq<Entry>, width: nat) returns (target: seq<Entry>)
    requires Keyed(sort, source) && width > 0
    ensures target == Pass(sort, source, width)
  {
    hide Pass, Merge;
    target := [];
    var start := 0;
    assert source[0..] == source;
    while start < |source|
      invariant target + Pass(sort, source[Min(start, |source|)..], width) == Pass(sort, source, width)
    {
      var middle, end := Min(start + width, |source|), Min(start + width * 2, |source|);
      NextOfPass(sort, source, start, width);
      var merged := MergeRuns(sort, source, start, middle, end);
      target := target + merged;
      start := start + width * 2;
    }
    assert |Pass(sort, source[|source|..], width)| == 0;
  }

  lemma NextOfPass(sort: Sort, source: seq<Entry>, start: nat, width: nat)
    requires Keyed(sort, source) && width > 0 && start < |source|
    ensures var middle, end := Min(start + width, |source|), Min(start + width * 2, |source|);
      Pass(sort, source[start..], width) == Merge(sort, source[start..middle], source[middle..end]) + Pass(sort, source[end..], width)
  {
    hide Merge;
    var middle, end := Min(start + width, |source|), Min(start + width * 2, |source|);
    SlicesOfRest(source, start, middle, end);
    hide Keyed;
  }

  lemma SlicesOfRest(source: seq<Entry>, start: nat, middle: nat, end: nat)
    requires start <= middle <= end <= |source|
    ensures var rest := source[start..];
      && rest[..middle - start] == source[start..middle] && rest[middle - start..end - start] == source[middle..end]
      && rest[end - start..] == source[end..]
  {
  }

  /** Every run of the given width is sorted. */
  ghost predicate Runs(sort: Sort, entries: seq<Entry>, width: nat)
    requires Keyed(sort, entries) && width > 0
    decreases |entries|
  {
    if |entries| <= width then Sorted(sort, entries)
    else Sorted(sort, entries[..width]) && Runs(sort, entries[width..], width)
  }

  lemma {:induction false} UnitRuns(sort: Sort, entries: seq<Entry>)
    requires Keyed(sort, entries)
    ensures Runs(sort, entries, 1)
    decreases |entries|
  {
    if |entries| > 1 { UnitRuns(sort, entries[1..]); }
  }

  lemma {:induction false} MergeKeepsEntries(sort: Sort, a: seq<Entry>, b: seq<Entry>)
    requires Keyed(sort, a) && Keyed(sort, b)
    ensures multiset(Merge(sort, a, b)) == multiset(a) + multiset(b)
  {
    if a != [] && b != [] {
      assert a == [a[0]] + a[1..] && b == [b[0]] + b[1..];
      if CompareKeys(sort, a[0].key, b[0].key) <= 0 { MergeKeepsEntries(sort, a[1..], b); } else { MergeKeepsEntries(sort, a, b[1..]); }
    }
  }

  lemma FirstIsLeast(sort: Sort, x: Entry, y: Entry, ys: seq<Entry>)
    requires |x.key| == |sort| == |y.key| && Keyed(sort, ys)
    requires CompareKeys(sort, x.key, y.key) <= 0 && AtMostAll(sort, y, ys)
    ensures AtMostAll(sort, x, ys)
  {
    forall e | e in ys ensures CompareKeys(sort, x.key, e.key) <= 0 { CompareKeysIsTransitive(sort, x.key, y.key, e.key); }
  }

  lemma {:induction false} MergeSorts(sort: Sort, a: seq<Entry>, b: seq<Entry>)
    requires Keyed(sort, a) && Keyed(sort, b) && Sorted(sort, a) && Sorted(sort, b)
    ensures Sorted(sort, Merge(sort, a, b))
  {
    if a != [] && b != [] {
      CompareKeysIsTotal(sort, a[0].key, b[0].key);
      if CompareKeys(sort, a[0].key, b[0].key) <= 0 {
        MergeSorts(sort, a[1..], b);
        MergeKeepsEntries(sort, a[1..], b);
        FirstIsLeast(sort, a[0], b[0], b[1..]);
        LeastOfBoth(sort, a[0], a[1..], b, Merge(sort, a[1..], b));
      } else {
        MergeSorts(sort, a, b[1..]);
        MergeKeepsEntries(sort, a, b[1..]);
        FirstIsLeast(sort, b[0], a[0], a[1..]);
        LeastOfBoth(sort, b[0], a, b[1..], Merge(sort, a, b[1..]));
      }
    }
  }

  lemma LeastOfBoth(sort: Sort, x: Entry, a: seq<Entry>, b: seq<Entry>, m: seq<Entry>)
    requires |x.key| == |sort| && Keyed(sort, a) && Keyed(sort, b) && Keyed(sort, m) && Sorted(sort, m)
    requires multiset(m) == multiset(a) + multiset(b)
    requires forall e :: e in a || e in b ==> |e.key| == |sort| && CompareKeys(sort, x.key, e.key) <= 0
    ensures Sorted(sort, [x] + m)
  {
    forall e | e in m ensures CompareKeys(sort, x.key, e.key) <= 0 { assert e in multiset(m); }
    assert ([x] + m)[1..] == m;
  }

  lemma {:induction false} PassKeepsEntries(sort: Sort, entries: seq<Entry>, width: nat)
    requires Keyed(sort, entries) && width > 0
    ensures multiset(Pass(sort, entries, width)) == multiset(entries)
    decreases |entries|
  {
    if entries != [] {
      hide Merge;
      var middle, end := Min(width, |entries|), Min(width * 2, |entries|);
      MergeKeepsEntries(sort, entries[..middle], entries[middle..end]);
      PassKeepsEntries(sort, entries[end..], width);
      assert entries == entries[..middle] + entries[middle..end] + entries[end..];
    }
  }

  /** A pass keeps the entries and doubles the width of the sorted runs. */
  lemma {:induction false} PassSorts(sort: Sort, entries: seq<Entry>, width: nat)
    requires Keyed(sort, entries) && width > 0 && Runs(sort, entries, width)
    ensures multiset(Pass(sort, entries, width)) == multiset(entries)
    ensures Runs(sort, Pass(sort, entries, width), width * 2)
    decreases |entries|
  {
    PassKeepsEntries(sort, entries, width);
    if entries != [] {
      hide Merge, Sorted;
      var middle, end := Min(width, |entries|), Min(width * 2, |entries|);
      TwoRuns(sort, entries, width);
      hide Runs;
      MergeSorts(sort, entries[..middle], entries[middle..end]);
      PassSorts(sort, entries[end..], width);
      RunThenRuns(sort, Merge(sort, entries[..middle], entries[middle..end]), Pass(sort, entries[end..], width), width * 2);
    }
  }

  lemma RunThenRuns(sort: Sort, run: seq<Entry>, rest: seq<Entry>, width: nat)
    requires Keyed(sort, run) && Keyed(sort, rest) && width > 0 && Sorted(sort, run) && Runs(sort, rest, width)
    requires |run| <= width && (|run| < width ==> rest == [])
    ensures Runs(sort, run + rest, width)
  {
    assert (run + rest)[..|run|] == run && (run + rest)[|run|..] == rest;
    if rest == [] { assert run + rest == run; }
  }

  lemma TwoRuns(sort: Sort, entries: seq<Entry>, width: nat)
    requires Keyed(sort, entries) && width > 0 && Runs(sort, entries, width)
    ensures var middle, end := Min(width, |entries|), Min(width * 2, |entries|);
      Sorted(sort, entries[..middle]) && Sorted(sort, entries[middle..end]) && Runs(sort, entries[end..], width)
  {
    if |entries| <= width {
      assert entries[..|entries|] == entries && entries[|entries|..] == [];
    } else {
      var tail := entries[width..];
      if |tail| <= width {
        assert entries[width..|entries|] == tail && entries[|entries|..] == [];
      } else {
        assert tail[..width] == entries[width..width * 2] && tail[width..] == entries[width * 2..];
      }
    }
  }

  // ---------------------------------------------------------------- pages

  /** The rows that compare after the cursor. */
  function AfterCursor(sort: Sort, list: seq<Entry>, cursor: SortKey): (rest: seq<Entry>)
    requires Keyed(sort, list) && |cursor| == |sort|
    ensures Keyed(sort, rest)
  {
    if list == [] then []
    else
      var last := |list| - 1;
      AfterCursor(sort, list[..last], cursor) + if CompareKeys(sort, list[last].key, cursor) > 0 then [list[last]] else []
  }

  function Remaining(sort: Sort, list: seq<Entry>, cursor: Option<SortKey>): (rest: seq<Entry>)
    requires Keyed(sort, list) && (cursor.Some? ==> |cursor.value| == |sort|)
    ensures Keyed(sort, rest)
  {
    if cursor.None? then list else AfterCursor(sort, list, cursor.value)
  }

  datatype Page = Page(rows: seq<Entry>, cursor: Option<SortKey>, more: bool)

  /** The first rows after the cursor; the next cursor is the last row's key, if there are more. */
  function PageOf(sort: Sort, list: seq<Entry>, cursor: Option<SortKey>, limit: Option<nat>): Page
    requires Keyed(sort, list) && (cursor.Some? ==> |cursor.value| == |sort|)
  {
    var rest := Remaining(sort, list, cursor);
    if limit.None? then Page(rest, None, false)
    else
      var rows, more := rest[..Min(limit.value, |rest|)], |rest| > limit.value;
      Page(rows, if more && rows != [] then Some(rows[|rows| - 1].key) else None, more)
  }

  function Entries(sort: Sort, rows: seq<Row>): (r: Option<seq<Entry>>)
    ensures r.Some? ==> Keyed(sort, r.value) && |r.value| == |rows|
    ensures r.Some? ==> forall i :: 0 <= i < |rows| ==> KeyOf(rows[i], sort) == Some(r.value[i].key) && r.value[i].tag == i
  {
    if rows == [] then Some([])
    else
      var last := |rows| - 1;
      var before, key := Entries(sort, rows[..last]), KeyOf(rows[last], sort);
      if before.None? || key.None? then None else Some(before.value + [Entry(last, key.value)])
  }

  /** The query of the memory store on the rows that match; None is the error of a row without a key. */
  method Query(sort: Sort, rows: seq<Row>, cursor: Option<SortKey>, limit: Option<nat>) returns (page: Option<Page>, ghost list: seq<Entry>)
    requires cursor.Some? ==> |cursor.value| == |sort|
    ensures page.Some? <==> Entries(sort, rows).Some?
    ensures page.Some? ==>
      && Keyed(sort, list) && Sorted(sort, list) && multiset(list) == multiset(Entries(sort, rows).value)
      && page.value == PageOf(sort, list, cursor, limit)
  {
    hide Sorted, Entries, AfterCursor, Keyed;
    var entries := Prepare(sort, rows);
    if entries.None? { return None, []; }
    var sorted := SortRows(sort, entries.value);
    list := sorted;
    var rest := sorted;
    if cursor.Some? { rest := CutAfter(sort, sorted, cursor.value); }
    if limit.None? { return Some(Page(rest, None, false)), list; }
    var more := |rest| > limit.value;
    rest := rest[..Min(limit.value, |rest|)];
    var next: Option<SortKey> := None;
    if more && rest != [] { next := Some(rest[|rest| - 1].key); }
    return Some(Page(rest, next, more)), list;
  }

  method Prepare(sort: Sort, rows: seq<Row>) returns (entries: Option<seq<Entry>>)
    ensures entries == Entries(sort, rows)
  {
    var done: seq<Entry> := [];
    for i := 0 to |rows|
      invariant Entries(sort, rows[..i]) == Some(done)
    {
      assert rows[..i + 1][..i] == rows[..i];
      var key := KeyOf(rows[i], sort);
      if key.None? {
        NoKeyNoEntries(sort, rows, i + 1);
        return None;
      }
      done := done + [Entry(i, key.value)];
    }
    assert rows[..|rows|] == rows;
    return Some(done);
  }

  lemma {:induction false} NoKeyNoEntries(sort: Sort, rows: seq<Row>, n: nat)
    requires n <= |rows| && Entries(sort, rows[..n]).None?
    ensures Entries(sort, rows).None?
    decreases |rows| - n
  {
    if n == |rows| { assert rows[..n] == rows; }
    else {
      assert rows[..n + 1][..n] == rows[..n];
      NoKeyNoEntries(sort, rows, n + 1);
    }
  }

  predicate HasNoKey(row: Row, sort: Sort) { exists j :: 0 <= j < |sort| && Unordered(row, sort[j].field) }

  /** A query fails exactly when some row holds, in a sort field, something that has no order. */
  lemma {:induction false} QueryFailsIff(sort: Sort, rows: seq<Row>)
    ensures Entries(sort, rows).None? <==> exists i :: 0 <= i < |rows| && HasNoKey(rows[i], sort)
    decreases |rows|
  {
    if rows != [] {
      var last := |rows| - 1;
      QueryFailsIff(sort, rows[..last]);
      KeyHoldsTheValues(rows[last], sort);
      assert KeyOf(rows[last], sort).None? <==> HasNoKey(rows[last], sort);
      hide HasNoKey, KeyOf;
      assert forall i :: 0 <= i < last ==> rows[i] == rows[..last][i];
    }
  }

  method CutAfter(sort: Sort, list: seq<Entry>, cursor: SortKey) returns (rest: seq<Entry>)
    requires Keyed(sort, list) && |cursor| == |sort|
    ensures rest == AfterCursor(sort, list, cursor)
  {
    rest := [];
    for i := 0 to |list|
      invariant rest == AfterCursor(sort, list[..i], cursor)
    {
      assert list[..i + 1][..i] == list[..i];
      if CompareKeys(sort, list[i].key, cursor) > 0 { rest := rest + [list[i]]; }
    }
    assert list[..|list|] == list;
  }

  // ---------------------------------------------------------------- walking the pages

  /** No two rows have the same key: the id is among the sort fields (StableSortIsStrict). */
  ghost predicate Strict(sort: Sort, list: seq<Entry>) {
    && Keyed(sort, list) && Sorted(sort, list)
    && forall i, j :: 0 <= i < j < |list| ==> list[i].key != list[j].key
  }

  lemma {:induction false} SortedAt(sort: Sort, list: seq<Entry>, i: nat, j: nat)
    requires Keyed(sort, list) && Sorted(sort, list) && i < j < |list|
    ensures CompareKeys(sort, list[i].key, list[j].key) <= 0
  {
    if i == 0 { assert list[j] == list[1..][j - 1]; } else { SortedAt(sort, list[1..], i - 1, j - 1); }
  }

  lemma {:induction false} CutNothing(sort: Sort, list: seq<Entry>, cursor: SortKey)
    requires Keyed(sort, list) && |cursor| == |sort|
    requires forall i :: 0 <= i < |list| ==> CompareKeys(sort, list[i].key, cursor) > 0
    ensures AfterCursor(sort, list, cursor) == list
  {
    hide CompareKeys;
    if list != [] {
      var before := list[..|list| - 1];
      CutNothing(sort, before, cursor);
      assert list == before + [list[|list| - 1]];
    }
  }

  lemma {:induction false} CutAll(sort: Sort, list: seq<Entry>, cursor: SortKey)
    requires Keyed(sort, list) && |cursor| == |sort|
    requires forall i :: 0 <= i < |list| ==> CompareKeys(sort, list[i].key, cursor) <= 0
    ensures AfterCursor(sort, list, cursor) == []
  {
    hide CompareKeys;
    if list != [] { CutAll(sort, list[..|list| - 1], cursor); }
  }

  lemma {:induction false} CutParts(sort: Sort, a: seq<Entry>, b: seq<Entry>, cursor: SortKey)
    requires Keyed(sort, a) && Keyed(sort, b) && |cursor| == |sort|
    ensures Keyed(sort, a + b) && AfterCursor(sort, a + b, cursor) == AfterCursor(sort, a, cursor) + AfterCursor(sort, b, cursor)
  {
    if b == [] { assert a + b == a; }
    else {
      CutParts(sort, a, b[..|b| - 1], cursor);
      assert (a + b)[..|a + b| - 1] == a + b[..|b| - 1];
    }
  }

  lemma OrderAround(sort: Sort, list: seq<Entry>, i: nat, j: nat)
    requires Strict(sort, list) && i < |list| && j < |list|
    ensures CompareKeys(sort, list[j].key, list[i].key) > 0 <==> j > i
  {
    CompareKeysIsTotal(sort, list[j].key, list[i].key);
    CompareKeysIsTotal(sort, list[i].key, list[j].key);
    if j < i { SortedAt(sort, list, j, i); }
    if i < j { SortedAt(sort, list, i, j); }
  }

  /** The rows that compare after a row's cursor are exactly the suffix behind that row. */
  lemma CursorCutsSuffix(sort: Sort, list: seq<Entry>, i: nat)
    requires Strict(sort, list) && i < |list|
    ensures AfterCursor(sort, list, list[i].key) == list[i + 1..]
  {
    hide Sorted, AfterCursor, CompareKeys;
    CutBefore(sort, list, i);
    CutBehind(sort, list, i);
    CutParts(sort, list[..i + 1], list[i + 1..], list[i].key);
    assert list == list[..i + 1] + list[i + 1..];
  }

  lemma CutBefore(sort: Sort, list: seq<Entry>, i: nat)
    requires Strict(sort, list) && i < |list|
    ensures AfterCursor(sort, list[..i + 1], list[i].key) == []
  {
    hide Sorted, AfterCursor, CompareKeys;
    var part := list[..i + 1];
    forall k | 0 <= k < |part| ensures CompareKeys(sort, part[k].key, list[i].key) <= 0 { OrderAround(sort, list, i, k); }
    CutAll(sort, part, list[i].key);
  }

  lemma CutBehind(sort: Sort, list: seq<Entry>, i: nat)
    requires Strict(sort, list) && i < |list|
    ensures AfterCursor(sort, list[i + 1..], list[i].key) == list[i + 1..]
  {
    hide Sorted, AfterCursor, CompareKeys;
    var part := list[i + 1..];
    forall k | 0 <= k < |part| ensures CompareKeys(sort, part[k].key, list[i].key) > 0 { OrderAround(sort, list, i, i + 1 + k); }
    CutNothing(sort, part, list[i].key);
  }

  /** The cursor stands at a row of the list, or is the start. */
  ghost predicate At(list: seq<Entry>, cursor: Option<SortKey>, n: nat) {
    if cursor.None? then n == 0 else 0 < n <= |list| && cursor.value == list[n - 1].key
  }

  lemma PageAdvances(sort: Sort, list: seq<Entry>, cursor: Option<SortKey>, limit: nat, n: nat)
    requires Strict(sort, list) && limit >= 1 && At(list, cursor, n) && n <= |list|
    ensures Keyed(sort, list) && (cursor.Some? ==> |cursor.value| == |sort|)
    ensures var page := PageOf(sort, list, cursor, Some(limit));
      && page.rows == list[n..Min(n + limit, |list|)]
      && (page.cursor.Some? <==> n + limit < |list|)
      && (page.cursor.Some? <==> page.more)
      && (page.cursor.Some? ==> At(list, page.cursor, n + limit))
  {
    RemainingIsSuffix(sort, list, cursor, n);
    hide Strict, Remaining;
    FirstRows(list, limit, n);
  }

  lemma FirstRows(list: seq<Entry>, limit: nat, n: nat)
    requires n <= |list| && limit >= 1
    ensures var rest := list[n..]; var rows := rest[..Min(limit, |rest|)];
      && rows == list[n..Min(n + limit, |list|)]
      && (n < |list| ==> rows != [] && rows[|rows| - 1] == list[Min(n + limit, |list|) - 1])
  {
  }

  lemma RemainingIsSuffix(sort: Sort, list: seq<Entry>, cursor: Option<SortKey>, n: nat)
    requires Strict(sort, list) && At(list, cursor, n) && n <= |list|
    ensures (cursor.Some? ==> |cursor.value| == |sort|) && Remaining(sort, list, cursor) == list[n..]
  {
    hide Sorted, AfterCursor;
    if cursor.Some? { CursorCutsSuffix(sort, list, n - 1); } else { assert list[0..] == list; }
  }

  /** Asking for page after page until no cursor is returned; n counts the rows already seen. */
  ghost function Walk(sort: Sort, list: seq<Entry>, cursor: Option<SortKey>, limit: nat, n: nat): seq<Entry>
    requires Strict(sort, list) && limit >= 1 && At(list, cursor, n) && n <= |list|
    decreases |list| - n
  {
    PageAdvances(sort, list, cursor, limit, n);
    var page := PageOf(sort, list, cursor, Some(limit));
    if page.cursor.None? then page.rows else page.rows + Walk(sort, list, page.cursor, limit, n + limit)
  }

  lemma {:induction false} WalkVisitsTheRest(sort: Sort, list: seq<Entry>, cursor: Option<SortKey>, limit: nat, n: nat)
    requires Strict(sort, list) && limit >= 1 && At(list, cursor, n) && n <= |list|
    ensures Walk(sort, list, cursor, limit, n) == list[n..]
    decreases |list| - n
  {
    hide Sorted, PageOf, Strict;
    PageAdvances(sort, list, cursor, limit, n);
    var page := PageOf(sort, list, cursor, Some(limit));
    if page.cursor.Some? { WalkVisitsTheRest(sort, list, page.cursor, limit, n + limit); }
  }

  /** Pages of any size of at least one visit every row exactly once, in order. */
  lemma WalkVisitsEveryRowOnce(sort: Sort, list: seq<Entry>, limit: nat)
    requires Strict(sort, list) && limit >= 1
    ensures Walk(sort, list, None, limit, 0) == list
  {
    WalkVisitsTheRest(sort, list, None, limit, 0);
    assert list[0..] == list;
  }

  /** Every query over the same rows sees them in the same order. */
  lemma {:induction false} StrictOrderIsUnique(sort: Sort, a: seq<Entry>, b: seq<Entry>)
    requires Strict(sort, a) && Strict(sort, b) && multiset(a) == multiset(b)
    ensures a == b
    decreases |a|
  {
    hide Sorted;
    if a == [] {
      assert |multiset(b)| == 0;
    } else {
      assert a[0] in multiset(b);
      SameFirst(sort, a, b);
      StrictTail(sort, a);
      StrictTail(sort, b);
      hide Strict, Keyed;
      assert a == [a[0]] + a[1..] && b == [a[0]] + b[1..];
      assert multiset(a) == multiset{a[0]} + multiset(a[1..]) && multiset(b) == multiset{a[0]} + multiset(b[1..]);
      assert multiset(a[1..]) == multiset(a) - multiset{a[0]};
      StrictOrderIsUnique(sort, a[1..], b[1..]);
    }
  }

  lemma StrictTail(sort: Sort, list: seq<Entry>)
    requires Strict(sort, list) && list != []
    ensures Strict(sort, list[1..])
  {
  }

  lemma SameFirst(sort: Sort, a: seq<Entry>, b: seq<Entry>)
    requires Strict(sort, a) && Strict(sort, b) && a != [] && b != [] && multiset(a) == multiset(b)
    ensures a[0] == b[0]
  {
    hide Sorted, CompareKeys;
    assert a[0] in multiset(b) && b[0] in multiset(a);
    var k :| 0 <= k < |b| && b[k] == a[0];
    var m :| 0 <= m < |a| && a[m] == b[0];
    OrderAround(sort, b, 0, k);
    OrderAround(sort, a, 0, m);
    CompareKeysIsTotal(sort, a[0].key, b[0].key);
  }

  /** Rows with distinct ids give entries with distinct keys, in whatever order they are. */
  lemma DistinctIdsMakeStrict(planSort: Sort, idField: Key, rows: seq<Row>, list: seq<Entry>)
    requires forall i, j :: 0 <= i < j < |rows| ==> ToComparable(CellAt(rows[i], idField)) != ToComparable(CellAt(rows[j], idField))
    requires var sort := StableSort(planSort, idField);
      Entries(sort, rows).Some? && Keyed(sort, list) && Sorted(sort, list) && multiset(list) == multiset(Entries(sort, rows).value)
    ensures Strict(StableSort(planSort, idField), list)
  {
    var sort := StableSort(planSort, idField);
    var entries := Entries(sort, rows).value;
    forall i, j | 0 <= i < j < |entries| ensures entries[i].key != entries[j].key {
      StableSortIsStrict(planSort, idField, rows[i], rows[j]);
      CompareKeysIsTotal(sort, entries[i].key, entries[j].key);
    }
    hide Sorted, Entries, Keyed, StableSort;
    forall i, j | 0 <= i < j < |list| ensures list[i].key != list[j].key {
      if list[i].key == list[j].key { SameKeyTwice(entries, list, i, j); }
    }
  }

  lemma SameKeyTwice(entries: seq<Entry>, list: seq<Entry>, i: nat, j: nat)
    requires multiset(list) == multiset(entries) && i < j < |list| && list[i].key == list[j].key
    requires forall k :: 0 <= k < |entries| ==> entries[k].tag == k
    ensures exists a, b :: 0 <= a < b < |entries| && entries[a].key == entries[b].key
  {
    assert list[i] in multiset(list) && list[j] in multiset(list);
    var a :| 0 <= a < |entries| && entries[a] == list[i];
    var b :| 0 <= b < |entries| && entries[b] == list[j];
    if a == b {
      TwiceInList(list, i, j);
      TagsAreDistinct(entries, list[i]);
    }
    assert entries[if a < b then a else b].key == entries[if a < b then b else a].key;
  }

  lemma TwiceInList(list: seq<Entry>, i: nat, j: nat)
    requires i < j < |list| && list[i] == list[j]
    ensures multiset(list)[list[i]] >= 2
  {
    assert list == list[..i] + [list[i]] + list[i + 1..j] + [list[j]] + list[j + 1..];
  }

  lemma {:induction false} TagsAreDistinct(entries: seq<Entry>, e: Entry)
    requires forall k :: 0 <= k < |entries| ==> entries[k].tag == k
    ensures multiset(entries)[e] <= 1
    ensures e.tag >= |entries| ==> multiset(entries)[e] == 0
  {
    if entries != [] {
      var last := |entries| - 1;
      TagsAreDistinct(entries[..last], e);
      assert entries == entries[..last] + [entries[last]];
    }
  }

  // ---------------------------------------------------------------- what the order means for the rows

  lemma {:induction false} AfterCursorKeepsOrder(sort: Sort, list: seq<Entry>, cursor: SortKey)
    requires Keyed(sort, list) && |cursor| == |sort| && Sorted(sort, list)
    ensures Sorted(sort, AfterCursor(sort, list, cursor))
    ensures forall e :: e in AfterCursor(sort, list, cursor) ==> e in list && CompareKeys(sort, e.key, cursor) > 0
  {
    hide CompareKeys;
    if list != [] {
      var before, last := list[..|list| - 1], list[|list| - 1];
      assert list == before + [last];
      SortedParts(sort, before, last);
      AfterCursorKeepsOrder(sort, before, cursor);
      var rest := AfterCursor(sort, before, cursor);
      if CompareKeys(sort, last.key, cursor) > 0 { SortedWithLast(sort, rest, last); }
      else { assert rest + [] == rest; }
    }
  }

  lemma {:induction false} SortedParts(sort: Sort, before: seq<Entry>, last: Entry)
    requires Keyed(sort, before + [last]) && Sorted(sort, before + [last])
    ensures Keyed(sort, before) && Sorted(sort, before)
    ensures |last.key| == |sort| && forall e :: e in before ==> |e.key| == |sort| && CompareKeys(sort, e.key, last.key) <= 0
  {
    hide CompareKeys;
    assert (before + [last])[|before|] == last;
    assert forall i :: 0 <= i < |before| ==> (before + [last])[i] == before[i];
    if before != [] {
      assert (before + [last])[1..] == before[1..] + [last];
      assert last in before[1..] + [last];
      SortedParts(sort, before[1..], last);
      assert before == [before[0]] + before[1..];
      assert AtMostAll(sort, before[0], before[1..] + [last]);
    }
  }

  lemma {:induction false} SortedWithLast(sort: Sort, before: seq<Entry>, last: Entry)
    requires Keyed(sort, before) && Sorted(sort, before) && |last.key| == |sort|
    requires forall e :: e in before ==> |e.key| == |sort| && CompareKeys(sort, e.key, last.key) <= 0
    ensures Keyed(sort, before + [last]) && Sorted(sort, before + [last])
  {
    hide CompareKeys;
    if before != [] {
      SortedWithLast(sort, before[1..], last);
      assert (before + [last])[1..] == before[1..] + [last];
      assert before[0] in before;
      assert AtMostAll(sort, before[0], before[1..] + [last]);
    }
  }

  /** A page holds the first of the rows after the cursor, all of them without a limit; it says that there
      are more exactly when rows are left, and has a cursor exactly when there are more and it is not empty. */
  lemma PageTakesTheFirst(sort: Sort, list: seq<Entry>, cursor: Option<SortKey>, limit: Option<nat>)
    requires Keyed(sort, list) && (cursor.Some? ==> |cursor.value| == |sort|)
    ensures var page, rest := PageOf(sort, list, cursor, limit), Remaining(sort, list, cursor);
      && page.rows <= rest && (page.more <==> |page.rows| < |rest|)
      && (limit.None? ==> page.rows == rest)
      && (limit.Some? ==> |page.rows| <= limit.value && (page.more ==> |page.rows| == limit.value))
      && (page.cursor.Some? <==> page.more && page.rows != [])
      && (page.cursor.Some? ==> page.cursor.value == page.rows[|page.rows| - 1].key)
  {
    hide AfterCursor, Keyed;
  }

  /** The rows of a page are in order, and all behind the cursor. */
  lemma PageKeepsOrder(sort: Sort, list: seq<Entry>, cursor: Option<SortKey>, limit: Option<nat>)
    requires Keyed(sort, list) && Sorted(sort, list) && (cursor.Some? ==> |cursor.value| == |sort|)
    ensures var page := PageOf(sort, list, cursor, limit);
      && Keyed(sort, page.rows) && Sorted(sort, page.rows)
      && (forall e :: e in page.rows ==> e in list && (cursor.Some? ==> CompareKeys(sort, e.key, cursor.value) > 0))
  {
    if cursor.Some? { AfterCursorKeepsOrder(sort, list, cursor.value); }
    var rest := Remaining(sort, list, cursor);
    if limit.Some? { SortedPrefix(sort, rest, Min(limit.value, |rest|)); }
  }

  lemma {:induction false} SortedPrefix(sort: Sort, list: seq<Entry>, n: nat)
    requires Keyed(sort, list) && Sorted(sort, list) && n <= |list|
    ensures Keyed(sort, list[..n]) && Sorted(sort, list[..n])
    ensures forall e :: e in list[..n] ==> e in list
  {
    hide CompareKeys;
    if n > 0 {
      SortedPrefix(sort, list[1..], n - 1);
      assert list[..n][1..] == list[1..][..n - 1];
    }
  }

  /** The number that the entry's row has in the field. */
  ghost predicate HasNumber(rows: seq<Row>, e: Entry, field: Key, n: real) {
    e.tag < |rows| && field in rows[e.tag] && rows[e.tag][field] == Plain(Num(n))
  }

  lemma NumberInKey(sort: Sort, rows: seq<Row>, list: seq<Entry>, e: Entry, n: real)
    requires sort != [] && Entries(sort, rows).Some? && multiset(list) == multiset(Entries(sort, rows).value)
    requires e in list && HasNumber(rows, e, sort[0].field, n)
    ensures |e.key| == |sort| && e.key[0] == Num(n)
  {
    assert e in multiset(list);
    var entries := Entries(sort, rows).value;
    var i :| 0 <= i < |entries| && entries[i] == e;
  }

  /** What a query answers when rows are sorted first by a field that holds numbers: a later row of the
      page has no smaller number if that entry ascends and no larger one if it descends, and no row has
      a number on the near side of the cursor's. */
  lemma RowsAreOrderedByNumber(sort: Sort, rows: seq<Row>, list: seq<Entry>, cursor: Option<SortKey>, limit: Option<nat>,
                               i: nat, j: nat, m: real, n: real)
    requires sort != [] && Entries(sort, rows).Some? && (cursor.Some? ==> |cursor.value| == |sort|)
    requires Keyed(sort, list) && Sorted(sort, list) && multiset(list) == multiset(Entries(sort, rows).value)
    requires var page := PageOf(sort, list, cursor, limit);
      i < j < |page.rows| && HasNumber(rows, page.rows[i], sort[0].field, m) && HasNumber(rows, page.rows[j], sort[0].field, n)
    ensures if sort[0].ascending then m <= n else m >= n
    ensures cursor.Some? && cursor.value[0].Num? ==> if sort[0].ascending then cursor.value[0].n <= m else cursor.value[0].n >= m
  {
    var page := PageOf(sort, list, cursor, limit);
    PageKeepsOrder(sort, list, cursor, limit);
    var x, y := page.rows[i], page.rows[j];
    assert x in page.rows && y in page.rows;
    hide PageOf;
    NumberInKey(sort, rows, list, x, m);
    NumberInKey(sort, rows, list, y, n);
    SortedAt(sort, page.rows, i, j);
    FirstValueDecides(sort, x.key, y.key);
    if cursor.Some? && cursor.value[0].Num? {
      FirstValueDecides(sort, cursor.value, x.key);
      CompareKeysIsTotal(sort, cursor.value, x.key);
    }
  }

  /** Keys in order have their first numbers in order. */
  lemma FirstValueDecides(sort: Sort, a: SortKey, b: SortKey)
    requires sort != [] && |a| == |sort| == |b| && a[0].Num? && b[0].Num?
    ensures CompareKeys(sort, a, b) <= 0 ==> if sort[0].ascending then a[0].n <= b[0].n else a[0].n >= b[0].n
  {
    if a[0] != b[0] {
      KeysAreOrderedByFirstDifference(sort, a, b, 0);
      CompareKeysIsTotal(sort, a, b);
    }
  }

  ghost predicate DistinctIds(rows: seq<Row>, idField: Key) {
    forall i, j :: 0 <= i < j < |rows| ==> ToComparable(CellAt(rows[i], idField)) != ToComparable(CellAt(rows[j], idField))
  }

  /** One query answers a page of the one sorted order of the rows. */
  lemma SameOrder(planSort: Sort, idField: Key, rows: seq<Row>, list: seq<Entry>, again: seq<Entry>)
    requires DistinctIds(rows, idField)
    requires var sort := StableSort(planSort, idField);
      && Entries(sort, rows).Some? && Keyed(sort, list) && Sorted(sort, list) && multiset(list) == multiset(Entries(sort, rows).value)
      && Keyed(sort, again) && Sorted(sort, again) && multiset(again) == multiset(Entries(sort, rows).value)
    ensures Strict(StableSort(planSort, idField), list) && again == list
  {
    hide Sorted, Entries, StableSort, Keyed;
    DistinctIdsMakeStrict(planSort, idField, rows, list);
    DistinctIdsMakeStrict(planSort, idField, rows, again);
    StrictOrderIsUnique(StableSort(planSort, idField), list, again);
  }

  /** A caller who asks page after page, each time with the cursor of the page before, until there is
      no cursor: with distinct ids the caller sees every row exactly once, in order. */
  method AllPages(planSort: Sort, idField: Key, rows: seq<Row>, limit: nat) returns (seen: Option<seq<Entry>>)
    requires limit >= 1 && DistinctIds(rows, idField)
    ensures var sort := StableSort(planSort, idField);
      && (seen.Some? <==> Entries(sort, rows).Some?)
      && (seen.Some? ==>
            && Keyed(sort, seen.value) && Sorted(sort, seen.value)
            && |seen.value| == |rows| && multiset(seen.value) == multiset(Entries(sort, rows).value)
            && forall i, j :: 0 <= i < j < |rows| ==> seen.value[i].tag != seen.value[j].tag)
  {
    hide Sorted, PageOf, Entries, Strict, DistinctIds, Keyed;
    var sort := SortWithStableId(planSort, idField);
    hide StableSort;
    var page, list := Query(sort, rows, None, Some(limit));
    if page.None? { return None; }
    SameOrder(planSort, idField, rows, list, list);
    PageAdvances(sort, list, None, limit, 0);
    var done, next, n := page.value.rows, page.value.cursor, limit;
    while next.Some?
      invariant next.Some? ==> n < |list| && At(list, next, n)
      invariant n >= limit && done == list[..Min(n, |list|)]
      invariant next.None? ==> n >= |list|
      decreases |list| - n
    {
      ghost var again;
      PageAdvances(sort, list, next, limit, n);
      page, again := Query(sort, rows, next, Some(limit));
      SameOrder(planSort, idField, rows, list, again);
      assert list[..Min(n + limit, |list|)] == list[..n] + list[n..Min(n + limit, |list|)];
      done, next, n := done + page.value.rows, page.value.cursor, n + limit;
    }
    assert done == list;
    TagsDiffer(sort, rows, list);
    return Some(done);
  }

  lemma TagsDiffer(sort: Sort, rows: seq<Row>, list: seq<Entry>)
    requires Entries(sort, rows).Some? && multiset(list) == multiset(Entries(sort, rows).value) && Strict(sort, list)
    ensures |list| == |rows| && forall i, j :: 0 <= i < j < |rows| ==> list[i].tag != list[j].tag
  {
    hide Sorted;
    var entries := Entries(sort, rows).value;
    assert |multiset(list)| == |multiset(entries)|;
    forall i, j | 0 <= i < j < |list| ensures list[i].tag != list[j].tag {
      assert list[i] in multiset(list) && list[j] in multiset(list);
      var a :| 0 <= a < |entries| && entries[a] == list[i];
      var b :| 0 <= b < |entries| && entries[b] == list[j];
    }
  }
}
