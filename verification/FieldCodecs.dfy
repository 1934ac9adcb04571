/** Field codecs on nested rows: writing applies every codec's encode at its path, reading its
    decode. The paths of one model never overlap. */
module FieldCodecs {
  import opened Options
  import opened FieldPaths

  /** JSON-like data; a record's property that is absent is JavaScript's undefined. */
  datatype Value = Null | Scalar(n: int) | List(items: seq<Value>) | Record(fields: map<Segment, Value>)

  datatype Operator = Eq | Ne | Lt | Le | Gt | Ge | In | Between | IsNull | IsNotNull | ArrayContains | TextContains | JsonContains | BeginsWith

  /** encode and decode may throw or return undefined: None. operators are those encodeQuery allows. */
  datatype Codec = Codec(
    path: Path,
    encode: Value -> Option<Value>,
    decode: Value -> Option<Value>,
    encodeQuery: Option<(Value, Operator) -> Option<Value>>,
    operators: set<Operator>)

  /** The value at a path; None is undefined. */
  function ValueFor(v: Value, path: Path): Option<Value>
    decreases |path|
  {
    if path == [] then Some(v)
    else
      match v
      case Record(fields) => if path[0] in fields then ValueFor(fields[path[0]], path[1..]) else None
      case List(items) => if path[0].Index? && path[0].n < |items| then ValueFor(items[path[0].n], path[1..]) else None
      case _ => None
  }

  /** setPath: missing and null parents become records; any other parent that is no record is an error. */
  function SetPath(v: Value, path: Path, x: Value): Option<Value>
    requires path != []
    decreases |path|
  {
    if !v.Record? then None
    else if |path| == 1 then Some(Record(v.fields[path[0] := x]))
    else
      var existing := if path[0] in v.fields && !v.fields[path[0]].Null? then v.fields[path[0]] else Record(map[]);
      var inner := SetPath(existing, path[1..], x);
      if inner.None? then None else Some(Record(v.fields[path[0] := inner.value]))
  }

  datatype Operation = Write | Read

  function Coder(c: Codec, operation: Operation): Value -> Option<Value> {
    if operation.Write? then c.encode else c.decode
  }

  /** applyFieldCodec; None is the validation error. */
  function ApplyCodec(v: Value, c: Codec, operation: Operation): Option<Value>
    requires c.path != []
  {
    var current := ValueFor(v, c.path);
    if current.None? then Some(v)
    else
      var value := Coder(c, operation)(current.value);
      if value.None? then None else SetPath(v, c.path, value.value)
  }

  predicate HavePaths(codecs: seq<Codec>) { forall i :: 0 <= i < |codecs| ==> codecs[i].path != [] }

  function ApplyAll(codecs: seq<Codec>, v: Value, operation: Operation): Option<Value>
    requires HavePaths(codecs)
    decreases |codecs|
  {
    if codecs == [] then Some(v)
    else
      var first := ApplyCodec(v, codecs[0], operation);
      if first.None? then None else ApplyAll(codecs[1..], first.value, operation)
  }

  /** applyFieldCodecs */
  method ApplyFieldCodecs(codecs: seq<Codec>, data: Value, operation: Operation) returns (result: Option<Value>)
    requires HavePaths(codecs)
    ensures result == ApplyAll(codecs, data, operation)
  {
    var next := data;
    for i := 0 to |codecs|
      invariant ApplyAll(codecs, data, operation) == ApplyAll(codecs[i..], next, operation)
    {
      assert codecs[i..][1..] == codecs[i + 1..];
      var applied := ApplyCodec(next, codecs[i], operation);
      if applied.None? { return None; }
      next := applied.value;
    }
    return Some(next);
  }

  /** No codec's path is a prefix of another's; Map keys are never equal. */
  ghost predicate NoOverlap(codecs: seq<Codec>) {
    forall i, j :: 0 <= i < |codecs| && 0 <= j < |codecs| && i != j ==> Disjoint(codecs[i].path, codecs[j].path)
  }

  /** assertNoOverlappingFieldPaths on distinct paths. */
  method PathsDoNotOverlap(codecs: seq<Codec>) returns (ok: bool)
    requires forall i, j :: 0 <= i < j < |codecs| ==> codecs[i].path != codecs[j].path
    ensures ok <==> NoOverlap(codecs)
  {
    for parent := 0 to |codecs|
      invariant forall i, j :: 0 <= i < parent && 0 <= j < |codecs| && i != j ==> !Prefix(codecs[i].path, codecs[j].path)
    {
      for child := 0 to |codecs|
        invariant forall j :: 0 <= j < child && j != parent ==> !Prefix(codecs[parent].path, codecs[j].path)
      {
        if parent != child && Prefix(codecs[parent].path, codecs[child].path) { return false; }
      }
    }
    return true;
  }

  /** Names lead through records, positions through lists, and nothing else leads anywhere. */
  lemma OneStep(v: Value, s: Segment, x: Value)
    ensures ValueFor(v, [s]) == Some(x) <==>
      || (v.Record? && s in v.fields && v.fields[s] == x)
      || (v.List? && s.Index? && s.n < |v.items| && v.items[s.n] == x)
  {
    assert [s][1..] == [];
  }

  /** Paths are followed segment by segment. */
  lemma {:induction false} PathIsFollowed(v: Value, p: Path, q: Path)
    ensures ValueFor(v, p + q) == if ValueFor(v, p).None? then None else ValueFor(ValueFor(v, p).value, q)
    decreases |p|
  {
    if p == [] {
      assert p + q == q;
    } else {
      assert (p + q)[0] == p[0] && (p + q)[1..] == p[1..] + q;
      if v.Record? && p[0] in v.fields { PathIsFollowed(v.fields[p[0]], p[1..], q); }
      if v.List? && p[0].Index? && p[0].n < |v.items| { PathIsFollowed(v.items[p[0].n], p[1..], q); }
    }
  }

  /** A value on the way that can neither be descended into nor replaced by a record. */
  predicate InTheWay(v: Value, path: Path, n: nat)
    requires n < |path|
  {
    ValueFor(v, path[..n]).Some? && !ValueFor(v, path[..n]).value.Record? && (n == 0 || !ValueFor(v, path[..n]).value.Null?)
  }

  /** Setting a path fails exactly when something on the way is no record and not null; otherwise the
      value is found there afterwards. */
  lemma {:induction false} SetPathFailsIff(v: Value, path: Path, x: Value)
    requires path != []
    ensures SetPath(v, path, x).None? <==> exists n: nat :: n < |path| && InTheWay(v, path, n)
    ensures SetPath(v, path, x).Some? ==> ValueFor(SetPath(v, path, x).value, path) == Some(x)
    decreases |path|
  {
    if v.Record? && |path| > 1 {
      var present := path[0] in v.fields && !v.fields[path[0]].Null?;
      var existing := if present then v.fields[path[0]] else Record(map[]);
      SetPathFailsIff(existing, path[1..], x);
      forall n: nat | 0 < n < |path| ensures InTheWay(v, path, n) <==> InTheWay(existing, path[1..], n - 1) {
        assert path[..n] != [] && path[..n][0] == path[0] && path[..n][1..] == path[1..][..n - 1];
        assert ValueFor(v, path[..n]) == if path[0] in v.fields then ValueFor(v.fields[path[0]], path[1..][..n - 1]) else None;
        if n > 1 { assert path[1..][..n - 1] != []; }
      }
      assert !InTheWay(v, path, 0);
      if m: nat :| m < |path[1..]| && InTheWay(existing, path[1..], m) { assert InTheWay(v, path, m + 1); }
    } else if !v.Record? {
      assert InTheWay(v, path, 0);
    }
  }

  // ---------------------------------------------------------------- one codec, as a change at a path

  /** Changing the value at a path in one descent. */
  function Update(v: Value, path: Path, f: Value -> Option<Value>): Option<Value>
    decreases |path|
  {
    if path == [] then f(v)
    else if v.List? then (if ValueFor(v, path).None? then Some(v) else None)
    else if v.Record? && path[0] in v.fields then
      var inner := Update(v.fields[path[0]], path[1..], f);
      if inner.None? then None else Some(Record(v.fields[path[0] := inner.value]))
    else Some(v)
  }

  lemma {:induction false} ApplyIsUpdate(v: Value, path: Path, f: Value -> Option<Value>)
    requires path != []
    ensures Update(v, path, f) ==
      var current := ValueFor(v, path);
      if current.None? then Some(v) else var y := f(current.value); if y.None? then None else SetPath(v, path, y.value)
    decreases |path|
  {
    if v.Record? && path[0] in v.fields {
      var child, rest := v.fields[path[0]], path[1..];
      if |path| > 1 { ApplyIsUpdate(child, rest, f); }
      assert v.fields[path[0] := child] == v.fields;
    }
  }

  /** Undoing a change at the same path gives the old value back. */
  lemma {:induction false} UpdateUndone(v: Value, path: Path, f: Value -> Option<Value>, g: Value -> Option<Value>)
    requires forall x :: f(x).Some? ==> g(f(x).value) == Some(x)
    requires Update(v, path, f).Some?
    ensures Update(Update(v, path, f).value, path, g) == Some(v)
    decreases |path|
  {
    if path != [] && v.Record? && path[0] in v.fields {
      UpdateUndone(v.fields[path[0]], path[1..], f, g);
      var w := Update(v, path, f).value;
      assert w.fields[path[0] := v.fields[path[0]]] == v.fields;
    }
  }

  lemma PrefixTail(p: Path, q: Path)
    requires p != [] && q != [] && p[0] == q[0]
    ensures Prefix(p, q) <==> Prefix(p[1..], q[1..])
  {
    assert p == [p[0]] + p[1..] && q == [q[0]] + q[1..];
    if |p| <= |q| { assert q[..|p|] == [q[0]] + q[1..][..|p| - 1]; }
  }

  lemma DisjointTails(p: Path, q: Path)
    requires p != [] && q != [] && p[0] == q[0] && Disjoint(p, q)
    ensures Disjoint(p[1..], q[1..])
  {
    PrefixTail(p, q);
    PrefixTail(q, p);
  }

  lemma DisjointNotEmpty(p: Path, q: Path)
    requires Disjoint(p, q)
    ensures p != [] && q != []
  {
  }

  /** Changes at disjoint paths may change places. */
  lemma {:induction false} UpdatesCommute(v: Value, p: Path, f: Value -> Option<Value>, q: Path, g: Value -> Option<Value>)
    requires Disjoint(p, q)
    requires Update(v, p, f).Some? && Update(Update(v, p, f).value, q, g).Some?
    ensures Update(v, q, g).Some?
    ensures Update(Update(v, q, g).value, p, f) == Update(Update(v, p, f).value, q, g)
    decreases |p|, 1
  {
    DisjointNotEmpty(p, q);
    if v.Record? {
      if p[0] == q[0] {
        if p[0] in v.fields {
          DisjointTails(p, q);
          CommuteBelow(v, p, f, q, g);
        }
      } else {
        CommuteAside(v, p, f, q, g);
      }
    }
  }

  lemma {:induction false} CommuteBelow(v: Value, p: Path, f: Value -> Option<Value>, q: Path, g: Value -> Option<Value>)
    requires v.Record? && p != [] && q != [] && p[0] == q[0] && p[0] in v.fields && Disjoint(p[1..], q[1..])
    requires Update(v, p, f).Some? && Update(Update(v, p, f).value, q, g).Some?
    ensures Update(v, q, g).Some?
    ensures Update(Update(v, q, g).value, p, f) == Update(Update(v, p, f).value, q, g)
    decreases |p|, 0
  {
    var child := v.fields[p[0]];
    UpdatesCommute(child, p[1..], f, q[1..], g);
    var x, y := Update(child, p[1..], f).value, Update(child, q[1..], g).value;
    var z := Update(x, q[1..], g).value;
    assert v.fields[p[0] := x][p[0] := z] == v.fields[p[0] := y][p[0] := z];
  }

  lemma CommuteAside(v: Value, p: Path, f: Value -> Option<Value>, q: Path, g: Value -> Option<Value>)
    requires v.Record? && p != [] && q != [] && p[0] != q[0]
    requires Update(v, p, f).Some? && Update(Update(v, p, f).value, q, g).Some?
    ensures Update(v, q, g).Some?
    ensures Update(Update(v, q, g).value, p, f) == Update(Update(v, p, f).value, q, g)
  {
    if p[0] in v.fields && q[0] in v.fields {
      var x, y := Update(v.fields[p[0]], p[1..], f).value, Update(v.fields[q[0]], q[1..], g).value;
      assert v.fields[p[0] := x][q[0] := y] == v.fields[q[0] := y][p[0] := x];
    }
  }

  /** A change leaves what is at a disjoint path as it was. */
  lemma {:induction false} UpdateElsewhere(v: Value, p: Path, f: Value -> Option<Value>, q: Path)
    requires Disjoint(p, q) && Update(v, p, f).Some?
    ensures ValueFor(Update(v, p, f).value, q) == ValueFor(v, q)
    decreases |p|
  {
    DisjointNotEmpty(p, q);
    if v.Record? && p[0] == q[0] && p[0] in v.fields {
      DisjointTails(p, q);
      UpdateElsewhere(v.fields[p[0]], p[1..], f, q[1..]);
    }
  }

  lemma {:induction false} UpdateHere(v: Value, p: Path, f: Value -> Option<Value>)
    requires Update(v, p, f).Some?
    ensures ValueFor(Update(v, p, f).value, p) == if ValueFor(v, p).None? then None else f(ValueFor(v, p).value)
    ensures ValueFor(v, p).Some? ==> f(ValueFor(v, p).value).Some?
    decreases |p|
  {
    if p != [] && v.Record? && p[0] in v.fields { UpdateHere(v.fields[p[0]], p[1..], f); }
  }

  // ---------------------------------------------------------------- write, then read

  /** What a codec promises: decoding undoes a successful encoding. */
  ghost predicate Lossless(c: Codec) { forall x :: c.encode(x).Some? ==> c.decode(c.encode(x).value) == Some(x) }

  /** other is the same codecs in some order. */
  function Without(codecs: seq<Codec>, i: nat): seq<Codec>
    requires i < |codecs|
  {
    codecs[..i] + codecs[i + 1..]
  }

  ghost predicate Reordered(codecs: seq<Codec>, other: seq<Codec>)
    decreases |other|
  {
    if other == [] then codecs == []
    else exists i :: 0 <= i < |codecs| && codecs[i] == other[0] && Reordered(Without(codecs, i), other[1..])
  }

  lemma ApplyCodecIsUpdate(v: Value, c: Codec, operation: Operation)
    requires c.path != []
    ensures ApplyCodec(v, c, operation) == Update(v, c.path, Coder(c, operation))
  {
    ApplyIsUpdate(v, c.path, Coder(c, operation));
  }

  lemma CodecsCommute(v: Value, c: Codec, d: Codec)
    requires c.path != [] && d.path != [] && Disjoint(c.path, d.path)
    requires ApplyCodec(v, c, Write).Some? && ApplyCodec(ApplyCodec(v, c, Write).value, d, Write).Some?
    ensures ApplyCodec(v, d, Write).Some?
    ensures ApplyCodec(ApplyCodec(v, d, Write).value, c, Write) == ApplyCodec(ApplyCodec(v, c, Write).value, d, Write)
  {
    hide ApplyCodec, Update;
    ApplyCodecIsUpdate(v, c, Write);
    ApplyCodecIsUpdate(ApplyCodec(v, c, Write).value, d, Write);
    UpdatesCommute(v, c.path, Coder(c, Write), d.path, Coder(d, Write));
    ApplyCodecIsUpdate(v, d, Write);
    ApplyCodecIsUpdate(ApplyCodec(v, d, Write).value, c, Write);
  }

  /** A codec applied before disjoint others may be applied after them. */
  lemma {:induction false} ApplyLater(c: Codec, rest: seq<Codec>, v: Value, w: Value)
    requires c.path != [] && HavePaths(rest) && forall i :: 0 <= i < |rest| ==> Disjoint(c.path, rest[i].path)
    requires ApplyCodec(v, c, Write).Some? && ApplyAll(rest, ApplyCodec(v, c, Write).value, Write) == Some(w)
    ensures ApplyAll(rest, v, Write).Some? && ApplyCodec(ApplyAll(rest, v, Write).value, c, Write) == Some(w)
    decreases |rest|
  {
    if rest != [] {
      var d, v1 := rest[0], ApplyCodec(v, c, Write).value;
      hide ApplyCodec;
      CodecsCommute(v, c, d);
      ApplyLater(c, rest[1..], ApplyCodec(v, d, Write).value, w);
    }
  }

  /** Any one codec may be the last that is applied. */
  lemma {:induction false} ApplyLast(codecs: seq<Codec>, i: nat, v: Value, w: Value)
    requires HavePaths(codecs) && NoOverlap(codecs) && i < |codecs| && ApplyAll(codecs, v, Write) == Some(w)
    ensures var others := Without(codecs, i);
      HavePaths(others) && NoOverlap(others) && ApplyAll(others, v, Write).Some?
      && ApplyCodec(ApplyAll(others, v, Write).value, codecs[i], Write) == Some(w)
    decreases |codecs|
  {
    hide *;
    OthersAreDisjoint(codecs, i);
    OthersAreDisjoint(codecs, 0);
    ApplyFirst(codecs, v, Write);
    WithoutFirst(codecs);
    if i == 0 {
      ApplyLater(codecs[0], codecs[1..], v, w);
    } else {
      ApplyLast(codecs[1..], i - 1, ApplyCodec(v, codecs[0], Write).value, w);
      var others := Without(codecs, i);
      OthersSplit(codecs, i);
      ApplyFirst(others, v, Write);
    }
  }

  lemma WithoutFirst(codecs: seq<Codec>)
    requires codecs != []
    ensures Without(codecs, 0) == codecs[1..]
  {
  }

  lemma ApplyFirst(codecs: seq<Codec>, v: Value, operation: Operation)
    requires codecs != []
    ensures HavePaths(codecs) <==> codecs[0].path != [] && HavePaths(codecs[1..])
    ensures HavePaths(codecs) ==>
      var first := ApplyCodec(v, codecs[0], operation);
      ApplyAll(codecs, v, operation) == if first.None? then None else ApplyAll(codecs[1..], first.value, operation)
  {
  }

  lemma OthersSplit(codecs: seq<Codec>, i: nat)
    requires 0 < i < |codecs|
    ensures var others, rest := Without(codecs, i), codecs[1..];
      others != [] && others[0] == codecs[0] && others[1..] == Without(rest, i - 1) && rest[i - 1] == codecs[i]
  {
  }

  lemma OthersAreDisjoint(codecs: seq<Codec>, i: nat)
    requires HavePaths(codecs) && NoOverlap(codecs) && i < |codecs|
    ensures var others := Without(codecs, i);
      && HavePaths(others) && NoOverlap(others) && codecs[i].path != []
      && forall j :: 0 <= j < |others| ==> Disjoint(codecs[i].path, others[j].path)
  {
    var others := Without(codecs, i);
    assert forall j :: 0 <= j < |others| ==> others[j] == codecs[if j < i then j else j + 1];
  }

  /** Reading with a lossless codec undoes writing with it. */
  lemma CodecUndone(u: Value, w: Value, c: Codec)
    requires c.path != [] && Lossless(c) && ApplyCodec(u, c, Write) == Some(w)
    ensures ApplyCodec(w, c, Read) == Some(u)
  {
    hide Update, ApplyCodec;
    ApplyCodecIsUpdate(u, c, Write);
    ApplyCodecIsUpdate(w, c, Read);
    UpdateUndone(u, c.path, c.encode, c.decode);
  }

  ghost predicate AllLossless(codecs: seq<Codec>) { forall i :: 0 <= i < |codecs| ==> Lossless(codecs[i]) }

  lemma FirstOfReordered(codecs: seq<Codec>, other: seq<Codec>) returns (i: nat)
    requires Reordered(codecs, other) && other != [] && AllLossless(codecs)
    ensures i < |codecs| && codecs[i] == other[0] && Reordered(Without(codecs, i), other[1..])
    ensures AllLossless(Without(codecs, i)) && Lossless(codecs[i])
  {
    hide Lossless;
    i :| 0 <= i < |codecs| && codecs[i] == other[0] && Reordered(Without(codecs, i), other[1..]);
    var others := Without(codecs, i);
    assert forall j :: 0 <= j < |others| ==> others[j] == codecs[if j < i then j else j + 1];
  }

  /** Writing a row and reading it back gives the row, whatever order the codecs are applied in. */
  lemma {:induction false} WriteThenRead(codecs: seq<Codec>, other: seq<Codec>, v: Value, w: Value)
    requires HavePaths(codecs) && NoOverlap(codecs) && AllLossless(codecs)
    requires Reordered(codecs, other) && ApplyAll(codecs, v, Write) == Some(w)
    ensures HavePaths(other) && ApplyAll(other, w, Read) == Some(v)
    decreases |other|
  {
    if other == [] { return; }
    hide *;
    var i := FirstOfReordered(codecs, other);
    OthersAreDisjoint(codecs, i);
    ApplyLast(codecs, i, v, w);
    var u := ApplyAll(Without(codecs, i), v, Write).value;
    CodecUndone(u, w, codecs[i]);
    WriteThenRead(Without(codecs, i), other[1..], v, u);
    ApplyFirst(other, w, Read);
  }

  /** The stored row has the encoded value at every codec's path, and the row's own value elsewhere. */
  lemma {:induction false} WrittenValues(codecs: seq<Codec>, v: Value, w: Value, path: Path)
    requires HavePaths(codecs) && NoOverlap(codecs) && ApplyAll(codecs, v, Write) == Some(w)
    ensures (forall i :: 0 <= i < |codecs| ==> Disjoint(codecs[i].path, path)) ==> ValueFor(w, path) == ValueFor(v, path)
    ensures forall i :: 0 <= i < |codecs| && codecs[i].path == path ==>
      && ValueFor(w, path) == (if ValueFor(v, path).None? then None else codecs[i].encode(ValueFor(v, path).value))
      && (ValueFor(v, path).Some? ==> ValueFor(w, path).Some?)
    decreases |codecs|
  {
    if codecs != [] {
      var c := codecs[0];
      var v1 := ApplyCodec(v, c, Write).value;
      ApplyCodecIsUpdate(v, c, Write);
      assert forall j :: 0 < j < |codecs| ==> codecs[j] == codecs[1..][j - 1];
      if c.path == path { UpdateHere(v, path, c.encode); }
      else if Disjoint(c.path, path) { UpdateElsewhere(v, c.path, c.encode, path); }
      hide Update, ApplyCodec;
      WrittenValues(codecs[1..], v1, w, path);
    }
  }
}
