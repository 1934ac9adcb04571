/** Field paths as texts and as lists of segments. Two paths overlap when one is a prefix of the
    other, which the texts show by a dot. */
module FieldPaths {
  import opened Texts

  /** A segment whose text is a canonical decimal is an Index: it names a property of a record and an
      element of a list. */
  datatype Segment = Name(text: string) | Index(n: nat)

  type Path = seq<Segment>

  function SegmentText(s: Segment): string {
    match s
    case Name(text) => text
    case Index(n) => Decimal(n)
  }

  /** Safe segments: not empty, without dots, and an Index whenever they can be one. */
  ghost predicate SafeSegment(s: Segment) {
    && SegmentText(s) != []
    && (forall i :: 0 <= i < |SegmentText(s)| ==> SegmentText(s)[i] != '.')
    && (s.Name? ==> forall n :: s.text != Decimal(n))
  }

  ghost predicate SafePath(path: Path) { path != [] && forall i :: 0 <= i < |path| ==> SafeSegment(path[i]) }

  function PathText(path: Path): string
    requires path != []
  {
    if |path| == 1 then SegmentText(path[0]) else SegmentText(path[0]) + "." + PathText(path[1..])
  }

  predicate StartsWith(s: string, prefix: string) { |prefix| <= |s| && s[..|prefix|] == prefix }

  datatype Relation = Exact | Ancestor | Descendant | Unrelated

  /** fieldCodecPathRelation, on texts. */
  function TextRelation(field: string, codecField: string): Relation {
    if field == codecField then Exact
    else if StartsWith(field, codecField + ".") then Ancestor
    else if StartsWith(codecField, field + ".") then Descendant
    else Unrelated
  }

  predicate Prefix(a: Path, b: Path) { |a| <= |b| && b[..|a|] == a }

  /** What it means for the segments: the codec's path is the same, a prefix, or an extension. */
  function PathRelation(field: Path, codec: Path): Relation {
    if field == codec then Exact
    else if Prefix(codec, field) then Ancestor
    else if Prefix(field, codec) then Descendant
    else Unrelated
  }

  predicate Disjoint(a: Path, b: Path) { !Prefix(a, b) && !Prefix(b, a) }

  lemma SegmentTextIsInjective(a: Segment, b: Segment)
    requires SafeSegment(a) && SafeSegment(b) && SegmentText(a) == SegmentText(b)
    ensures a == b
  {
    if a.Index? { DecimalRoundTrip(a.n); }
    if b.Index? { DecimalRoundTrip(b.n); }
  }

  /** A segment is read up to the first dot. */
  lemma SegmentIsRead(a: Segment, r: string, b: Segment, r': string)
    requires SafeSegment(a) && SafeSegment(b)
    requires r == [] || r[0] == '.'
    requires r' == [] || r'[0] == '.'
    requires SegmentText(a) + r == SegmentText(b) + r'
    ensures a == b && r == r'
  {
    hide SegmentText;
    UntilFindsEnd(SegmentText(a), r, {'.'});
    UntilFindsEnd(SegmentText(b), r', {'.'});
    SegmentTextIsInjective(a, b);
  }

  function Tail(path: Path, rest: string): string
    requires path != []
  {
    if |path| == 1 then rest else "." + PathText(path[1..]) + rest
  }

  lemma TextIsHeadAndTail(path: Path, rest: string)
    requires path != []
    ensures PathText(path) + rest == SegmentText(path[0]) + Tail(path, rest)
  {
    hide SegmentText;
  }

  /** The text of a path followed by nothing or by a dot determines its segments, up to extension. */
  lemma {:induction false} PathIsRead(a: Path, b: Path, rest: string)
    requires SafePath(a) && SafePath(b) && (rest == [] || rest[0] == '.')
    requires PathText(a) + rest == PathText(b)
    ensures Prefix(a, b) && (rest == [] ==> a == b)
  {
    hide SegmentText, SafeSegment;
    TextIsHeadAndTail(a, rest);
    TextIsHeadAndTail(b, []);
    assert PathText(b) + [] == PathText(b);
    SegmentIsRead(a[0], Tail(a, rest), b[0], Tail(b, []));
    if |a| > 1 {
      TailIsRead(a, rest, b);
      PathIsRead(a[1..], b[1..], rest);
      assert a == [a[0]] + a[1..] && b == [b[0]] + b[1..];
      assert b[..|a|] == [b[0]] + b[1..][..|a| - 1];
    } else if rest == [] {
      assert Tail(b, []) == [];
      assert a == [a[0]] && b == [b[0]];
    }
  }

  lemma TailIsRead(a: Path, rest: string, b: Path)
    requires |a| > 1 && b != [] && Tail(a, rest) == Tail(b, [])
    ensures |b| > 1 && PathText(a[1..]) + rest == PathText(b[1..])
  {
    hide PathText;
    var ta := PathText(a[1..]) + rest;
    assert Tail(a, rest) == "." + ta;
    assert |b| > 1;
    assert Tail(b, []) == "." + PathText(b[1..]);
    assert ("." + ta)[1..] == ta && ("." + PathText(b[1..]))[1..] == PathText(b[1..]);
  }

  lemma {:induction false} PrefixText(a: Path, b: Path)
    requires a != [] && Prefix(a, b) && a != b
    ensures StartsWith(PathText(b), PathText(a) + ".")
  {
    hide SegmentText;
    assert b[0] == b[..|a|][0];
    if |a| > 1 {
      assert b[1..][..|a| - 1] == b[..|a|][1..];
      assert a == [a[0]] + a[1..] && b == [b[0]] + b[1..];
      PrefixText(a[1..], b[1..]);
      var s, u, rest := SegmentText(a[0]) + ".", PathText(a[1..]) + ".", PathText(b[1..]);
      assert PathText(a) + "." == s + u;
      assert PathText(b) == s + rest;
      assert (s + rest)[..|s + u|] == s + rest[..|u|];
    } else {
      assert |b| > 1;
      assert PathText(b)[..|PathText(a) + "."|] == SegmentText(a[0]) + ".";
    }
  }

  lemma TextPrefixIff(a: Path, b: Path)
    requires SafePath(a) && SafePath(b)
    ensures StartsWith(PathText(b), PathText(a) + ".") <==> Prefix(a, b) && a != b
  {
    hide SegmentText, SafeSegment, PathText;
    if Prefix(a, b) && a != b { PrefixText(a, b); }
    if StartsWith(PathText(b), PathText(a) + ".") {
      var rest := PathText(b)[|PathText(a)|..];
      assert PathText(b) == PathText(a) + rest;
      assert rest[0] == (PathText(a) + ".")[|PathText(a)|];
      PathIsRead(a, b, rest);
    }
  }

  /** The relation the code computes on texts is the prefix relation of the segment lists. */
  lemma RelationOnTextsIsPrefix(field: Path, codec: Path)
    requires SafePath(field) && SafePath(codec)
    ensures TextRelation(PathText(field), PathText(codec)) == PathRelation(field, codec)
    ensures PathRelation(field, codec).Unrelated? <==> Disjoint(field, codec)
  {
    hide PathText, SafeSegment;
    TextPrefixIff(field, codec);
    TextPrefixIff(codec, field);
    if PathText(field) == PathText(codec) {
      assert PathText(field) + [] == PathText(codec);
      PathIsRead(field, codec, []);
    }
  }
}
