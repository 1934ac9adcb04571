/** Identity texts of Datastore keys. Two normalized keys are the same key exactly when their
    identities are the same text. */
module DatastoreKeys {
  import opened Options
  import opened Texts

  /** Numbers and 64-bit ids are known by their text. */
  datatype EntityId = StringId(s: string) | NumberId(text: string) | Int64Id(text: string)

  datatype Part = Part(kind: string, id: EntityId)

  /** A normalized key: its path is not empty. */
  datatype DatastoreKey = DatastoreKey(namespace: Option<string>, path: seq<Part>)

  predicate Normalized(key: DatastoreKey) { key.path != [] }

  function EntityIdKey(id: EntityId): string {
    match id
    case StringId(s) => "string:" + s
    case NumberId(t) => "number:" + t
    case Int64Id(t) => "datastore-int64:" + t
  }

  lemma EntityIdKeyIsInjective(a: EntityId, b: EntityId)
    requires EntityIdKey(a) == EntityIdKey(b)
    ensures a == b
  {
    var x, y := EntityIdKey(a), EntityIdKey(b);
    assert x[0] == if a.StringId? then 's' else if a.NumberId? then 'n' else 'd';
    assert y[0] == if b.StringId? then 's' else if b.NumberId? then 'n' else 'd';
    assert !a.Int64Id? ==> x[7..] == (if a.StringId? then a.s else a.text) && y[7..] == if b.StringId? then b.s else b.text;
    assert a.Int64Id? ==> x[16..] == a.text && y[16..] == b.text;
  }

  function NamespaceTag(): string { "namespace:" }
  function KindTag(): string { "kind:" }
  function IdTag(): string { ":id:" }

  function NamespaceText(namespace: Option<string>): string {
    if namespace.None? then NamespaceTag() else NamespaceTag() + Component(namespace.value) + ":"
  }

  function PartText(part: Part): string {
    KindTag() + Component(part.kind) + IdTag() + Component(EntityIdKey(part.id)) + ":"
  }

  function PathText(path: seq<Part>): string {
    if path == [] then "" else PathText(path[..|path| - 1]) + PartText(path[|path| - 1])
  }

  function Identity(key: DatastoreKey): string { NamespaceText(key.namespace) + PathText(key.path) }

  /** datastoreKeyIdentity */
  method DatastoreKeyIdentity(key: DatastoreKey) returns (identity: string)
    ensures identity == Identity(key)
  {
    identity := if key.namespace.None? then NamespaceTag() else NamespaceTag() + Component(key.namespace.value) + ":";
    hide NamespaceTag, KindTag, IdTag, Component, EntityIdKey, PathText;
    assert NamespaceText(key.namespace) + PathText([]) == identity by { NoPath(); }
    assert key.path[..0] == [];
    for index := 0 to |key.path|
      invariant identity == NamespaceText(key.namespace) + PathText(key.path[..index])
    {
      var part := key.path[index];
      OneMorePart(key, index);
      identity := identity + KindTag() + Component(part.kind) + IdTag() + Component(EntityIdKey(part.id)) + ":";
    }
    assert key.path[..|key.path|] == key.path;
  }

  lemma NoPath()
    ensures PathText([]) == ""
  {
  }

  lemma OneMorePart(key: DatastoreKey, index: nat)
    requires index < |key.path|
    ensures var start, part := NamespaceText(key.namespace), key.path[index];
      start + PathText(key.path[..index + 1])
      == start + PathText(key.path[..index]) + KindTag() + Component(part.kind) + IdTag() + Component(EntityIdKey(part.id)) + ":"
  {
    assert key.path[..index + 1][..index] == key.path[..index];
    hide NamespaceTag, KindTag, IdTag, Component, EntityIdKey, NamespaceText;
    var part := key.path[index];
    assert PathText(key.path[..index + 1]) == PathText(key.path[..index]) + PartText(part);
    hide PathText;
    Regroup(NamespaceText(key.namespace), PathText(key.path[..index]), KindTag(), Component(part.kind), IdTag(), Component(EntityIdKey(part.id)));
  }

  lemma Regroup(s: string, p: string, k: string, c: string, i: string, d: string)
    ensures s + (p + (k + c + i + d + ":")) == s + p + k + c + i + d + ":"
  {
  }

  // ---------------------------------------------------------------- injectivity

  lemma {:induction false} PathTextFront(path: seq<Part>)
    requires path != []
    ensures PathText(path) == PartText(path[0]) + PathText(path[1..])
  {
    hide PartText;
    if |path| == 1 {
      assert path[..0] == [] && path[1..] == [];
    } else {
      var front, tail := path[..|path| - 1], path[1..];
      PathTextFront(front);
      assert tail[..|tail| - 1] == front[1..] && tail[|tail| - 1] == path[|path| - 1] && front[0] == path[0];
      assert PathText(path) == PathText(front) + PartText(path[|path| - 1]);
      assert PathText(tail) == PathText(front[1..]) + PartText(path[|path| - 1]);
      hide *;
      Joined(PartText(path[0]), PathText(front[1..]), PartText(path[|path| - 1]));
    }
  }

  lemma Joined(a: string, b: string, c: string)
    ensures (a + b) + c == a + (b + c)
  {
  }

  /** What a length-prefixed component is followed by does not matter: it is read back alone. */
  lemma ComponentsDiffer(s: string, r: string, s': string, r': string)
    requires Component(s) + r == Component(s') + r'
    ensures s == s' && r == r'
  {
    ComponentRoundTrip(s, r);
    ComponentRoundTrip(s', r');
  }

  lemma SamePrefix(p: string, a: string, b: string)
    requires p + a == p + b
    ensures a == b
  {
    assert (p + a)[|p|..] == a && (p + b)[|p|..] == b;
  }

  lemma PartIsReadBack(a: Part, r: string, b: Part, r': string)
    requires PartText(a) + r == PartText(b) + r'
    ensures a == b && r == r'
  {
    hide Component, EntityIdKey, NamespaceTag, KindTag, IdTag;
    var ia, ib := Component(EntityIdKey(a.id)) + (":" + r), Component(EntityIdKey(b.id)) + (":" + r');
    assert PartText(a) + r == KindTag() + (Component(a.kind) + (IdTag() + ia));
    assert PartText(b) + r' == KindTag() + (Component(b.kind) + (IdTag() + ib));
    hide PartText;
    SamePrefix(KindTag(), Component(a.kind) + (IdTag() + ia), Component(b.kind) + (IdTag() + ib));
    ComponentsDiffer(a.kind, IdTag() + ia, b.kind, IdTag() + ib);
    SamePrefix(IdTag(), ia, ib);
    ComponentsDiffer(EntityIdKey(a.id), ":" + r, EntityIdKey(b.id), ":" + r');
    SamePrefix(":", r, r');
    EntityIdKeyIsInjective(a.id, b.id);
  }

  lemma PartTextStarts(part: Part)
    ensures PartText(part) != [] && PartText(part)[0] == 'k'
  {
  }

  lemma {:induction false} PathIsReadBack(a: seq<Part>, b: seq<Part>)
    requires PathText(a) == PathText(b)
    ensures a == b
  {
    hide PartText;
    if a != [] { PathTextFront(a); PartTextStarts(a[0]); }
    if b != [] { PathTextFront(b); PartTextStarts(b[0]); }
    if a != [] && b != [] {
      PartIsReadBack(a[0], PathText(a[1..]), b[0], PathText(b[1..]));
      PathIsReadBack(a[1..], b[1..]);
      assert a == [a[0]] + a[1..] && b == [b[0]] + b[1..];
    }
  }

  /** A path starts with a letter, a namespace with the digits of its length. */
  lemma NamespaceIsTold(a: DatastoreKey, b: DatastoreKey)
    requires Normalized(a) && a.namespace.None? && b.namespace.Some?
    ensures Identity(a) != Identity(b)
  {
    hide PartText, NamespaceTag;
    var n := |b.namespace.value|;
    PathTextFront(a.path);
    PartTextStarts(a.path[0]);
    DecimalRoundTrip(n);
    var rest := ":" + b.namespace.value + ":" + PathText(b.path);
    assert Identity(b) == NamespaceTag() + (Decimal(n) + rest);
    assert (Decimal(n) + rest)[0] == Decimal(n)[0] && IsDigit(Decimal(n)[0]);
    assert PathText(a.path) != Decimal(n) + rest;
    if Identity(a) == Identity(b) { SamePrefix(NamespaceTag(), PathText(a.path), Decimal(n) + rest); }
  }

  /** Equal identities belong to equal keys. */
  lemma IdentityIsInjective(a: DatastoreKey, b: DatastoreKey)
    requires Normalized(a) && Normalized(b)
    ensures Identity(a) == Identity(b) <==> a == b
  {
    hide Component, NamespaceTag, PathText;
    if Identity(a) == Identity(b) {
      if a.namespace.None? && b.namespace.Some? { NamespaceIsTold(a, b); }
      if b.namespace.None? && a.namespace.Some? { NamespaceIsTold(b, a); }
      if a.namespace.Some? {
        var ra, rb := ":" + PathText(a.path), ":" + PathText(b.path);
        assert Identity(a) == NamespaceTag() + (Component(a.namespace.value) + ra);
        assert Identity(b) == NamespaceTag() + (Component(b.namespace.value) + rb);
        SamePrefix(NamespaceTag(), Component(a.namespace.value) + ra, Component(b.namespace.value) + rb);
        ComponentsDiffer(a.namespace.value, ra, b.namespace.value, rb);
        SamePrefix(":", PathText(a.path), PathText(b.path));
      } else {
        SamePrefix(NamespaceTag(), PathText(a.path), PathText(b.path));
      }
      PathIsReadBack(a.path, b.path);
    }
  }

  // ---------------------------------------------------------------- scoped ancestors

  /** The same identity, or the same once the actual key is given the expected namespace. */
  predicate IdentitiesMatch(a: DatastoreKey, b: DatastoreKey) {
    || Identity(a) == Identity(b)
    || (a.namespace.None? && Identity(a.(namespace := b.namespace)) == Identity(b))
  }

  /** So keys match exactly when they have the same path, and the same namespace unless the actual key names none. */
  lemma MatchesByPathAndNamespace(a: DatastoreKey, b: DatastoreKey)
    requires Normalized(a) && Normalized(b)
    ensures IdentitiesMatch(a, b) <==> a.path == b.path && (a.namespace == b.namespace || a.namespace.None?)
  {
    IdentityIsInjective(a, b);
    IdentityIsInjective(a.(namespace := b.namespace), b);
    hide Identity;
  }

  /** datastoreScopedAncestorMatches: a missing namespace of the actual key matches any. */
  method ScopedAncestorMatches(actual: Option<DatastoreKey>, expected: Option<DatastoreKey>) returns (matches: bool)
    requires (actual.Some? ==> Normalized(actual.value)) && (expected.Some? ==> Normalized(expected.value))
    ensures actual.None? || expected.None? ==> matches == (actual == expected)
    ensures actual.Some? && expected.Some? ==> matches == IdentitiesMatch(actual.value, expected.value)
  {
    if actual.None? || expected.None? { return actual == expected; }
    var a, b := actual.value, expected.value;
    IdentityIsInjective(a, b);
    IdentityIsInjective(a.(namespace := b.namespace), b);
    hide Identity;
    var samePath := PathsMatch(a.path, b.path);
    if !samePath { return false; }
    if a.namespace.Some? && b.namespace.None? { return false; }
    if a.namespace.None? || b.namespace.None? { return true; }
    return a.namespace.value == b.namespace.value;
  }

  method PathsMatch(a: seq<Part>, b: seq<Part>) returns (same: bool)
    ensures same == (a == b)
  {
    hide EntityIdKey;
    if |a| != |b| { return false; }
    for index := 0 to |a|
      invariant forall i :: 0 <= i < index ==> a[i] == b[i]
    {
      if a[index].kind != b[index].kind { return false; }
      if EntityIdKey(a[index].id) != EntityIdKey(b[index].id) { return false; }
      EntityIdKeyIsInjective(a[index].id, b[index].id);
    }
    return true;
  }
}
