/** stableStringify: the text of a JSON-like input that serves as its cache key. Properties are
    printed in the order of their names, strings with their length, so equal texts mean equal inputs. */
module StableKeys {
  import opened Options
  import opened Texts

  /** Numbers, big integers and dates are known by the text JavaScript gives them; no two numbers
      share one, except 0 and -0, which the printer tells apart. An object's fields are in insertion
      order. Unsupported stands for undefined, symbols, functions, non-finite numbers and the like. */
  datatype Value =
    | Null
    | Text(s: string)
    | Number(text: string)
    | Boolean(b: bool)
    | BigInt(text: string)
    | Date(text: string)
    | Array(items: seq<Value>)
    | Object(fields: seq<Field>)
    | Unsupported

  datatype Field = Field(name: string, value: Value)

  const LEAF_STOPS: set<char> := {',', ']', '}'}
  const TAG_STOPS: set<char> := {',', ']', '}', ':'}

  /** Digits, signs and punctuation of numbers and ISO dates; never a character that ends a value. */
  predicate LeafText(s: string) { forall i :: 0 <= i < |s| ==> s[i] !in LEAF_STOPS }

  /** A JavaScript value that is supported throughout: property names of one object are distinct. */
  predicate Supported(v: Value) {
    match v
    case Null => true
    case Text(_) => true
    case Boolean(_) => true
    case Number(t) => LeafText(t)
    case BigInt(t) => LeafText(t)
    case Date(t) => LeafText(t)
    case Array(items) => forall i :: 0 <= i < |items| ==> Supported(items[i])
    case Object(fields) =>
      && DistinctNames(fields)
      && forall i :: 0 <= i < |fields| ==> Supported(fields[i].value)
    case Unsupported => false
  }

  predicate DistinctNames(fields: seq<Field>) {
    forall i, j :: 0 <= i < j < |fields| ==> fields[i].name != fields[j].name
  }

  // ---------------------------------------------------------------- sorting property names

  /** insertSortedString on values: before the first one that is not less. */
  function InsertName(sorted: seq<string>, name: string): seq<string> {
    if sorted != [] && Less(sorted[0], name) then [sorted[0]] + InsertName(sorted[1..], name) else [name] + sorted
  }

  function InsertField(sorted: seq<Field>, f: Field): seq<Field> {
    if sorted != [] && Less(sorted[0].name, f.name) then [sorted[0]] + InsertField(sorted[1..], f) else [f] + sorted
  }

  function SortFields(fields: seq<Field>): seq<Field> {
    if fields == [] then [] else InsertField(SortFields(fields[..|fields| - 1]), fields[|fields| - 1])
  }

  function SortNames(names: seq<string>): seq<string> {
    if names == [] then [] else InsertName(SortNames(names[..|names| - 1]), names[|names| - 1])
  }

  /** Shifts the values from the insertion point on by one, in place. */
  method InsertSortedString(values: array<string>, len: nat, value: string)
    requires len < values.Length
    modifies values
    ensures values[..len + 1] == InsertName(old(values[..len]), value)
    ensures forall i :: len < i < values.Length ==> values[i] == old(values[i])
  {
    var index := InsertionPoint(values, len, value);
    ghost var was := values[..];
    var move := len;
    while move > index
      invariant index <= move <= len
      invariant forall i :: 0 <= i < values.Length && (i < move || i > len) ==> values[i] == was[i]
      invariant forall i :: move < i <= len ==> values[i] == was[i - 1]
    {
      values[move] := values[move - 1];
      move := move - 1;
    }
    values[index] := value;
    assert values[..len + 1] == was[..index] + [value] + was[index..len];
  }

  method InsertionPoint(values: array<string>, len: nat, value: string) returns (index: nat)
    requires len <= values.Length
    ensures index <= len
    ensures InsertName(values[..len], value) == values[..index] + [value] + values[index..len]
  {
    index := 0;
    ghost var all := values[..len];
    while index < len && Less(values[index], value)
      invariant index <= len
      invariant InsertName(all, value) == all[..index] + InsertName(all[index..], value)
    {
      assert all[index..][1..] == all[index + 1..];
      assert all[..index + 1] == all[..index] + [all[index]];
      index := index + 1;
    }
    assert all[..index] == values[..index] && all[index..] == values[index..len];
  }

  /** sortedStableInputPropertyNames */
  method SortedPropertyNames(names: seq<string>) returns (sorted: seq<string>)
    ensures sorted == SortNames(names)
  {
    var values := new string[|names|](_ => "");
    for i := 0 to |names|
      invariant values[..i] == SortNames(names[..i])
    {
      assert names[..i + 1][..i] == names[..i];
      InsertSortedString(values, i, names[i]);
    }
    assert names[..|names|] == names;
    sorted := values[..];
  }

  ghost predicate Sorted(fields: seq<Field>) {
    forall i, j :: 0 <= i < j < |fields| ==> Less(fields[i].name, fields[j].name)
  }

  lemma {:induction false} InsertKeepsSorted(sorted: seq<Field>, f: Field)
    requires Sorted(sorted) && forall i :: 0 <= i < |sorted| ==> sorted[i].name != f.name
    ensures Sorted(InsertField(sorted, f))
    ensures forall g :: g in InsertField(sorted, f) <==> g == f || g in sorted
    ensures |InsertField(sorted, f)| == |sorted| + 1
  {
    if sorted != [] {
      LessTotal(sorted[0].name, f.name);
      if Less(sorted[0].name, f.name) {
        InsertKeepsSorted(sorted[1..], f);
        var rest := InsertField(sorted[1..], f);
        forall j | 0 <= j < |rest| ensures Less(sorted[0].name, rest[j].name) {
          assert rest[j] == f || rest[j] in sorted[1..];
        }
      } else {
        forall j | 0 <= j < |sorted| ensures Less(f.name, sorted[j].name) {
          if j > 0 { LessTransitive(f.name, sorted[0].name, sorted[j].name); }
        }
      }
    }
  }

  lemma {:induction false} SortSorts(fields: seq<Field>)
    requires DistinctNames(fields)
    ensures Sorted(SortFields(fields)) && |SortFields(fields)| == |fields|
    ensures forall g :: g in SortFields(fields) <==> g in fields
  {
    if fields != [] {
      var last := |fields| - 1;
      SortSorts(fields[..last]);
      var sorted := SortFields(fields[..last]);
      forall i | 0 <= i < |sorted| ensures sorted[i].name != fields[last].name {
        assert sorted[i] in fields[..last];
      }
      InsertKeepsSorted(sorted, fields[last]);
      assert fields == fields[..last] + [fields[last]];
    }
  }

  /** Two sorted field lists with the same fields are the same list. */
  lemma {:induction false} SortedIsUnique(a: seq<Field>, b: seq<Field>)
    requires Sorted(a) && Sorted(b) && forall g :: g in a <==> g in b
    ensures a == b
  {
    assert a != [] ==> a[0] in a && a[0] in b;
    assert b != [] ==> b[0] in b && b[0] in a;
    if a != [] {
      var i :| 0 <= i < |b| && b[i] == a[0];
      var j :| 0 <= j < |a| && a[j] == b[0];
      LessTotal(a[0].name, b[0].name);
      assert a[0] == b[0];
      forall g ensures g in a[1..] <==> g in b[1..] {
        LessTotal(a[0].name, a[0].name);
        assert g in a[1..] ==> g in a && g != a[0];
        assert g in b[1..] ==> g in b && g != b[0];
        assert g in a && g != a[0] ==> g in a[1..];
        assert g in b && g != b[0] ==> g in b[1..];
      }
      SortedIsUnique(a[1..], b[1..]);
    }
  }

  lemma {:induction false} SortNamesIsSort(fields: seq<Field>)
    ensures SortNames(Names(fields)) == Names(SortFields(fields))
  {
    if fields != [] {
      var last := |fields| - 1;
      assert Names(fields)[..last] == Names(fields[..last]);
      SortNamesIsSort(fields[..last]);
      InsertNameIsInsert(SortFields(fields[..last]), fields[last]);
    }
  }

  function Names(fields: seq<Field>): seq<string> { seq(|fields|, i requires 0 <= i < |fields| => fields[i].name) }

  lemma {:induction false} InsertNameIsInsert(sorted: seq<Field>, f: Field)
    ensures Names(InsertField(sorted, f)) == InsertName(Names(sorted), f.name)
  {
    if sorted != [] {
      assert Names(sorted)[1..] == Names(sorted[1..]);
      InsertNameIsInsert(sorted[1..], f);
    }
  }

  // ---------------------------------------------------------------- the printer

  /** The value with the fields of every object in the order of their names. */
  function Canon(v: Value): Value {
    match v
    case Array(items) => Array(seq(|items|, i requires 0 <= i < |items| => Canon(items[i])))
    case Object(fields) => Object(SortFields(CanonFields(fields)))
    case _ => v
  }

  function CanonFields(fields: seq<Field>): (c: seq<Field>)
    ensures |c| == |fields|
    ensures forall i :: 0 <= i < |c| ==> c[i] == Field(fields[i].name, Canon(fields[i].value))
  {
    seq(|fields|, i requires 0 <= i < |fields| => Field(fields[i].name, Canon(fields[i].value)))
  }

  datatype Tag = NullTag | StringTag | NumberTag | BooleanTag | BigIntTag | DateTag | ArrayTag | ObjectTag | NoTag

  function TagText(tag: Tag): string {
    match tag
    case NullTag => "null"
    case StringTag => "string"
    case NumberTag => "number"
    case BooleanTag => "boolean"
    case BigIntTag => "bigint"
    case DateTag => "date"
    case ArrayTag => "array"
    case ObjectTag => "object"
    case NoTag => ""
  }

  function BooleanText(b: bool): string { if b then "true" else "false" }

  function Print(v: Value): string
    requires Supported(v)
  {
    match v
    case Null => TagText(NullTag)
    case Text(s) => TagText(StringTag) + ":" + Component(s)
    case Number(t) => TagText(NumberTag) + ":" + t
    case Boolean(b) => TagText(BooleanTag) + ":" + BooleanText(b)
    case BigInt(t) => TagText(BigIntTag) + ":" + t
    case Date(t) => TagText(DateTag) + ":" + t
    case Array(items) => TagText(ArrayTag) + ":" + ("[" + PrintItems(items) + "]")
    case Object(fields) => TagText(ObjectTag) + ":" + ("{" + PrintFields(fields) + "}")
  }

  function PrintItems(items: seq<Value>): string
    requires forall i :: 0 <= i < |items| ==> Supported(items[i])
  {
    if items == [] then ""
    else if |items| == 1 then Print(items[0])
    else Print(items[0]) + "," + PrintItems(items[1..])
  }

  function PrintFields(fields: seq<Field>): string
    requires forall i :: 0 <= i < |fields| ==> Supported(fields[i].value)
  {
    if fields == [] then ""
    else if |fields| == 1 then PrintField(fields[0])
    else PrintField(fields[0]) + "," + PrintFields(fields[1..])
  }

  function PrintField(f: Field): string
    requires Supported(f.value)
  {
    Component(f.name) + ":" + Print(f.value)
  }

  /** None is the validation error for an input that is not JSON-like. */
  function StableStringify(v: Value): Option<string> {
    if !Supported(v) then None
    else
      CanonIsSupported(v);
      Some(Print(Canon(v)))
  }

  lemma {:induction false} CanonIsSupported(v: Value)
    requires Supported(v)
    ensures Supported(Canon(v))
    decreases v
  {
    match v
    case Array(items) => forall i | 0 <= i < |items| { CanonIsSupported(items[i]); }
    case Object(fields) =>
      forall i | 0 <= i < |fields| { CanonIsSupported(fields[i].value); }
      var c := CanonFields(fields);
      SortSorts(c);
      var sorted := SortFields(c);
      forall i | 0 <= i < |sorted| ensures Supported(sorted[i].value) { assert sorted[i] in c; }
      forall i, j | 0 <= i < j < |sorted| ensures sorted[i].name != sorted[j].name { LessTotal(sorted[i].name, sorted[j].name); }
    case _ =>
  }

  // ---------------------------------------------------------------- a parser that undoes it

  function TagOf(s: string): Tag {
    if s == "null" then NullTag
    else if s == "string" then StringTag
    else if s == "number" then NumberTag
    else if s == "boolean" then BooleanTag
    else if s == "bigint" then BigIntTag
    else if s == "date" then DateTag
    else if s == "array" then ArrayTag
    else if s == "object" then ObjectTag
    else NoTag
  }

  lemma TagsAreDistinct(tag: Tag)
    ensures TagOf(TagText(tag)) == tag
    ensures forall i :: 0 <= i < |TagText(tag)| ==> TagText(tag)[i] !in TAG_STOPS
  {
    assert "null"[0] == 'n' && "date"[0] == 'd' && "string"[0] == 's' && "number"[0] == 'n' && "bigint"[0] == 'b' && "object"[0] == 'o';
    assert |"null"| == 4 && |"date"| == 4 && |"string"| == 6 && |"number"| == 6 && |"bigint"| == 6 && |"object"| == 6 && |"boolean"| == 7 && |"array"| == 5;
  }

  /** Reads one value; what follows it is left over. */
  function ParseValue(t: string): (r: Parsed<Value>)
    ensures r.Parsed? ==> |r.rest| < |t|
    decreases |t|, 0
  {
    var n := Until(t, TAG_STOPS);
    var tag := TagOf(t[..n]);
    if tag.NullTag? then (if n == 0 then Failed else Parsed(Null, t[n..]))
    else if n == |t| || t[n] != ':' then Failed
    else ParseBody(tag, t[n + 1..])
  }

  function ParseBody(tag: Tag, body: string): (r: Parsed<Value>)
    ensures r.Parsed? ==> |r.rest| <= |body|
    decreases |body|, 4
  {
    match tag
    case StringTag =>
      (match ParseComponent(body)
       case Failed => Failed
       case Parsed(s, rest) => Parsed(Text(s), rest))
    case ArrayTag => ParseArray(body)
    case ObjectTag => ParseObject(body)
    case _ =>
      var m := Until(body, LEAF_STOPS);
      ParseLeaf(tag, body[..m], body[m..])
  }

  function ParseLeaf(tag: Tag, text: string, rest: string): (r: Parsed<Value>)
    ensures r.Parsed? ==> r.rest == rest
  {
    match tag
    case NumberTag => Parsed(Number(text), rest)
    case BooleanTag => Parsed(Boolean(text == "true"), rest)
    case BigIntTag => Parsed(BigInt(text), rest)
    case DateTag => Parsed(Date(text), rest)
    case _ => Failed
  }

  function ParseArray(t: string): (r: Parsed<Value>)
    ensures r.Parsed? ==> |r.rest| < |t|
    decreases |t|, 2
  {
    if t == [] || t[0] != '[' then Failed
    else if |t| > 1 && t[1] == ']' then Parsed(Array([]), t[2..])
    else
      match ParseItems(t[1..])
      case Failed => Failed
      case Parsed(items, rest) => Parsed(Array(items), rest)
  }

  /** One or more items and the closing bracket. */
  function ParseItems(t: string): (r: Parsed<seq<Value>>)
    ensures r.Parsed? ==> |r.rest| < |t|
    decreases |t|, 1
  {
    match ParseValue(t)
    case Failed => Failed
    case Parsed(v, rest) =>
      if rest != [] && rest[0] == ']' then Parsed([v], rest[1..])
      else if rest != [] && rest[0] == ',' then
        match ParseItems(rest[1..])
        case Failed => Failed
        case Parsed(items, rest') => Parsed([v] + items, rest')
      else Failed
  }

  function ParseObject(t: string): (r: Parsed<Value>)
    ensures r.Parsed? ==> |r.rest| < |t|
    decreases |t|, 2
  {
    if t == [] || t[0] != '{' then Failed
    else if |t| > 1 && t[1] == '}' then Parsed(Object([]), t[2..])
    else
      match ParseFields(t[1..])
      case Failed => Failed
      case Parsed(fields, rest) => Parsed(Object(fields), rest)
  }

  function ParseField(t: string): (r: Parsed<Field>)
    ensures r.Parsed? ==> |r.rest| < |t|
    decreases |t|, 0
  {
    match ParseComponent(t)
    case Failed => Failed
    case Parsed(name, rest) =>
      if rest == [] || rest[0] != ':' then Failed
      else
        match ParseValue(rest[1..])
        case Failed => Failed
        case Parsed(v, rest') => Parsed(Field(name, v), rest')
  }

  function ParseFields(t: string): (r: Parsed<seq<Field>>)
    ensures r.Parsed? ==> |r.rest| < |t|
    decreases |t|, 1
  {
    match ParseField(t)
    case Failed => Failed
    case Parsed(f, rest) =>
      if rest != [] && rest[0] == '}' then Parsed([f], rest[1..])
      else if rest != [] && rest[0] == ',' then
        match ParseFields(rest[1..])
        case Failed => Failed
        case Parsed(fields, rest') => Parsed([f] + fields, rest')
      else Failed
  }

  // ---------------------------------------------------------------- the round trip

  predicate Terminated(rest: string) { rest == [] || rest[0] in LEAF_STOPS }

  /** The tag and the body after its colon are found again. */
  lemma ReadTag(tag: Tag, body: string)
    requires !tag.NullTag? && !tag.NoTag?
    ensures ParseValue(TagText(tag) + ":" + body) == ParseBody(tag, body)
  {
    var name := TagText(tag);
    TagsAreDistinct(tag);
    hide TagOf, TagText;
    var t := name + ":" + body;
    assert t == name + (":" + body);
    UntilFindsEnd(name, ":" + body, TAG_STOPS);
    assert t[|name| + 1..] == body;
  }

  lemma ReadNull(rest: string)
    requires Terminated(rest)
    ensures ParseValue(TagText(NullTag) + rest) == Parsed(Null, rest)
  {
    TagsAreDistinct(NullTag);
    UntilFindsEnd(TagText(NullTag), rest, TAG_STOPS);
  }

  lemma ReadLeaf(tag: Tag, text: string, rest: string)
    requires tag.NumberTag? || tag.BooleanTag? || tag.BigIntTag? || tag.DateTag?
    requires LeafText(text) && Terminated(rest)
    ensures ParseValue(TagText(tag) + ":" + text + rest) == ParseLeaf(tag, text, rest)
  {
    assert TagText(tag) + ":" + text + rest == TagText(tag) + ":" + (text + rest);
    ReadTag(tag, text + rest);
    UntilFindsEnd(text, rest, LEAF_STOPS);
  }

  lemma ReadText(s: string, rest: string)
    ensures ParseValue(TagText(StringTag) + ":" + Component(s) + rest) == Parsed(Text(s), rest)
  {
    assert TagText(StringTag) + ":" + Component(s) + rest == TagText(StringTag) + ":" + (Component(s) + rest);
    ReadTag(StringTag, Component(s) + rest);
    ComponentRoundTrip(s, rest);
  }

  lemma ReadList(tag: Tag, open: string, text: string, close: string, rest: string)
    requires !tag.NullTag? && !tag.NoTag?
    ensures ParseValue(TagText(tag) + ":" + (open + text + close) + rest) == ParseBody(tag, open + text + close + rest)
  {
    hide TagText, ParseValue;
    var body := open + text + close + rest;
    assert TagText(tag) + ":" + (open + text + close) + rest == TagText(tag) + ":" + body;
    ReadTag(tag, body);
  }

  /** Parsing what was printed gives back the value and whatever followed it. */
  lemma {:induction false} PrintRoundTrip(v: Value, rest: string)
    requires Supported(v) && Terminated(rest)
    ensures ParseValue(Print(v) + rest) == Parsed(v, rest)
    decreases v, 0
  {
    hide ParseValue, TagText, PrintItems, PrintFields, ParseArray, ParseObject;
    match v
    case Null => ReadNull(rest);
    case Text(s) => ReadText(s, rest);
    case Number(t) => ReadLeaf(NumberTag, t, rest);
    case BigInt(t) => ReadLeaf(BigIntTag, t, rest);
    case Date(t) => ReadLeaf(DateTag, t, rest);
    case Boolean(b) =>
      ReadLeaf(BooleanTag, BooleanText(b), rest);
      assert |"true"| == 4 && |"false"| == 5;
    case Array(items) =>
      ReadList(ArrayTag, "[", PrintItems(items), "]", rest);
      ArrayRoundTrip(items, rest);
    case Object(fields) =>
      ReadList(ObjectTag, "{", PrintFields(fields), "}", rest);
      ObjectRoundTrip(fields, rest);
  }

  lemma {:induction false} ArrayRoundTrip(items: seq<Value>, rest: string)
    requires forall i :: 0 <= i < |items| ==> Supported(items[i])
    ensures ParseArray("[" + PrintItems(items) + "]" + rest) == Parsed(Array(items), rest)
    decreases items, 2
  {
    var t := "[" + PrintItems(items) + "]" + rest;
    if items == [] {
      assert t == "[]" + rest;
      assert t[2..] == rest;
    } else {
      assert t[1..] == PrintItems(items) + "]" + rest;
      ItemsRoundTrip(items, rest);
      assert t[1] == Print(items[0])[0];
    }
  }

  lemma LastItem(t: string, v: Value, rest: string)
    requires ParseValue(t) == Parsed(v, "]" + rest)
    ensures ParseItems(t) == Parsed([v], rest)
  {
    hide ParseValue;
    assert ("]" + rest)[1..] == rest;
  }

  lemma NextItem(t: string, v: Value, more: string, items: seq<Value>, rest: string)
    requires ParseValue(t) == Parsed(v, "," + more) && ParseItems(more) == Parsed(items, rest)
    ensures ParseItems(t) == Parsed([v] + items, rest)
  {
    hide ParseValue;
    assert ("," + more)[1..] == more;
  }

  lemma {:induction false} ItemsRoundTrip(items: seq<Value>, rest: string)
    requires items != [] && forall i :: 0 <= i < |items| ==> Supported(items[i])
    ensures ParseItems(PrintItems(items) + "]" + rest) == Parsed(items, rest)
    decreases items, 1
  {
    hide Print, ParseValue, ParseItems, Supported;
    var t := PrintItems(items) + "]" + rest;
    if |items| == 1 {
      PrintRoundTrip(items[0], "]" + rest);
      assert t == Print(items[0]) + ("]" + rest);
      LastItem(t, items[0], rest);
      assert items == [items[0]];
    } else {
      var more := PrintItems(items[1..]) + "]" + rest;
      PrintRoundTrip(items[0], "," + more);
      assert t == Print(items[0]) + ("," + more);
      ItemsRoundTrip(items[1..], rest);
      NextItem(t, items[0], more, items[1..], rest);
      assert [items[0]] + items[1..] == items;
    }
  }

  lemma {:induction false} ObjectRoundTrip(fields: seq<Field>, rest: string)
    requires forall i :: 0 <= i < |fields| ==> Supported(fields[i].value)
    ensures ParseObject("{" + PrintFields(fields) + "}" + rest) == Parsed(Object(fields), rest)
    decreases fields, 2
  {
    hide Supported, ParseFields;
    var body := PrintFields(fields) + "}" + rest;
    var t := "{" + PrintFields(fields) + "}" + rest;
    assert t[1..] == body;
    if fields == [] {
      assert t[1] == '}' && t[2..] == rest;
    } else {
      FieldsRoundTrip(fields, rest);
      FieldsStart(fields);
      assert t[1] == PrintFields(fields)[0];
    }
  }

  lemma FieldsStart(fields: seq<Field>)
    requires fields != [] && forall i :: 0 <= i < |fields| ==> Supported(fields[i].value)
    ensures PrintFields(fields) != [] && PrintFields(fields)[0] != '}'
  {
    hide Print, Supported;
    DecimalRoundTrip(|fields[0].name|);
    hide Decimal;
    assert PrintField(fields[0])[0] == Decimal(|fields[0].name|)[0];
  }

  lemma NameThenValue(name: string, v: Value, text: string, rest: string)
    requires ParseValue(text + rest) == Parsed(v, rest)
    ensures ParseField(Component(name) + ":" + text + rest) == Parsed(Field(name, v), rest)
  {
    hide ParseValue, Component, ParseComponent;
    var tail := ":" + (text + rest);
    assert Component(name) + ":" + text + rest == Component(name) + tail;
    ComponentRoundTrip(name, tail);
    assert tail[1..] == text + rest;
  }

  lemma {:induction false} FieldRoundTrip(f: Field, rest: string)
    requires Supported(f.value) && Terminated(rest)
    ensures ParseField(PrintField(f) + rest) == Parsed(f, rest)
    decreases f, 1
  {
    hide Print, ParseValue, ParseField, Component;
    PrintRoundTrip(f.value, rest);
    NameThenValue(f.name, f.value, Print(f.value), rest);
  }

  lemma LastField(t: string, f: Field, rest: string)
    requires ParseField(t) == Parsed(f, "}" + rest)
    ensures ParseFields(t) == Parsed([f], rest)
  {
    hide ParseField;
    assert ("}" + rest)[1..] == rest;
  }

  lemma NextField(t: string, f: Field, more: string, fields: seq<Field>, rest: string)
    requires ParseField(t) == Parsed(f, "," + more) && ParseFields(more) == Parsed(fields, rest)
    ensures ParseFields(t) == Parsed([f] + fields, rest)
  {
    hide ParseField;
    assert ("," + more)[1..] == more;
  }

  lemma {:induction false} FieldsRoundTrip(fields: seq<Field>, rest: string)
    requires fields != [] && forall i :: 0 <= i < |fields| ==> Supported(fields[i].value)
    ensures ParseFields(PrintFields(fields) + "}" + rest) == Parsed(fields, rest)
    decreases fields, 1
  {
    hide PrintField, ParseField, ParseFields, Supported;
    var t := PrintFields(fields) + "}" + rest;
    if |fields| == 1 {
      FieldRoundTrip(fields[0], "}" + rest);
      assert t == PrintField(fields[0]) + ("}" + rest);
      LastField(t, fields[0], rest);
      assert fields == [fields[0]];
    } else {
      var more := PrintFields(fields[1..]) + "}" + rest;
      FieldRoundTrip(fields[0], "," + more);
      assert t == PrintField(fields[0]) + ("," + more);
      FieldsRoundTrip(fields[1..], rest);
      NextField(t, fields[0], more, fields[1..], rest);
      assert [fields[0]] + fields[1..] == fields;
    }
  }

  /** Equal texts come from equal values. */
  lemma PrintIsInjective(v: Value, w: Value)
    requires Supported(v) && Supported(w) && Print(v) == Print(w)
    ensures v == w
  {
    assert Print(v) + "" == Print(v) && Print(w) + "" == Print(w);
    PrintRoundTrip(v, "");
    PrintRoundTrip(w, "");
  }

  // ---------------------------------------------------------------- equal up to property order

  /** The same value, when the order of properties is ignored at every level. */
  ghost predicate Same(v: Value, w: Value) {
    match v
    case Array(items) =>
      w.Array? && |w.items| == |items| && forall i :: 0 <= i < |items| ==> Same(items[i], w.items[i])
    case Object(fields) => w.Object? && SameFields(fields, w.fields)
    case _ => v == w
  }

  /** The same property names, each with the same value. */
  ghost predicate SameFields(f: seq<Field>, g: seq<Field>) {
    && (forall i :: 0 <= i < |f| ==> IndexOf(g, f[i].name) < |g| && Same(f[i].value, g[IndexOf(g, f[i].name)].value))
    && (forall j :: 0 <= j < |g| ==> IndexOf(f, g[j].name) < |f|)
  }

  function IndexOf(fields: seq<Field>, name: string): (j: nat)
    ensures j <= |fields|
    ensures j < |fields| ==> fields[j].name == name
    ensures j == |fields| ==> forall k :: 0 <= k < |fields| ==> fields[k].name != name
  {
    if fields == [] || fields[0].name == name then 0 else 1 + IndexOf(fields[1..], name)
  }

  lemma {:induction false} SameMeansEqualCanon(v: Value, w: Value)
    requires Supported(v) && Supported(w)
    ensures Same(v, w) <==> Canon(v) == Canon(w)
    decreases v
  {
    match v
    case Array(items) =>
      if w.Array? && |w.items| == |items| {
        forall i | 0 <= i < |items| { SameMeansEqualCanon(items[i], w.items[i]); }
        if Canon(v) == Canon(w) {
          forall i | 0 <= i < |items| ensures Same(items[i], w.items[i]) {
            assert Canon(v).items[i] == Canon(w).items[i];
          }
        }
      } else if w.Array? {
        assert |Canon(v).items| != |Canon(w).items|;
      }
    case Object(fields) =>
      if w.Object? {
        forall i, j | 0 <= i < |fields| && 0 <= j < |w.fields|
          ensures Same(fields[i].value, w.fields[j].value) <==> Canon(fields[i].value) == Canon(w.fields[j].value)
        {
          SameMeansEqualCanon(fields[i].value, w.fields[j].value);
        }
        SameFieldsIffSorted(v, w);
      }
    case _ =>
  }

  lemma SameFieldsIffSorted(v: Value, w: Value)
    requires v.Object? && w.Object? && Supported(v) && Supported(w) && FieldsCompare(v.fields, w.fields)
    ensures Same(v, w) <==> Canon(v) == Canon(w)
  {
    var a, b := CanonFields(v.fields), CanonFields(w.fields);
    if SameFields(v.fields, w.fields) {
      FieldsToSets(v.fields, w.fields);
      SetsToSorted(a, b);
    } else if SortFields(a) == SortFields(b) {
      SortedToSets(a, b);
      SetsToFields(v.fields, w.fields);
    }
  }

  /** The fields compare as their canonical forms do. */
  ghost predicate FieldsCompare(f: seq<Field>, g: seq<Field>) {
    forall i, j :: 0 <= i < |f| && 0 <= j < |g| ==> (Same(f[i].value, g[j].value) <==> Canon(f[i].value) == Canon(g[j].value))
  }

  ghost predicate SameSets(a: seq<Field>, b: seq<Field>) {
    forall x :: x in a <==> x in b
  }

  lemma SetsToFields(f: seq<Field>, g: seq<Field>)
    requires FieldsCompare(f, g) && SameSets(CanonFields(f), CanonFields(g)) && DistinctNames(g)
    ensures SameFields(f, g)
  {
    hide Canon, IndexOf;
    var a, b := CanonFields(f), CanonFields(g);
    forall i | 0 <= i < |f| ensures IndexOf(g, f[i].name) < |g| && Same(f[i].value, g[IndexOf(g, f[i].name)].value) {
      assert a[i] in a && a[i] in b;
      var j :| 0 <= j < |b| && b[j] == a[i];
      assert g[j].name == f[i].name;
    }
    forall j | 0 <= j < |g| ensures IndexOf(f, g[j].name) < |f| {
      assert b[j] in b && b[j] in a;
      var i :| 0 <= i < |a| && a[i] == b[j];
      assert f[i].name == g[j].name;
    }
  }

  lemma FieldsToSets(f: seq<Field>, g: seq<Field>)
    requires FieldsCompare(f, g) && SameFields(f, g) && DistinctNames(g)
    ensures SameSets(CanonFields(f), CanonFields(g))
  {
    hide Canon, IndexOf;
    var a, b := CanonFields(f), CanonFields(g);
    forall x | x in b ensures x in a {
      var j :| 0 <= j < |b| && b[j] == x;
      var i := IndexOf(f, g[j].name);
      assert IndexOf(g, f[i].name) == j;
      assert a[i] == x;
    }
  }

  lemma SetsToSorted(a: seq<Field>, b: seq<Field>)
    requires SameSets(a, b) && DistinctNames(a) && DistinctNames(b)
    ensures SortFields(a) == SortFields(b)
  {
    SortSorts(a);
    SortSorts(b);
    SortedIsUnique(SortFields(a), SortFields(b));
  }

  lemma SortedToSets(a: seq<Field>, b: seq<Field>)
    requires SortFields(a) == SortFields(b) && DistinctNames(a) && DistinctNames(b)
    ensures SameSets(a, b)
  {
    SortSorts(a);
    SortSorts(b);
  }

  /** The cache-key text of two inputs is equal exactly when the inputs are equal up to the order of
      their properties; anything else has no key. */
  lemma StableKeysAreInjective(v: Value, w: Value)
    requires StableStringify(v).Some? && StableStringify(w).Some?
    ensures StableStringify(v) == StableStringify(w) <==> Same(v, w)
  {
    CanonIsSupported(v);
    CanonIsSupported(w);
    SameMeansEqualCanon(v, w);
    if Print(Canon(v)) == Print(Canon(w)) { PrintIsInjective(Canon(v), Canon(w)); }
  }

  /** Parsing the text gives the input back, up to property order and with nothing left over. */
  lemma StableTextParsesBack(v: Value)
    requires Supported(v)
    ensures var r := ParseValue(StableStringify(v).value); r.Parsed? && r.rest == "" && Supported(r.value) && Same(v, r.value)
  {
    CanonIsSupported(v);
    assert Print(Canon(v)) + "" == Print(Canon(v));
    PrintRoundTrip(Canon(v), "");
    CanonOfCanon(v);
    SameMeansEqualCanon(v, Canon(v));
  }

  lemma {:induction false} CanonOfCanon(v: Value)
    requires Supported(v)
    ensures Supported(Canon(v)) && Canon(Canon(v)) == Canon(v)
    decreases v
  {
    CanonIsSupported(v);
    match v
    case Array(items) =>
      forall i | 0 <= i < |items| { CanonOfCanon(items[i]); }
      assert Canon(Canon(v)).items == Canon(v).items;
    case Object(fields) =>
      forall i | 0 <= i < |fields| { CanonOfCanon(fields[i].value); }
      var a := CanonFields(fields);
      SortSorts(a);
      var sorted := SortFields(a);
      forall i | 0 <= i < |sorted| ensures CanonFields(sorted)[i] == sorted[i] { assert sorted[i] in a; }
      assert CanonFields(sorted) == sorted;
      SortSorts(sorted);
      SortedIsUnique(SortFields(sorted), sorted);
    case _ =>
  }

  // ---------------------------------------------------------------- which inputs have a key

  /** w is v or a part of it. */
  predicate Inside(w: Value, v: Value) {
    || w == v
    || match v
       case Array(items) => exists i :: 0 <= i < |items| && Inside(w, items[i])
       case Object(fields) => exists i :: 0 <= i < |fields| && Inside(w, fields[i].value)
       case _ => false
  }

  /** Nothing is unsupported but Unsupported; texts of leaves and property names are as JavaScript has them. */
  predicate Sound(w: Value) {
    && !w.Unsupported?
    && (w.Number? || w.BigInt? || w.Date? ==> LeafText(w.text))
    && (w.Object? ==> DistinctNames(w.fields))
  }

  /** An input has a key exactly when every part of it is supported. */
  lemma {:induction false} SupportedIffEveryPartIs(v: Value)
    ensures StableStringify(v).Some? <==> forall w :: Inside(w, v) ==> Sound(w)
    decreases v
  {
    assert Inside(v, v);
    match v
    case Array(items) =>
      forall i | 0 <= i < |items| ensures Supported(items[i]) <==> forall w :: Inside(w, items[i]) ==> Sound(w) {
        SupportedIffEveryPartIs(items[i]);
      }
    case Object(fields) =>
      forall i | 0 <= i < |fields| ensures Supported(fields[i].value) <==> forall w :: Inside(w, fields[i].value) ==> Sound(w) {
        SupportedIffEveryPartIs(fields[i].value);
      }
    case _ =>
  }
}
