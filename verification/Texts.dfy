/** Length-prefixed text: a decimal length, a colon, and that many characters. Reading it back needs
    no escaping, whatever the text contains. A character stands for one UTF-16 code unit, so texts
    with surrogates are not covered: Dafny's characters leave them out. */
module Texts {

  datatype Parsed<+T> = Failed | Parsed(value: T, rest: string)

  function Digit(d: nat): char
    requires d < 10
  {
    '0' + d as char
  }

  function Decimal(n: nat): string {
    if n < 10 then [Digit(n)] else Decimal(n / 10) + [Digit(n % 10)]
  }

  predicate IsDigit(c: char) { '0' <= c <= '9' }

  function DecimalValue(s: string): nat
    requires forall i :: 0 <= i < |s| ==> IsDigit(s[i])
  {
    if s == [] then 0
    else
      assert IsDigit(s[|s| - 1]);
      10 * DecimalValue(s[..|s| - 1]) + (s[|s| - 1] as nat - '0' as nat)
  }

  lemma {:induction false} DecimalRoundTrip(n: nat)
    ensures Decimal(n) != []
    ensures forall i :: 0 <= i < |Decimal(n)| ==> IsDigit(Decimal(n)[i])
    ensures DecimalValue(Decimal(n)) == n
  {
    if n >= 10 {
      DecimalRoundTrip(n / 10);
      assert Decimal(n)[..|Decimal(n)| - 1] == Decimal(n / 10);
    } else {
      assert Decimal(n)[..|Decimal(n)| - 1] == [];
    }
  }

  /** Position of the first stop character, or the end. */
  function Until(t: string, stops: set<char>): (n: nat)
    ensures n <= |t|
  {
    if t == [] || t[0] in stops then 0 else 1 + Until(t[1..], stops)
  }

  lemma {:induction false} UntilFindsEnd(p: string, rest: string, stops: set<char>)
    requires forall i :: 0 <= i < |p| ==> p[i] !in stops
    requires rest == [] || rest[0] in stops
    ensures Until(p + rest, stops) == |p|
    ensures (p + rest)[..|p|] == p && (p + rest)[|p|..] == rest
  {
    if p == [] { assert p + rest == rest; }
    else {
      UntilFindsEnd(p[1..], rest, stops);
      assert (p + rest)[1..] == p[1..] + rest;
    }
  }

  function Component(s: string): string { Decimal(|s|) + ":" + s }

  function ParseComponent(t: string): (r: Parsed<string>)
    ensures r.Parsed? ==> |r.rest| < |t|
  {
    var n := Until(t, {':'});
    if n == |t| || !(forall i :: 0 <= i < n ==> IsDigit(t[i])) then Failed
    else
      var len, body := DecimalValue(t[..n]), t[n + 1..];
      if |body| < len then Failed else Parsed(body[..len], body[len..])
  }

  lemma ComponentRoundTrip(s: string, rest: string)
    ensures ParseComponent(Component(s) + rest) == Parsed(s, rest)
  {
    var d := Decimal(|s|);
    DecimalRoundTrip(|s|);
    var t := Component(s) + rest;
    assert t == d + (":" + s + rest);
    UntilFindsEnd(d, ":" + s + rest, {':'});
    assert t[..|d|] == d;
    assert t[|d| + 1..] == s + rest;
    assert (s + rest)[..|s|] == s && (s + rest)[|s|..] == rest;
  }

  // ---------------------------------------------------------------- the order on strings

  /** JavaScript's order on strings: by code units. */
  predicate Less(a: string, b: string) {
    if b == [] then false
    else if a == [] then true
    else a[0] < b[0] || (a[0] == b[0] && Less(a[1..], b[1..]))
  }

  lemma {:induction false} LessTotal(a: string, b: string)
    ensures Less(a, b) || a == b || Less(b, a)
    ensures !(Less(a, b) && Less(b, a)) && (a == b ==> !Less(a, b))
  {
    if a != [] && b != [] && a[0] == b[0] {
      LessTotal(a[1..], b[1..]);
      assert a == [a[0]] + a[1..] && b == [b[0]] + b[1..];
    }
  }

  lemma {:induction false} LessTransitive(a: string, b: string, c: string)
    requires Less(a, b) && Less(b, c)
    ensures Less(a, c)
  {
    if a != [] && a[0] == b[0] && b[0] == c[0] { LessTransitive(a[1..], b[1..], c[1..]); }
  }

  /** The texts agree on their first n characters, and then a ends or has the smaller character. */
  predicate SmallerAt(a: string, b: string, n: nat) {
    n <= |a| && n < |b| && a[..n] == b[..n] && (n == |a| || a[n] < b[n])
  }

  lemma {:induction false} LessHasADifference(a: string, b: string) returns (n: nat)
    requires Less(a, b)
    ensures SmallerAt(a, b, n)
  {
    if a == [] || a[0] < b[0] {
      n := 0;
    } else {
      n := LessHasADifference(a[1..], b[1..]);
      n := n + 1;
      assert a == [a[0]] + a[1..] && b == [b[0]] + b[1..];
      assert a[..n] == [a[0]] + a[1..][..n - 1] && b[..n] == [b[0]] + b[1..][..n - 1];
    }
  }

  lemma {:induction false} DifferenceMakesLess(a: string, b: string, n: nat)
    requires SmallerAt(a, b, n)
    ensures Less(a, b)
    decreases n
  {
    if n > 0 {
      assert a[0] == a[..n][0] == b[..n][0] == b[0];
      assert a[1..][..n - 1] == a[..n][1..] && b[1..][..n - 1] == b[..n][1..];
      DifferenceMakesLess(a[1..], b[1..], n - 1);
    }
  }

  /** A text is less than another if and only if it ends, or has the smaller character, at the first
      place where they differ. */
  lemma LessIsByFirstDifference(a: string, b: string)
    ensures Less(a, b) <==> exists n: nat :: SmallerAt(a, b, n)
  {
    if Less(a, b) { var n := LessHasADifference(a, b); }
    if n: nat :| SmallerAt(a, b, n) { DifferenceMakesLess(a, b, n); }
  }
}
