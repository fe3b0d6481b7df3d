/**
 JavaScript strings: sequences of UTF-16 code units, lone surrogates included.
 Ordinal order, sorting, hexadecimal and decimal text are defined on them.
 */
module Utf16 {

  type Unit = u: int | 0 <= u < 0x1_0000

  type Text = seq<Unit>

  const LF: Unit := 0x0a
  const QUOTE: Unit := 0x22
  const BACKSLASH: Unit := 0x5c
  const COMMA: Unit := 0x2c
  const COLON: Unit := 0x3a

  /** The text of an ASCII literal. */
  function Ascii(s: string): (t: Text)
    ensures |t| == |s|
  {
    seq(|s|, i requires 0 <= i < |s| => (s[i] as int) % 0x1_0000)
  }

  lemma Assoc(a: Text, b: Text, c: Text)
    ensures (a + b) + c == a + (b + c)
  {
  }

  lemma SuffixStep(s: Text, i: nat)
    requires i < |s|
    ensures s[i..] == [s[i]] + s[i + 1..]
  {
  }

  // ---- Surrogates ----

  predicate IsHigh(u: Unit) { 0xd800 <= u <= 0xdbff }

  predicate IsLow(u: Unit) { 0xdc00 <= u <= 0xdfff }

  predicate IsSurrogate(u: Unit) { 0xd800 <= u <= 0xdfff }

  /** Position i is one half of a surrogate pair. */
  predicate Paired(s: Text, i: int)
    requires 0 <= i < |s|
  {
    || (IsHigh(s[i]) && i + 1 < |s| && IsLow(s[i + 1]))
    || (IsLow(s[i]) && 0 < i && IsHigh(s[i - 1]))
  }

  /** No unpaired surrogate anywhere. */
  predicate WellFormed(s: Text) {
    forall i :: 0 <= i < |s| && IsSurrogate(s[i]) ==> Paired(s, i)
  }

  lemma WellFormedConcat(a: Text, b: Text)
    requires WellFormed(a) && WellFormed(b)
    ensures WellFormed(a + b)
  {
    var c := a + b;
    forall i | 0 <= i < |c| && IsSurrogate(c[i])
      ensures Paired(c, i)
    {
      if i < |a| {
        assert Paired(a, i);
      } else {
        assert Paired(b, i - |a|);
      }
    }
  }

  // ---- Ordinal order (compareOrdinalStrings) ----

  /** Lexicographic order by code unit: the `<` of JavaScript strings. */
  predicate Less(a: Text, b: Text) {
    |b| > 0 && (|a| == 0 || a[0] < b[0] || (a[0] == b[0] && Less(a[1..], b[1..])))
  }

  /** compareOrdinalStrings: -1, 0 or 1. */
  function Compare(a: Text, b: Text): (r: int)
    ensures r == 0 <==> a == b
    ensures r < 0 <==> Less(a, b)
    ensures r > 0 <==> Less(b, a)
  {
    Trichotomy(a, b);
    if Less(a, b) then -1 else if Less(b, a) then 1 else 0
  }

  lemma {:induction false} Trichotomy(a: Text, b: Text)
    ensures !(Less(a, b) && Less(b, a))
    ensures Less(a, b) || Less(b, a) <==> a != b
  {
    if |a| > 0 && |b| > 0 && a[0] == b[0] {
      Trichotomy(a[1..], b[1..]);
      assert a == [a[0]] + a[1..];
      assert b == [b[0]] + b[1..];
    }
  }

  lemma {:induction false} LessTransitive(a: Text, b: Text, c: Text)
    requires Less(a, b) && Less(b, c)
    ensures Less(a, c)
  {
    if |a| > 0 && a[0] == b[0] == c[0] {
      LessTransitive(a[1..], b[1..], c[1..]);
    }
  }

  // ---- Sorting by ordinal order ----

  ghost predicate Sorted(s: seq<Text>) {
    forall i, j :: 0 <= i < j < |s| ==> !Less(s[j], s[i])
  }

  function Insert(x: Text, s: seq<Text>): (r: seq<Text>)
    ensures multiset(r) == multiset{x} + multiset(s)
  {
    if s == [] then [x]
    else if Compare(x, s[0]) <= 0 then
      assert s == [s[0]] + s[1..];
      [x] + s
    else
      assert s == [s[0]] + s[1..];
      [s[0]] + Insert(x, s[1..])
  }

  /** `[...list].sort(compareOrdinalStrings)`. */
  function Sort(s: seq<Text>): (r: seq<Text>)
    ensures multiset(r) == multiset(s)
  {
    if s == [] then [] else
      assert s == [s[0]] + s[1..];
      Insert(s[0], Sort(s[1..]))
  }

  lemma InsertSorted(x: Text, s: seq<Text>)
    requires Sorted(s)
    ensures Sorted(Insert(x, s))
  {
    if s != [] {
      Trichotomy(x, s[0]);
      if Compare(x, s[0]) <= 0 {
        forall j | 0 <= j < |s|
          ensures !Less(s[j], x)
        {
          if Less(s[j], x) && x != s[0] {
            LessTransitive(s[j], x, s[0]);
          }
        }
      } else {
        InsertSorted(x, s[1..]);
        var r := Insert(x, s[1..]);
        forall j | 0 <= j < |r|
          ensures !Less(r[j], s[0])
        {
          assert r[j] in multiset(r);
          if r[j] != x {
            assert r[j] in multiset(s[1..]);
            assert r[j] in s[1..];
          }
        }
      }
    }
  }

  lemma SortSorted(s: seq<Text>)
    ensures Sorted(Sort(s))
  {
    if s != [] {
      SortSorted(s[1..]);
      InsertSorted(s[0], Sort(s[1..]));
    }
  }

  lemma SortedHead(a: seq<Text>, x: Text)
    requires Sorted(a) && a != [] && x in a
    ensures !Less(x, a[0])
  {
    var j :| 0 <= j < |a| && a[j] == x;
    if j == 0 {
      Trichotomy(x, x);
    }
  }

  lemma TailMultiset(a: seq<Text>)
    requires a != []
    ensures multiset(a[1..]) == multiset(a) - multiset{a[0]}
  {
    assert a == [a[0]] + a[1..];
  }

  /** Two sorted lists with the same elements are the same list. */
  lemma {:induction false} SortedUnique(a: seq<Text>, b: seq<Text>)
    requires Sorted(a) && Sorted(b) && multiset(a) == multiset(b)
    ensures a == b
  {
    assert |a| == |multiset(a)| == |multiset(b)| == |b|;
    if a != [] {
      assert a[0] == b[0] by {
        assert a[0] in multiset(b) && b[0] in multiset(a);
        SortedHead(a, b[0]);
        SortedHead(b, a[0]);
        Trichotomy(a[0], b[0]);
      }
      TailMultiset(a);
      TailMultiset(b);
      SortedUnique(a[1..], b[1..]);
      assert a == [a[0]] + a[1..];
      assert b == [b[0]] + b[1..];
    }
  }

  /** The sorted list depends on the elements only, and determines them. */
  lemma SortCanonical(a: seq<Text>, b: seq<Text>)
    ensures Sort(a) == Sort(b) <==> multiset(a) == multiset(b)
  {
    SortSorted(a);
    SortSorted(b);
    if multiset(a) == multiset(b) {
      SortedUnique(Sort(a), Sort(b));
    }
  }

  // ---- Hexadecimal and decimal text ----

  function HexDigit(n: int): (u: Unit)
    requires 0 <= n < 16
    ensures HexValue(u) == n
    ensures 0x30 <= u <= 0x39 || 0x61 <= u <= 0x66
  {
    if n < 10 then 0x30 + n else 0x61 + n - 10
  }

  /** The value of a lower-case hexadecimal digit, -1 for any other unit. */
  function HexValue(u: Unit): int {
    if 0x30 <= u <= 0x39 then u - 0x30
    else if 0x61 <= u <= 0x66 then u - 0x61 + 10
    else -1
  }

  predicate IsDigit(u: Unit) { 0x30 <= u <= 0x39 }

  /** Decimal text of a natural number, without leading zeros. */
  function Decimal(n: nat): (t: Text)
    ensures |t| > 0
    ensures forall i :: 0 <= i < |t| ==> IsDigit(t[i])
  {
    if n < 10 then [0x30 + n] else Decimal(n / 10) + [0x30 + n % 10]
  }

  /** The number a run of decimal digits denotes (BigInt of a decimal string). */
  function DecimalValue(t: Text): nat
    requires forall i :: 0 <= i < |t| ==> IsDigit(t[i])
  {
    if t == [] then 0 else
      assert IsDigit(t[|t| - 1]);
      10 * DecimalValue(t[..|t| - 1]) + (t[|t| - 1] as int - 0x30)
  }

  /** Text matched by (0|[1-9][0-9]*). */
  predicate IsDecimal(t: Text) {
    && |t| > 0
    && (forall i :: 0 <= i < |t| ==> IsDigit(t[i]))
    && (t[0] == 0x30 ==> |t| == 1)
  }

  /** `n.toString()` is canonical decimal text, and BigInt reads it back. */
  lemma DecimalRoundTrip(n: nat)
    ensures IsDecimal(Decimal(n))
    ensures DecimalValue(Decimal(n)) == n
    ensures n > 0 ==> Decimal(n)[0] != 0x30
  {
    if n >= 10 {
      DecimalRoundTrip(n / 10);
      var d := Decimal(n);
      assert d[..|d| - 1] == Decimal(n / 10);
    } else {
      assert DecimalValue([]) == 0;
      assert Decimal(n)[..0] == [];
    }
  }

  /** Canonical decimal text survives BigInt and back: inherited license terms keep their spelling. */
  lemma {:induction false} DecimalTextRoundTrip(t: Text)
    requires IsDecimal(t)
    ensures Decimal(DecimalValue(t)) == t
    ensures t[0] != 0x30 ==> DecimalValue(t) > 0
  {
    var init := t[..|t| - 1];
    if |t| == 1 {
      assert init == [];
      assert DecimalValue(init) == 0;
    } else {
      assert init[0] == t[0];
      DecimalTextRoundTrip(init);
      assert DecimalValue(t) / 10 == DecimalValue(init);
      assert DecimalValue(t) % 10 == t[|t| - 1] - 0x30;
      assert t == init + [t[|t| - 1]];
    }
  }
}
