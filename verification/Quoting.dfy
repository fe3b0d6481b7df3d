/**
 Quoted string literals. Both writers of the program (JSON string quoting, section 25.5.2 of
 ECMA-262 and section 7 of RFC 8259, and the terminal quoting of phase0/src/terminal.ts) replace
 each code unit by one piece that depends on the unit and on whether it is part of a surrogate pair.
 One reader, that of section 7 of RFC 8259, recovers the string from either.
 */
module Quoting {
  import opened Wrappers
  import opened Utf16

  /** `\uXXXX` with lower-case digits: charCodeAt().toString(16).padStart(4, "0"). */
  function HexEscape(u: Unit): (p: Text)
    ensures |p| == 6
  {
    [BACKSLASH, 0x75,
     HexDigit(u / 16 / 16 / 16), HexDigit(u / 16 / 16 % 16), HexDigit(u / 16 % 16), HexDigit(u % 16)]
  }

  /** The unit a two-unit escape `\c` stands for, -1 when there is none. */
  function ShortEscape(c: Unit): int {
    if c == QUOTE then 0x22
    else if c == BACKSLASH then 0x5c
    else if c == 0x2f then 0x2f
    else if c == 0x62 then 0x08
    else if c == 0x74 then 0x09
    else if c == 0x6e then 0x0a
    else if c == 0x66 then 0x0c
    else if c == 0x72 then 0x0d
    else -1
  }

  /** The value of a hexadecimal digit of either case, -1 for any other unit. */
  function EscapeDigit(u: Unit): int {
    if 0x41 <= u <= 0x46 then u - 0x41 + 10 else HexValue(u)
  }

  /** Reads one piece of a literal: the unit and what follows the piece. */
  function ReadPiece(t: Text): (r: Option<(Unit, Text)>)
    ensures r.Some? ==> |r.value.1| < |t|
  {
    if t == [] || t[0] == QUOTE || t[0] < 0x20 then None
    else if t[0] != BACKSLASH then Some((t[0], t[1..]))
    else if |t| >= 2 && ShortEscape(t[1]) >= 0 then Some((ShortEscape(t[1]), t[2..]))
    else if |t| >= 6 && t[1] == 0x75 && forall i :: 2 <= i < 6 ==> EscapeDigit(t[i]) >= 0 then
      Some((0x1000 * EscapeDigit(t[2]) + 0x100 * EscapeDigit(t[3]) + 0x10 * EscapeDigit(t[4]) + EscapeDigit(t[5]),
            t[6..]))
    else None
  }

  /** Reads the units up to the first unescaped quotation mark; the rest follows that mark. */
  function ReadUnits(t: Text): (r: Option<(Text, Text)>)
    ensures r.Some? ==> |r.value.1| < |t|
    decreases |t|
  {
    if t != [] && t[0] == QUOTE then Some(([], t[1..]))
    else
      match ReadPiece(t)
      case None => None
      case Some(head) =>
        match ReadUnits(head.1)
        case None => None
        case Some(tail) => Some(([head.0] + tail.0, tail.1))
  }

  /** Reads a quoted literal at the start of a text: its string, and the text after it. */
  function Unquote(t: Text): (r: Option<(Text, Text)>)
    ensures r.Some? ==> |r.value.1| < |t|
  {
    if t != [] && t[0] == QUOTE then ReadUnits(t[1..]) else None
  }

  /** p is one of the ways to write u inside a literal. */
  predicate IsPiece(p: Text, u: Unit) {
    || (p == [u] && u != QUOTE && u != BACKSLASH && u >= 0x20)
    || (|p| == 2 && p[0] == BACKSLASH && ShortEscape(p[1]) == u)
    || p == HexEscape(u)
  }

  /** One piece for each position of s. */
  predicate Writes(pieces: seq<Text>, s: Text) {
    |pieces| == |s| && forall i :: 0 <= i < |s| ==> IsPiece(pieces[i], s[i])
  }

  /** The pieces from position i on, in order. */
  function Join(pieces: seq<Text>, i: nat): Text
    requires i <= |pieces|
    decreases |pieces| - i
  {
    if i == |pieces| then [] else pieces[i] + Join(pieces, i + 1)
  }

  function Literal(pieces: seq<Text>): Text {
    [QUOTE] + Join(pieces, 0) + [QUOTE]
  }

  lemma HexEscapeValue(u: Unit)
    ensures 0x1000 * (u / 16 / 16 / 16) + 0x100 * (u / 16 / 16 % 16) + 0x10 * (u / 16 % 16) + u % 16 == u
  {
    var q := u / 16;
    var r := q / 16;
    assert u == 16 * q + u % 16;
    assert q == 16 * r + q % 16;
    assert r == 16 * (r / 16) + r % 16;
  }

  lemma ReadsHexEscape(u: Unit, rest: Text)
    ensures ReadPiece(HexEscape(u) + rest) == Some((u, rest))
  {
    var p := HexEscape(u);
    var t := p + rest;
    assert t[6..] == rest;
    assert t[0] == p[0] && t[1] == p[1] && t[2] == p[2] && t[3] == p[3] && t[4] == p[4] && t[5] == p[5];
    HexEscapeValue(u);
  }

  lemma ReadsPiece(p: Text, u: Unit, rest: Text)
    requires IsPiece(p, u)
    ensures ReadPiece(p + rest) == Some((u, rest))
    ensures (p + rest)[0] != QUOTE
  {
    if p == HexEscape(u) {
      ReadsHexEscape(u, rest);
    } else {
      assert (p + rest)[|p|..] == rest;
    }
  }

  lemma ReadsOne(p: Text, u: Unit, tail: Text, s: Text, rest: Text)
    requires IsPiece(p, u) && ReadUnits(tail) == Some((s, rest))
    ensures ReadUnits(p + tail) == Some(([u] + s, rest))
  {
    ReadsPiece(p, u, tail);
  }

  lemma ReadsClosing(rest: Text)
    ensures ReadUnits([QUOTE] + rest) == Some(([], rest))
  {
    assert ([QUOTE] + rest)[1..] == rest;
  }

  lemma {:induction false} ReadsJoin(pieces: seq<Text>, s: Text, i: nat, close: Text, rest: Text)
    requires i <= |s| && Writes(pieces, s)
    requires ReadUnits(close) == Some(([], rest))
    ensures ReadUnits(Join(pieces, i) + close) == Some((s[i..], rest))
    decreases |s| - i
  {
    if i == |s| {
      assert Join(pieces, i) + close == close;
      assert s[i..] == [];
    } else {
      ReadsJoin(pieces, s, i + 1, close, rest);
      ReadsOne(pieces[i], s[i], Join(pieces, i + 1) + close, s[i + 1..], rest);
      Assoc(pieces[i], Join(pieces, i + 1), close);
      SuffixStep(s, i);
    }
  }

  /** Whatever follows a literal, the reader recovers the string and stops right after its closing mark. */
  lemma ReadsLiteral(pieces: seq<Text>, s: Text, rest: Text)
    requires Writes(pieces, s)
    ensures Unquote(Literal(pieces) + rest) == Some((s, rest))
  {
    var t := Literal(pieces) + rest;
    assert t[1..] == Join(pieces, 0) + ([QUOTE] + rest);
    ReadsClosing(rest);
    ReadsJoin(pieces, s, 0, [QUOTE] + rest, rest);
    assert s[0..] == s;
  }

  // ---- Pairs stay together, lone surrogates are written as escapes ----

  /** Paired surrogates are written raw; every other piece is free of surrogates. */
  predicate KeepsPairs(pieces: seq<Text>, s: Text) {
    && |pieces| == |s|
    && (forall i :: 0 <= i < |s| && Paired(s, i) ==> pieces[i] == [s[i]])
    && (forall i, k :: 0 <= i < |s| && !Paired(s, i) && 0 <= k < |pieces[i]| ==> !IsSurrogate(pieces[i][k]))
  }

  lemma JoinTwo(pieces: seq<Text>, i: nat)
    requires i + 2 <= |pieces|
    ensures Join(pieces, i) == (pieces[i] + pieces[i + 1]) + Join(pieces, i + 2)
  {
    Assoc(pieces[i], pieces[i + 1], Join(pieces, i + 2));
  }

  predicate MidPair(s: Text, i: nat) {
    0 < i < |s| && IsLow(s[i]) && IsHigh(s[i - 1])
  }

  lemma {:induction false} JoinWellFormed(pieces: seq<Text>, s: Text, i: nat)
    requires i <= |s| && KeepsPairs(pieces, s) && !MidPair(s, i)
    ensures WellFormed(Join(pieces, i))
    decreases |s| - i
  {
    if i < |s| {
      if Paired(s, i) {
        JoinWellFormed(pieces, s, i + 2);
        assert Paired(s, i + 1);
        JoinTwo(pieces, i);
        WellFormedConcat([s[i], s[i + 1]], Join(pieces, i + 2));
      } else {
        JoinWellFormed(pieces, s, i + 1);
        WellFormedConcat(pieces[i], Join(pieces, i + 1));
      }
    }
  }

  lemma LiteralWellFormed(pieces: seq<Text>, s: Text)
    requires KeepsPairs(pieces, s)
    ensures WellFormed(Literal(pieces))
  {
    JoinWellFormed(pieces, s, 0);
    WellFormedConcat([QUOTE], Join(pieces, 0));
    WellFormedConcat([QUOTE] + Join(pieces, 0), [QUOTE]);
  }

  /** A unit that no piece contains is nowhere in the joined pieces. */
  lemma JoinAvoids(pieces: seq<Text>, i: nat, bad: Unit -> bool)
    requires i <= |pieces|
    requires forall k, m :: 0 <= k < |pieces| && 0 <= m < |pieces[k]| ==> !bad(pieces[k][m])
    ensures forall m :: 0 <= m < |Join(pieces, i)| ==> !bad(Join(pieces, i)[m])
    decreases |pieces| - i
  {
    if i < |pieces| {
      JoinAvoids(pieces, i + 1, bad);
    }
  }
}
