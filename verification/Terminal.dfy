/** phase0/src/terminal.ts: one deterministic quoted line for untrusted terminal text. */
module Terminal {
  import opened Wrappers
  import opened Utf16
  import opened Quoting

  /** C0 and C1 controls, bidi controls, line separators and other invisible format units. */
  predicate Unsafe(u: Unit) {
    || u <= 0x1f
    || 0x7f <= u <= 0x9f
    || u == 0x061c
    || u == 0x200e
    || u == 0x200f
    || 0x2028 <= u <= 0x202e
    || 0x2066 <= u <= 0x206f
  }

  /** How position i of s is shown. */
  function Piece(s: Text, i: nat): (p: Text)
    requires i < |s|
    ensures IsPiece(p, s[i])
  {
    var u := s[i];
    if u == QUOTE then [BACKSLASH, QUOTE]
    else if u == BACKSLASH then [BACKSLASH, BACKSLASH]
    else if Unsafe(u) || (IsSurrogate(u) && !Paired(s, i)) then HexEscape(u)
    else [u]
  }

  function Pieces(s: Text): (r: seq<Text>) {
    seq(|s|, i requires 0 <= i < |s| => Piece(s, i))
  }

  /** The loop of the source: it looks one unit ahead and copies a surrogate pair in one turn. */
  method QuoteTerminalText(value: Text) returns (quoted: Text)
    ensures quoted == Literal(Pieces(value))
  {
    quoted := [QUOTE];
    ghost var pieces := Pieces(value);
    var index := 0;
    while index < |value|
      invariant 0 <= index <= |value|
      invariant !MidPair(value, index)
      invariant quoted + Join(pieces, index) == [QUOTE] + Join(pieces, 0)
    {
      var codeUnit := value[index];
      Appends(quoted, pieces, index);
      if codeUnit == QUOTE {
        quoted := quoted + [BACKSLASH, QUOTE];
      } else if codeUnit == BACKSLASH {
        quoted := quoted + [BACKSLASH, BACKSLASH];
      } else if Unsafe(codeUnit)
                || (0xd800 <= codeUnit <= 0xdfff
                    && !(codeUnit <= 0xdbff && index + 1 < |value| && 0xdc00 <= value[index + 1] <= 0xdfff)) {
        quoted := quoted + HexEscape(codeUnit);
      } else {
        quoted := quoted + [value[index]];
        if 0xd800 <= codeUnit <= 0xdbff {
          assert Paired(value, index) && Paired(value, index + 1);
          index := index + 1;
          Appends(quoted, pieces, index);
          quoted := quoted + [value[index]];
        }
      }
      index := index + 1;
    }
    quoted := quoted + [QUOTE];
  }

  lemma Appends(done: Text, pieces: seq<Text>, i: nat)
    requires i < |pieces|
    ensures done + pieces[i] + Join(pieces, i + 1) == done + Join(pieces, i)
  {
    assert done + (pieces[i] + Join(pieces, i + 1)) == done + pieces[i] + Join(pieces, i + 1);
  }

  /** Reversible for every sequence of code units: the reader recovers the input and stops at its end. */
  lemma TerminalRoundTrip(value: Text, rest: Text)
    ensures Unquote(Literal(Pieces(value)) + rest) == Some((value, rest))
  {
    ReadsLiteral(Pieces(value), value, rest);
  }

  lemma TerminalInjective(a: Text, b: Text)
    ensures Literal(Pieces(a)) == Literal(Pieces(b)) <==> a == b
  {
    TerminalRoundTrip(a, []);
    TerminalRoundTrip(b, []);
    assert Literal(Pieces(a)) + [] == Literal(Pieces(a));
    assert Literal(Pieces(b)) + [] == Literal(Pieces(b));
  }

  /** No control, bidi or separator unit, and no unpaired surrogate, reaches the terminal. */
  lemma TerminalSafe(value: Text)
    ensures var out := Literal(Pieces(value));
            WellFormed(out) && forall i :: 0 <= i < |out| ==> !Unsafe(out[i])
  {
    PiecesKeepPairs(value);
    LiteralWellFormed(Pieces(value), value);
    forall i | 0 <= i < |value| { PieceSafe(value, i); }
    JoinAvoids(Pieces(value), 0, Unsafe);
  }

  lemma PieceSafe(s: Text, i: nat)
    requires i < |s|
    ensures Paired(s, i) ==> Piece(s, i) == [s[i]]
    ensures forall k :: 0 <= k < |Piece(s, i)| ==> !Unsafe(Piece(s, i)[k])
    ensures !Paired(s, i) ==> forall k :: 0 <= k < |Piece(s, i)| ==> !IsSurrogate(Piece(s, i)[k])
  {
  }

  lemma PiecesKeepPairs(s: Text)
    ensures KeepsPairs(Pieces(s), s)
  {
    forall i | 0 <= i < |s| { PieceSafe(s, i); }
  }

  /**
   Every quotation mark between the two outer ones is escaped: reading any shorter part of the
   output that ends in a quotation mark does not close the literal there.
   */
  lemma NoUnescapedInnerQuote(value: Text, n: nat)
    requires var out := Literal(Pieces(value)); n < |out|
    ensures Unquote(Literal(Pieces(value))[..n]).None?
  {
    var out := Literal(Pieces(value));
    TerminalRoundTrip(value, []);
    assert out + [] == out;
    if Unquote(out[..n]).Some? {
      assert out[..n][1..] + out[n..] == out[1..];
      ReadExtends(out[..n][1..], out[n..]);
    }
  }

  /** Reading looks no further than the closing mark. */
  lemma {:induction false} ReadExtends(t: Text, more: Text)
    requires ReadUnits(t).Some?
    ensures ReadUnits(t + more) == Some((ReadUnits(t).value.0, ReadUnits(t).value.1 + more))
    decreases |t|
  {
    var u := t + more;
    if t[0] == QUOTE {
      assert u[1..] == t[1..] + more;
    } else {
      var head := ReadPiece(t).value;
      PieceExtends(t, more);
      ReadExtends(head.1, more);
    }
  }

  lemma PieceExtends(t: Text, more: Text)
    requires ReadPiece(t).Some?
    ensures ReadPiece(t + more) == Some((ReadPiece(t).value.0, ReadPiece(t).value.1 + more))
  {
    var u := t + more;
    assert u[1..] == t[1..] + more;
    if t[0] == BACKSLASH {
      assert u[2..] == t[2..] + more;
      if ShortEscape(t[1]) < 0 {
        assert u[6..] == t[6..] + more;
      }
    }
  }
}
