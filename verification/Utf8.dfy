/** UTF-8 as Node's Buffer writes and reads it: malformed input becomes U+FFFD, in both directions. */
module Utf8 {
  import opened Wrappers
  import opened Utf16

  type Byte = b: int | 0 <= b < 0x100

  const LF_BYTE: Byte := 0x0a

  const REPLACEMENT: Unit := 0xfffd

  // ---- Encoding ----

  function EncodeUnit(u: Unit): (r: seq<Byte>)
    ensures |r| > 0 && (u == LF ==> r == [LF_BYTE]) && (u != LF ==> LF_BYTE !in r)
  {
    if u < 0x80 then [u]
    else if u < 0x800 then [0xc0 + u / 0x40, 0x80 + u % 0x40]
    else if IsSurrogate(u) then [0xef, 0xbf, 0xbd]
    else [0xe0 + u / 0x1000, 0x80 + u / 0x40 % 0x40, 0x80 + u % 0x40]
  }

  function EncodePair(high: Unit, low: Unit): (r: seq<Byte>)
    requires IsHigh(high) && IsLow(low)
    ensures |r| == 4 && LF_BYTE !in r
  {
    var point := 0x10000 + (high - 0xd800) * 0x400 + (low - 0xdc00);
    [0xf0 + point / 0x40000, 0x80 + point / 0x1000 % 0x40, 0x80 + point / 0x40 % 0x40, 0x80 + point % 0x40]
  }

  function Encode(t: Text): seq<Byte> {
    if t == [] then []
    else if |t| >= 2 && IsHigh(t[0]) && IsLow(t[1]) then EncodePair(t[0], t[1]) + Encode(t[2..])
    else EncodeUnit(t[0]) + Encode(t[1..])
  }

  /** The byte 0x0A stands for a line feed and nothing else. */
  lemma {:induction false} EncodeLineFree(t: Text)
    requires LF !in t
    ensures LF_BYTE !in Encode(t)
  {
    if t == [] {
    } else if |t| >= 2 && IsHigh(t[0]) && IsLow(t[1]) {
      EncodeLineFree(t[2..]);
    } else {
      EncodeLineFree(t[1..]);
    }
  }

  lemma Tails(a: Text, b: Text, n: nat)
    requires n <= |a|
    ensures (a + b)[n..] == a[n..] + b
    ensures forall i :: 0 <= i < |a| ==> (a + b)[i] == a[i]
  {
  }

  /** A final line feed is encoded on its own: no surrogate pair reaches across it. */
  lemma {:induction false} EncodeLine(a: Text)
    ensures Encode(a + [LF]) == Encode(a) + [LF_BYTE]
  {
    if a == [] {
      assert [] + [LF] == [LF];
      assert Encode([LF]) == EncodeUnit(LF) + Encode([]);
    } else if |a| >= 2 && IsHigh(a[0]) && IsLow(a[1]) {
      Tails(a, [LF], 2);
      EncodeLine(a[2..]);
    } else {
      Tails(a, [LF], 1);
      EncodeLine(a[1..]);
      SinglyEncoded(a);
      SinglyEncoded(a + [LF]);
    }
  }

  lemma SinglyEncoded(a: Text)
    requires a != [] && !(|a| >= 2 && IsHigh(a[0]) && IsLow(a[1]))
    ensures Encode(a) == EncodeUnit(a[0]) + Encode(a[1..])
  {
  }

  // ---- Decoding ----

  /** How many bytes must follow a leading byte; none for ASCII, and no sequence starts with any other byte. */
  function Following(lead: Byte): Option<nat> {
    if lead < 0x80 then Some(0)
    else if 0xc2 <= lead <= 0xdf then Some(1)
    else if 0xe0 <= lead <= 0xef then Some(2)
    else if 0xf0 <= lead <= 0xf4 then Some(3)
    else None
  }

  /** The second byte of a well-formed sequence: no overlong form, no surrogate, nothing above U+10FFFF. */
  predicate Second(lead: Byte, b: Byte) {
    && 0x80 <= b <= 0xbf
    && (lead == 0xe0 ==> 0xa0 <= b) && (lead == 0xed ==> b <= 0x9f)
    && (lead == 0xf0 ==> 0x90 <= b) && (lead == 0xf4 ==> b <= 0x8f)
  }

  predicate Later(b: Byte) { 0x80 <= b <= 0xbf }

  /** The length of the longest beginning of the bytes that begins a well-formed sequence. */
  function Subpart(bytes: seq<Byte>): (n: nat)
    requires bytes != []
    ensures 1 <= n <= |bytes| && n <= 4
    ensures Following(bytes[0]).Some? ==> n <= Following(bytes[0]).value + 1
  {
    match Following(bytes[0])
    case None => 1
    case Some(k) =>
      if k == 0 || |bytes| < 2 || !Second(bytes[0], bytes[1]) then 1
      else if k == 1 || |bytes| < 3 || !Later(bytes[2]) then 2
      else if k == 2 || |bytes| < 4 || !Later(bytes[3]) then 3
      else 4
  }

  /** What that beginning stands for: its character when the sequence is complete, else U+FFFD. */
  function DecodeSubpart(bytes: seq<Byte>): (t: Text)
    requires bytes != []
    ensures |t| > 0
  {
    var n := Subpart(bytes);
    if Following(bytes[0]) != Some(n - 1) then [REPLACEMENT]
    else if n == 1 then [bytes[0]]
    else
      var lead, second := bytes[0] as int, bytes[1] as int - 0x80;
      if n == 2 then [(lead - 0xc0) * 0x40 + second]
      else
        var third := bytes[2] as int - 0x80;
        if n == 3 then [(lead - 0xe0) * 0x1000 + second * 0x40 + third]
        else
          var point := (lead - 0xf0) * 0x40000 + second * 0x1000 + third * 0x40 + (bytes[3] as int - 0x80);
          [0xd800 + (point - 0x10000) / 0x400, 0xdc00 + (point - 0x10000) % 0x400]
  }

  /** Buffer.toString("utf8"). */
  function Decode(bytes: seq<Byte>): Text {
    if bytes == [] then [] else DecodeSubpart(bytes) + Decode(bytes[Subpart(bytes)..])
  }

  // ---- The decoder undoes the encoder ----

  lemma DecodesAscii(u: Unit, rest: seq<Byte>)
    requires u < 0x80
    ensures Subpart(EncodeUnit(u) + rest) == 1 && DecodeSubpart(EncodeUnit(u) + rest) == [u]
  {
  }

  lemma DecodesTwo(u: Unit, rest: seq<Byte>)
    requires 0x80 <= u < 0x800
    ensures Subpart(EncodeUnit(u) + rest) == 2 && DecodeSubpart(EncodeUnit(u) + rest) == [u]
  {
    var b := EncodeUnit(u) + rest;
    assert b[0] == 0xc0 + u / 0x40 && b[1] == 0x80 + u % 0x40;
  }

  lemma DecodesThree(u: Unit, rest: seq<Byte>)
    requires 0x800 <= u && !IsSurrogate(u)
    ensures Subpart(EncodeUnit(u) + rest) == 3 && DecodeSubpart(EncodeUnit(u) + rest) == [u]
  {
    var b := EncodeUnit(u) + rest;
    assert b[0] == 0xe0 + u / 0x1000 && b[1] == 0x80 + u / 0x40 % 0x40 && b[2] == 0x80 + u % 0x40;
    ThreeDigits(u);
  }

  lemma ThreeDigits(u: nat)
    requires u < 0x10000
    ensures u == u / 0x1000 * 0x1000 + u / 0x40 % 0x40 * 0x40 + u % 0x40
  {
    assert u / 0x40 / 0x40 == u / 0x1000;
  }

  lemma DecodesPair(high: Unit, low: Unit, rest: seq<Byte>)
    requires IsHigh(high) && IsLow(low)
    ensures Subpart(EncodePair(high, low) + rest) == 4
    ensures DecodeSubpart(EncodePair(high, low) + rest) == [high, low]
  {
    var point := 0x10000 + (high - 0xd800) * 0x400 + (low - 0xdc00);
    var b := EncodePair(high, low) + rest;
    assert b[0] == 0xf0 + point / 0x40000 && b[1] == 0x80 + point / 0x1000 % 0x40;
    assert b[2] == 0x80 + point / 0x40 % 0x40 && b[3] == 0x80 + point % 0x40;
    FourDigits(point);
  }

  lemma FourDigits(p: nat)
    requires 0x10000 <= p < 0x110000
    ensures p == p / 0x40000 * 0x40000 + p / 0x1000 % 0x40 * 0x1000 + p / 0x40 % 0x40 * 0x40 + p % 0x40
    ensures p / 0x40000 == 0 ==> p / 0x1000 % 0x40 >= 0x10
    ensures p / 0x40000 == 4 ==> p / 0x1000 % 0x40 <= 0x0f
    ensures p / 0x40000 <= 4
  {
    assert p / 0x40 / 0x40 == p / 0x1000;
    assert p / 0x1000 / 0x40 == p / 0x40000;
  }

  lemma DecodesUnit(u: Unit, rest: seq<Byte>)
    requires !IsSurrogate(u)
    ensures Subpart(EncodeUnit(u) + rest) == |EncodeUnit(u)| && DecodeSubpart(EncodeUnit(u) + rest) == [u]
  {
    if u < 0x80 {
      DecodesAscii(u, rest);
    } else if u < 0x800 {
      DecodesTwo(u, rest);
    } else {
      DecodesThree(u, rest);
    }
  }

  lemma Suffix(a: seq<Byte>, b: seq<Byte>)
    ensures (a + b)[|a|..] == b
  {
  }

  lemma TailWellFormed(t: Text, n: nat)
    requires WellFormed(t) && t != []
    requires n == if |t| >= 2 && IsHigh(t[0]) && IsLow(t[1]) then 2 else 1
    ensures WellFormed(t[n..]) && (n == 1 ==> !IsSurrogate(t[0]))
  {
    var u := t[n..];
    assert IsSurrogate(t[0]) ==> Paired(t, 0);
    forall i | 0 <= i < |u| && IsSurrogate(u[i])
      ensures Paired(u, i)
    {
      assert u[i] == t[i + n];
      assert Paired(t, i + n);
    }
  }

  /** Every string without lone surrogates survives encoding and decoding. */
  lemma {:induction false} DecodeEncode(t: Text)
    requires WellFormed(t)
    ensures Decode(Encode(t)) == t
  {
    if t == [] {
    } else if |t| >= 2 && IsHigh(t[0]) && IsLow(t[1]) {
      TailWellFormed(t, 2);
      DecodesPair(t[0], t[1], Encode(t[2..]));
      Suffix(EncodePair(t[0], t[1]), Encode(t[2..]));
      DecodeEncode(t[2..]);
      assert t == [t[0], t[1]] + t[2..];
    } else {
      TailWellFormed(t, 1);
      DecodesUnit(t[0], Encode(t[1..]));
      Suffix(EncodeUnit(t[0]), Encode(t[1..]));
      DecodeEncode(t[1..]);
      assert t == [t[0]] + t[1..];
    }
  }

  // ---- The decoder works line by line ----

  /** A line feed ends whatever sequence was begun before it. */
  lemma SubpartLine(x: seq<Byte>, y: seq<Byte>)
    requires x != []
    ensures Subpart(x + [LF_BYTE] + y) == Subpart(x)
    ensures DecodeSubpart(x + [LF_BYTE] + y) == DecodeSubpart(x)
  {
    var t := x + [LF_BYTE] + y;
    assert forall i :: 0 <= i < |x| ==> t[i] == x[i];
    assert t[|x|] == LF_BYTE;
  }

  lemma LineTails(x: seq<Byte>, y: seq<Byte>, n: nat)
    requires n <= |x|
    ensures (x + [LF_BYTE] + y)[n..] == x[n..] + [LF_BYTE] + y
  {
  }

  lemma {:induction false} DecodeLines(x: seq<Byte>, y: seq<Byte>)
    ensures Decode(x + [LF_BYTE] + y) == Decode(x) + [LF] + Decode(y)
    decreases |x|
  {
    var t := x + [LF_BYTE] + y;
    if x == [] {
      assert t == [LF_BYTE] + y && t[1..] == y;
    } else {
      SubpartLine(x, y);
      var n := Subpart(x);
      LineTails(x, y, n);
      DecodeLines(x[n..], y);
    }
  }

  lemma SubpartLineFree(x: seq<Byte>)
    requires x != [] && LF_BYTE !in x
    ensures LF !in DecodeSubpart(x)
  {
    assert x[0] != LF_BYTE;
  }

  lemma {:induction false} DecodeLineFree(x: seq<Byte>)
    requires LF_BYTE !in x
    ensures LF !in Decode(x)
    decreases |x|
  {
    if x != [] {
      SubpartLineFree(x);
      DecodeLineFree(x[Subpart(x)..]);
    }
  }

  lemma DecodeNonempty(x: seq<Byte>)
    ensures x != [] ==> Decode(x) != []
  {
  }
}
