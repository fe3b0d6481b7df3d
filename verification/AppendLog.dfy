/**
 The append-only log of phase0/src/attestation-store.ts: one printed entry a line, loaded as a whole, extended by
 one line at a time. What the entries are and which lists of them are acceptable is left to a codec.
 */
module AppendLog {
  import opened Wrappers
  import opened Utf16
  import opened Utf8

  datatype Codec<!E> = Codec(
    /** JSON.stringify of an entry, and the parser of one line. */
    write: E -> Text,
    read: Text -> Option<E>,
    /** Whether the entries are acceptable at a time. */
    accepts: (int, seq<E>) -> bool)

  // ---- What is assumed of the codec ----

  /** Printed entries are single lines, and acceptable entries survive printing. */
  ghost predicate PrintSound<E(!new)>(c: Codec<E>) {
    && (forall e {:trigger c.write(e)} :: c.write(e) != [] && LF !in c.write(e) && WellFormed(c.write(e)))
    && (forall t, entries, i {:trigger c.accepts(t, entries), entries[i]} ::
          c.accepts(t, entries) && 0 <= i < |entries| ==> c.read(c.write(entries[i])) == Some(entries[i]))
  }

  /** What was acceptable stays acceptable as time passes. */
  ghost predicate Lasting<E(!new)>(c: Codec<E>) {
    forall t, u, entries {:trigger c.accepts(t, entries), c.accepts(u, entries)} ::
      t <= u && c.accepts(t, entries) ==> c.accepts(u, entries)
  }

  ghost predicate Sound<E(!new)>(c: Codec<E>) { PrintSound(c) && Lasting(c) }

  // ---- Loading ----

  datatype LoadError = TrailingFragment | EmptyLine | MalformedLine | Unacceptable

  /** `text.split("\n")` */
  function Split(t: Text): (r: seq<Text>)
    ensures |r| > 0
  {
    if t == [] then [[]]
    else
      var rest := Split(t[1..]);
      if t[0] == LF then [[]] + rest else [[t[0]] + rest[0]] + rest[1..]
  }

  function ParseAll<E>(c: Codec<E>, lines: seq<Text>): Option<seq<E>> {
    if lines == [] then Some([])
    else
      match ParseAll(c, lines[..|lines| - 1])
      case None => None
      case Some(init) =>
        match c.read(lines[|lines| - 1])
        case None => None
        case Some(last) => Some(init + [last])
  }

  predicate EndsLine(t: Text) { t != [] && t[|t| - 1] == LF }

  /** The lines of a text that ends a line. */
  function Lines(t: Text): seq<Text> { if t == [] then [] else Split(t[..|t| - 1]) }

  /** readLogSnapshot: the entries of the text of a log file. */
  function LoadText<E>(c: Codec<E>, now: int, t: Text): Result<seq<E>, LoadError> {
    if t == [] then if c.accepts(now, []) then Ok([]) else Err(Unacceptable)
    else if !EndsLine(t) then Err(TrailingFragment)
    else
      var lines := Lines(t);
      if [] in lines then Err(EmptyLine)
      else
        match ParseAll(c, lines)
        case None => Err(MalformedLine)
        case Some(entries) => if c.accepts(now, entries) then Ok(entries) else Err(Unacceptable)
  }

  function Load<E>(c: Codec<E>, now: int, bytes: seq<Byte>): Result<seq<E>, LoadError> {
    LoadText(c, now, Decode(bytes))
  }

  /** The log as append writes it: every entry printed on its own line. */
  function Canonical<E>(c: Codec<E>, entries: seq<E>): Text {
    if entries == [] then []
    else Canonical(c, entries[..|entries| - 1]) + c.write(entries[|entries| - 1]) + [LF]
  }

  /** The bytes append writes for an entry. */
  function Line<E>(c: Codec<E>, e: E): seq<Byte> { Encode(c.write(e) + [LF]) }

  lemma LineShape<E>(c: Codec<E>, e: E)
    ensures Line(c, e) == Encode(c.write(e)) + [LF_BYTE]
  {
    EncodeLine(c.write(e));
  }

  // ---- Splitting ----

  lemma {:induction false} SplitLineFree(t: Text)
    requires LF !in t
    ensures Split(t) == [t]
  {
    if t != [] {
      SplitLineFree(t[1..]);
      assert [t[0]] + t[1..] == t;
    }
  }

  function Prepend(u: Unit, lines: seq<Text>): seq<Text>
    requires |lines| > 0
  {
    if u == LF then [[]] + lines else [[u] + lines[0]] + lines[1..]
  }

  lemma PrependJoin(u: Unit, x: seq<Text>, y: seq<Text>)
    requires |x| > 0
    ensures Prepend(u, x + y) == Prepend(u, x) + y
  {
    assert (x + y)[1..] == x[1..] + y;
  }

  lemma SplitStep(t: Text)
    requires t != []
    ensures Split(t) == Prepend(t[0], Split(t[1..]))
  {
  }

  lemma TailJoin(a: Text, b: Text)
    requires a != []
    ensures (a + [LF] + b)[0] == a[0] && (a + [LF] + b)[1..] == a[1..] + [LF] + b
  {
  }

  lemma {:induction false} SplitJoin(a: Text, b: Text)
    ensures Split(a + [LF] + b) == Split(a) + Split(b)
  {
    var t := a + [LF] + b;
    SplitStep(t);
    if a == [] {
      assert t == [LF] + b && t[1..] == b;
    } else {
      TailJoin(a, b);
      SplitJoin(a[1..], b);
      SplitStep(a);
      PrependJoin(a[0], Split(a[1..]), Split(b));
    }
  }

  lemma ParseAllAppend<E>(c: Codec<E>, lines: seq<Text>, line: Text)
    ensures ParseAll(c, lines + [line]) ==
            match ParseAll(c, lines)
            case None => None
            case Some(init) => match c.read(line) case None => None case Some(last) => Some(init + [last])
  {
    assert (lines + [line])[..|lines|] == lines;
  }

  // ---- A log with one more line ----

  lemma EndsApart(t: Text)
    requires EndsLine(t)
    ensures t == t[..|t| - 1] + [LF]
  {
  }

  /** The lines of a text that ends a line, with one more line. */
  lemma SplitAppended(t: Text, line: Text)
    requires LF !in line && (t == [] || EndsLine(t))
    ensures var after := t + line + [LF];
            after != [] && Lines(after) == Lines(t) + [line]
  {
    var after := t + line + [LF];
    SplitLineFree(line);
    assert after[..|after| - 1] == t + line;
    if t == [] {
      assert t + line == line;
      assert [] + [line] == [line];
    } else {
      EndsApart(t);
      SplitJoin(t[..|t| - 1], line);
    }
  }

  /** A whole line more is one entry more. */
  lemma LoadAppended<E(!new)>(c: Codec<E>, before: int, now: int, t: Text, entries: seq<E>, e: E)
    requires PrintSound(c) && LoadText(c, before, t) == Ok(entries) && c.accepts(now, entries + [e])
    ensures LoadText(c, now, t + c.write(e) + [LF]) == Ok(entries + [e])
  {
    var line := c.write(e);
    assert (entries + [e])[|entries|] == e;
    assert c.read(line) == Some(e);
    SplitAppended(t, line);
    ParseAllAppend(c, Lines(t), line);
  }

  /** A decoder that works line by line: what follows a whole line does not change what the line stands for. */
  lemma EndedLine(decode: seq<Byte> -> Text, init: seq<Byte>, tail: seq<Byte>)
    requires decode([]) == []
    requires decode(init + [LF_BYTE] + []) == decode(init) + [LF] + decode([])
    requires decode(init + [LF_BYTE] + tail) == decode(init) + [LF] + decode(tail)
    ensures decode(init + [LF_BYTE]) == decode(init) + [LF]
    ensures decode(init + [LF_BYTE] + tail) == decode(init + [LF_BYTE]) + decode(tail)
  {
    assert init + [LF_BYTE] + [] == init + [LF_BYTE];
  }

  lemma DecodeEnds(bytes: seq<Byte>, tail: seq<Byte>)
    requires bytes != [] && bytes[|bytes| - 1] == LF_BYTE
    ensures Decode(bytes + tail) == Decode(bytes) + Decode(tail)
  {
    var init := bytes[..|bytes| - 1];
    assert bytes == init + [LF_BYTE];
    DecodeLines(init, []);
    DecodeLines(init, tail);
    EndedLine(Decode, init, tail);
  }

  lemma DecodeLine<E(!new)>(c: Codec<E>, e: E)
    requires PrintSound(c)
    ensures Decode(Line(c, e)) == c.write(e) + [LF]
  {
    var printed := Encode(c.write(e));
    LineShape(c, e);
    DecodeEncode(c.write(e));
    DecodeLines(printed, []);
    EndedLine(Decode, printed, []);
  }

  /** A log that loads is empty or ends with a line feed, as bytes too. */
  lemma {:induction false} LoadedEnds<E(!new)>(c: Codec<E>, now: int, bytes: seq<Byte>)
    requires Load(c, now, bytes).Ok?
    ensures bytes == [] || bytes[|bytes| - 1] == LF_BYTE
  {
    if bytes != [] && bytes[|bytes| - 1] != LF_BYTE {
      LastLine(bytes);
    }
  }

  lemma EndsAs(a: Text, b: Text)
    requires b != [] && LF !in b
    ensures a + b != [] && !EndsLine(a + b)
  {
    assert (a + b)[|a + b| - 1] == b[|b| - 1];
  }

  lemma UnendedLine(y: seq<Byte>)
    requires y != [] && LF_BYTE !in y
    ensures Decode(y) != [] && LF !in Decode(y) && !EndsLine(Decode(y))
  {
    DecodeLineFree(y);
    DecodeNonempty(y);
    EndsAs([], Decode(y));
    assert [] + Decode(y) == Decode(y);
  }

  lemma UnendedLast(x: seq<Byte>, y: seq<Byte>)
    requires y != [] && LF_BYTE !in y
    ensures Decode(x + [LF_BYTE] + y) != [] && !EndsLine(Decode(x + [LF_BYTE] + y))
  {
    DecodeLines(x, y);
    UnendedLine(y);
    EndsAs(Decode(x) + [LF], Decode(y));
  }

  lemma SplitAt(bytes: seq<Byte>, k: nat)
    requires k < |bytes| && bytes[k] == LF_BYTE
    ensures bytes == bytes[..k] + [LF_BYTE] + bytes[k + 1..]
    ensures bytes[|bytes| - 1] != LF_BYTE ==> bytes[k + 1..] != []
  {
  }

  /** Bytes that do not end with a line feed decode to text that does not. */
  lemma LastLine(bytes: seq<Byte>)
    requires bytes != [] && bytes[|bytes| - 1] != LF_BYTE
    ensures Decode(bytes) != [] && !EndsLine(Decode(bytes))
  {
    if LF_BYTE in bytes {
      var k := LastLf(bytes);
      SplitAt(bytes, k);
      UnendedLast(bytes[..k], bytes[k + 1..]);
    } else {
      UnendedLine(bytes);
    }
  }

  lemma LastLf(bytes: seq<Byte>) returns (k: nat)
    requires LF_BYTE in bytes
    ensures k < |bytes| && bytes[k] == LF_BYTE && LF_BYTE !in bytes[k + 1..]
  {
    k := |bytes| - 1;
    while bytes[k] != LF_BYTE
      invariant 0 <= k < |bytes| && LF_BYTE !in bytes[k + 1..] && LF_BYTE in bytes[..k + 1]
      decreases k
    {
      assert bytes[k..] == [bytes[k]] + bytes[k + 1..];
      assert bytes[..k + 1] == bytes[..k] + [bytes[k]];
      k := k - 1;
    }
  }

  /** The bytes with a whole line more decode to the text with that line more. */
  lemma DecodeAppended<E(!new)>(c: Codec<E>, now: int, bytes: seq<Byte>, e: E)
    requires PrintSound(c) && Load(c, now, bytes).Ok?
    ensures Decode(bytes + Line(c, e)) == Decode(bytes) + c.write(e) + [LF]
  {
    LoadedEnds(c, now, bytes);
    DecodeLine(c, e);
    Assoc(Decode(bytes), c.write(e), [LF]);
    if bytes == [] {
      assert bytes + Line(c, e) == Line(c, e);
    } else {
      DecodeEnds(bytes, Line(c, e));
    }
  }

  /** A line cut short anywhere leaves a log that does not load. */
  lemma TornRejected<E(!new)>(c: Codec<E>, before: int, now: int, bytes: seq<Byte>, e: E, n: nat)
    requires PrintSound(c) && Load(c, before, bytes).Ok? && 0 < n < |Line(c, e)|
    ensures Load(c, now, bytes + Line(c, e)[..n]) == Err(TrailingFragment)
  {
    EncodeLineFree(c.write(e));
    LineShape(c, e);
    var torn := bytes + Line(c, e)[..n];
    assert torn[|torn| - 1] == Encode(c.write(e))[n - 1];
    assert Encode(c.write(e))[n - 1] in Encode(c.write(e));
    LastLine(torn);
  }

  // ---- The canonical log ----

  lemma {:induction false} CanonicalLoads<E(!new)>(c: Codec<E>, now: int, entries: seq<E>)
    requires PrintSound(c) && c.accepts(now, entries)
    ensures LoadText(c, now, Canonical(c, entries)) == Ok(entries)
  {
    CanonicalShape(c, entries);
    CanonicalParses(c, now, entries, entries);
  }

  lemma {:induction false} CanonicalShape<E(!new)>(c: Codec<E>, entries: seq<E>)
    requires PrintSound(c)
    ensures WellFormed(Canonical(c, entries))
    ensures entries == [] <==> Canonical(c, entries) == []
    ensures entries != [] ==> EndsLine(Canonical(c, entries))
  {
    if entries != [] {
      var init, last := entries[..|entries| - 1], c.write(entries[|entries| - 1]);
      CanonicalShape(c, init);
      WellFormedConcat(Canonical(c, init), last);
      WellFormedConcat(Canonical(c, init) + last, [LF]);
    }
  }

  lemma {:induction false} CanonicalParses<E(!new)>(c: Codec<E>, now: int, entries: seq<E>, all: seq<E>)
    requires PrintSound(c) && c.accepts(now, all) && entries <= all
    ensures [] !in Lines(Canonical(c, entries))
    ensures ParseAll(c, Lines(Canonical(c, entries))) == Some(entries)
  {
    if entries != [] {
      var n := |entries| - 1;
      var init, line := entries[..n], c.write(entries[n]);
      CanonicalShape(c, init);
      CanonicalParses(c, now, init, all);
      SplitAppended(Canonical(c, init), line);
      ParseAllAppend(c, Lines(Canonical(c, init)), line);
      assert entries[n] == all[n];
      assert entries == init + [entries[n]];
    }
  }
}
