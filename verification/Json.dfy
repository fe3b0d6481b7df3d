/**
 JSON.stringify without indentation (section 25.5.2 of ECMA-262; grammar of RFC 8259), for the values
 the program writes: strings, natural numbers, arrays, and objects whose members keep their order.
 JSON.parse on the texts of such values undoes it: the printed text is prefix-free, hence injective.
 */
module Json {
  import opened Wrappers
  import opened Utf16
  import opened Quoting

  datatype Json =
    | Str(s: Text)
    | Num(n: nat)
    | Arr(items: seq<Json>)
    | Obj(members: seq<Member>)

  datatype Member = Member(key: Text, value: Json)

  // ---- Writing ----

  /** QuoteJSONString: the piece for position i of s. */
  function Piece(s: Text, i: nat): (p: Text)
    requires i < |s|
    ensures IsPiece(p, s[i])
  {
    var u := s[i];
    if u == 0x08 then [BACKSLASH, 0x62]
    else if u == 0x09 then [BACKSLASH, 0x74]
    else if u == 0x0a then [BACKSLASH, 0x6e]
    else if u == 0x0c then [BACKSLASH, 0x66]
    else if u == 0x0d then [BACKSLASH, 0x72]
    else if u == QUOTE then [BACKSLASH, QUOTE]
    else if u == BACKSLASH then [BACKSLASH, BACKSLASH]
    else if u < 0x20 || (IsSurrogate(u) && !Paired(s, i)) then HexEscape(u)
    else [u]
  }

  function Pieces(s: Text): (r: seq<Text>) {
    seq(|s|, i requires 0 <= i < |s| => Piece(s, i))
  }

  function Quote(s: Text): Text { Literal(Pieces(s)) }

  function Render(j: Json): Text
    decreases j, 1
  {
    match j
    case Str(s) => Quote(s)
    case Num(n) => Decimal(n)
    case Arr(items) => [0x5b] + RenderItems(items) + [0x5d]
    case Obj(members) => [0x7b] + RenderMembers(members) + [0x7d]
  }

  function RenderItems(items: seq<Json>): Text
    decreases items, 0
  {
    if items == [] then []
    else if |items| == 1 then Render(items[0])
    else Render(items[0]) + ([COMMA] + RenderItems(items[1..]))
  }

  function RenderMember(m: Member): Text
    decreases m, 0
  {
    Quote(m.key) + ([COLON] + Render(m.value))
  }

  function RenderMembers(members: seq<Member>): Text
    decreases members, 0
  {
    if members == [] then []
    else if |members| == 1 then RenderMember(members[0])
    else RenderMember(members[0]) + ([COMMA] + RenderMembers(members[1..]))
  }

  // ---- Reading ----

  predicate IsSpace(u: Unit) { u in {0x20, 0x09, 0x0a, 0x0d} }

  /** The text from its first unit that is not white space. */
  function Skip(t: Text): (r: Text)
    ensures |r| <= |t| && (r != [] ==> !IsSpace(r[0]))
  {
    if t != [] && IsSpace(t[0]) then Skip(t[1..]) else t
  }

  /** The length of the run of digits a text starts with. */
  function DigitRun(t: Text): (n: nat)
    ensures n <= |t|
    ensures forall i :: 0 <= i < n ==> IsDigit(t[i])
  {
    if t == [] || !IsDigit(t[0]) then 0 else 1 + DigitRun(t[1..])
  }

  predicate StartsWith(t: Text, u: Unit) { t != [] && t[0] == u }

  /** A dot, or the letter that starts an exponent. */
  predicate ProlongsNumber(u: Unit) { u in {0x2e, 0x45, 0x65} }

  /** A natural number: no sign, no superfluous zero, no fraction, no exponent. */
  function ReadNumber(t: Text): (r: Option<(Json, Text)>)
    ensures r.Some? ==> |r.value.1| < |t|
  {
    var n := DigitRun(t);
    if n == 0 || (n > 1 && t[0] == 0x30) || (n < |t| && ProlongsNumber(t[n])) then None
    else Some((Num(DecimalValue(t[..n])), t[n..]))
  }

  /** JSON.parse (RFC 8259), of values that are strings, natural numbers, arrays and objects. */
  function ParseJson(t: Text): Option<Json> {
    match ReadValue(Skip(t))
    case None => None
    case Some(read) => if Skip(read.1) == [] then Some(read.0) else None
  }

  function ReadValue(t: Text): (r: Option<(Json, Text)>)
    ensures r.Some? ==> |r.value.1| < |t|
    decreases |t|, 2
  {
    if t == [] then None
    else if t[0] == QUOTE then
      match Unquote(t)
      case None => None
      case Some(read) => Some((Str(read.0), read.1))
    else if IsDigit(t[0]) then ReadNumber(t)
    else if t[0] == 0x5b then
      var body := Skip(t[1..]);
      if StartsWith(body, 0x5d) then Some((Arr([]), body[1..]))
      else
        match ReadItems(body)
        case None => None
        case Some(read) => if StartsWith(read.1, 0x5d) then Some((Arr(read.0), read.1[1..])) else None
    else if t[0] == 0x7b then
      var body := Skip(t[1..]);
      if StartsWith(body, 0x7d) then Some((Obj([]), body[1..]))
      else
        match ReadMembers(body)
        case None => None
        case Some(read) => if StartsWith(read.1, 0x7d) then Some((Obj(read.0), read.1[1..])) else None
    else None
  }

  function ReadItems(t: Text): (r: Option<(seq<Json>, Text)>)
    ensures r.Some? ==> |r.value.1| < |t|
    decreases |t|, 3
  {
    match ReadValue(t)
    case None => None
    case Some(head) =>
      var after := Skip(head.1);
      if StartsWith(after, COMMA) then
        match ReadItems(Skip(after[1..]))
        case None => None
        case Some(tail) => Some(([head.0] + tail.0, tail.1))
      else Some(([head.0], after))
  }

  function ReadMember(t: Text): (r: Option<(Member, Text)>)
    ensures r.Some? ==> |r.value.1| < |t|
    decreases |t|, 3
  {
    match Unquote(t)
    case None => None
    case Some(key) =>
      var after := Skip(key.1);
      if !StartsWith(after, COLON) then None
      else
        match ReadValue(Skip(after[1..]))
        case None => None
        case Some(value) => Some((Member(key.0, value.0), value.1))
  }

  function ReadMembers(t: Text): (r: Option<(seq<Member>, Text)>)
    ensures r.Some? ==> |r.value.1| < |t|
    decreases |t|, 4
  {
    match ReadMember(t)
    case None => None
    case Some(head) =>
      var after := Skip(head.1);
      if StartsWith(after, COMMA) then
        match ReadMembers(Skip(after[1..]))
        case None => None
        case Some(tail) => Some(([head.0] + tail.0, tail.1))
      else Some(([head.0], after))
  }

  // ---- Reading undoes writing ----

  /** What may follow a value inside a larger text: anything that does not prolong a number. */
  predicate Delimited(rest: Text) { rest == [] || (!IsDigit(rest[0]) && !ProlongsNumber(rest[0])) }

  lemma ReadsQuote(s: Text, rest: Text)
    ensures Unquote(Quote(s) + rest) == Some((s, rest))
  {
    ReadsLiteral(Pieces(s), s, rest);
  }

  lemma QuoteStart(s: Text, rest: Text)
    ensures StartsWith(Quote(s) + rest, QUOTE)
  {
  }

  lemma {:induction false} DigitRunExact(d: Text, rest: Text)
    requires (rest == [] || !IsDigit(rest[0])) && forall i :: 0 <= i < |d| ==> IsDigit(d[i])
    ensures DigitRun(d + rest) == |d|
  {
    if d == [] {
      assert d + rest == rest;
    } else {
      assert (d + rest)[1..] == d[1..] + rest;
      DigitRunExact(d[1..], rest);
    }
  }

  lemma ReadsNumber(n: nat, rest: Text)
    requires Delimited(rest)
    ensures ReadValue(Decimal(n) + rest) == Some((Num(n), rest))
  {
    var d := Decimal(n);
    DigitRunExact(d, rest);
    DecimalRoundTrip(n);
    assert (d + rest)[..|d|] == d;
    assert (d + rest)[|d|..] == rest;
    assert IsDigit(d[0]);
  }

  lemma ReadsString(s: Text, rest: Text)
    ensures ReadValue(Quote(s) + rest) == Some((Str(s), rest))
  {
    QuoteStart(s, rest);
    ReadsQuote(s, rest);
  }

  /** The first unit of a value is never a closing bracket or white space. */
  lemma RenderStart(j: Json)
    ensures Render(j) != [] && Render(j)[0] != 0x5d && Render(j)[0] != 0x7d && !IsSpace(Render(j)[0])
  {
    if j.Num? {
      assert IsDigit(Decimal(j.n)[0]);
    }
  }

  lemma {:induction false} ReadsValue(j: Json, rest: Text)
    requires Delimited(rest)
    ensures ReadValue(Render(j) + rest) == Some((j, rest))
    decreases j, 1
  {
    match j
    case Str(s) => ReadsString(s, rest);
    case Num(n) => ReadsNumber(n, rest);
    case Arr(items) =>
      if items != [] { ReadsItems(items, [0x5d] + rest); }
      ReadsBracketedItems(items, rest);
    case Obj(members) =>
      if members != [] { ReadsMembers(members, [0x7d] + rest); }
      ReadsBracketedMembers(members, rest);
  }

  lemma Bracketed(open: Unit, body: Text, close: Unit, rest: Text)
    ensures ([open] + body + [close] + rest)[0] == open
    ensures ([open] + body + [close] + rest)[1..] == body + ([close] + rest)
    ensures body == [] ==> ([open] + body + [close] + rest)[2..] == rest
    ensures StartsWith([close] + rest, close) && ([close] + rest)[1..] == rest
  {
  }

  lemma ReadsBracketedItems(items: seq<Json>, rest: Text)
    requires items != [] ==> ReadItems(RenderItems(items) + ([0x5d] + rest)) == Some((items, [0x5d] + rest))
    ensures ReadValue(Render(Arr(items)) + rest) == Some((Arr(items), rest))
  {
    Bracketed(0x5b, RenderItems(items), 0x5d, rest);
    if items == [] {
      assert [] + ([0x5d] + rest) == [0x5d] + rest;
    } else {
      ItemsStart(items, [0x5d] + rest);
    }
  }

  lemma ReadsBracketedMembers(members: seq<Member>, rest: Text)
    requires members != [] ==> ReadMembers(RenderMembers(members) + ([0x7d] + rest)) == Some((members, [0x7d] + rest))
    ensures ReadValue(Render(Obj(members)) + rest) == Some((Obj(members), rest))
  {
    Bracketed(0x7b, RenderMembers(members), 0x7d, rest);
    if members == [] {
      assert [] + ([0x7d] + rest) == [0x7d] + rest;
    } else {
      MembersStart(members, [0x7d] + rest);
    }
  }

  lemma ItemsStart(items: seq<Json>, rest: Text)
    requires items != []
    ensures var t := RenderItems(items) + rest; Skip(t) == t && !StartsWith(t, 0x5d)
  {
    RenderStart(items[0]);
    assert (RenderItems(items) + rest)[0] == Render(items[0])[0];
  }

  lemma MembersStart(members: seq<Member>, rest: Text)
    requires members != []
    ensures var t := RenderMembers(members) + rest; Skip(t) == t && !StartsWith(t, 0x7d)
  {
    var m := members[0];
    assert Quote(m.key)[0] == QUOTE && RenderMember(m)[0] == QUOTE;
    assert RenderMembers(members) != [] && RenderMembers(members)[0] == RenderMember(m)[0];
  }

  /** No white space where a value, or what follows one, begins. */
  predicate Compact(t: Text) { t != [] ==> !IsSpace(t[0]) }

  lemma SkipsNothing(t: Text)
    requires Compact(t)
    ensures Skip(t) == t
  {
  }

  lemma CompactStart(j: Json, rest: Text)
    ensures Skip(Render(j) + rest) == Render(j) + rest
  {
    RenderStart(j);
  }

  lemma CommaTail(head: Text, tail: Text, rest: Text)
    ensures head + ([COMMA] + tail) + rest == head + ([COMMA] + (tail + rest))
    ensures ([COMMA] + (tail + rest))[1..] == tail + rest
  {
  }

  lemma ReadsOneMoreItem(head: Json, tail: seq<Json>, text: Text, rest: Text)
    requires ReadItems(text) == Some((tail, rest)) && Skip(text) == text
    requires ReadValue(Render(head) + ([COMMA] + text)) == Some((head, [COMMA] + text))
    ensures ReadItems(Render(head) + ([COMMA] + text)) == Some(([head] + tail, rest))
  {
    SkipsNothing([COMMA] + text);
    assert ([COMMA] + text)[1..] == text;
  }

  lemma ReadsOneMoreMember(head: Member, tail: seq<Member>, text: Text, rest: Text)
    requires ReadMembers(text) == Some((tail, rest)) && Skip(text) == text
    requires ReadMember(RenderMember(head) + ([COMMA] + text)) == Some((head, [COMMA] + text))
    ensures ReadMembers(RenderMember(head) + ([COMMA] + text)) == Some(([head] + tail, rest))
  {
    SkipsNothing([COMMA] + text);
    assert ([COMMA] + text)[1..] == text;
  }

  lemma ReadsLastItem(item: Json, rest: Text)
    requires ReadValue(Render(item) + rest) == Some((item, rest))
    requires Compact(rest) && !StartsWith(rest, COMMA)
    ensures ReadItems(Render(item) + rest) == Some(([item], rest))
  {
    SkipsNothing(rest);
  }

  lemma ReadsLastMember(m: Member, rest: Text)
    requires ReadMember(RenderMember(m) + rest) == Some((m, rest))
    requires Compact(rest) && !StartsWith(rest, COMMA)
    ensures ReadMembers(RenderMember(m) + rest) == Some(([m], rest))
  {
    SkipsNothing(rest);
  }

  lemma {:induction false} ReadsItems(items: seq<Json>, rest: Text)
    requires items != [] && Delimited(rest) && Compact(rest) && !StartsWith(rest, COMMA)
    ensures ReadItems(RenderItems(items) + rest) == Some((items, rest))
    decreases items, 0
  {
    if |items| == 1 {
      ReadsValue(items[0], rest);
      ReadsLastItem(items[0], rest);
      assert items == [items[0]];
    } else {
      var text := RenderItems(items[1..]) + rest;
      ReadsItems(items[1..], rest);
      ItemsStart(items[1..], rest);
      CommaTail(Render(items[0]), RenderItems(items[1..]), rest);
      ReadsValue(items[0], [COMMA] + text);
      ReadsOneMoreItem(items[0], items[1..], text, rest);
      assert items == [items[0]] + items[1..];
    }
  }

  lemma {:induction false} ReadsMember(m: Member, rest: Text)
    requires Delimited(rest)
    ensures ReadMember(RenderMember(m) + rest) == Some((m, rest))
    decreases m, 0
  {
    var value := Render(m.value) + rest;
    ReadsQuote(m.key, [COLON] + value);
    assert RenderMember(m) + rest == Quote(m.key) + ([COLON] + value);
    assert ([COLON] + value)[1..] == value;
    SkipsNothing([COLON] + value);
    CompactStart(m.value, rest);
    ReadsValue(m.value, rest);
  }

  lemma {:induction false} ReadsMembers(members: seq<Member>, rest: Text)
    requires members != [] && Delimited(rest) && Compact(rest) && !StartsWith(rest, COMMA)
    ensures ReadMembers(RenderMembers(members) + rest) == Some((members, rest))
    decreases members, 0
  {
    if |members| == 1 {
      ReadsMember(members[0], rest);
      ReadsLastMember(members[0], rest);
      assert members == [members[0]];
    } else {
      var text := RenderMembers(members[1..]) + rest;
      ReadsMembers(members[1..], rest);
      MembersStart(members[1..], rest);
      CommaTail(RenderMember(members[0]), RenderMembers(members[1..]), rest);
      ReadsMember(members[0], [COMMA] + text);
      ReadsOneMoreMember(members[0], members[1..], text, rest);
      assert members == [members[0]] + members[1..];
    }
  }

  /** Reading a printed value gives it back, whatever white space follows it. */
  lemma ParsesRendered(j: Json, rest: Text)
    requires Skip(rest) == [] && Delimited(rest)
    ensures ParseJson(Render(j) + rest) == Some(j)
  {
    CompactStart(j, rest);
    ReadsValue(j, rest);
  }

  lemma SpaceIgnored(t: Text)
    ensures ParseJson([0x20] + t) == ParseJson(t)
  {
    assert ([0x20] + t)[1..] == t;
  }

  /** JSON text is prefix-free: neither the value nor the point where it ends is ambiguous. */
  lemma RenderPrefixFree(a: Json, restA: Text, b: Json, restB: Text)
    requires Delimited(restA) && Delimited(restB)
    requires Render(a) + restA == Render(b) + restB
    ensures a == b && restA == restB
  {
    ReadsValue(a, restA);
    ReadsValue(b, restB);
  }

  // ---- The text is one well-formed line ----

  predicate IsControl(u: Unit) { u < 0x20 }

  lemma PieceClean(s: Text, i: nat)
    requires i < |s|
    ensures Paired(s, i) ==> Piece(s, i) == [s[i]]
    ensures forall k :: 0 <= k < |Piece(s, i)| ==> !IsControl(Piece(s, i)[k])
    ensures !Paired(s, i) ==> forall k :: 0 <= k < |Piece(s, i)| ==> !IsSurrogate(Piece(s, i)[k])
  {
  }

  lemma QuoteWellFormed(s: Text)
    ensures WellFormed(Quote(s))
  {
    forall i | 0 <= i < |s| { PieceClean(s, i); }
    LiteralWellFormed(Pieces(s), s);
  }

  lemma QuoteClean(s: Text)
    ensures WellFormed(Quote(s))
    ensures forall i :: 0 <= i < |Quote(s)| ==> !IsControl(Quote(s)[i])
  {
    QuoteWellFormed(s);
    forall i | 0 <= i < |s| { PieceClean(s, i); }
    JoinAvoids(Pieces(s), 0, IsControl);
  }

  predicate Clean(t: Text) {
    WellFormed(t) && forall i :: 0 <= i < |t| ==> !IsControl(t[i])
  }

  lemma CleanConcat(a: Text, b: Text)
    requires Clean(a) && Clean(b)
    ensures Clean(a + b)
  {
    WellFormedConcat(a, b);
  }

  /** No line feed or other control, and no unpaired surrogate, in any rendered value. */
  lemma {:induction false} RenderClean(j: Json)
    ensures Clean(Render(j))
    decreases j, 1
  {
    match j
    case Str(s) => QuoteClean(s);
    case Num(n) => assert forall i :: 0 <= i < |Decimal(n)| ==> IsDigit(Decimal(n)[i]);
    case Arr(items) =>
      ItemsClean(items);
      CleanConcat([0x5b], RenderItems(items));
      CleanConcat([0x5b] + RenderItems(items), [0x5d]);
    case Obj(members) =>
      MembersClean(members);
      CleanConcat([0x7b], RenderMembers(members));
      CleanConcat([0x7b] + RenderMembers(members), [0x7d]);
  }

  lemma {:induction false} ItemsClean(items: seq<Json>)
    ensures Clean(RenderItems(items))
    decreases items, 0
  {
    if items != [] {
      RenderClean(items[0]);
      if |items| > 1 {
        ItemsClean(items[1..]);
        CleanConcat([COMMA], RenderItems(items[1..]));
        CleanConcat(Render(items[0]), [COMMA] + RenderItems(items[1..]));
      }
    }
  }

  lemma {:induction false} MembersClean(members: seq<Member>)
    ensures Clean(RenderMembers(members))
    decreases members, 0
  {
    if members != [] {
      var m := members[0];
      QuoteClean(m.key);
      RenderClean(m.value);
      CleanConcat([COLON], Render(m.value));
      CleanConcat(Quote(m.key), [COLON] + Render(m.value));
      if |members| > 1 {
        MembersClean(members[1..]);
        CleanConcat([COMMA], RenderMembers(members[1..]));
        CleanConcat(RenderMember(m), [COMMA] + RenderMembers(members[1..]));
      }
    }
  }
}
