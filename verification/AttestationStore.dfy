/**
 FileAttestationStore.append of phase0/src/attestation-store.ts, while it holds the lock: short writes, and a
 process that may die at any byte.
 */
module AttestationStore {
  import opened Wrappers
  import opened Utf16
  import opened Utf8
  import opened AppendLog
  import opened Device

  datatype Failure =
    | Died
    | WriteFailed
    | Unreadable(error: LoadError)
    | WrongSequence
    | DuplicateId
    | Unaccepted
    | Changed
    | NotReplayed

  /**
   A request to append: the clock at its three validations, what somebody who ignores the lock puts into the file
   between validation and append, the device, and whether the process dies before the replay.
   */
  datatype Request<+E> = Request(
    entry: E, loadedAt: int, checkedAt: int, replayedAt: int, meddled: Option<seq<Byte>>, device: nat -> WriteAnswer,
    diesAfterWrite: bool)

  /** A device that writes something each time it is asked. */
  ghost predicate Willing(device: nat -> WriteAnswer) {
    forall n :: device(n).Writes? && device(n).count > 0
  }

  /** The candidate is in order, new, and acceptable. */
  predicate InSequence<E>(
    codec: Codec<E>, sequence: E -> nat, id: E -> Text, entries: seq<E>, request: Request<E>)
  {
    && sequence(request.entry) == |entries| + 1
    && (forall i :: 0 <= i < |entries| ==> id(entries[i]) != id(request.entry))
    && codec.accepts(request.checkedAt, entries + [request.entry])
  }

  class Store<E(==,!new)> {
    const codec: Codec<E>
    const sequence: E -> nat
    const id: E -> Text
    var bytes: seq<Byte>

    constructor (codec: Codec<E>, sequence: E -> nat, id: E -> Text)
      ensures this.codec == codec && this.sequence == sequence && this.id == id && bytes == []
    {
      this.codec, this.sequence, this.id := codec, sequence, id;
      bytes := [];
    }

    /** writeAll: loop until the last byte is written, an error comes, or the process dies. */
    method WriteAll(line: seq<Byte>, device: nat -> WriteAnswer) returns (r: Result<(), Failure>, ghost written: nat)
      modifies this`bytes
      ensures written <= |line| && bytes == old(bytes) + line[..written]
      ensures r.Ok? ==> written == |line|
      ensures r.Err? ==> r.error == Died || r.error == WriteFailed
      ensures Willing(device) ==> r.Ok?
    {
      var offset, attempt := 0, 0;
      assert line[..0] == [];
      while offset < |line|
        invariant offset <= |line| && bytes == old(bytes) + line[..offset]
        decreases |line| - offset
      {
        match device(attempt)
        case Throws =>
          return Err(WriteFailed), offset;
        case Dies(after) =>
          var count := Min(after, |line| - offset);
          Chunks(old(bytes), line, offset, count);
          bytes := bytes + line[offset..offset + count];
          return Err(Died), offset + count;
        case Writes(most) =>
          var count := Min(most, |line| - offset);
          if count == 0 {
            return Err(WriteFailed), offset;
          }
          Chunks(old(bytes), line, offset, count);
          bytes := bytes + line[offset..offset + count];
          offset, attempt := offset + count, attempt + 1;
      }
      return Ok(()), offset;
    }

    /** The entries of the log. */
    function Loaded(now: int): Result<seq<E>, LoadError>
      reads this
    {
      Load(codec, now, bytes)
    }

    predicate Admissible(entries: seq<E>, request: Request<E>) {
      InSequence(codec, sequence, id, entries, request)
    }

    /** The file as append opens it for writing. */
    function Bound(request: Request<E>): seq<Byte>
      reads this
    {
      if request.meddled.Some? then request.meddled.value else bytes
    }

    /**
     append. Whatever happens, the file it opened only grows: by nothing, by the one line of the entry, or by bytes
     that no later load accepts; and it grows only if it still reads as it did when the candidate was validated.
     */
    method Append(request: Request<E>) returns (r: Result<(), Failure>, ghost written: nat)
      requires Sound(codec) && request.loadedAt <= request.checkedAt <= request.replayedAt
      modifies this`bytes
      ensures written <= |Line(codec, request.entry)|
      ensures bytes == old(bytes) || bytes == old(Bound(request)) + Line(codec, request.entry)[..written]
      ensures written > 0 ==>
                && bytes == old(Bound(request)) + Line(codec, request.entry)[..written]
                && Decode(old(Bound(request))) == Decode(old(bytes))
                && old(Loaded(request.loadedAt)).Ok?
                && Admissible(old(Loaded(request.loadedAt)).value, request)
      ensures 0 < written < |Line(codec, request.entry)| ==>
                forall now :: Load(codec, now, bytes) == Err(TrailingFragment)
      ensures written == |Line(codec, request.entry)| ==>
                forall now :: request.checkedAt <= now ==>
                  Load(codec, now, bytes) == Ok(old(Loaded(request.loadedAt)).value + [request.entry])
      ensures r.Ok? || r == Err(NotReplayed) ==>
                && written == |Line(codec, request.entry)| > 0
                && (r.Ok? <==> Decode(old(bytes)) == Canonical(codec, old(Loaded(request.loadedAt)).value))
      ensures r.Err? && r.error.Unreadable? ==> written == 0 && old(Loaded(request.loadedAt)).Err?
      ensures r.Err? && r.error in {WrongSequence, DuplicateId, Unaccepted} ==>
                && written == 0 && old(Loaded(request.loadedAt)).Ok?
                && !Admissible(old(Loaded(request.loadedAt)).value, request)
      ensures r == Err(Changed) <==>
                && old(Loaded(request.loadedAt)).Ok?
                && Admissible(old(Loaded(request.loadedAt)).value, request)
                && Decode(old(Bound(request))) != Decode(old(bytes))
      ensures r == Err(Changed) ==> written == 0
      ensures Willing(request.device) && !request.diesAfterWrite ==>
                !(r.Err? && r.error in {Died, WriteFailed})
    {
      var text := Decode(bytes);
      assert [] == Line(codec, request.entry)[..0];
      var loaded := LoadText(codec, request.loadedAt, text);
      if loaded.Err? {
        return Err(Unreadable(loaded.error)), 0;
      }
      var entries, entry := loaded.value, request.entry;
      if sequence(entry) != |entries| + 1 {
        return Err(WrongSequence), 0;
      }
      if exists i :: 0 <= i < |entries| && id(entries[i]) == id(entry) {
        return Err(DuplicateId), 0;
      }
      var candidate := entries + [entry];
      if !codec.accepts(request.checkedAt, candidate) {
        return Err(Unaccepted), 0;
      }
      if request.meddled.Some? {
        bytes := request.meddled.value;
      }
      if Decode(bytes) != text {
        return Err(Changed), 0;
      }
      ghost var bound := bytes;
      r, written := WriteAll(Line(codec, entry), request.device);
      Grown(codec, request.loadedAt, request.checkedAt, bound, entries, entry, written);
      LineShape(codec, entry);
      if r.Err? {
        return;
      }
      if request.diesAfterWrite {
        return Err(Died), written;
      }
      r := Replay(request, text, entries);
    }

    /** The check at the end of append: the log must be, byte for byte, what printing the candidate gives. */
    method Replay(request: Request<E>, text: Text, entries: seq<E>) returns (r: Result<(), Failure>)
      requires PrintSound(codec) && Load(codec, request.replayedAt, bytes) == Ok(entries + [request.entry])
      requires Decode(bytes) == text + codec.write(request.entry) + [LF]
      ensures r == if text == Canonical(codec, entries) then Ok(()) else Err(NotReplayed)
    {
      var candidate := entries + [request.entry];
      var replayed := Decode(bytes);
      CanonicalAppend(codec, entries, request.entry, text);
      if replayed != Canonical(codec, candidate) || LoadText(codec, request.replayedAt, replayed) != Ok(candidate) {
        return Err(NotReplayed);
      }
      return Ok(());
    }
  }

  lemma Chunks(was: seq<Byte>, line: seq<Byte>, offset: nat, count: nat)
    requires offset + count <= |line|
    ensures was + line[..offset] + line[offset..offset + count] == was + line[..offset + count]
  {
    assert line[..offset] + line[offset..offset + count] == line[..offset + count];
  }

  /** What the log loads to once some of a line is written. */
  lemma Grown<E(!new)>(
    c: Codec<E>, loadedAt: int, checkedAt: int, was: seq<Byte>, entries: seq<E>, e: E, written: nat)
    requires Sound(c) && Load(c, loadedAt, was) == Ok(entries) && c.accepts(checkedAt, entries + [e])
    requires written <= |Line(c, e)|
    ensures var now := was + Line(c, e)[..written];
            && (0 < written < |Line(c, e)| ==> forall t :: Load(c, t, now) == Err(TrailingFragment))
            && (written == |Line(c, e)| ==>
                  && Decode(now) == Decode(was) + c.write(e) + [LF]
                  && forall t :: checkedAt <= t ==> Load(c, t, now) == Ok(entries + [e]))
  {
    if written == |Line(c, e)| {
      assert Line(c, e)[..written] == Line(c, e);
      DecodeAppended(c, loadedAt, was, e);
      forall t | checkedAt <= t
        ensures LoadText(c, t, Decode(was) + c.write(e) + [LF]) == Ok(entries + [e])
      {
        LoadAppended(c, loadedAt, t, Decode(was), entries, e);
      }
    } else if written > 0 {
      forall t
        ensures Load(c, t, was + Line(c, e)[..written]) == Err(TrailingFragment)
      {
        TornRejected(c, loadedAt, t, was, e, written);
      }
    }
  }

  lemma CanonicalAppend<E>(c: Codec<E>, entries: seq<E>, e: E, text: Text)
    ensures Canonical(c, entries + [e]) == Canonical(c, entries) + c.write(e) + [LF]
    ensures text + c.write(e) + [LF] == Canonical(c, entries + [e]) <==> text == Canonical(c, entries)
  {
    assert (entries + [e])[..|entries|] == entries;
    SuffixEqual(text, Canonical(c, entries), c.write(e) + [LF]);
    Assoc(text, c.write(e), [LF]);
    Assoc(Canonical(c, entries), c.write(e), [LF]);
  }

  lemma SuffixEqual(a: Text, b: Text, s: Text)
    ensures a + s == b + s <==> a == b
  {
    if a + s == b + s {
      assert |a| == |b|;
      assert a == (a + s)[..|a|] && b == (b + s)[..|b|];
    }
  }

  /** Appending to a log that loads but is not canonical: the line is written, and then append throws. */
  method AppendUncanonical<E(==,!new)>(
    codec: Codec<E>, sequence: E -> nat, id: E -> Text, log: seq<Byte>, ghost entries: seq<E>, request: Request<E>)
    returns (store: Store<E>, r: Result<(), Failure>)
    requires Sound(codec) && request.loadedAt <= request.checkedAt <= request.replayedAt
    requires Load(codec, request.loadedAt, log) == Ok(entries) && Decode(log) != Canonical(codec, entries)
    requires InSequence(codec, sequence, id, entries, request)
    requires Willing(request.device) && request.meddled.None? && !request.diesAfterWrite
    ensures r == Err(NotReplayed)
    ensures store.bytes == log + Line(codec, request.entry)
    ensures Load(codec, request.replayedAt, store.bytes) == Ok(entries + [request.entry])
  {
    store := new Store(codec, sequence, id);
    store.bytes := log;
    ghost var written;
    r, written := store.Append(request);
    ghost var line := Line(codec, request.entry);
    assert line[..|line|] == line;
  }

  // ---- Any sequence of appends, from an empty file ----

  /** Every writer holds the lock, and time does not go backwards. */
  ghost predicate InOrder<E>(requests: seq<Request<E>>) {
    && (forall i :: 0 <= i < |requests| ==> requests[i].meddled.None?)
    && (forall i :: 0 <= i < |requests| ==>
          requests[i].loadedAt <= requests[i].checkedAt <= requests[i].replayedAt)
    && (forall i, j :: 0 <= i < j < |requests| ==> requests[i].replayedAt <= requests[j].loadedAt)
  }

  /** The file holds exactly these entries, printed, and perhaps a torn line after them. */
  ghost predicate Contains<E(!new)>(c: Codec<E>, bytes: seq<Byte>, entries: seq<E>, torn: bool, since: int) {
    if torn then forall now :: Load(c, now, bytes).Err?
    else Decode(bytes) == Canonical(c, entries) && forall now :: since <= now ==> Load(c, now, bytes) == Ok(entries)
  }

  /** The entries of the requests that made it into the file, in order. */
  ghost function Entries<E>(requests: seq<Request<E>>, added: seq<bool>): seq<E>
    requires |added| <= |requests|
  {
    if added == [] then []
    else
      var n := |added| - 1;
      if added[n] then Entries(requests, added[..n]) + [requests[n].entry] else Entries(requests, added[..n])
  }

  lemma EntriesStep<E>(requests: seq<Request<E>>, added: seq<bool>, more: bool)
    requires |added| < |requests|
    ensures Entries(requests, added + [more]) ==
            (if more then Entries(requests, added) + [requests[|added|].entry] else Entries(requests, added))
  {
    assert (added + [more])[..|added|] == added;
  }

  ghost function Since<E>(requests: seq<Request<E>>, start: int, n: nat): int
    requires n <= |requests|
  {
    if n == 0 then start else requests[n - 1].replayedAt
  }

  lemma SinceLater<E>(requests: seq<Request<E>>, start: int, n: nat)
    requires n < |requests| && InOrder(requests) && forall i :: 0 <= i < |requests| ==> start <= requests[i].loadedAt
    ensures Since(requests, start, n) <= requests[n].loadedAt <= requests[n].checkedAt <= requests[n].replayedAt
  {
  }

  lemma EmptyContains<E(!new)>(c: Codec<E>, start: int)
    requires Sound(c) && c.accepts(start, [])
    ensures Contains(c, [], [], false, start)
  {
    forall now | start <= now
      ensures Load(c, now, []) == Ok([])
    {
      assert c.accepts(now, []);
    }
  }

  /**
   Every run of appends leaves the entries of exactly the requests it added, in order, every acknowledged one
   among them; and the check at the end of append never fails.
   */
  method AppendAll<E(==,!new)>(store: Store<E>, requests: seq<Request<E>>, start: int)
    returns (outcomes: seq<Result<(), Failure>>, ghost added: seq<bool>, ghost torn: bool)
    requires Sound(store.codec) && store.bytes == [] && store.codec.accepts(start, [])
    requires InOrder(requests) && forall i :: 0 <= i < |requests| ==> start <= requests[i].loadedAt
    modifies store`bytes
    ensures |outcomes| == |added| == |requests|
    ensures forall i :: 0 <= i < |outcomes| && outcomes[i].Ok? ==> added[i]
    ensures Contains(store.codec, store.bytes, Entries(requests, added), torn, Since(requests, start, |requests|))
    ensures forall i :: 0 <= i < |outcomes| ==> outcomes[i] != Err(NotReplayed) && outcomes[i] != Err(Changed)
  {
    outcomes, added, torn := [], [], false;
    ghost var entries: seq<E> := [];
    EmptyContains(store.codec, start);
    for n := 0 to |requests|
      invariant |outcomes| == |added| == n && entries == Entries(requests, added)
      invariant forall i :: 0 <= i < n && outcomes[i].Ok? ==> added[i]
      invariant forall i :: 0 <= i < n ==> outcomes[i] != Err(NotReplayed) && outcomes[i] != Err(Changed)
      invariant Contains(store.codec, store.bytes, entries, torn, Since(requests, start, n))
    {
      SinceLater(requests, start, n);
      var outcome;
      ghost var more, tore;
      outcome, more, tore := AppendOne(store, requests[n], entries, torn, Since(requests, start, n));
      EntriesStep(requests, added, more);
      outcomes, added := outcomes + [outcome], added + [more];
      entries := if more then entries + [requests[n].entry] else entries;
      torn := torn || tore;
    }
  }

  method AppendOne<E(==,!new)>(
    store: Store<E>, request: Request<E>, ghost entries: seq<E>, ghost torn: bool, ghost since: int)
    returns (outcome: Result<(), Failure>, ghost added: bool, ghost tore: bool)
    requires Sound(store.codec) && Contains(store.codec, store.bytes, entries, torn, since)
    requires since <= request.loadedAt <= request.checkedAt <= request.replayedAt && request.meddled.None?
    modifies store`bytes
    ensures outcome != Err(NotReplayed) && outcome != Err(Changed)
    ensures outcome.Ok? ==> added && !tore
    ensures Contains(store.codec, store.bytes, if added then entries + [request.entry] else entries, torn || tore,
                     request.replayedAt)
    ensures added ==> !torn
  {
    ghost var was := store.bytes;
    ghost var written;
    outcome, written := store.Append(request);
    ghost var whole := |Line(store.codec, request.entry)|;
    added := written == whole && written > 0;
    tore := 0 < written < whole;
    if written == 0 {
      assert store.bytes == was;
    }
    if added {
      CanonicalAppend(store.codec, entries, request.entry, Decode(was));
      Grown(store.codec, request.loadedAt, request.checkedAt, was, entries, request.entry, written);
    }
  }
}
