/** The store of attestation events: appending under the reducer, and a log that append can only spoil. */
module EventStore {
  import opened Wrappers
  import opened Utf16
  import opened Utf8
  import opened Json
  import opened Attestations
  import opened Platform
  import opened EventLog
  import opened AttestationStore
  import AppendLog

  ghost predicate LoadsAs(
    lib: Library, trust: Trust, verifier: (int, RepositoryControl) -> bool, now: int, bytes: seq<Byte>,
    events: seq<Event>)
  {
    AppendLog.Load(CodecOf(lib, trust, verifier), now, bytes) == Ok(events)
  }

  function Sequenced(): Event -> nat { (e: Event) => e.Sequence() }

  function Identified(): Event -> Text { (e: Event) => e.EventId() }

  /** FileAttestationStore over an empty file, and any sequence of appends. */
  method AppendEvents(
    lib: Library, trust: Trust, verifier: (int, RepositoryControl) -> bool, requests: seq<Request<Event>>, start: int)
    returns (store: Store<Event>, outcomes: seq<Result<(), Failure>>, ghost added: seq<bool>, ghost torn: bool)
    requires LastingVerifier(verifier) && Accepts(lib, trust, verifier, start, [])
    requires InOrder(requests) && forall i :: 0 <= i < |requests| ==> start <= requests[i].loadedAt
    ensures |outcomes| == |added| == |requests|
    ensures forall i :: 0 <= i < |outcomes| && outcomes[i].Ok? ==> added[i]
    ensures !torn ==> forall now :: Since(requests, start, |requests|) <= now ==>
              LoadsAs(lib, trust, verifier, now, store.bytes, Entries(requests, added))
    ensures torn ==> forall now, events :: !LoadsAs(lib, trust, verifier, now, store.bytes, events)
  {
    EventCodecSound(lib, trust, verifier);
    store := new Store(CodecOf(lib, trust, verifier), Sequenced(), Identified());
    outcomes, added, torn := AppendAll(store, requests, start);
  }

  // ---- A log that somebody reformatted ----

  /** The first line of a log with a space before it. */
  function Spaced(e: Event): Text { [0x20] + Written(e) }

  lemma SpaceSkipped(lib: Library, e: Event)
    ensures ReadLine(lib, Spaced(e)) == ReadLine(lib, Written(e))
  {
    SpaceIgnored(Written(e));
  }

  lemma SpacedShape(e: Event)
    ensures Spaced(e) != [] && LF !in Spaced(e) && WellFormed(Spaced(e))
  {
    WrittenLine(e);
    WellFormedConcat([0x20], Written(e));
  }

  function SpacedLog(e: Event): seq<Byte> { Encode(Spaced(e) + [LF]) }

  lemma SpacedDecodes(e: Event)
    ensures Decode(SpacedLog(e)) == Spaced(e) + [LF]
  {
    SpacedShape(e);
    WellFormedConcat(Spaced(e), [LF]);
    DecodeEncode(Spaced(e) + [LF]);
  }

  /** A log of one line, however that line is written. */
  lemma OneLineLoads<E>(c: AppendLog.Codec<E>, now: int, line: Text, e: E)
    requires line != [] && LF !in line && c.read(line) == Some(e) && c.accepts(now, [e])
    ensures AppendLog.LoadText(c, now, line + [LF]) == Ok([e])
  {
    AppendLog.SplitAppended([], line);
    assert [] + line + [LF] == line + [LF];
    assert AppendLog.Lines([]) + [line] == [line];
    AppendLog.ParseAllAppend(c, [], line);
    assert [] + [line] == [line] && [] + [e] == [e];
  }

  lemma CanonicalOne<E>(c: AppendLog.Codec<E>, e: E)
    ensures |AppendLog.Canonical(c, [e])| == |c.write(e)| + 1
  {
    assert [e][..0] == [];
  }

  lemma SpacedRead(lib: Library, trust: Trust, verifier: (int, RepositoryControl) -> bool, now: int, e: Event)
    requires Accepts(lib, trust, verifier, now, [e])
    ensures ReadLine(lib, Spaced(e)) == Some(e)
  {
    AcceptedValid(lib, trust, verifier, now, [e], 0);
    ReadsWritten(lib, e);
    SpaceSkipped(lib, e);
  }

  /** JSON allows white space before a value: the log loads, and is not what printing its event gives. */
  lemma SpacedLoads(lib: Library, trust: Trust, verifier: (int, RepositoryControl) -> bool, now: int, e: Event)
    requires Accepts(lib, trust, verifier, now, [e])
    ensures LoadsAs(lib, trust, verifier, now, SpacedLog(e), [e])
    ensures Decode(SpacedLog(e)) != AppendLog.Canonical(CodecOf(lib, trust, verifier), [e])
  {
    var c := CodecOf(lib, trust, verifier);
    SpacedDecodes(e);
    SpacedShape(e);
    SpacedRead(lib, trust, verifier, now, e);
    OneLineLoads(c, now, Spaced(e), e);
    CanonicalOne(c, e);
    assert |Spaced(e) + [LF]| == |Written(e)| + 2;
  }

  lemma SecondInSequence(
    lib: Library, trust: Trust, verifier: (int, RepositoryControl) -> bool, e: Event, request: Request<Event>)
    requires Accepts(lib, trust, verifier, request.checkedAt, [e, request.entry])
    requires e.EventId() != request.entry.EventId() && request.entry.Sequence() == 2
    ensures InSequence(CodecOf(lib, trust, verifier), Sequenced(), Identified(), [e], request)
  {
    assert [e] + [request.entry] == [e, request.entry];
  }

  lemma Sequel(a: Event, b: Event)
    ensures [a] + [b] == [a, b]
  {
  }

  /** Appending to it writes the new line and then throws: the log grows, and the caller is told that it failed. */
  method AppendToSpaced(
    lib: Library, trust: Trust, verifier: (int, RepositoryControl) -> bool, e: Event, request: Request<Event>)
    returns (store: Store<Event>, r: Result<(), Failure>)
    requires LastingVerifier(verifier)
    requires Accepts(lib, trust, verifier, request.loadedAt, [e])
    requires Accepts(lib, trust, verifier, request.checkedAt, [e, request.entry])
    requires request.loadedAt <= request.checkedAt <= request.replayedAt
    requires e.EventId() != request.entry.EventId() && request.entry.Sequence() == 2
    requires Willing(request.device) && request.meddled.None? && !request.diesAfterWrite
    ensures r == Err(NotReplayed)
    ensures store.bytes == SpacedLog(e) + AppendLog.Line(CodecOf(lib, trust, verifier), request.entry)
    ensures LoadsAs(lib, trust, verifier, request.replayedAt, store.bytes, [e, request.entry])
  {
    EventCodecSound(lib, trust, verifier);
    SpacedLoads(lib, trust, verifier, request.loadedAt, e);
    SecondInSequence(lib, trust, verifier, e, request);
    Sequel(e, request.entry);
    store, r := AppendUncanonical(
      CodecOf(lib, trust, verifier), Sequenced(), Identified(), SpacedLog(e), [e], request);
  }
}
