/** A concrete trust base and two challenges it accepts: the reformatted log of EventStore exists. */
module EventStoreWitness {
  import opened Wrappers
  import opened Utf16
  import opened Utf8
  import opened Attestations
  import opened Statements
  import opened Platform
  import opened Reducer
  import opened AttestationIndex
  import opened EventLog
  import opened EventStore
  import BaseConflicts
  import AppendLog
  import AttestationStore
  import Device
  import Folding

  /** A platform on which every check of an outside call passes. */
  function Lenient(): Library {
    Library((t: Text) => 0, (t: Text) => true, (t: Text) => t, (t: Text) => t, (w: Text, m: Text, s: Text) => true,
            (w: Text, p: Payload, h: Text, s: Text) => true, (t: Text) => true, (t: Text) => true, (t: Text) => true)
  }

  function Hex(digit: Unit, digits: nat): (t: Text)
    requires HexValue(digit) >= 0
    ensures IsHex(t, digits)
  {
    [0x30, 0x78] + seq(digits, _ => digit)
  }

  /** The subject whose address repeats one digit; all subjects have one wallet. */
  function SubjectOf(digit: Unit): (s: Subject)
    requires HexValue(digit) >= 0
    ensures ValidSubject(s) && s.wallet == Hex(0x30, 40)
    ensures s.registrationId == Ascii("eip155:1315:") + Hex(digit, 40)
  {
    Subject(Ascii("eip155:1315:") + Hex(digit, 40), Hex(digit, 40), Hex(0x30, 40), Hex(digit, 64), [])
  }

  const A := SubjectOf(0x31)
  const B := SubjectOf(0x32)

  function Base(): Trust { Trust(map[], map[], [A, B], None, None) }

  function Verifier(): (int, RepositoryControl) -> bool { (now: int, e: RepositoryControl) => true }

  function Label(n: nat): Text { [0x60 + n % 16] }

  /** B challenges A; events of different sequence numbers are about different conflicts. */
  function Opening(sequence: nat): ChallengeOpened {
    ChallengeOpened(Label(sequence), sequence, [], Label(sequence), A.registrationId, B.registrationId, B.wallet, [],
                    DuplicateBytes, Hex(0x30, 64), Hex(0x30, 2))
  }

  lemma IdentifierValid(digit: Unit)
    requires HexValue(digit) >= 0
    ensures IsRegistrationId(Ascii("eip155:1315:") + Hex(digit, 40))
  {
    var prefix := Ascii("eip155:1315:");
    assert |prefix| == 12;
    assert (prefix + Hex(digit, 40))[..12] == prefix && (prefix + Hex(digit, 40))[12..] == Hex(digit, 40);
  }

  lemma IdentifiersDiffer()
    ensures A.registrationId != B.registrationId
  {
    var prefix := Ascii("eip155:1315:");
    assert A.registrationId[14] == Hex(0x31, 40)[2] && B.registrationId[14] == Hex(0x32, 40)[2];
  }

  lemma OpeningValid(sequence: nat)
    requires 0 < sequence < 16
    ensures ValidEvent(Lenient(), OpenedEvent(Opening(sequence)))
  {
    IdentifierValid(0x31);
    IdentifierValid(0x32);
    IdentifiersDiffer();
  }

  function Subjects(): Subjects { map[A.registrationId := A, B.registrationId := B] }

  lemma SubjectsRead()
    ensures SubjectMap([A, B], 2) == Ok(Subjects())
  {
    IdentifiersDiffer();
    assert SubjectMap([A, B], 0) == Ok(map[]);
    assert SubjectMap([A, B], 1) == Ok(map[A.registrationId := A]);
  }

  lemma NoClash(naming: BaseConflicts.Naming, c: Text, v: Conflict)
    ensures !BaseConflicts.Seeded(naming, [A, B], 2, c, v)
  {
  }

  /** One wallet clashes with nobody. */
  lemma NoBaseConflict(now: int)
    ensures BaseOf(Lenient(), TrustAt(Base(), Verifier(), now)) == map[]
  {
    var naming, list := BaseConflicts.Filed(Lenient()), [A, B];
    BaseConflicts.SeedMapSeeds(naming, list, 2);
    var conflicts := BaseConflicts.SeedMap(naming, list, 2);
    forall c
      ensures c !in conflicts
    {
      if c in conflicts {
        NoClash(naming, c, conflicts[c]);
      }
    }
  }

  ghost function Labels(n: nat): set<Text> {
    if n == 0 then {} else Labels(n - 1) + {Label(n)}
  }

  lemma {:induction false} LabelNew(n: nat, m: nat)
    requires n < m < 16
    ensures Label(m) !in Labels(n)
  {
    if n > 0 {
      LabelNew(n - 1, m);
      assert Label(n)[0] != Label(m)[0];
    }
  }

  /** After n challenges, each of its own conflict. */
  ghost predicate Reached(st: State, n: nat) {
    && st.eventIds == Labels(n) && st.conflicts.Keys == Labels(n)
    && (st.priorOccurredAt.Some? ==> st.priorOccurredAt.value <= 0)
  }

  lemma OpeningInOrder(trust: Trust, st: State, n: nat)
    requires 0 < n < 16 && trust.now.Some? && trust.now.value >= 0 && Label(n) !in st.eventIds
    requires st.priorOccurredAt.Some? ==> st.priorOccurredAt.value <= 0
    ensures CheckEnvelope(Lenient(), trust, st, n - 1, OpenedEvent(Opening(n))) == None
  {
    OpeningValid(n);
  }

  lemma OpeningApplies(st: State, n: nat)
    requires Label(n) !in st.conflicts
    ensures var r := ApplyOpened(Lenient(), Subjects(), st, Opening(n));
            && r.Ok?
            && r.value.conflicts.Keys == st.conflicts.Keys + {Label(n)}
            && r.value.eventIds == st.eventIds && r.value.priorOccurredAt == st.priorOccurredAt
  {
    IdentifiersDiffer();
  }

  /** A challenge of a conflict that is not on record yet is accepted. */
  lemma OpeningAccepted(trust: Trust, st: State, n: nat)
    requires 0 < n < 16 && trust.now.Some? && trust.now.value >= 0
    requires Label(n) !in st.eventIds && Label(n) !in st.conflicts
    requires st.priorOccurredAt.Some? ==> st.priorOccurredAt.value <= 0
    ensures var r := Step(Lenient(), trust, Subjects(), st, n - 1, OpenedEvent(Opening(n)));
            && r.Ok?
            && r.value.eventIds == st.eventIds + {Label(n)}
            && r.value.conflicts.Keys == st.conflicts.Keys + {Label(n)}
            && r.value.priorOccurredAt == Some(0)
  {
    OpeningInOrder(trust, st, n);
    OpeningApplies(Seen(Lenient(), st, OpenedEvent(Opening(n))), n);
  }

  lemma ReachedNext(trust: Trust, st: State, n: nat)
    requires 0 < n < 16 && trust.now.Some? && trust.now.value >= 0 && Reached(st, n - 1)
    ensures var r := Step(Lenient(), trust, Subjects(), st, n - 1, OpenedEvent(Opening(n)));
            r.Ok? && Reached(r.value, n)
  {
    LabelNew(n - 1, n);
    assert Label(n) !in st.conflicts.Keys;
    OpeningAccepted(trust, st, n);
  }

  function Openings(n: nat): (log: seq<Event>) {
    seq(n, i requires 0 <= i < n => OpenedEvent(Opening(i + 1)))
  }

  lemma {:induction false} FoldReaches<S(!new), E, X>(
    turn: Folding.Turn<S, E, X>, init: S, list: seq<E>, n: nat, reached: (S, nat) -> bool)
    requires n <= |list| && reached(init, 0)
    requires forall st, i :: 0 <= i < |list| && reached(st, i) ==>
               turn(st, i, list[i]).Ok? && reached(turn(st, i, list[i]).value, i + 1)
    ensures Folding.Fold(turn, init, list, n).Ok? && reached(Folding.Fold(turn, init, list, n).value, n)
  {
    if n > 0 {
      FoldReaches(turn, init, list, n - 1, reached);
    }
  }

  lemma OpeningsRun(trust: Trust, n: nat)
    requires n < 16 && trust.now.Some? && trust.now.value >= 0
    ensures Run(Lenient(), trust, Subjects(), map[], Openings(n), n).Ok?
  {
    var turn, log := TurnOf(Lenient(), trust, Subjects()), Openings(n);
    forall st, i | 0 <= i < n && Reached(st, i)
      ensures turn(st, i, log[i]).Ok? && Reached(turn(st, i, log[i]).value, i + 1)
    {
      ReachedNext(trust, st, i + 1);
    }
    FoldReaches(turn, InitialState(Subjects(), map[]), log, n, (st, i) => Reached(st, i));
  }

  lemma OpeningsAccepted(now: int, n: nat)
    requires now >= 0 && n < 16
    ensures Accepts(Lenient(), Base(), Verifier(), now, Openings(n))
  {
    SubjectsRead();
    NoBaseConflict(now);
    OpeningsRun(TrustAt(Base(), Verifier(), now), n);
  }

  lemma FirstTwo()
    ensures var e, f := OpenedEvent(Opening(1)), OpenedEvent(Opening(2));
            && Openings(1) == [e] && Openings(2) == [e, f]
            && Accepts(Lenient(), Base(), Verifier(), 0, [e]) && Accepts(Lenient(), Base(), Verifier(), 0, [e, f])
            && e.EventId() != f.EventId() && f.Sequence() == 2
  {
    var e, f := OpenedEvent(Opening(1)), OpenedEvent(Opening(2));
    assert Openings(1) == [e] && Openings(2) == [e, f];
    OpeningsAccepted(0, 1);
    OpeningsAccepted(0, 2);
    LabelNew(1, 2);
    assert Labels(1) == Labels(0) + {Label(1)};
  }

  /** A loadable log on which append writes its line and then throws. */
  method AppendSpoils() returns (log: seq<Byte>, r: Result<(), AttestationStore.Failure>, after: seq<Byte>)
    ensures LoadsAs(Lenient(), Base(), Verifier(), 0, log, Openings(1))
    ensures LoadsAs(Lenient(), Base(), Verifier(), 0, after, Openings(2)) && log < after
    ensures r == Err(AttestationStore.NotReplayed)
  {
    var e, f := OpenedEvent(Opening(1)), OpenedEvent(Opening(2));
    FirstTwo();
    SpacedLoads(Lenient(), Base(), Verifier(), 0, e);
    var request := AttestationStore.Request(f, 0, 0, 0, None, (attempt: nat) => Device.Writes(1), false);
    log := SpacedLog(e);
    var store;
    store, r := AppendToSpaced(Lenient(), Base(), Verifier(), e, request);
    after := store.bytes;
    AppendLog.LineShape(CodecOf(Lenient(), Base(), Verifier()), f);
  }
}
