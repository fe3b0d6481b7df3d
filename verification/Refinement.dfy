/**
 The state the reducer keeps is, after every accepted log, a plain reading of that log; and it accepts an
 event exactly when the log so far allows it.
 */
module Refinement {
  import opened Wrappers
  import opened Utf16
  import opened Attestations
  import opened Statements
  import opened Platform
  import opened Reducer
  import opened History

  type Base = map<Text, Conflict>

  function Seeded(base: Base): Seeds { map c | c in base :: base[c].registrationIds }

  /** A seeded conflict is open and has no events yet. */
  predicate FreshBase(base: Base) {
    forall c :: c in base ==> base[c].outcome.None? && base[c].eventIds == []
  }

  // ---- The state as a reading of the log ----

  function Notes(log: seq<Event>, n: nat, id: Text): seq<RevocationRecord>
    requires n <= |log|
  {
    if n == 0 then []
    else if Revokes(log[n - 1], id) then
      var e := log[n - 1].revocation;
      Notes(log, n - 1, id) + [RevocationRecord(e.level, e.eventId, e.occurredAt, e.reason)]
    else Notes(log, n - 1, id)
  }

  function RegistrationOf(lib: Library, s: Subject, log: seq<Event>, n: nat): Registration
    requires n <= |log|
  {
    var id := s.registrationId;
    Registration(
      s,
      Ids(Filter(log, n, Evidence(id))),
      Notes(log, n, id),
      RepositoryActive(log, n, id),
      OrganizationActive(log, n, id),
      if RepositoryActive(log, n, id) then LastTime(lib, log, n, RepositoryEvidence(id)) else None,
      if OrganizationActive(log, n, id) then LastTime(lib, log, n, Approvals(id)) else None,
      LastTime(lib, log, n, RepositoryRevocations(id)),
      LastTime(lib, log, n, Revocations(id)))
  }

  function Lookup<V>(m: map<Text, V>, key: Text): Option<V> {
    if key in m then Some(m[key]) else None
  }

  function RegistrationAt(lib: Library, subjects: Subjects, log: seq<Event>, n: nat, id: Text): Option<Registration>
    requires n <= |log|
  {
    if id in subjects then Some(RegistrationOf(lib, subjects[id], log, n)) else None
  }

  function ConsumedBy(log: seq<Event>, n: nat): Consumed
    requires n <= |log|
  {
    Consumed(
      set i | 0 <= i < n && log[i].RepositoryEvent? :: log[i].repository.statementHash,
      set i | 0 <= i < n && log[i].RepositoryEvent? :: log[i].repository.challenge.nonce,
      set i | 0 <= i < n && log[i].RepositoryEvent? :: log[i].repository.signature,
      set i | 0 <= i < n && log[i].RepositoryEvent? :: log[i].repository.forgeObservation,
      set i | 0 <= i < n && log[i].OrganizationEvent? :: log[i].organization.approval.statementHash,
      set i | 0 <= i < n && log[i].OrganizationEvent? :: log[i].organization.approval.signature)
  }

  /** How a conflict came about: seeded by the base subjects, or by its first signed challenge. */
  function Origin(subjects: Subjects, base: Base, log: seq<Event>, n: nat, c: Text): Option<Conflict>
    requires n <= |log|
  {
    if n == 0 then if c in base then Some(base[c]) else None
    else
      match Origin(subjects, base, log, n - 1, c)
      case Some(origin) => Some(origin)
      case None =>
        if && Opens(log[n - 1], c)
           && log[n - 1].opening.challengedRegistrationId in subjects
           && log[n - 1].opening.challengerRegistrationId in subjects
        then Some(NewConflict(subjects, log[n - 1].opening))
        else None
  }

  /** The outcome of the last resolution of a conflict. */
  function OutcomeOf(log: seq<Event>, n: nat, c: Text): Option<Outcome>
    requires n <= |log|
  {
    if n == 0 then None
    else if Resolves(log[n - 1], c) then Some(log[n - 1].resolution.outcome)
    else OutcomeOf(log, n - 1, c)
  }

  function ConflictOf(subjects: Subjects, base: Base, log: seq<Event>, n: nat, c: Text): Option<Conflict>
    requires n <= |log|
  {
    match Origin(subjects, base, log, n, c)
    case None => None
    case Some(origin) =>
      Some(origin.(outcome := OutcomeOf(log, n, c), eventIds := Ids(Filter(log, n, ConflictEvents(c)))))
  }

  // The state st says about the log what the first n events say, component by component.

  ghost predicate ReadsEnvelopes(lib: Library, log: seq<Event>, n: nat, st: State)
    requires n <= |log|
  {
    && st.eventIds == (set i | 0 <= i < n :: log[i].EventId())
    && st.priorOccurredAt == (if n == 0 then None else Some(Time(lib, log[n - 1])))
  }

  ghost predicate ReadsRegistrations(lib: Library, subjects: Subjects, log: seq<Event>, n: nat, st: State)
    requires n <= |log|
  {
    forall id :: Lookup(st.registrations, id) == RegistrationAt(lib, subjects, log, n, id)
  }

  ghost predicate ReadsConflicts(subjects: Subjects, base: Base, log: seq<Event>, n: nat, st: State)
    requires n <= |log|
  {
    forall c :: Lookup(st.conflicts, c) == ConflictOf(subjects, base, log, n, c)
  }

  ghost predicate ReadsOpenings(lib: Library, log: seq<Event>, n: nat, st: State)
    requires n <= |log|
  {
    forall c :: Lookup(st.challengeOpenedAt, c) == FirstTime(lib, log, n, Openings(c))
  }

  ghost predicate Reads(lib: Library, subjects: Subjects, base: Base, log: seq<Event>, n: nat, st: State)
    requires n <= |log|
  {
    && ReadsEnvelopes(lib, log, n, st)
    && ReadsRegistrations(lib, subjects, log, n, st)
    && st.consumed == ConsumedBy(log, n)
    && ReadsConflicts(subjects, base, log, n, st)
    && ReadsOpenings(lib, log, n, st)
  }

  /** Subjects are indexed by their own identifiers. */
  predicate Indexed(subjects: Subjects) {
    forall id :: id in subjects ==> subjects[id].registrationId == id
  }

  // ---- What one event changes, component by component ----

  lemma IdsAppend(events: seq<Event>, e: Event)
    ensures Ids(events + [e]) == Ids(events) + [e.EventId()]
  {
  }

  predicate About(e: Event, id: Text) { RepositoryFor(e, id) || ApprovalFor(e, id) || Revokes(e, id) }

  lemma RegistrationUnaffected(lib: Library, s: Subject, log: seq<Event>, n: nat)
    requires n < |log| && !About(log[n], s.registrationId)
    ensures RegistrationOf(lib, s, log, n + 1) == RegistrationOf(lib, s, log, n)
  {
  }

  lemma ConsumedByRepository(log: seq<Event>, n: nat)
    requires n < |log| && log[n].RepositoryEvent?
    ensures ConsumedBy(log, n + 1) == ConsumeRepository(ConsumedBy(log, n), log[n].repository)
  {
    var e := log[n].repository;
    var was, now := ConsumedBy(log, n), ConsumedBy(log, n + 1);
    assert now.repositoryStatementHashes == was.repositoryStatementHashes + {e.statementHash};
    assert now.repositoryNonces == was.repositoryNonces + {e.challenge.nonce};
    assert now.repositorySignatures == was.repositorySignatures + {e.signature};
    assert now.forgeObservations == was.forgeObservations + {e.forgeObservation};
    assert now.organizationStatementHashes == was.organizationStatementHashes;
    assert now.organizationSignatures == was.organizationSignatures;
  }

  lemma ConsumedByApproval(log: seq<Event>, n: nat)
    requires n < |log| && log[n].OrganizationEvent?
    ensures ConsumedBy(log, n + 1) == ConsumeApproval(ConsumedBy(log, n), log[n].organization.approval)
  {
    var a := log[n].organization.approval;
    var was, now := ConsumedBy(log, n), ConsumedBy(log, n + 1);
    assert now.repositoryStatementHashes == was.repositoryStatementHashes;
    assert now.repositoryNonces == was.repositoryNonces;
    assert now.repositorySignatures == was.repositorySignatures;
    assert now.forgeObservations == was.forgeObservations;
    assert now.organizationStatementHashes == was.organizationStatementHashes + {a.statementHash};
    assert now.organizationSignatures == was.organizationSignatures + {a.signature};
  }

  lemma ConsumedByNone(log: seq<Event>, n: nat)
    requires n < |log| && !log[n].RepositoryEvent? && !log[n].OrganizationEvent?
    ensures ConsumedBy(log, n + 1) == ConsumedBy(log, n)
  {
    var was, now := ConsumedBy(log, n), ConsumedBy(log, n + 1);
    assert now.repositoryStatementHashes == was.repositoryStatementHashes;
    assert now.repositoryNonces == was.repositoryNonces;
    assert now.repositorySignatures == was.repositorySignatures;
    assert now.forgeObservations == was.forgeObservations;
    assert now.organizationStatementHashes == was.organizationStatementHashes;
    assert now.organizationSignatures == was.organizationSignatures;
  }

  predicate Concerns(e: Event, c: Text) { Opens(e, c) || Resolves(e, c) }

  lemma ConflictUnaffected(subjects: Subjects, base: Base, log: seq<Event>, n: nat, c: Text)
    requires n < |log| && !Concerns(log[n], c)
    ensures ConflictOf(subjects, base, log, n + 1, c) == ConflictOf(subjects, base, log, n, c)
  {
  }

  lemma FirstTimeDomain(lib: Library, log: seq<Event>, n: nat, q: Query)
    requires n <= |log|
    ensures FirstTime(lib, log, n, q).Some? <==> exists j :: 0 <= j < n && Matches(q, log[j])
  {
  }

  lemma PairMembers(a: Text, b: Text)
    ensures forall x :: x in SortedPair(a, b) <==> x == a || x == b
  {
    assert multiset(SortedPair(a, b)) == multiset{a, b};
    forall x: Text
      ensures x in SortedPair(a, b) <==> x == a || x == b
    {
      assert x in SortedPair(a, b) <==> x in multiset(SortedPair(a, b));
    }
  }

  predicate Party(e: ChallengeOpened, x: Text) { x == e.challengedRegistrationId || x == e.challengerRegistrationId }

  predicate SameMembers(ids: seq<Text>, e: ChallengeOpened) {
    && e.challengedRegistrationId in ids && e.challengerRegistrationId in ids
    && forall i :: 0 <= i < |ids| ==> Party(e, ids[i])
  }

  lemma SeedStays(subjects: Subjects, base: Base, log: seq<Event>, n: nat, c: Text)
    requires n <= |log| && c in base
    ensures Origin(subjects, base, log, n, c) == Some(base[c])
  {
  }

  lemma SameMembersTransfer(ids: seq<Text>, a: ChallengeOpened, b: ChallengeOpened)
    requires SameMembers(ids, a) && SameParties(a, b)
    ensures SameMembers(ids, b)
  {
    assert b.challengedRegistrationId in {a.challengedRegistrationId, a.challengerRegistrationId};
    assert b.challengerRegistrationId in {a.challengedRegistrationId, a.challengerRegistrationId};
    assert a.challengedRegistrationId in {b.challengedRegistrationId, b.challengerRegistrationId};
    assert a.challengerRegistrationId in {b.challengedRegistrationId, b.challengerRegistrationId};
  }

  /** What an accepted challenge to an unseeded conflict guarantees. */
  lemma OpeningGuards(
    lib: Library, trust: Trust, subjects: Subjects, base: Base, log: seq<Event>, n: nat, c: Text)
    requires n < |log| && Allowed(lib, trust, subjects, Seeded(base), log, n) && Opens(log[n], c)
    ensures log[n].opening.challengedRegistrationId in subjects && log[n].opening.challengerRegistrationId in subjects
    ensures c !in base ==> forall j :: 0 <= j < n && Opens(log[j], c) ==> SameParties(log[j].opening, log[n].opening)
  {
  }

  lemma OriginWitness(subjects: Subjects, base: Base, log: seq<Event>, n: nat, c: Text) returns (j: nat)
    requires n <= |log| && c !in base && Origin(subjects, base, log, n, c).Some?
    ensures j < n && Opens(log[j], c)
  {
    if Origin(subjects, base, log, n - 1, c).Some? {
      j := OriginWitness(subjects, base, log, n - 1, c);
    } else {
      j := n - 1;
    }
  }

  lemma NewConflictMembers(subjects: Subjects, e: ChallengeOpened)
    requires e.challengedRegistrationId in subjects && e.challengerRegistrationId in subjects
    ensures SameMembers(NewConflict(subjects, e).registrationIds, e)
  {
    PairMembers(e.challengedRegistrationId, e.challengerRegistrationId);
  }

  /** The parties of a conflict without a seed are those of every signed challenge to it so far. */
  lemma {:induction false} OriginParties(
    lib: Library, trust: Trust, subjects: Subjects, base: Base, log: seq<Event>, n: nat, j: nat, c: Text)
    requires j < n <= |log| && Accepted(lib, trust, subjects, Seeded(base), log, n) && c !in base
    requires Opens(log[j], c)
    ensures Origin(subjects, base, log, n, c).Some?
    ensures SameMembers(Origin(subjects, base, log, n, c).value.registrationIds, log[j].opening)
    decreases n
  {
    if j < n - 1 {
      OriginParties(lib, trust, subjects, base, log, n - 1, j, c);
    } else {
      OpeningGuards(lib, trust, subjects, base, log, j, c);
      if Origin(subjects, base, log, j, c).Some? {
        var i := OriginWitness(subjects, base, log, j, c);
        OriginParties(lib, trust, subjects, base, log, j, i, c);
        SameMembersTransfer(Origin(subjects, base, log, j, c).value.registrationIds, log[i].opening, log[j].opening);
      } else {
        NewConflictMembers(subjects, log[j].opening);
      }
    }
  }

  lemma OutcomeDomain(log: seq<Event>, n: nat, c: Text)
    requires n <= |log|
    ensures OutcomeOf(log, n, c).Some? <==> exists j :: 0 <= j < n && Resolves(log[j], c)
  {
  }

  // ---- One event: the code accepts it exactly when the history allows it, and reads it correctly ----

  ghost predicate Ordered(lib: Library, log: seq<Event>, n: nat)
    requires n <= |log|
  {
    forall i, j :: 0 <= i <= j < n ==> Time(lib, log[i]) <= Time(lib, log[j])
  }

  lemma AcceptedOrdered(lib: Library, trust: Trust, subjects: Subjects, seeds: Seeds, log: seq<Event>, n: nat)
    requires n <= |log| && Accepted(lib, trust, subjects, seeds, log, n)
    ensures Ordered(lib, log, n)
  {
    forall i, j | 0 <= i <= j < n {
      AcceptedTimes(lib, trust, subjects, seeds, log, n, i, j);
    }
  }

  lemma EnvelopeStep(lib: Library, trust: Trust, log: seq<Event>, n: nat, st: State)
    requires n < |log| && ReadsEnvelopes(lib, log, n, st) && Ordered(lib, log, n)
    ensures CheckEnvelope(lib, trust, st, n, log[n]).None? <==> EnvelopeAllowed(lib, trust, log, n)
  {
    var e := log[n];
    assert e.EventId() in st.eventIds <==> exists j :: 0 <= j < n && log[j].EventId() == e.EventId();
    assert st.priorOccurredAt.Some? && Time(lib, e) < st.priorOccurredAt.value
      <==> exists j :: 0 <= j < n && Time(lib, e) < Time(lib, log[j]) by {
      if n > 0 {
        assert forall j :: 0 <= j < n ==> Time(lib, log[j]) <= Time(lib, log[n - 1]);
      }
    }
  }

  lemma SeenReads(lib: Library, log: seq<Event>, n: nat, st: State)
    requires n < |log| && ReadsEnvelopes(lib, log, n, st)
    ensures ReadsEnvelopes(lib, log, n + 1, Seen(lib, st, log[n]))
  {
  }

  /** The stored cut-off stands for every earlier matching event, because times never run backwards. */
  lemma CutoffExact(lib: Library, log: seq<Event>, n: nat, q: Query, t: int)
    requires n <= |log| && Ordered(lib, log, n)
    ensures NotAfter(t, LastTime(lib, log, n, q))
       <==> exists j :: 0 <= j < n && Matches(q, log[j]) && t <= Time(lib, log[j])
  {
    LastTimeIsLatest(lib, log, n, q);
  }

  lemma RepositoryConsumedExact(log: seq<Event>, n: nat, e: RepositoryControl)
    requires n <= |log|
    ensures RepositoryConsumed(ConsumedBy(log, n), e)
       <==> exists j :: 0 <= j < n && log[j].RepositoryEvent? && SharesRepositoryCredential(log[j].repository, e)
  {
    var c := ConsumedBy(log, n);
    if e.statementHash in c.repositoryStatementHashes {
      var j :| 0 <= j < n && log[j].RepositoryEvent? && log[j].repository.statementHash == e.statementHash;
      assert SharesRepositoryCredential(log[j].repository, e);
    }
    if e.challenge.nonce in c.repositoryNonces {
      var j :| 0 <= j < n && log[j].RepositoryEvent? && log[j].repository.challenge.nonce == e.challenge.nonce;
      assert SharesRepositoryCredential(log[j].repository, e);
    }
    if e.signature in c.repositorySignatures {
      var j :| 0 <= j < n && log[j].RepositoryEvent? && log[j].repository.signature == e.signature;
      assert SharesRepositoryCredential(log[j].repository, e);
    }
    if e.forgeObservation in c.forgeObservations {
      var j :| 0 <= j < n && log[j].RepositoryEvent? && log[j].repository.forgeObservation == e.forgeObservation;
      assert SharesRepositoryCredential(log[j].repository, e);
    }
  }

  lemma ApprovalConsumedExact(log: seq<Event>, n: nat, a: Approval)
    requires n <= |log|
    ensures ApprovalConsumed(ConsumedBy(log, n), a)
       <==> exists j :: 0 <= j < n && log[j].OrganizationEvent?
                        && SharesApprovalCredential(log[j].organization.approval, a)
  {
    var c := ConsumedBy(log, n);
    if a.statementHash in c.organizationStatementHashes {
      var j :| 0 <= j < n && log[j].OrganizationEvent? && log[j].organization.approval.statementHash == a.statementHash;
      assert SharesApprovalCredential(log[j].organization.approval, a);
    }
    if a.signature in c.organizationSignatures {
      var j :| 0 <= j < n && log[j].OrganizationEvent? && log[j].organization.approval.signature == a.signature;
      assert SharesApprovalCredential(log[j].organization.approval, a);
    }
  }

  lemma RepositoryStep(
    lib: Library, trust: Trust, subjects: Subjects, base: Base, log: seq<Event>, n: nat, st: State)
    requires n < |log| && log[n].RepositoryEvent? && Ordered(lib, log, n)
    requires ReadsRegistrations(lib, subjects, log, n, st) && st.consumed == ConsumedBy(log, n)
    ensures ApplyRepository(lib, trust, st, log[n].repository).Ok?
       <==> RepositoryAllowed(lib, trust, subjects, log, n)
  {
    var e := log[n].repository;
    var id := e.subject.registrationId;
    assert Lookup(st.registrations, id) == RegistrationAt(lib, subjects, log, n, id);
    RepositoryConsumedExact(log, n, e);
    if id in subjects && subjects[id] == e.subject {
      CutoffExact(lib, log, n, RepositoryRevocations(id), lib.date(e.challenge.issuedAt));
      CutoffExact(lib, log, n, RepositoryRevocations(id), lib.date(e.forgeObservation.observedAt));
      FreshnessExact(lib, log, n);
    }
  }

  lemma FreshnessExact(lib: Library, log: seq<Event>, n: nat)
    requires n < |log| && log[n].RepositoryEvent?
    ensures var e := log[n].repository;
            var q := RepositoryRevocations(e.subject.registrationId);
            RepositoryFresh(lib, log, n) <==>
              && !(exists j :: 0 <= j < n && Matches(q, log[j]) && lib.date(e.challenge.issuedAt) <= Time(lib, log[j]))
              && !(exists j :: 0 <= j < n && Matches(q, log[j])
                               && lib.date(e.forgeObservation.observedAt) <= Time(lib, log[j]))
  {
    var e := log[n].repository;
    var q := RepositoryRevocations(e.subject.registrationId);
    if RepositoryFresh(lib, log, n) {
      forall j | 0 <= j < n && Matches(q, log[j])
        ensures Time(lib, log[j]) < lib.date(e.challenge.issuedAt)
        ensures Time(lib, log[j]) < lib.date(e.forgeObservation.observedAt)
      {
        assert RevokesRepository(log[j], e.subject.registrationId);
      }
    } else {
      var j :| 0 <= j < n && RevokesRepository(log[j], e.subject.registrationId)
               && !(Time(lib, log[j]) < lib.date(e.challenge.issuedAt)
                    && Time(lib, log[j]) < lib.date(e.forgeObservation.observedAt));
      assert Matches(q, log[j]);
    }
  }

  /** Replacing the one registration an event is about keeps the reading. */
  lemma RegistrationUpdate(
    lib: Library, subjects: Subjects, log: seq<Event>, n: nat, st: State, id: Text, r: Registration, after: State)
    requires n < |log| && Indexed(subjects) && id in subjects
    requires ReadsRegistrations(lib, subjects, log, n, st)
    requires forall other :: other != id ==> !About(log[n], other)
    requires r == RegistrationOf(lib, subjects[id], log, n + 1)
    requires after.registrations == st.registrations[id := r]
    ensures ReadsRegistrations(lib, subjects, log, n + 1, after)
  {
    forall other: Text
      ensures Lookup(after.registrations, other) == RegistrationAt(lib, subjects, log, n + 1, other)
    {
      assert Lookup(st.registrations, other) == RegistrationAt(lib, subjects, log, n, other);
      if other != id && other in subjects {
        RegistrationUnaffected(lib, subjects[other], log, n);
      }
    }
  }

  lemma RegistrationsUnaffected(lib: Library, subjects: Subjects, log: seq<Event>, n: nat, st: State)
    requires n < |log| && Indexed(subjects) && ReadsRegistrations(lib, subjects, log, n, st)
    requires log[n].OpenedEvent? || log[n].ResolvedEvent?
    ensures ReadsRegistrations(lib, subjects, log, n + 1, st)
  {
    forall id: Text
      ensures Lookup(st.registrations, id) == RegistrationAt(lib, subjects, log, n + 1, id)
    {
      assert Lookup(st.registrations, id) == RegistrationAt(lib, subjects, log, n, id);
      if id in subjects {
        RegistrationUnaffected(lib, subjects[id], log, n);
      }
    }
  }

  lemma RepositoryRegistration(lib: Library, s: Subject, log: seq<Event>, n: nat)
    requires n < |log| && RepositoryFor(log[n], s.registrationId)
    ensures RegistrationOf(lib, s, log, n + 1) ==
            RegistrationOf(lib, s, log, n).(
              repositoryActive := true,
              repositoryActivatedAt := Some(Time(lib, log[n])),
              evidenceEventIds := RegistrationOf(lib, s, log, n).evidenceEventIds + [log[n].EventId()])
  {
    IdsAppend(Filter(log, n, Evidence(s.registrationId)), log[n]);
  }

  lemma OrganizationRegistration(lib: Library, s: Subject, log: seq<Event>, n: nat)
    requires n < |log| && ApprovalFor(log[n], s.registrationId)
    ensures RegistrationOf(lib, s, log, n + 1) ==
            RegistrationOf(lib, s, log, n).(
              organizationActive := true,
              organizationActivatedAt := Some(Time(lib, log[n])),
              evidenceEventIds := RegistrationOf(lib, s, log, n).evidenceEventIds + [log[n].EventId()])
  {
    IdsAppend(Filter(log, n, Evidence(s.registrationId)), log[n]);
  }

  lemma RepositoryReads(
    lib: Library, trust: Trust, subjects: Subjects, log: seq<Event>, n: nat, st: State)
    requires n < |log| && log[n].RepositoryEvent? && Indexed(subjects)
    requires ReadsRegistrations(lib, subjects, log, n, st) && st.consumed == ConsumedBy(log, n)
    requires ApplyRepository(lib, trust, st, log[n].repository).Ok?
    ensures var after := ApplyRepository(lib, trust, st, log[n].repository).value;
            && ReadsRegistrations(lib, subjects, log, n + 1, after)
            && after.consumed == ConsumedBy(log, n + 1)
            && after == st.(registrations := after.registrations, consumed := after.consumed)
  {
    var e := log[n].repository;
    var id := e.subject.registrationId;
    assert Lookup(st.registrations, id) == RegistrationAt(lib, subjects, log, n, id);
    RepositoryRegistration(lib, subjects[id], log, n);
    RegistrationUpdate(lib, subjects, log, n, st, id, RegistrationOf(lib, subjects[id], log, n + 1),
                       ApplyRepository(lib, trust, st, e).value);
    ConsumedByRepository(log, n);
  }

  lemma ApprovalFreshnessExact(lib: Library, log: seq<Event>, n: nat)
    requires n < |log| && log[n].OrganizationEvent? && Ordered(lib, log, n)
    ensures var e := log[n].organization;
            var id := e.subject.registrationId;
            var at := lib.date(e.approval.approvedAt);
            var active := LastTime(lib, log, n, RepositoryEvidence(id));
            ApprovalFresh(lib, log, n) <==>
              && !NotAfter(at, LastTime(lib, log, n, Revocations(id)))
              && (active.Some? ==> active.value <= at)
              && at <= Time(lib, log[n])
  {
    var e := log[n].organization;
    var id := e.subject.registrationId;
    var at := lib.date(e.approval.approvedAt);
    CutoffExact(lib, log, n, Revocations(id), at);
    LastTimeIsLatest(lib, log, n, RepositoryEvidence(id));
    if ApprovalFresh(lib, log, n) {
      forall j | 0 <= j < n && Matches(Revocations(id), log[j])
        ensures Time(lib, log[j]) < at
      {
        assert Revokes(log[j], id);
      }
      if i :| 0 <= i < n && Matches(RepositoryEvidence(id), log[i])
              && Time(lib, log[i]) == LastTime(lib, log, n, RepositoryEvidence(id)).value {
        assert RepositoryFor(log[i], id);
      }
    } else {
      assert forall j :: 0 <= j < n && Revokes(log[j], id) ==> Matches(Revocations(id), log[j]);
      assert forall j :: 0 <= j < n && RepositoryFor(log[j], id) ==> Matches(RepositoryEvidence(id), log[j]);
    }
  }

  lemma OrganizationStep(
    lib: Library, trust: Trust, subjects: Subjects, log: seq<Event>, n: nat, st: State)
    requires n < |log| && log[n].OrganizationEvent? && Ordered(lib, log, n)
    requires ReadsRegistrations(lib, subjects, log, n, st) && st.consumed == ConsumedBy(log, n)
    ensures ApplyOrganization(lib, trust, st, log[n].organization).Ok?
       <==> OrganizationAllowed(lib, trust, subjects, log, n)
  {
    var e := log[n].organization;
    var id := e.subject.registrationId;
    assert Lookup(st.registrations, id) == RegistrationAt(lib, subjects, log, n, id);
    ApprovalConsumedExact(log, n, e.approval);
    ApprovalFreshnessExact(lib, log, n);
    LastTimeIsLatest(lib, log, n, RepositoryEvidence(id));
    assert RepositoryActive(log, n, id) ==> LastTime(lib, log, n, RepositoryEvidence(id)).Some? by {
      if RepositoryActive(log, n, id) {
        var i :| 0 <= i < n && RepositoryFor(log[i], id);
        assert Matches(RepositoryEvidence(id), log[i]);
      }
    }
  }

  lemma OrganizationReads(
    lib: Library, trust: Trust, subjects: Subjects, log: seq<Event>, n: nat, st: State)
    requires n < |log| && log[n].OrganizationEvent? && Indexed(subjects)
    requires ReadsRegistrations(lib, subjects, log, n, st) && st.consumed == ConsumedBy(log, n)
    requires ApplyOrganization(lib, trust, st, log[n].organization).Ok?
    ensures var after := ApplyOrganization(lib, trust, st, log[n].organization).value;
            && ReadsRegistrations(lib, subjects, log, n + 1, after)
            && after.consumed == ConsumedBy(log, n + 1)
            && after == st.(registrations := after.registrations, consumed := after.consumed)
  {
    var e := log[n].organization;
    var id := e.subject.registrationId;
    assert Lookup(st.registrations, id) == RegistrationAt(lib, subjects, log, n, id);
    OrganizationRegistration(lib, subjects[id], log, n);
    RegistrationUpdate(lib, subjects, log, n, st, id, RegistrationOf(lib, subjects[id], log, n + 1),
                       ApplyOrganization(lib, trust, st, e).value);
    ConsumedByApproval(log, n);
  }

  // ---- Revocations ----

  /** A revocation removes repository evidence, and organization evidence with it, or organization evidence alone. */
  lemma RevokedRegistration(lib: Library, s: Subject, log: seq<Event>, n: nat)
    requires n < |log| && Revokes(log[n], s.registrationId)
    ensures var was := RegistrationOf(lib, s, log, n);
            var e := log[n].revocation;
            var at := Some(Time(lib, log[n]));
            var noted := was.(revocations := was.revocations
                                             + [RevocationRecord(e.level, e.eventId, e.occurredAt, e.reason)]);
            RegistrationOf(lib, s, log, n + 1) ==
            match e.level
            case RepositoryLevel =>
              noted.(repositoryActive := false, organizationActive := false, repositoryActivatedAt := None,
                     organizationActivatedAt := None, repositoryRevokedAt := at, organizationRevokedAt := at)
            case OrganizationLevel =>
              noted.(organizationActive := false, organizationActivatedAt := None, organizationRevokedAt := at)
  {
  }

  /** Evidence that is active carries its activation time, and that time is never in the future of the log. */
  lemma ActiveHasTime(lib: Library, s: Subject, log: seq<Event>, n: nat)
    requires n < |log| && Ordered(lib, log, n + 1)
    ensures var r := RegistrationOf(lib, s, log, n);
            && (r.repositoryActive ==> r.repositoryActivatedAt.Some? && r.repositoryActivatedAt.value <= Time(lib, log[n]))
            && (r.organizationActive ==>
                  r.organizationActivatedAt.Some? && r.organizationActivatedAt.value <= Time(lib, log[n]))
  {
    var id := s.registrationId;
    LastTimeIsLatest(lib, log, n, RepositoryEvidence(id));
    LastTimeIsLatest(lib, log, n, Approvals(id));
    if RepositoryActive(log, n, id) {
      var i :| 0 <= i < n && RepositoryFor(log[i], id);
      assert Matches(RepositoryEvidence(id), log[i]);
    }
    if OrganizationActive(log, n, id) {
      var i :| 0 <= i < n && ApprovalFor(log[i], id);
      assert Matches(Approvals(id), log[i]);
    }
  }

  lemma RevokedStep(
    lib: Library, trust: Trust, subjects: Subjects, log: seq<Event>, n: nat, st: State)
    requires n < |log| && log[n].RevokedEvent? && Indexed(subjects) && Ordered(lib, log, n + 1)
    requires ReadsRegistrations(lib, subjects, log, n, st)
    ensures ApplyRevoked(lib, trust, st, log[n].revocation).Ok? <==> RevokedAllowed(lib, trust, subjects, log, n)
    ensures ApplyRevoked(lib, trust, st, log[n].revocation) != Err(RevocationPrecedesEvidence)
  {
    var id := log[n].revocation.registrationId;
    assert Lookup(st.registrations, id) == RegistrationAt(lib, subjects, log, n, id);
    if id in subjects {
      ActiveHasTime(lib, subjects[id], log, n);
    }
  }

  lemma RevokedReads(
    lib: Library, trust: Trust, subjects: Subjects, log: seq<Event>, n: nat, st: State)
    requires n < |log| && log[n].RevokedEvent? && Indexed(subjects)
    requires ReadsRegistrations(lib, subjects, log, n, st)
    requires ApplyRevoked(lib, trust, st, log[n].revocation).Ok?
    ensures var after := ApplyRevoked(lib, trust, st, log[n].revocation).value;
            && ReadsRegistrations(lib, subjects, log, n + 1, after)
            && after == st.(registrations := after.registrations)
  {
    var e := log[n].revocation;
    var id := e.registrationId;
    assert Lookup(st.registrations, id) == RegistrationAt(lib, subjects, log, n, id);
    RevokedRegistration(lib, subjects[id], log, n);
    RegistrationUpdate(lib, subjects, log, n, st, id, RegistrationOf(lib, subjects[id], log, n + 1),
                       ApplyRevoked(lib, trust, st, e).value);
  }

  // ---- Conflicts ----

  /** A conflict that was ever opened exists, and only an opened conflict was ever resolved. */
  lemma OpenedExists(
    lib: Library, trust: Trust, subjects: Subjects, base: Base, log: seq<Event>, n: nat, j: nat, c: Text)
    requires j < n <= |log| && Accepted(lib, trust, subjects, Seeded(base), log, n)
    requires Concerns(log[j], c)
    ensures Origin(subjects, base, log, n, c).Some?
    ensures exists i :: 0 <= i <= j && Opens(log[i], c)
  {
    var i := j;
    if Resolves(log[j], c) {
      assert Allowed(lib, trust, subjects, Seeded(base), log, j);
      i :| 0 <= i < j && Opens(log[i], c);
    }
    if c in base {
      SeedStays(subjects, base, log, n, c);
    } else {
      OriginParties(lib, trust, subjects, base, log, n, i, c);
    }
  }

  lemma SamePartiesIff(ids: seq<Text>, a: ChallengeOpened, b: ChallengeOpened)
    requires SameMembers(ids, a) && b.challengedRegistrationId != b.challengerRegistrationId
    ensures SameParties(a, b) <==> b.challengedRegistrationId in ids && b.challengerRegistrationId in ids
  {
    if SameParties(a, b) {
      SameMembersTransfer(ids, a, b);
    }
  }

  /** The parties test of the code against the parties test of the history. */
  lemma PartiesExact(
    lib: Library, trust: Trust, subjects: Subjects, base: Base, log: seq<Event>, n: nat)
    requires n < |log| && log[n].OpenedEvent? && Accepted(lib, trust, subjects, Seeded(base), log, n)
    requires log[n].opening.challengedRegistrationId != log[n].opening.challengerRegistrationId
    ensures var e := log[n].opening;
            var c := e.conflictId;
            Origin(subjects, base, log, n, c).Some? ==>
              var ids := Origin(subjects, base, log, n, c).value.registrationIds;
              (e.challengedRegistrationId in ids && e.challengerRegistrationId in ids <==>
                && (c in base ==> e.challengedRegistrationId in base[c].registrationIds
                                  && e.challengerRegistrationId in base[c].registrationIds)
                && (c !in base ==> forall j :: 0 <= j < n && Opens(log[j], c) ==> SameParties(log[j].opening, e)))
  {
    var e := log[n].opening;
    var c := e.conflictId;
    if c in base {
      SeedStays(subjects, base, log, n, c);
    } else if Origin(subjects, base, log, n, c).Some? {
      var ids := Origin(subjects, base, log, n, c).value.registrationIds;
      forall j | 0 <= j < n && Opens(log[j], c)
        ensures SameParties(log[j].opening, e) <==> e.challengedRegistrationId in ids && e.challengerRegistrationId in ids
      {
        OriginParties(lib, trust, subjects, base, log, n, j, c);
        SamePartiesIff(ids, log[j].opening, e);
      }
      var i := OriginWitness(subjects, base, log, n, c);
    }
  }

  lemma UnknownConflictUntouched(
    lib: Library, trust: Trust, subjects: Subjects, base: Base, log: seq<Event>, n: nat, c: Text)
    requires n <= |log| && Accepted(lib, trust, subjects, Seeded(base), log, n)
    requires Origin(subjects, base, log, n, c).None?
    ensures c !in base
    ensures forall j :: 0 <= j < n ==> !Concerns(log[j], c)
  {
    if c in base {
      SeedStays(subjects, base, log, n, c);
    }
    if j :| 0 <= j < n && Concerns(log[j], c) {
      OpenedExists(lib, trust, subjects, base, log, n, j, c);
    }
  }

  lemma OpenedStep(
    lib: Library, trust: Trust, subjects: Subjects, base: Base, log: seq<Event>, n: nat, st: State)
    requires n < |log| && log[n].OpenedEvent? && Accepted(lib, trust, subjects, Seeded(base), log, n)
    requires log[n].opening.challengedRegistrationId != log[n].opening.challengerRegistrationId
    requires ReadsConflicts(subjects, base, log, n, st)
    ensures ApplyOpened(lib, subjects, st, log[n].opening).Ok?
       <==> OpenedAllowed(lib, subjects, Seeded(base), log, n)
  {
    var c := log[n].opening.conflictId;
    assert Lookup(st.conflicts, c) == ConflictOf(subjects, base, log, n, c);
    OutcomeDomain(log, n, c);
    PartiesExact(lib, trust, subjects, base, log, n);
    if c !in st.conflicts {
      UnknownConflictUntouched(lib, trust, subjects, base, log, n, c);
    }
  }

  /** Replacing the one conflict an event concerns keeps the reading. */
  lemma ConflictUpdate(
    subjects: Subjects, base: Base, log: seq<Event>, n: nat, st: State, c: Text, v: Conflict, after: State)
    requires n < |log| && ReadsConflicts(subjects, base, log, n, st)
    requires forall d :: d != c ==> !Concerns(log[n], d)
    requires ConflictOf(subjects, base, log, n + 1, c) == Some(v)
    requires after.conflicts == st.conflicts[c := v]
    ensures ReadsConflicts(subjects, base, log, n + 1, after)
  {
    forall d: Text
      ensures Lookup(after.conflicts, d) == ConflictOf(subjects, base, log, n + 1, d)
    {
      assert Lookup(st.conflicts, d) == ConflictOf(subjects, base, log, n, d);
      if d != c {
        ConflictUnaffected(subjects, base, log, n, d);
      }
    }
  }

  lemma ConflictsUnaffected(subjects: Subjects, base: Base, log: seq<Event>, n: nat, st: State)
    requires n < |log| && !log[n].OpenedEvent? && !log[n].ResolvedEvent?
    requires ReadsConflicts(subjects, base, log, n, st)
    ensures ReadsConflicts(subjects, base, log, n + 1, st)
  {
    forall d: Text
      ensures Lookup(st.conflicts, d) == ConflictOf(subjects, base, log, n + 1, d)
    {
      assert Lookup(st.conflicts, d) == ConflictOf(subjects, base, log, n, d);
      ConflictUnaffected(subjects, base, log, n, d);
    }
  }

  lemma OpenedConflict(
    lib: Library, trust: Trust, subjects: Subjects, base: Base, log: seq<Event>, n: nat)
    requires n < |log| && log[n].OpenedEvent? && Accepted(lib, trust, subjects, Seeded(base), log, n)
    requires log[n].opening.challengedRegistrationId in subjects && log[n].opening.challengerRegistrationId in subjects
    ensures var e := log[n].opening;
            ConflictOf(subjects, base, log, n + 1, e.conflictId) ==
            match ConflictOf(subjects, base, log, n, e.conflictId)
            case Some(v) => Some(v.(eventIds := v.eventIds + [e.eventId]))
            case None => Some(NewConflict(subjects, e))
  {
    var e := log[n].opening;
    var c := e.conflictId;
    IdsAppend(Filter(log, n, ConflictEvents(c)), log[n]);
    if Origin(subjects, base, log, n, c).None? {
      UnknownConflictUntouched(lib, trust, subjects, base, log, n, c);
      UntouchedConflict(log, n, c);
      assert Ids(Filter(log, n + 1, ConflictEvents(c))) == [e.eventId];
      assert OutcomeOf(log, n + 1, c) == None;
      assert Origin(subjects, base, log, n + 1, c) == Some(NewConflict(subjects, e));
    }
  }

  lemma UntouchedConflict(log: seq<Event>, n: nat, c: Text)
    requires n <= |log| && forall j :: 0 <= j < n ==> !Concerns(log[j], c)
    ensures OutcomeOf(log, n, c).None? && Filter(log, n, ConflictEvents(c)) == []
  {
    if n > 0 {
      UntouchedConflict(log, n - 1, c);
      assert !Concerns(log[n - 1], c);
    }
  }

  /** What an accepted challenge does to the state. */
  lemma OpenedShape(lib: Library, subjects: Subjects, st: State, e: ChallengeOpened)
    requires ApplyOpened(lib, subjects, st, e).Ok?
    ensures e.challengedRegistrationId in subjects && e.challengerRegistrationId in subjects
    ensures var after := ApplyOpened(lib, subjects, st, e).value;
            var c := e.conflictId;
            var at := lib.date(e.occurredAt);
            && after == st.(conflicts := after.conflicts, challengeOpenedAt := after.challengeOpenedAt)
            && after.conflicts == st.conflicts[c := match Lookup(st.conflicts, c)
                                                    case Some(v) => v.(eventIds := v.eventIds + [e.eventId])
                                                    case None => NewConflict(subjects, e)]
            && after.challengeOpenedAt == (if c !in st.challengeOpenedAt || at < st.challengeOpenedAt[c]
                                           then st.challengeOpenedAt[c := at] else st.challengeOpenedAt)
  {
  }

  lemma OpenedReads(
    lib: Library, trust: Trust, subjects: Subjects, base: Base, log: seq<Event>, n: nat, st: State)
    requires n < |log| && log[n].OpenedEvent? && Accepted(lib, trust, subjects, Seeded(base), log, n)
    requires Ordered(lib, log, n + 1)
    requires ReadsConflicts(subjects, base, log, n, st) && ReadsOpenings(lib, log, n, st)
    requires ApplyOpened(lib, subjects, st, log[n].opening).Ok?
    ensures var after := ApplyOpened(lib, subjects, st, log[n].opening).value;
            && ReadsConflicts(subjects, base, log, n + 1, after)
            && ReadsOpenings(lib, log, n + 1, after)
            && after == st.(conflicts := after.conflicts, challengeOpenedAt := after.challengeOpenedAt)
  {
    var e := log[n].opening;
    var c := e.conflictId;
    var after := ApplyOpened(lib, subjects, st, e).value;
    OpenedShape(lib, subjects, st, e);
    assert Lookup(st.conflicts, c) == ConflictOf(subjects, base, log, n, c);
    OpenedConflict(lib, trust, subjects, base, log, n);
    ConflictUpdate(subjects, base, log, n, st, c, after.conflicts[c], after);
    OpeningsUpdate(lib, log, n, st, after);
  }

  lemma OpeningsUpdate(lib: Library, log: seq<Event>, n: nat, st: State, after: State)
    requires n < |log| && log[n].OpenedEvent? && Ordered(lib, log, n + 1) && ReadsOpenings(lib, log, n, st)
    requires var c := log[n].opening.conflictId;
             var at := Time(lib, log[n]);
             after.challengeOpenedAt == if c !in st.challengeOpenedAt || at < st.challengeOpenedAt[c]
                                        then st.challengeOpenedAt[c := at] else st.challengeOpenedAt
    ensures ReadsOpenings(lib, log, n + 1, after)
  {
    forall d: Text
      ensures Lookup(after.challengeOpenedAt, d) == FirstTime(lib, log, n + 1, Openings(d))
    {
      assert Lookup(st.challengeOpenedAt, d) == FirstTime(lib, log, n, Openings(d));
      if FirstTime(lib, log, n, Openings(d)).Some? {
        FirstTimeIsEarliest(lib, log, n, Openings(d));
      }
    }
  }

  lemma OpeningsUnaffected(lib: Library, log: seq<Event>, n: nat, st: State)
    requires n < |log| && !log[n].OpenedEvent? && ReadsOpenings(lib, log, n, st)
    ensures ReadsOpenings(lib, log, n + 1, st)
  {
    forall d: Text
      ensures Lookup(st.challengeOpenedAt, d) == FirstTime(lib, log, n + 1, Openings(d))
    {
      assert Lookup(st.challengeOpenedAt, d) == FirstTime(lib, log, n, Openings(d));
    }
  }

  lemma ResolvedStep(
    lib: Library, trust: Trust, subjects: Subjects, base: Base, log: seq<Event>, n: nat, st: State)
    requires n < |log| && log[n].ResolvedEvent? && Accepted(lib, trust, subjects, Seeded(base), log, n)
    requires Ordered(lib, log, n + 1)
    requires ReadsConflicts(subjects, base, log, n, st) && ReadsOpenings(lib, log, n, st)
    ensures ApplyResolved(lib, trust, st, log[n].resolution).Ok? <==> ResolvedAllowed(lib, trust, log, n)
    ensures ApplyResolved(lib, trust, st, log[n].resolution) != Err(ResolutionPrecedesChallenge)
  {
    var c := log[n].resolution.conflictId;
    assert Lookup(st.conflicts, c) == ConflictOf(subjects, base, log, n, c);
    assert Lookup(st.challengeOpenedAt, c) == FirstTime(lib, log, n, Openings(c));
    OutcomeDomain(log, n, c);
    OpeningsDomain(lib, log, n, c);
    if j :| 0 <= j < n && Opens(log[j], c) {
      OpenedExists(lib, trust, subjects, base, log, n, j, c);
      FirstTimeIsEarliest(lib, log, n, Openings(c));
    }
  }

  lemma OpeningsDomain(lib: Library, log: seq<Event>, n: nat, c: Text)
    requires n <= |log|
    ensures FirstTime(lib, log, n, Openings(c)).Some? <==> exists j :: 0 <= j < n && Opens(log[j], c)
  {
    FirstTimeDomain(lib, log, n, Openings(c));
    if j :| 0 <= j < n && Opens(log[j], c) {
      assert Matches(Openings(c), log[j]);
    }
  }

  lemma ResolvedReads(
    lib: Library, trust: Trust, subjects: Subjects, base: Base, log: seq<Event>, n: nat, st: State)
    requires n < |log| && log[n].ResolvedEvent?
    requires ReadsConflicts(subjects, base, log, n, st) && ReadsOpenings(lib, log, n, st)
    requires ApplyResolved(lib, trust, st, log[n].resolution).Ok?
    ensures var after := ApplyResolved(lib, trust, st, log[n].resolution).value;
            && ReadsConflicts(subjects, base, log, n + 1, after)
            && after == st.(conflicts := after.conflicts)
  {
    var e := log[n].resolution;
    var c := e.conflictId;
    var after := ApplyResolved(lib, trust, st, e).value;
    assert Lookup(st.conflicts, c) == ConflictOf(subjects, base, log, n, c);
    IdsAppend(Filter(log, n, ConflictEvents(c)), log[n]);
    ConflictUpdate(subjects, base, log, n, st, c, after.conflicts[c], after);
  }
}
