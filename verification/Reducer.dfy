/**
 reduceAttestationEvents of phase0/src/attestations.ts, branch by branch: the state it keeps while it walks
 the log, what each event does to that state, and which check throws.
 */
module Reducer {
  import opened Wrappers
  import opened Utf16
  import opened Attestations
  import opened Statements
  import opened Platform
  import Folding

  datatype Error =
    | MalformedTrust
    | MalformedBaseSubject
    | DuplicateBaseRegistration
    | MalformedEvent
    | SequenceGap
    | DuplicateEventId
    | TimeRunsBackwards
    | FutureDated
    | SubjectDrift
    | CredentialConsumed
    | NotFresh
    | BadSignature
    | VerifierRequired
    | VerifierRejects
    | RepositoryEvidenceMissing
    | ApprovalAfterEnvelope
    | ApprovalPrecedesEvidence
    | ConflictMismatch
    | ConflictAlreadyResolved
    | UnknownConflict
    | NoSignedChallenge
    | ResolutionPrecedesChallenge
    | UnknownRegistration
    | EvidenceNotActive
    | RevocationPrecedesEvidence

  datatype RevocationRecord = RevocationRecord(level: EvidenceLevel, eventId: Text, occurredAt: Text, reason: Text)

  datatype Registration = Registration(
    subject: Subject,
    evidenceEventIds: seq<Text>,
    revocations: seq<RevocationRecord>,
    repositoryActive: bool,
    organizationActive: bool,
    repositoryActivatedAt: Option<int>,
    organizationActivatedAt: Option<int>,
    repositoryRevokedAt: Option<int>,
    organizationRevokedAt: Option<int>)

  datatype Conflict = Conflict(
    conflictId: Text,
    artifactHash: Option<Text>,
    registrationIds: seq<Text>,
    reason: ConflictReason,
    /** The outcome once resolved; an open conflict has none. */
    outcome: Option<Outcome>,
    eventIds: seq<Text>)

  /** The six sets of consumed credentials. */
  datatype Consumed = Consumed(
    repositoryStatementHashes: set<Text>,
    repositoryNonces: set<Text>,
    repositorySignatures: set<Text>,
    forgeObservations: set<ForgeObservation>,
    organizationStatementHashes: set<Text>,
    organizationSignatures: set<Text>)

  datatype State = State(
    eventIds: set<Text>,
    priorOccurredAt: Option<int>,
    registrations: map<Text, Registration>,
    consumed: Consumed,
    conflicts: map<Text, Conflict>,
    challengeOpenedAt: map<Text, int>)

  type Subjects = map<Text, Subject>

  function NewRegistration(s: Subject): Registration {
    Registration(s, [], [], false, false, None, None, None, None)
  }

  const NOTHING_CONSUMED := Consumed({}, {}, {}, {}, {}, {})

  /** The state before the first event. */
  function InitialState(subjects: Subjects, base: map<Text, Conflict>): State {
    State({}, None, map id | id in subjects :: NewRegistration(subjects[id]), NOTHING_CONSUMED, base, map[])
  }

  // ---- The five kinds of event ----

  predicate RepositoryConsumed(c: Consumed, e: RepositoryControl) {
    || e.statementHash in c.repositoryStatementHashes
    || e.challenge.nonce in c.repositoryNonces
    || e.signature in c.repositorySignatures
    || e.forgeObservation in c.forgeObservations
  }

  function ConsumeRepository(c: Consumed, e: RepositoryControl): Consumed {
    c.(repositoryStatementHashes := c.repositoryStatementHashes + {e.statementHash},
       repositoryNonces := c.repositoryNonces + {e.challenge.nonce},
       repositorySignatures := c.repositorySignatures + {e.signature},
       forgeObservations := c.forgeObservations + {e.forgeObservation})
  }

  predicate ApprovalConsumed(c: Consumed, a: Approval) {
    a.statementHash in c.organizationStatementHashes || a.signature in c.organizationSignatures
  }

  function ConsumeApproval(c: Consumed, a: Approval): Consumed {
    c.(organizationStatementHashes := c.organizationStatementHashes + {a.statementHash},
       organizationSignatures := c.organizationSignatures + {a.signature})
  }

  /** A stored cut-off that the time t does not lie strictly after. */
  predicate NotAfter(t: int, cutoff: Option<int>) { cutoff.Some? && t <= cutoff.value }

  /** lines 849-885 */
  function ApplyRepository(lib: Library, trust: Trust, st: State, e: RepositoryControl): Result<State, Error> {
    var id := e.subject.registrationId;
    if id !in st.registrations || !SubjectEquals(st.registrations[id].subject, e.subject) then Err(SubjectDrift)
    else
      var r := st.registrations[id];
      if RepositoryConsumed(st.consumed, e) then Err(CredentialConsumed)
      else if NotAfter(lib.date(e.challenge.issuedAt), r.repositoryRevokedAt)
              || NotAfter(lib.date(e.forgeObservation.observedAt), r.repositoryRevokedAt) then Err(NotFresh)
      else if !RepositorySigned(lib, e) then Err(BadSignature)
      else if trust.repositoryVerifier.None? then Err(VerifierRequired)
      else if !trust.repositoryVerifier.value(e) then Err(VerifierRejects)
      else
        Ok(st.(consumed := ConsumeRepository(st.consumed, e),
               registrations := st.registrations[id := r.(repositoryActive := true,
                                                          repositoryActivatedAt := Some(lib.date(e.occurredAt)),
                                                          evidenceEventIds := r.evidenceEventIds + [e.eventId])]))
  }

  /** lines 886-907 */
  function ApplyOrganization(lib: Library, trust: Trust, st: State, e: OrganizationApproved): Result<State, Error> {
    var id := e.subject.registrationId;
    if || id !in st.registrations
       || !SubjectEquals(st.registrations[id].subject, e.subject)
       || !SubjectEquals(e.subject, e.approval.subject) then Err(SubjectDrift)
    else
      var r := st.registrations[id];
      var approvedAt := lib.date(e.approval.approvedAt);
      if !r.repositoryActive then Err(RepositoryEvidenceMissing)
      else if ApprovalConsumed(st.consumed, e.approval) then Err(CredentialConsumed)
      else if NotAfter(approvedAt, r.organizationRevokedAt) then Err(NotFresh)
      else if approvedAt > lib.date(e.occurredAt) then Err(ApprovalAfterEnvelope)
      else if r.repositoryActivatedAt.None? || approvedAt < r.repositoryActivatedAt.value then
        Err(ApprovalPrecedesEvidence)
      else if !ApprovalSigned(lib, trust, e.approval) then Err(BadSignature)
      else
        Ok(st.(consumed := ConsumeApproval(st.consumed, e.approval),
               registrations := st.registrations[id := r.(organizationActive := true,
                                                          organizationActivatedAt := Some(lib.date(e.occurredAt)),
                                                          evidenceEventIds := r.evidenceEventIds + [e.eventId])]))
  }

  /** Two identifiers in ordinal order. */
  function SortedPair(a: Text, b: Text): seq<Text> { Sort([a, b]) }

  /** lines 908-932 */
  function ApplyOpened(lib: Library, subjects: Subjects, st: State, e: ChallengeOpened): Result<State, Error> {
    if !ChallengeSigned(lib, subjects, e) then Err(BadSignature)
    else
      var at := lib.date(e.occurredAt);
      var c := e.conflictId;
      var openedAt := if c !in st.challengeOpenedAt || at < st.challengeOpenedAt[c]
                      then st.challengeOpenedAt[c := at] else st.challengeOpenedAt;
      if c in st.conflicts then
        var existing := st.conflicts[c];
        if || e.challengedRegistrationId !in existing.registrationIds
           || e.challengerRegistrationId !in existing.registrationIds then Err(ConflictMismatch)
        else if existing.outcome.Some? then Err(ConflictAlreadyResolved)
        else
          Ok(st.(challengeOpenedAt := openedAt,
                 conflicts := st.conflicts[c := existing.(eventIds := existing.eventIds + [e.eventId])]))
      else
        Ok(st.(challengeOpenedAt := openedAt, conflicts := st.conflicts[c := NewConflict(subjects, e)]))
  }

  function NewConflict(subjects: Subjects, e: ChallengeOpened): Conflict
    requires e.challengedRegistrationId in subjects && e.challengerRegistrationId in subjects
  {
    var challenged := subjects[e.challengedRegistrationId];
    var challenger := subjects[e.challengerRegistrationId];
    Conflict(
      e.conflictId,
      if challenged.artifactHash == challenger.artifactHash then Some(challenged.artifactHash) else None,
      SortedPair(e.challengedRegistrationId, e.challengerRegistrationId),
      e.reason,
      None,
      [e.eventId])
  }

  /** lines 933-941 */
  function ApplyResolved(lib: Library, trust: Trust, st: State, e: ChallengeResolved): Result<State, Error> {
    var c := e.conflictId;
    if !AdminSigned(lib, trust, e.adminSignerId, Resolved(e), e.statementHash, e.signature) then Err(BadSignature)
    else if c !in st.conflicts then Err(UnknownConflict)
    else if c !in st.challengeOpenedAt then Err(NoSignedChallenge)
    else if lib.date(e.occurredAt) < st.challengeOpenedAt[c] then Err(ResolutionPrecedesChallenge)
    else if st.conflicts[c].outcome.Some? then Err(ConflictAlreadyResolved)
    else
      Ok(st.(conflicts := st.conflicts[c := st.conflicts[c].(outcome := Some(e.outcome),
                                                             eventIds := st.conflicts[c].eventIds + [e.eventId])]))
  }

  /** lines 942-968 */
  function ApplyRevoked(lib: Library, trust: Trust, st: State, e: AttestationRevoked): Result<State, Error> {
    var at := lib.date(e.occurredAt);
    if !AdminSigned(lib, trust, e.adminSignerId, Revoked(e), e.statementHash, e.signature) then Err(BadSignature)
    else if e.registrationId !in st.registrations then Err(UnknownRegistration)
    else
      var r := st.registrations[e.registrationId];
      var noted := r.(revocations := r.revocations + [RevocationRecord(e.level, e.eventId, e.occurredAt, e.reason)]);
      match e.level
      case RepositoryLevel =>
        if !r.repositoryActive then Err(EvidenceNotActive)
        else if r.repositoryActivatedAt.None? || at < r.repositoryActivatedAt.value then Err(RevocationPrecedesEvidence)
        else
          Ok(st.(registrations := st.registrations[e.registrationId := noted.(
                   repositoryActive := false, organizationActive := false,
                   repositoryActivatedAt := None, organizationActivatedAt := None,
                   repositoryRevokedAt := Some(at), organizationRevokedAt := Some(at))]))
      case OrganizationLevel =>
        if !r.organizationActive then Err(EvidenceNotActive)
        else if r.organizationActivatedAt.None? || at < r.organizationActivatedAt.value then
          Err(RevocationPrecedesEvidence)
        else
          Ok(st.(registrations := st.registrations[e.registrationId := noted.(
                   organizationActive := false, organizationActivatedAt := None,
                   organizationRevokedAt := Some(at))]))
  }

  // ---- One turn of the loop ----

  /** The checks every event passes first (lines 837-844). */
  function CheckEnvelope(lib: Library, trust: Trust, st: State, index: nat, e: Event): Option<Error> {
    var at := lib.date(e.OccurredAt());
    if !ValidEvent(lib, e) then Some(MalformedEvent)
    else if e.Sequence() != index + 1 then Some(SequenceGap)
    else if e.EventId() in st.eventIds then Some(DuplicateEventId)
    else if st.priorOccurredAt.Some? && at < st.priorOccurredAt.value then Some(TimeRunsBackwards)
    else if trust.now.Some? && at > trust.now.value then Some(FutureDated)
    else None
  }

  /** The bookkeeping of lines 845-846. */
  function Seen(lib: Library, st: State, e: Event): State {
    st.(priorOccurredAt := Some(lib.date(e.OccurredAt())), eventIds := st.eventIds + {e.EventId()})
  }

  function ApplyKind(lib: Library, trust: Trust, subjects: Subjects, st: State, e: Event): Result<State, Error> {
    match e
    case RepositoryEvent(r) => ApplyRepository(lib, trust, st, r)
    case OrganizationEvent(o) => ApplyOrganization(lib, trust, st, o)
    case OpenedEvent(c) => ApplyOpened(lib, subjects, st, c)
    case ResolvedEvent(r) => ApplyResolved(lib, trust, st, r)
    case RevokedEvent(v) => ApplyRevoked(lib, trust, st, v)
  }

  function Step(lib: Library, trust: Trust, subjects: Subjects, st: State, index: nat, e: Event): Result<State, Error> {
    match CheckEnvelope(lib, trust, st, index, e)
    case Some(error) => Err(error)
    case None => ApplyKind(lib, trust, subjects, Seen(lib, st, e), e)
  }

  /** One turn of the loop, for a fixed verifier and base. */
  function TurnOf(lib: Library, trust: Trust, subjects: Subjects): Folding.Turn<State, Event, Error> {
    (st: State, index: nat, e: Event) => Step(lib, trust, subjects, st, index, e)
  }

  /** The state after the first n events, or the first error. */
  function Run(lib: Library, trust: Trust, subjects: Subjects, base: map<Text, Conflict>, log: seq<Event>, n: nat)
    : Result<State, Error>
    requires n <= |log|
  {
    Folding.Fold(TurnOf(lib, trust, subjects), InitialState(subjects, base), log, n)
  }
}
