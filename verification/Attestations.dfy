/** The evidence records of phase0/src/attestations.ts. Constant `schemaVersion: 1` fields are not repeated. */
module Attestations {
  import opened Utf16

  datatype Subject = Subject(
    registrationId: Text,
    ipId: Text,
    wallet: Text,
    artifactHash: Text,
    declaredParentIpIds: seq<Text>)

  datatype Challenge = Challenge(
    subject: Subject,
    repositoryUrl: Text,
    artifactCommitSha: Text,
    artifactPath: Text,
    challengePath: Text,
    nonce: Text,
    issuedAt: Text,
    expiresAt: Text)

  datatype Role = IpAdmin | EngineeringExecutive

  datatype Approval = Approval(
    subject: Subject,
    organizationId: Text,
    approverWallet: Text,
    role: Role,
    approvedAt: Text,
    statementHash: Text,
    signature: Text)

  datatype ForgeObservation = ForgeObservation(
    repositoryId: Text,
    repositoryUrl: Text,
    trustedRef: Text,
    proofCommitSha: Text,
    challengeNonce: Text,
    observedAt: Text,
    forgeSignerId: Text,
    signature: Text)

  datatype RepositoryControl = RepositoryControl(
    eventId: Text, sequence: nat, occurredAt: Text,
    subject: Subject,
    challenge: Challenge,
    forgeObservation: ForgeObservation,
    statementHash: Text,
    signature: Text)

  datatype OrganizationApproved = OrganizationApproved(
    eventId: Text, sequence: nat, occurredAt: Text,
    subject: Subject,
    approval: Approval)

  datatype ConflictReason = DuplicateBytes | MisattributedCreator | UnauthorizedRegistration

  datatype ChallengeOpened = ChallengeOpened(
    eventId: Text, sequence: nat, occurredAt: Text,
    conflictId: Text,
    challengedRegistrationId: Text,
    challengerRegistrationId: Text,
    challengerWallet: Text,
    evidenceUris: seq<Text>,
    reason: ConflictReason,
    statementHash: Text,
    signature: Text)

  datatype Outcome = Upheld | Rejected | Inconclusive

  datatype ChallengeResolved = ChallengeResolved(
    eventId: Text, sequence: nat, occurredAt: Text,
    conflictId: Text,
    outcome: Outcome,
    rationale: Text,
    adminSignerId: Text,
    statementHash: Text,
    signature: Text)

  /** The levels above the `wallet_asserted` floor: the only ones that can be revoked. */
  datatype EvidenceLevel = RepositoryLevel | OrganizationLevel

  datatype AttestationRevoked = AttestationRevoked(
    eventId: Text, sequence: nat, occurredAt: Text,
    registrationId: Text,
    level: EvidenceLevel,
    reason: Text,
    adminSignerId: Text,
    statementHash: Text,
    signature: Text)

  datatype Event =
    | RepositoryEvent(repository: RepositoryControl)
    | OrganizationEvent(organization: OrganizationApproved)
    | OpenedEvent(opening: ChallengeOpened)
    | ResolvedEvent(resolution: ChallengeResolved)
    | RevokedEvent(revocation: AttestationRevoked)
  {
    function EventId(): Text {
      match this
      case RepositoryEvent(e) => e.eventId
      case OrganizationEvent(e) => e.eventId
      case OpenedEvent(e) => e.eventId
      case ResolvedEvent(e) => e.eventId
      case RevokedEvent(e) => e.eventId
    }

    function Sequence(): nat {
      match this
      case RepositoryEvent(e) => e.sequence
      case OrganizationEvent(e) => e.sequence
      case OpenedEvent(e) => e.sequence
      case ResolvedEvent(e) => e.sequence
      case RevokedEvent(e) => e.sequence
    }

    function OccurredAt(): Text {
      match this
      case RepositoryEvent(e) => e.occurredAt
      case OrganizationEvent(e) => e.occurredAt
      case OpenedEvent(e) => e.occurredAt
      case ResolvedEvent(e) => e.occurredAt
      case RevokedEvent(e) => e.occurredAt
    }
  }

  /** subjectEquals: field by field, the parent list in order. */
  function SubjectEquals(a: Subject, b: Subject): (r: bool)
    ensures r <==> a == b
  {
    && a.registrationId == b.registrationId
    && a.ipId == b.ipId
    && a.wallet == b.wallet
    && a.artifactHash == b.artifactHash
    && |a.declaredParentIpIds| == |b.declaredParentIpIds|
    && forall i :: 0 <= i < |a.declaredParentIpIds| ==> a.declaredParentIpIds[i] == b.declaredParentIpIds[i]
  }
}
