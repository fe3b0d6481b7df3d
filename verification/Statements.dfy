/**
 The texts that wallets, organizations and admins sign: a domain line, one line of JSON, and a line feed.
 Two signed payloads share a text exactly when they say the same thing.
 */
module Statements {
  import opened Utf16
  import opened Json
  import opened Attestations

  /** What can be signed. */
  datatype Payload =
    | Repository(challenge: Challenge)
    | Organization(approval: Approval)
    | Opened(opening: ChallengeOpened)
    | Resolved(resolution: ChallengeResolved)
    | Revoked(revocation: AttestationRevoked)

  function RoleText(role: Role): Text {
    match role
    case IpAdmin => Ascii("ip_admin")
    case EngineeringExecutive => Ascii("engineering_executive")
  }

  function ReasonText(reason: ConflictReason): Text {
    match reason
    case DuplicateBytes => Ascii("duplicate_bytes")
    case MisattributedCreator => Ascii("misattributed_creator")
    case UnauthorizedRegistration => Ascii("unauthorized_registration")
  }

  function OutcomeText(outcome: Outcome): Text {
    match outcome
    case Upheld => Ascii("upheld")
    case Rejected => Ascii("rejected")
    case Inconclusive => Ascii("inconclusive")
  }

  function LevelText(level: EvidenceLevel): Text {
    match level
    case RepositoryLevel => Ascii("repository_control_verified")
    case OrganizationLevel => Ascii("organization_approved")
  }

  function Strings(texts: seq<Text>): Json {
    Arr(seq(|texts|, i requires 0 <= i < |texts| => Str(texts[i])))
  }

  /** An object literal of the source: its keys in their fixed order, each with its value. */
  function Object(keys: seq<string>, values: seq<Json>): Json
    requires |keys| == |values|
  {
    Obj(seq(|keys|, i requires 0 <= i < |keys| => Member(Ascii(keys[i]), values[i])))
  }

  function RepositoryKeys(): seq<string> {
    ["schemaVersion", "registrationId", "ipId", "wallet", "artifactSha256", "declaredParentIpIds",
     "repository", "artifactCommit", "artifactPath", "challengePath", "nonce", "issuedAt", "expiresAt"]
  }

  function RepositoryValues(c: Challenge): seq<Json> {
    [Num(2), Str(c.subject.registrationId), Str(c.subject.ipId), Str(c.subject.wallet),
     Str(c.subject.artifactHash), Strings(Sort(c.subject.declaredParentIpIds)), Str(c.repositoryUrl),
     Str(c.artifactCommitSha), Str(c.artifactPath), Str(c.challengePath), Str(c.nonce), Str(c.issuedAt),
     Str(c.expiresAt)]
  }

  function OrganizationKeys(): seq<string> {
    ["schemaVersion", "registrationId", "ipId", "wallet", "artifactSha256", "declaredParentIpIds",
     "organizationId", "approverWallet", "role", "approvedAt"]
  }

  function OrganizationValues(a: Approval): seq<Json> {
    [Num(2), Str(a.subject.registrationId), Str(a.subject.ipId), Str(a.subject.wallet),
     Str(a.subject.artifactHash), Strings(Sort(a.subject.declaredParentIpIds)), Str(a.organizationId),
     Str(a.approverWallet), Str(RoleText(a.role)), Str(a.approvedAt)]
  }

  function OpenedKeys(): seq<string> {
    ["schemaVersion", "eventId", "sequence", "occurredAt", "conflictId", "challengedRegistrationId",
     "challengerRegistrationId", "challengerWallet", "evidenceUris", "reason"]
  }

  function OpenedValues(e: ChallengeOpened): seq<Json> {
    [Num(2), Str(e.eventId), Num(e.sequence), Str(e.occurredAt), Str(e.conflictId),
     Str(e.challengedRegistrationId), Str(e.challengerRegistrationId), Str(e.challengerWallet),
     Strings(Sort(e.evidenceUris)), Str(ReasonText(e.reason))]
  }

  function ResolvedKeys(): seq<string> {
    ["schemaVersion", "eventId", "sequence", "occurredAt", "conflictId", "outcome", "rationale",
     "adminSignerId"]
  }

  function ResolvedValues(e: ChallengeResolved): seq<Json> {
    [Num(2), Str(e.eventId), Num(e.sequence), Str(e.occurredAt), Str(e.conflictId),
     Str(OutcomeText(e.outcome)), Str(e.rationale), Str(e.adminSignerId)]
  }

  function RevokedKeys(): seq<string> {
    ["schemaVersion", "eventId", "sequence", "occurredAt", "registrationId", "level", "reason",
     "adminSignerId"]
  }

  function RevokedValues(e: AttestationRevoked): seq<Json> {
    [Num(2), Str(e.eventId), Num(e.sequence), Str(e.occurredAt), Str(e.registrationId),
     Str(LevelText(e.level)), Str(e.reason), Str(e.adminSignerId)]
  }

  function Domain(p: Payload): Text {
    Ascii("skill-asset-protocol/") + DomainName(p)
  }

  function DomainName(p: Payload): Text {
    match p
    case Repository(_) => Ascii("repository-control/v2")
    case Organization(_) => Ascii("organization-approval/v2")
    case Opened(_) => Ascii("challenge-opened/v2")
    case Resolved(_) => Ascii("challenge-resolved/v2")
    case Revoked(_) => Ascii("attestation-revoked/v2")
  }

  function Body(p: Payload): Json {
    match p
    case Repository(c) => Object(RepositoryKeys(), RepositoryValues(c))
    case Organization(a) => Object(OrganizationKeys(), OrganizationValues(a))
    case Opened(e) => Object(OpenedKeys(), OpenedValues(e))
    case Resolved(e) => Object(ResolvedKeys(), ResolvedValues(e))
    case Revoked(e) => Object(RevokedKeys(), RevokedValues(e))
  }

  /** canonicalSignedJson for each kind of payload. */
  function Statement(p: Payload): Text {
    Domain(p) + [LF] + (Render(Body(p)) + [LF])
  }

  /**
   The same kind of payload, equal in every signed scalar (free text included), with lists that are
   permutations of each other. Hashes and signatures are not part of what is signed.
   */
  ghost predicate SaysTheSame(p: Payload, q: Payload) {
    match (p, q)
    case (Repository(c), Repository(d)) => SameChallenge(c, d)
    case (Organization(a), Organization(b)) => SameApproval(a, b)
    case (Opened(e), Opened(f)) => SameOpening(e, f)
    case (Resolved(e), Resolved(f)) => SameResolution(e, f)
    case (Revoked(e), Revoked(f)) => SameRevocation(e, f)
    case _ => false
  }

  ghost predicate SameChallenge(c: Challenge, d: Challenge) {
    && SameSubject(c.subject, d.subject)
    && c.repositoryUrl == d.repositoryUrl
    && c.artifactCommitSha == d.artifactCommitSha
    && c.artifactPath == d.artifactPath
    && c.challengePath == d.challengePath
    && c.nonce == d.nonce
    && c.issuedAt == d.issuedAt
    && c.expiresAt == d.expiresAt
  }

  ghost predicate SameApproval(a: Approval, b: Approval) {
    && SameSubject(a.subject, b.subject)
    && a.organizationId == b.organizationId
    && a.approverWallet == b.approverWallet
    && a.role == b.role
    && a.approvedAt == b.approvedAt
  }

  ghost predicate SameOpening(e: ChallengeOpened, f: ChallengeOpened) {
    && e.eventId == f.eventId
    && e.sequence == f.sequence
    && e.occurredAt == f.occurredAt
    && e.conflictId == f.conflictId
    && e.challengedRegistrationId == f.challengedRegistrationId
    && e.challengerRegistrationId == f.challengerRegistrationId
    && e.challengerWallet == f.challengerWallet
    && multiset(e.evidenceUris) == multiset(f.evidenceUris)
    && e.reason == f.reason
  }

  ghost predicate SameResolution(e: ChallengeResolved, f: ChallengeResolved) {
    && e.eventId == f.eventId
    && e.sequence == f.sequence
    && e.occurredAt == f.occurredAt
    && e.conflictId == f.conflictId
    && e.outcome == f.outcome
    && e.rationale == f.rationale
    && e.adminSignerId == f.adminSignerId
  }

  ghost predicate SameRevocation(e: AttestationRevoked, f: AttestationRevoked) {
    && e.eventId == f.eventId
    && e.sequence == f.sequence
    && e.occurredAt == f.occurredAt
    && e.registrationId == f.registrationId
    && e.level == f.level
    && e.reason == f.reason
    && e.adminSignerId == f.adminSignerId
  }

  ghost predicate SameSubject(a: Subject, b: Subject) {
    && a.registrationId == b.registrationId
    && a.ipId == b.ipId
    && a.wallet == b.wallet
    && a.artifactHash == b.artifactHash
    && multiset(a.declaredParentIpIds) == multiset(b.declaredParentIpIds)
  }

  lemma StringsInjective(a: seq<Text>, b: seq<Text>)
    ensures Strings(a) == Strings(b) <==> a == b
  {
    if Strings(a) == Strings(b) {
      assert |a| == |Strings(a).items| == |Strings(b).items| == |b|;
      forall i | 0 <= i < |a|
        ensures a[i] == b[i]
      {
        assert Strings(a).items[i] == Strings(b).items[i];
      }
    }
  }

  lemma SortedStringsInjective(a: seq<Text>, b: seq<Text>)
    ensures Strings(Sort(a)) == Strings(Sort(b)) <==> multiset(a) == multiset(b)
  {
    SortCanonical(a, b);
    StringsInjective(Sort(a), Sort(b));
  }

  lemma ObjectInjective(keys: seq<string>, v: seq<Json>, w: seq<Json>)
    requires |keys| == |v| == |w|
    ensures Object(keys, v) == Object(keys, w) <==> v == w
  {
    if Object(keys, v) == Object(keys, w) {
      forall i | 0 <= i < |v|
        ensures v[i] == w[i]
      {
        assert Object(keys, v).members[i] == Object(keys, w).members[i];
      }
    }
  }

  lemma RoleInjective(a: Role, b: Role)
    ensures RoleText(a) == RoleText(b) <==> a == b
  {
  }

  lemma ReasonInjective(a: ConflictReason, b: ConflictReason)
    ensures ReasonText(a) == ReasonText(b) <==> a == b
  {
  }

  lemma OutcomeInjective(a: Outcome, b: Outcome)
    ensures OutcomeText(a) == OutcomeText(b) <==> a == b
  {
  }

  lemma LevelInjective(a: EvidenceLevel, b: EvidenceLevel)
    ensures LevelText(a) == LevelText(b) <==> a == b
  {
  }

  lemma RepositoryDetermined(c: Challenge, d: Challenge)
    ensures RepositoryValues(c) == RepositoryValues(d) <==> SameChallenge(c, d)
  {
    var v, w := RepositoryValues(c), RepositoryValues(d);
    SortedStringsInjective(c.subject.declaredParentIpIds, d.subject.declaredParentIpIds);
    if v == w {
      assert v[1] == w[1] && v[2] == w[2] && v[3] == w[3] && v[4] == w[4] && v[5] == w[5] && v[6] == w[6];
      assert v[7] == w[7] && v[8] == w[8] && v[9] == w[9] && v[10] == w[10] && v[11] == w[11] && v[12] == w[12];
    }
  }

  lemma OrganizationDetermined(a: Approval, b: Approval)
    ensures OrganizationValues(a) == OrganizationValues(b) <==> SameApproval(a, b)
  {
    var v, w := OrganizationValues(a), OrganizationValues(b);
    SortedStringsInjective(a.subject.declaredParentIpIds, b.subject.declaredParentIpIds);
    RoleInjective(a.role, b.role);
    if v == w {
      assert v[1] == w[1] && v[2] == w[2] && v[3] == w[3] && v[4] == w[4] && v[5] == w[5];
      assert v[6] == w[6] && v[7] == w[7] && v[8] == w[8] && v[9] == w[9];
    }
  }

  lemma OpenedDetermined(e: ChallengeOpened, f: ChallengeOpened)
    ensures OpenedValues(e) == OpenedValues(f) <==> SameOpening(e, f)
  {
    var v, w := OpenedValues(e), OpenedValues(f);
    SortedStringsInjective(e.evidenceUris, f.evidenceUris);
    ReasonInjective(e.reason, f.reason);
    if v == w {
      assert v[1] == w[1] && v[2] == w[2] && v[3] == w[3] && v[4] == w[4] && v[5] == w[5];
      assert v[6] == w[6] && v[7] == w[7] && v[8] == w[8] && v[9] == w[9];
    }
  }

  lemma ResolvedDetermined(e: ChallengeResolved, f: ChallengeResolved)
    ensures ResolvedValues(e) == ResolvedValues(f) <==> SameResolution(e, f)
  {
    var v, w := ResolvedValues(e), ResolvedValues(f);
    OutcomeInjective(e.outcome, f.outcome);
    if v == w {
      assert v[1] == w[1] && v[2] == w[2] && v[3] == w[3] && v[4] == w[4];
      assert v[5] == w[5] && v[6] == w[6] && v[7] == w[7];
    }
  }

  lemma RevokedDetermined(e: AttestationRevoked, f: AttestationRevoked)
    ensures RevokedValues(e) == RevokedValues(f) <==> SameRevocation(e, f)
  {
    var v, w := RevokedValues(e), RevokedValues(f);
    LevelInjective(e.level, f.level);
    if v == w {
      assert v[1] == w[1] && v[2] == w[2] && v[3] == w[3] && v[4] == w[4];
      assert v[5] == w[5] && v[6] == w[6] && v[7] == w[7];
    }
  }

  predicate SameKind(p: Payload, q: Payload) {
    && (p.Repository? <==> q.Repository?)
    && (p.Organization? <==> q.Organization?)
    && (p.Opened? <==> q.Opened?)
    && (p.Resolved? <==> q.Resolved?)
  }

  /** The units that tell the five domains apart. */
  lemma DomainNameMark(p: Payload)
    ensures |DomainName(p)| > 10
    ensures p.Repository? ==> DomainName(p)[0] == 0x72
    ensures p.Organization? ==> DomainName(p)[0] == 0x6f
    ensures p.Opened? ==> DomainName(p)[0] == 0x63 && DomainName(p)[10] == 0x6f
    ensures p.Resolved? ==> DomainName(p)[0] == 0x63 && DomainName(p)[10] == 0x72
    ensures p.Revoked? ==> DomainName(p)[0] == 0x61
  {
  }

  lemma Inside(a: Text, b: Text, c: Text, d: Text, i: nat)
    requires i < |b|
    ensures |a + b + c + d| > |a| + i && (a + b + c + d)[|a| + i] == b[i]
  {
  }

  lemma SameDomainMarks(p: Payload, q: Payload)
    requires Statement(p) == Statement(q)
    ensures SameKind(p, q)
  {
    var prefix := Ascii("skill-asset-protocol/");
    DomainNameMark(p);
    DomainNameMark(q);
    Inside(prefix, DomainName(p), [LF], Render(Body(p)) + [LF], 0);
    Inside(prefix, DomainName(q), [LF], Render(Body(q)) + [LF], 0);
    Inside(prefix, DomainName(p), [LF], Render(Body(p)) + [LF], 10);
    Inside(prefix, DomainName(q), [LF], Render(Body(q)) + [LF], 10);
  }

  lemma SameTail(prefix: Text, a: Text, b: Text)
    requires prefix + a == prefix + b
    ensures a == b
  {
    assert (prefix + a)[|prefix|..] == a;
    assert (prefix + b)[|prefix|..] == b;
  }

  lemma BodyDetermined(p: Payload, q: Payload)
    ensures SaysTheSame(p, q) ==> SameKind(p, q)
    ensures SameKind(p, q) ==> (Body(p) == Body(q) <==> SaysTheSame(p, q))
  {
    match (p, q)
    case (Repository(c), Repository(d)) =>
      ObjectInjective(RepositoryKeys(), RepositoryValues(c), RepositoryValues(d));
      RepositoryDetermined(c, d);
    case (Organization(a), Organization(b)) =>
      ObjectInjective(OrganizationKeys(), OrganizationValues(a), OrganizationValues(b));
      OrganizationDetermined(a, b);
    case (Opened(e), Opened(f)) =>
      ObjectInjective(OpenedKeys(), OpenedValues(e), OpenedValues(f));
      OpenedDetermined(e, f);
    case (Resolved(e), Resolved(f)) =>
      ObjectInjective(ResolvedKeys(), ResolvedValues(e), ResolvedValues(f));
      ResolvedDetermined(e, f);
    case (Revoked(e), Revoked(f)) =>
      ObjectInjective(RevokedKeys(), RevokedValues(e), RevokedValues(f));
      RevokedDetermined(e, f);
    case _ =>
  }

  /** One text, one meaning: signed statements are injective and their domains never overlap. */
  lemma StatementsInjective(p: Payload, q: Payload)
    ensures Statement(p) == Statement(q) <==> SaysTheSame(p, q)
  {
    BodyDetermined(p, q);
    if Statement(p) == Statement(q) {
      SameDomainMarks(p, q);
      SameTail(Domain(p) + [LF], Render(Body(p)) + [LF], Render(Body(q)) + [LF]);
      RenderPrefixFree(Body(p), [LF], Body(q), [LF]);
    }
  }
}
