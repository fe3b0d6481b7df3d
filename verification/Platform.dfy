/**
 The calls that leave the program: hashing, signature recovery, clocks and URL parsing are uninterpreted,
 so every result holds whatever they answer. The textual checks of phase0/src/attestations.ts are written out.
 */
module Platform {
  import opened Wrappers
  import opened Utf16
  import opened Attestations
  import opened Statements

  datatype Library = Library(
    /** Date.parse of a timestamp. */
    date: Text -> int,
    /** The text is a canonical UTC timestamp: new Date(t).toISOString() === t. */
    isIso: Text -> bool,
    /** keccak256 and SHA-256 of the UTF-8 bytes of a text, as text. */
    keccak: Text -> Text,
    sha256: Text -> Text,
    /** verifyMessage(wallet, message, signature). */
    recovers: (Text, Text, Text) -> bool,
    /** The recorded hash is that of the payload's statement, and the signature over it recovers the wallet. */
    signed: (Text, Payload, Text, Text) -> bool,
    /** value.trim() === value. */
    isTrimmed: Text -> bool,
    /** normalizeRepositoryUrl accepts the text. */
    isRepositoryUrl: Text -> bool,
    /** An HTTPS or IPFS URL. */
    isEvidenceUri: Text -> bool)

  datatype Trust = Trust(
    organizationSigners: map<Text, seq<Text>>,
    adminSigners: map<Text, Text>,
    baseSubjects: seq<Subject>,
    repositoryVerifier: Option<RepositoryControl -> bool>,
    now: Option<int>)

  // ---- Patterns ----

  predicate IsLowerHex(u: Unit) { HexValue(u) >= 0 }

  predicate IsHex(t: Text, digits: nat) {
    && |t| == digits + 2 && t[0] == 0x30 && t[1] == 0x78
    && forall i :: 2 <= i < |t| ==> IsLowerHex(t[i])
  }

  predicate IsAddress(t: Text) { IsHex(t, 40) }

  predicate IsHash(t: Text) { IsHex(t, 64) }

  predicate IsCommit(t: Text) {
    (|t| == 40 || |t| == 64) && forall i :: 0 <= i < |t| ==> IsLowerHex(t[i])
  }

  predicate IsSignature(t: Text) {
    && |t| >= 4 && |t| % 2 == 0 && t[0] == 0x30 && t[1] == 0x78
    && forall i :: 2 <= i < |t| ==> IsLowerHex(t[i]) || 0x41 <= t[i] <= 0x46
  }

  predicate IsLowerAlphanumeric(u: Unit) { 0x61 <= u <= 0x7a || IsDigit(u) }

  /** [a-z0-9][a-z0-9._-]{0,127} */
  predicate IsIdentifier(t: Text) {
    && 1 <= |t| <= 128 && IsLowerAlphanumeric(t[0])
    && forall i :: 1 <= i < |t| ==> IsLowerAlphanumeric(t[i]) || t[i] in {0x2e, 0x5f, 0x2d}
  }

  predicate HasPrefix(t: Text, prefix: Text) { |t| >= |prefix| && t[..|prefix|] == prefix }

  /** refs/heads/... or refs/remotes/..., without "..". */
  predicate IsTrustedRef(t: Text) {
    && (forall i :: 0 <= i < |t| - 1 ==> !(t[i] == 0x2e && t[i + 1] == 0x2e))
    && (forall i :: 0 <= i < |t| ==> IsLowerAlphanumeric(t[i]) || 0x41 <= t[i] <= 0x5a || t[i] in {0x2e, 0x5f, 0x2d, 0x2f})
    && ((HasPrefix(t, Ascii("refs/heads/")) && |t| > 11) || (HasPrefix(t, Ascii("refs/remotes/")) && |t| > 13))
  }

  /** The segments of a path, split at each slash. */
  function Segments(t: Text): (r: seq<Text>)
    ensures |r| > 0
  {
    if t == [] then [[]]
    else
      var rest := Segments(t[1..]);
      if t[0] == 0x2f then [[]] + rest else [[t[0]] + rest[0]] + rest[1..]
  }

  predicate IsRelativePath(t: Text) {
    && BACKSLASH !in t && 0 !in t
    && forall part :: part in Segments(t) ==> part != [] && part != [0x2e] && part != [0x2e, 0x2e]
  }

  predicate IsNonempty(lib: Library, t: Text) { lib.isTrimmed(t) && t != [] }

  predicate Distinct(texts: seq<Text>) {
    forall i, j :: 0 <= i < j < |texts| ==> texts[i] != texts[j]
  }

  // ---- parseSubject and the other parsers: what they accept ----

  predicate ValidSubject(s: Subject) {
    && s.registrationId == Ascii("eip155:1315:") + s.ipId
    && IsAddress(s.ipId)
    && IsAddress(s.wallet)
    && IsHash(s.artifactHash)
    && (forall i :: 0 <= i < |s.declaredParentIpIds| ==> IsAddress(s.declaredParentIpIds[i]))
    && Distinct(s.declaredParentIpIds)
  }

  predicate ValidChallenge(lib: Library, c: Challenge) {
    && ValidSubject(c.subject)
    && IsNonempty(lib, c.repositoryUrl) && lib.isRepositoryUrl(c.repositoryUrl)
    && IsCommit(c.artifactCommitSha)
    && IsRelativePath(c.artifactPath)
    && IsRelativePath(c.challengePath)
    && c.artifactPath != c.challengePath
    && IsHash(c.nonce)
    && lib.isIso(c.issuedAt)
    && lib.isIso(c.expiresAt)
    && lib.date(c.issuedAt) < lib.date(c.expiresAt)
  }

  predicate ValidObservation(lib: Library, o: ForgeObservation) {
    && IsIdentifier(o.repositoryId)
    && IsNonempty(lib, o.repositoryUrl) && lib.isRepositoryUrl(o.repositoryUrl)
    && IsTrustedRef(o.trustedRef)
    && IsCommit(o.proofCommitSha)
    && IsHash(o.challengeNonce)
    && lib.isIso(o.observedAt)
    && IsIdentifier(o.forgeSignerId)
    && IsNonempty(lib, o.signature)
  }

  predicate ValidApproval(lib: Library, a: Approval) {
    && ValidSubject(a.subject)
    && IsIdentifier(a.organizationId)
    && IsAddress(a.approverWallet)
    && lib.isIso(a.approvedAt)
    && IsHash(a.statementHash)
    && IsSignature(a.signature)
  }

  predicate IsRegistrationId(t: Text) {
    HasPrefix(t, Ascii("eip155:1315:")) && IsAddress(t[12..])
  }

  const MAX_SAFE_INTEGER := 9007199254740991

  /** What parseAttestationEvent accepts. */
  predicate ValidEvent(lib: Library, e: Event) {
    && IsNonempty(lib, e.EventId())
    && 0 < e.Sequence() <= MAX_SAFE_INTEGER
    && lib.isIso(e.OccurredAt())
    && match e
       case RepositoryEvent(r) =>
         && ValidSubject(r.subject) && ValidChallenge(lib, r.challenge)
         && ValidObservation(lib, r.forgeObservation)
         && IsHash(r.statementHash) && IsSignature(r.signature)
       case OrganizationEvent(o) =>
         ValidSubject(o.subject) && ValidApproval(lib, o.approval)
       case OpenedEvent(c) =>
         && IsNonempty(lib, c.conflictId)
         && IsRegistrationId(c.challengedRegistrationId) && IsRegistrationId(c.challengerRegistrationId)
         && c.challengedRegistrationId != c.challengerRegistrationId
         && IsAddress(c.challengerWallet)
         && (forall i :: 0 <= i < |c.evidenceUris| ==>
               IsNonempty(lib, c.evidenceUris[i]) && lib.isEvidenceUri(c.evidenceUris[i]))
         && Distinct(c.evidenceUris)
         && IsHash(c.statementHash) && IsSignature(c.signature)
       case ResolvedEvent(r) =>
         && IsNonempty(lib, r.conflictId) && IsNonempty(lib, r.rationale) && IsIdentifier(r.adminSignerId)
         && IsHash(r.statementHash) && IsSignature(r.signature)
       case RevokedEvent(v) =>
         && IsRegistrationId(v.registrationId) && IsNonempty(lib, v.reason) && IsIdentifier(v.adminSignerId)
         && IsHash(v.statementHash) && IsSignature(v.signature)
  }

  /** What the two trust snapshots accept. */
  predicate ValidTrust(trust: Trust) {
    && (forall id :: id in trust.organizationSigners ==>
          && IsIdentifier(id)
          && Distinct(trust.organizationSigners[id])
          && forall i :: 0 <= i < |trust.organizationSigners[id]| ==> IsAddress(trust.organizationSigners[id][i]))
    && (forall id :: id in trust.adminSigners ==> IsIdentifier(id) && IsAddress(trust.adminSigners[id]))
    && (forall a, b :: a in trust.adminSigners && b in trust.adminSigners && a != b ==>
          trust.adminSigners[a] != trust.adminSigners[b])
  }

  // ---- Signature checks ----

  /** What `signed` stands for. The reducer needs no more than that it is some check on these four values. */
  ghost predicate SignsStatements(lib: Library) {
    forall wallet, p, statementHash, signature ::
      lib.signed(wallet, p, statementHash, signature) <==>
        statementHash == lib.keccak(Statement(p)) && lib.recovers(wallet, Statement(p), signature)
  }

  /** verifyRepositoryEventSignature. */
  predicate RepositorySigned(lib: Library, e: RepositoryControl) {
    && SubjectEquals(e.subject, e.challenge.subject)
    && lib.signed(e.subject.wallet, Repository(e.challenge), e.statementHash, e.signature)
  }

  /** verifyOrganizationApproval. */
  predicate ApprovalSigned(lib: Library, trust: Trust, a: Approval) {
    && a.organizationId in trust.organizationSigners
    && a.approverWallet in trust.organizationSigners[a.organizationId]
    && lib.signed(a.approverWallet, Organization(a), a.statementHash, a.signature)
  }

  /** verifyChallengeEventSignature. */
  predicate ChallengeSigned(lib: Library, subjects: map<Text, Subject>, e: ChallengeOpened) {
    && e.challengerRegistrationId in subjects
    && e.challengedRegistrationId in subjects
    && subjects[e.challengerRegistrationId].wallet == e.challengerWallet
    && lib.signed(e.challengerWallet, Opened(e), e.statementHash, e.signature)
  }

  /** verifyAdminEventSignature. */
  predicate AdminSigned(lib: Library, trust: Trust, signerId: Text, p: Payload, statementHash: Text, signature: Text) {
    && signerId in trust.adminSigners
    && lib.signed(trust.adminSigners[signerId], p, statementHash, signature)
  }
}
