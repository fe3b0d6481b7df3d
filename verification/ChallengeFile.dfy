/**
 Signed challenge files and repository evidence, phase0/src/attestation-git.ts: printing and parsing the file,
 verifying an event against a Git snapshot, and verifying it again later.
 */
module ChallengeFile {
  import opened Wrappers
  import opened Utf16
  import opened Utf8
  import opened Json
  import opened Attestations
  import opened Records
  import opened Statements
  import opened Platform
  import AttestationIndex
  import EventLog
  import HistoryTheorems
  import LogClosure

  datatype SignedChallenge = SignedChallenge(challenge: Challenge, statementHash: Text, signature: Text)

  /** The calls that leave the program, beside those of the reducer. */
  datatype Outside = Outside(
    /** SHA-256 of bytes, as text. */
    sha256: seq<Byte> -> Text,
    /** The Ed25519 check of an observation under a key. */
    observed: (ForgeObservation, Text) -> bool)

  datatype FileError = Malformed | NotOneLine | NotJson | NotCanonical | HashMismatch

  // ---- Printing ----

  function FileKeys(): seq<string> { ["challenge", "statementHash", "signature"] }

  function FileValues(s: SignedChallenge): seq<Json> {
    [ChallengeJson(s.challenge), Str(s.statementHash), Str(s.signature)]
  }

  function FileJson(s: SignedChallenge): Json { Object(FileKeys(), FileValues(s)) }

  function FileText(s: SignedChallenge): Text { Render(FileJson(s)) + [LF] }

  predicate WellFormedSigned(lib: Library, s: SignedChallenge) {
    ValidChallenge(lib, s.challenge) && IsHash(s.statementHash) && IsSignature(s.signature)
  }

  /** canonicalChallengeFileBytes. */
  function CanonicalBytes(lib: Library, s: SignedChallenge): Result<seq<Byte>, FileError> {
    if WellFormedSigned(lib, s) then Ok(Encode(FileText(s))) else Err(Malformed)
  }

  // ---- Parsing ----

  /** Exactly one line feed, at the end. */
  predicate OneLine(t: Text) { t != [] && t[|t| - 1] == LF && LF !in t[..|t| - 1] }

  function StatementHash(lib: Library, c: Challenge): Text { lib.keccak(Statement(Repository(c))) }

  /** The three keys in order, and the shapes under them. */
  function ReadFile(j: Json): Option<SignedChallenge> {
    match FieldsInOrder(j, FileKeys())
    case None => None
    case Some(v) =>
      if ReadChallenge(v[0]).Some? && v[1].Str? && v[2].Str?
      then Some(SignedChallenge(ReadChallenge(v[0]).value, v[1].s, v[2].s)) else None
  }

  /** parseSignedRepositoryChallengeFile. */
  function Parse(lib: Library, bytes: seq<Byte>): Result<SignedChallenge, FileError> {
    var text := Decode(bytes);
    if !OneLine(text) then Err(NotOneLine)
    else
      match ParseJson(text)
      case None => Err(NotJson)
      case Some(j) =>
        match ReadFile(j)
        case None => Err(Malformed)
        case Some(s) =>
          match CanonicalBytes(lib, s)
          case Err(error) => Err(error)
          case Ok(canonical) =>
            if canonical != bytes then Err(NotCanonical)
            else if s.statementHash != StatementHash(lib, s.challenge) then Err(HashMismatch)
            else Ok(s)
  }

  lemma FileTextShape(s: SignedChallenge)
    ensures OneLine(FileText(s)) && WellFormed(FileText(s))
  {
    RenderClean(FileJson(s));
    EventLog.LineFree(Render(FileJson(s)));
    assert FileText(s)[..|FileText(s)| - 1] == Render(FileJson(s));
    WellFormedConcat(Render(FileJson(s)), [LF]);
  }

  lemma ReadsFile(s: SignedChallenge)
    ensures ReadFile(FileJson(s)) == Some(s)
  {
    KeysApart(FileKeys());
    FieldsInOrderOfPrinted(FileKeys(), FileValues(s));
    ReadsChallenge(s.challenge);
  }

  /** The bytes of a file determine the signed challenge, whatever its fields hold. */
  lemma DecodesFile(s: SignedChallenge)
    ensures Decode(Encode(FileText(s))) == FileText(s)
    ensures ParseJson(FileText(s)) == Some(FileJson(s)) && ReadFile(FileJson(s)) == Some(s)
  {
    FileTextShape(s);
    DecodeEncode(FileText(s));
    ParsesRendered(FileJson(s), [LF]);
    ReadsFile(s);
  }

  /** A printed challenge parses back, exactly when it carries the hash of its own statement. */
  lemma ParseAfterPrint(lib: Library, s: SignedChallenge)
    requires CanonicalBytes(lib, s).Ok?
    ensures Parse(lib, CanonicalBytes(lib, s).value) ==
            if s.statementHash == StatementHash(lib, s.challenge) then Ok(s) else Err(HashMismatch)
  {
    FileTextShape(s);
    DecodesFile(s);
  }

  /** Parsing is the inverse of printing: the files that parse are the printed ones that carry their own hash. */
  lemma ParseExact(lib: Library, bytes: seq<Byte>, s: SignedChallenge)
    ensures Parse(lib, bytes) == Ok(s) <==>
              CanonicalBytes(lib, s) == Ok(bytes) && s.statementHash == StatementHash(lib, s.challenge)
  {
    if CanonicalBytes(lib, s) == Ok(bytes) {
      ParseAfterPrint(lib, s);
    }
  }

  /** At most one file per signed challenge, and at most one signed challenge per file. */
  lemma FilesInjective(lib: Library, s: SignedChallenge, t: SignedChallenge)
    requires CanonicalBytes(lib, s).Ok? && CanonicalBytes(lib, t).Ok?
    ensures CanonicalBytes(lib, s) == CanonicalBytes(lib, t) <==> s == t
  {
    DecodesFile(s);
    DecodesFile(t);
  }

  // ---- A Git snapshot ----

  /** Commits with their parents, refs, the files of each commit, and the origin remote. */
  datatype Git = Git(
    parents: map<Text, seq<Text>>,
    refs: map<Text, Text>,
    blobs: map<(Text, Text), seq<Byte>>,
    origin: Text)

  /** The commit a full object name or a ref stands for. */
  function Commit(git: Git, name: Text): Option<Text> {
    if IsCommit(name) then if name in git.parents then Some(name) else None
    else if name in git.refs && git.refs[name] in git.parents then Some(git.refs[name])
    else None
  }

  /** Each commit of the path is a parent of the one before it. */
  predicate IsPath(git: Git, path: seq<Text>) {
    && |path| > 0
    && forall i :: 0 <= i < |path| - 1 ==> path[i] in git.parents && path[i + 1] in git.parents[path[i]]
  }

  /** The first commit is the second or one of its ancestors. */
  ghost predicate Reachable(git: Git, ancestor: Text, descendant: Text) {
    exists path :: IsPath(git, path) && path[0] == descendant && path[|path| - 1] == ancestor
  }

  lemma ReachableTransitive(git: Git, a: Text, b: Text, c: Text)
    requires Reachable(git, a, b) && Reachable(git, b, c)
    ensures Reachable(git, a, c)
  {
    var p :| IsPath(git, p) && p[0] == c && p[|p| - 1] == b;
    var q :| IsPath(git, q) && q[0] == b && q[|q| - 1] == a;
    var path := p + q[1..];
    forall i | 0 <= i < |path| - 1
      ensures path[i] in git.parents && path[i + 1] in git.parents[path[i]]
    {
      if i < |p| - 1 {
        assert path[i] == p[i] && path[i + 1] == p[i + 1];
      } else {
        assert path[i] == q[i - (|p| - 1)] && path[i + 1] == q[i + 1 - (|p| - 1)];
      }
    }
    assert IsPath(git, path);
  }

  /** isAncestor as the reader answers it: both names must stand for commits. */
  ghost predicate IsAncestor(git: Git, ancestor: Text, descendant: Text) {
    var a, d := Commit(git, ancestor), Commit(git, descendant);
    a.Some? && d.Some? && Reachable(git, a.value, d.value)
  }

  function ReadBlob(git: Git, commit: Text, path: Text): Option<seq<Byte>> {
    if IsCommit(commit) && commit in git.parents && IsRelativePath(path) && (commit, path) in git.blobs
    then Some(git.blobs[(commit, path)]) else None
  }

  // ---- Verification ----

  datatype TrustedRepository = TrustedRepository(
    repositoryId: Text, repositoryUrl: Text, trustedRef: Text, permittedForgeSignerIds: seq<Text>, git: Git)

  /** What the verifier is provisioned with. */
  datatype Context = Context(
    resolve: (Text, Text) -> Option<TrustedRepository>,
    forgeSigners: map<Text, Text>)

  /** verifyForgeObservation. */
  predicate ObservationTrusted(
    lib: Library, outside: Outside, context: Context, o: ForgeObservation, trusted: TrustedRepository)
  {
    && ValidObservation(lib, o)
    && o.repositoryId == trusted.repositoryId && o.repositoryUrl == trusted.repositoryUrl
    && o.trustedRef == trusted.trustedRef
    && o.forgeSignerId in trusted.permittedForgeSignerIds
    && o.forgeSignerId in context.forgeSigners
    && outside.observed(o, context.forgeSigners[o.forgeSignerId])
  }

  /** The dates are in order, and none is in the future. */
  predicate Timely(lib: Library, e: RepositoryControl, now: int) {
    var issuedAt, expiresAt := lib.date(e.challenge.issuedAt), lib.date(e.challenge.expiresAt);
    var observedAt, occurredAt := lib.date(e.forgeObservation.observedAt), lib.date(e.occurredAt);
    issuedAt <= observedAt <= expiresAt && observedAt <= occurredAt <= now && observedAt <= now
  }

  /** The checks on the trusted checkout. */
  ghost predicate CheckoutAgrees(
    lib: Library, outside: Outside, e: RepositoryControl, file: seq<Byte>, trusted: TrustedRepository)
  {
    var git := trusted.git;
    && lib.isRepositoryUrl(git.origin)
    && git.origin == trusted.repositoryUrl == e.challenge.repositoryUrl == e.forgeObservation.repositoryUrl
    && Commit(git, e.challenge.artifactCommitSha).Some?
    && Commit(git, e.forgeObservation.proofCommitSha).Some?
    && Commit(git, trusted.trustedRef).Some?
    && IsAncestor(git, e.challenge.artifactCommitSha, e.forgeObservation.proofCommitSha)
    && IsAncestor(git, e.forgeObservation.proofCommitSha, trusted.trustedRef)
    && (match ReadBlob(git, e.challenge.artifactCommitSha, e.challenge.artifactPath)
        case None => false
        case Some(artifact) => outside.sha256(artifact) == e.subject.artifactHash)
    && ReadBlob(git, e.forgeObservation.proofCommitSha, e.challenge.challengePath) == Some(file)
  }

  /** verifyRepositorySnapshot accepts the event with this challenge file. */
  ghost predicate Verifies(
    lib: Library, outside: Outside, context: Context, e: RepositoryControl, file: seq<Byte>, now: int)
  {
    && ValidEvent(lib, RepositoryEvent(e)) && RepositorySigned(lib, e)
    && Parse(lib, file) == Ok(SignedChallenge(e.challenge, e.statementHash, e.signature))
    && var trusted := context.resolve(e.forgeObservation.repositoryId, e.challenge.repositoryUrl);
       && trusted.Some?
       && ObservationTrusted(lib, outside, context, e.forgeObservation, trusted.value)
       && e.forgeObservation.challengeNonce == e.challenge.nonce
       && Timely(lib, e, now)
       && CheckoutAgrees(lib, outside, e, file, trusted.value)
  }

  /** verifyRepositoryControl: the event it makes of a challenge file and an observation, if it accepts them. */
  ghost function VerifyControl(
    lib: Library, outside: Outside, context: Context, file: seq<Byte>, observation: ForgeObservation, eventId: Text,
    sequence: nat, occurredAt: Text, now: int): Option<RepositoryControl>
  {
    match Parse(lib, file)
    case Err(_) => None
    case Ok(s) =>
      if !ValidObservation(lib, observation) then None
      else
        var e := RepositoryControl(eventId, sequence, occurredAt, s.challenge.subject, s.challenge, observation,
                                   s.statementHash, s.signature);
        if Verifies(lib, outside, context, e, file, now) then Some(e) else None
  }

  /** reverifyRepositoryEvent accepts: the challenge file is printed again from the event. */
  ghost predicate Reverifies(lib: Library, outside: Outside, context: Context, e: RepositoryControl, now: int) {
    match CanonicalBytes(lib, SignedChallenge(e.challenge, e.statementHash, e.signature))
    case Err(_) => false
    case Ok(file) => Verifies(lib, outside, context, e, file, now)
  }

  lemma VerifiesLater(
    lib: Library, outside: Outside, context: Context, e: RepositoryControl, file: seq<Byte>, now: int, later: int)
    requires Verifies(lib, outside, context, e, file, now) && now <= later
    ensures Verifies(lib, outside, context, e, file, later)
  {
  }

  /** The verifier that the evidence index is built with. */
  ghost function Reverifier(lib: Library, outside: Outside, context: Context, now: int): RepositoryControl -> bool {
    e => Reverifies(lib, outside, context, e, now)
  }

  /** The whole index stays the same as time passes, although the verifier reads the clock too. */
  lemma IndexLasts(
    lib: Library, outside: Outside, context: Context, t: Trust, u: Trust, now: int, later: int, log: seq<Event>,
    index: AttestationIndex.Index)
    requires now <= later
    requires t.now == Some(now) && t.repositoryVerifier == Some(Reverifier(lib, outside, context, now))
    requires u == t.(now := Some(later), repositoryVerifier := Some(Reverifier(lib, outside, context, later)))
    requires HistoryTheorems.Answers(lib, t, log, index)
    ensures HistoryTheorems.Answers(lib, u, log, index)
  {
    forall e | t.repositoryVerifier.value(e)
      ensures u.repositoryVerifier.value(e)
    {
      var file := CanonicalBytes(lib, SignedChallenge(e.challenge, e.statementHash, e.signature)).value;
      VerifiesLater(lib, outside, context, e, file, now, later);
    }
    LogClosure.ClockMonotone(lib, t, u, log, index);
  }

  /** Evidence accepted once is accepted again at every later time, as long as the snapshot is unchanged. */
  lemma ReverifiesLater(
    lib: Library, outside: Outside, context: Context, file: seq<Byte>, observation: ForgeObservation, eventId: Text,
    sequence: nat, occurredAt: Text, now: int, later: int)
    requires now <= later
    requires VerifyControl(lib, outside, context, file, observation, eventId, sequence, occurredAt, now).Some?
    ensures var e := VerifyControl(lib, outside, context, file, observation, eventId, sequence, occurredAt, now).value;
            Reverifies(lib, outside, context, e, later)
  {
    var e := VerifyControl(lib, outside, context, file, observation, eventId, sequence, occurredAt, now).value;
    ParseExact(lib, file, SignedChallenge(e.challenge, e.statementHash, e.signature));
    VerifiesLater(lib, outside, context, e, file, now, later);
  }

  /** An event verifies against the one file its own content prints, and against no other. */
  lemma OnlyItsOwnFile(
    lib: Library, outside: Outside, context: Context, e: RepositoryControl, file: seq<Byte>, now: int)
    ensures Verifies(lib, outside, context, e, file, now) <==>
              && CanonicalBytes(lib, SignedChallenge(e.challenge, e.statementHash, e.signature)) == Ok(file)
              && Reverifies(lib, outside, context, e, now)
  {
    if Verifies(lib, outside, context, e, file, now) {
      ParseExact(lib, file, SignedChallenge(e.challenge, e.statementHash, e.signature));
    }
  }

  /** The artifact of verified evidence lies in the history of the trusted ref, with the registered bytes. */
  lemma ArtifactInTrustedHistory(lib: Library, outside: Outside, context: Context, e: RepositoryControl, now: int)
    requires Reverifies(lib, outside, context, e, now)
    ensures var trusted := context.resolve(e.forgeObservation.repositoryId, e.challenge.repositoryUrl);
            && trusted.Some?
            && IsAncestor(trusted.value.git, e.challenge.artifactCommitSha, trusted.value.trustedRef)
            && (exists bytes ::
                  ReadBlob(trusted.value.git, e.challenge.artifactCommitSha, e.challenge.artifactPath) == Some(bytes)
                  && outside.sha256(bytes) == e.challenge.subject.artifactHash)
  {
    var trusted := context.resolve(e.forgeObservation.repositoryId, e.challenge.repositoryUrl).value;
    ChainedAncestors(trusted.git, e.challenge.artifactCommitSha, e.forgeObservation.proofCommitSha, trusted.trustedRef);
  }

  lemma ChainedAncestors(git: Git, a: Text, b: Text, c: Text)
    requires IsAncestor(git, a, b) && IsAncestor(git, b, c)
    ensures IsAncestor(git, a, c)
  {
    ReachableTransitive(git, Commit(git, a).value, Commit(git, b).value, Commit(git, c).value);
  }
}
