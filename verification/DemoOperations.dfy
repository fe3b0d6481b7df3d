/**
 The pure parts of phase0/src/demo.ts: intents, proofs, and the guards that recovery runs; and what makes an
 operation the next one of the journal protocol.
 */
module DemoOperations {
  import opened Wrappers
  import opened Utf16
  import opened Registrations
  import opened Transactions
  import opened Story
  import JournalProtocol

  /** Why a run stops, apart from the store and the protocol itself. */
  datatype Reason =
    | WrongNetwork
    | MalformedManifest
    | MalformedJournal
    | PersistedHashMismatch
    | PrerequisiteFailed
    | NeverPrepare
    | BadConfiguration
    | ConfigurationDiffers
    | WrongWallet
    | InsufficientFunds
    | ArtifactDrift
    | MetadataMismatch
    | MetadataFailed
    | FeeUnknown
    | FeeNotReady
    | PreparationFailed
    | PreparationMismatch
    | ConfirmationFailed
    | MissingProof

  /** `phase0:<wallet>:<stage>` */
  function OperationId(wallet: Text, stage: Stage): Text {
    Ascii("phase0:") + wallet + [COLON] + StageName(stage)
  }

  function StageName(stage: Stage): Text {
    match stage
    case Collection => Ascii("collection")
    case Registration(Root) => Ascii("root")
    case Registration(Child) => Ascii("child")
    case Registration(Grandchild) => Ascii("grandchild")
  }

  lemma OperationIdNotBlank(wallet: Text, stage: Stage)
    ensures !Blank(OperationId(wallet, stage))
  {
    assert OperationId(wallet, stage)[0] == 0x70;
  }

  // ---- What a confirmation puts into the manifest ----

  function WithProof(m: Manifest, stage: DemoStage, p: Proof): Manifest {
    match stage
    case Root => m.(root := Some(p))
    case Child => m.(child := Some(p))
    case Grandchild => m.(grandchild := Some(p))
  }

  /** registrationProof. */
  function RegistrationProof(op: Operation, c: Confirmation): Result<Proof, Reason> {
    if op.stage == Collection || op.intent.metadata.None? then Err(MissingProof)
    else if !SameHex(c.txHash, op.transactionHash) then Err(ConfirmationFailed)
    else
      var i, metadata, stage := op.intent, op.intent.metadata.value, op.stage.demo;
      if i.registrationName.None? || i.artifactPath.None? || (stage != Root && !Addressed(i.parentIpId)) then
        Err(MissingProof)
      else
        Ok(Proof(
             stage,
             if stage == Root then Skill else Derivative,
             i.registrationName.value,
             c.ipId,
             Decimal(c.tokenId),
             op.transactionHash,
             Decimal(c.licenseTermsId),
             c.licenseTemplate,
             if stage == Root then [] else [i.parentIpId.value],
             i.defaultMintingFee,
             i.maxMintingFee,
             MetadataProof(metadata.ipUri, metadata.ipHash, metadata.nftUri, metadata.nftHash,
                           i.artifactPath.value, metadata.mediaHash, metadata.mediaType)))
  }

  /** The manifest with a confirmed collection. */
  function WithCollection(m: Manifest, op: Operation, spgNftContract: Text): Manifest {
    m.(wallet := Some(op.intent.wallet), spgNftContract := Some(spgNftContract),
       collectionTxHash := Some(op.transactionHash))
  }

  // ---- The guards of recovery ----

  /** assertPendingIntegrity. */
  predicate Integral(facts: Facts, op: Operation) {
    && op.intent.stage == op.stage
    && op.intentHash == facts.intentHash(op.intent)
    && ValidTransaction(facts, op.transactionHash, op.serializedTransaction)
    && op.operationId == OperationId(op.intent.wallet, op.stage)
  }

  /** confirmedHash. */
  function ConfirmedHash(m: Manifest, stage: Stage): Option<Text> {
    match stage
    case Collection => m.collectionTxHash
    case Registration(s) => if m.Registered(s).Some? then Some(m.Registered(s).value.txHash) else None
  }

  function ParentOf(m: Manifest, stage: DemoStage): Option<Proof> {
    match stage
    case Root => None
    case Child => m.root
    case Grandchild => m.child
  }

  predicate OnCollection(m: Manifest, i: Intent) {
    Addressed(i.spgNftContract) && m.spgNftContract.Some? && SameHex(m.spgNftContract.value, i.spgNftContract.value)
  }

  /** The intent descends from the manifest's parent, with its license. */
  predicate Descends(m: Manifest, stage: DemoStage, i: Intent) {
    var parent := ParentOf(m, stage);
    && parent.Some?
    && Addressed(i.parentIpId) && SameHex(parent.value.ipId, i.parentIpId.value)
    && i.licenseTermsId.Some? && i.licenseTermsId.value != [] && parent.value.licenseTermsId == i.licenseTermsId.value
    && Addressed(i.licenseTemplate) && SameHex(parent.value.licenseTemplate, i.licenseTemplate.value)
  }

  /** validatePendingPrerequisites. */
  predicate Prerequisites(m: Manifest, op: Operation) {
    && op.intent.chainId == CHAIN_ID
    && (m.wallet.Some? ==> SameHex(m.wallet.value, op.intent.wallet))
    && match op.stage
       case Collection => m.spgNftContract.None? && m.root.None? && m.child.None? && m.grandchild.None?
       case Registration(Root) => OnCollection(m, op.intent) && m.child.None? && m.grandchild.None?
       case Registration(Child) =>
         OnCollection(m, op.intent) && Descends(m, Child, op.intent) && m.grandchild.None?
       case Registration(Grandchild) =>
         OnCollection(m, op.intent) && Descends(m, Grandchild, op.intent)
  }

  // ---- The protocol instance ----

  /** What runDemo puts into every intent and the journal does not check. */
  predicate Built(i: Intent) {
    match i.stage
    case Collection => true
    case Registration(stage) =>
      && i.metadata.Some? && IsMarkdown(i.metadata.value.mediaType)
      && (stage == Root ==> i.defaultMintingFee.Some? && i.maxMintingFee.None?)
      && (stage != Root ==> i.defaultMintingFee.None?)
  }

  predicate SoundOperation(facts: Facts, op: Operation) {
    ValidOperation(facts, op) && Integral(facts, op) && Built(op.intent)
  }

  /** The operation is sound, and the next one for this manifest. */
  predicate Fits(facts: Facts, m: Manifest, op: Operation) {
    && Accepts(facts.isHttps, m)
    && SoundOperation(facts, op)
    && Number(op.stage) == Confirmed(m)
    && Prerequisites(m, op)
  }

  /** The second manifest is the first with the operation's confirmation added. */
  predicate Extends(m: Manifest, op: Operation, n: Manifest) {
    match op.stage
    case Collection =>
      n.spgNftContract.Some? && n == UpdateStatus(WithCollection(m, op, n.spgNftContract.value))
    case Registration(s) =>
      && n.Registered(s).Some? && n.Registered(s).value.txHash == op.transactionHash
      && n == UpdateStatus(WithProof(m, s, n.Registered(s).value))
  }

  predicate Records(facts: Facts, m: Manifest, op: Operation, n: Manifest) {
    Accepts(facts.isHttps, n) && Extends(m, op, n)
  }

  function StageAt(n: nat): Stage
    requires n < 4
  {
    if n == 0 then Collection else if n == 1 then Registration(Root) else
    if n == 2 then Registration(Child) else Registration(Grandchild)
  }

  /** The transaction hash of a confirmed stage. */
  function HashOf(m: Manifest, n: nat): Option<Text> {
    if n < Confirmed(m) then ConfirmedHash(m, StageAt(n)) else None
  }

  function DemoRules(facts: Facts): JournalProtocol.Rules<Operation, Manifest> {
    JournalProtocol.Rules(
      EMPTY_MANIFEST,
      (op: Operation) => Number(op.stage),
      (op: Operation) => op.transactionHash,
      (op: Operation) => op.state == Broadcast,
      (op: Operation) => op.(state := Broadcast),
      (m: Manifest) => Confirmed(m),
      (m: Manifest, n: nat) => HashOf(m, n),
      (m: Manifest) => Accepts(facts.isHttps, m),
      (op: Operation) => SoundOperation(facts, op),
      (m: Manifest, op: Operation) => Fits(facts, m, op),
      (m: Manifest, op: Operation, n: Manifest) => Records(facts, m, op, n))
  }

  lemma FitsMarked(facts: Facts, m: Manifest, op: Operation)
    requires Fits(facts, m, op)
    ensures Fits(facts, m, op.(state := Broadcast))
  {
  }

  lemma ExtendsCounts(m: Manifest, op: Operation, n: Manifest)
    requires InOrder(m) && InOrder(n) && Number(op.stage) == Confirmed(m) && Extends(m, op, n)
    ensures Confirmed(n) == Confirmed(m) + 1
    ensures ConfirmedHash(n, op.stage) == Some(op.transactionHash)
    ensures forall s: Stage :: s != op.stage ==> ConfirmedHash(n, s) == ConfirmedHash(m, s)
  {
  }

  lemma RulesSound(facts: Facts)
    ensures JournalProtocol.Sound(DemoRules(facts))
  {
    var r := DemoRules(facts);
    assert JournalProtocol.FitSound(r) by {
      forall m, op | r.fits(m, op)
        ensures r.sound(op) && r.stage(op) == r.confirmed(m) < JournalProtocol.STAGES
        ensures r.fits(m, r.mark(op))
      {
        FitsMarked(facts, m, op);
      }
    }
    assert JournalProtocol.RecordSound(r) by {
      forall m, op, n | r.records(m, op, n) && r.fits(m, op)
        ensures r.accepts(n) && r.confirmed(n) == r.confirmed(m) + 1
        ensures r.confirmedHash(n, r.stage(op)) == Some(r.hash(op))
        ensures forall s :: s != r.stage(op) ==> r.confirmedHash(n, s) == r.confirmedHash(m, s)
      {
        RecordsHashes(facts, m, op, n);
      }
    }
  }

  lemma RecordsHashes(facts: Facts, m: Manifest, op: Operation, n: Manifest)
    requires Fits(facts, m, op) && Records(facts, m, op, n)
    ensures Accepts(facts.isHttps, n) && Confirmed(n) == Confirmed(m) + 1
    ensures HashOf(n, Number(op.stage)) == Some(op.transactionHash)
    ensures forall s: nat :: s != Number(op.stage) ==> HashOf(n, s) == HashOf(m, s)
  {
    AcceptedInOrder(facts.isHttps, m);
    AcceptedInOrder(facts.isHttps, n);
    ExtendsCounts(m, op, n);
    HashesShift(m, n, op.stage);
  }

  lemma HashesShift(m: Manifest, n: Manifest, stage: Stage)
    requires Number(stage) == Confirmed(m) && Confirmed(n) == Confirmed(m) + 1
    requires forall s: Stage :: s != stage ==> ConfirmedHash(n, s) == ConfirmedHash(m, s)
    ensures HashOf(n, Number(stage)) == ConfirmedHash(n, stage)
    ensures forall s: nat :: s != Number(stage) ==> HashOf(n, s) == HashOf(m, s)
  {
    assert StageAt(Number(stage)) == stage;
    forall s: nat | s != Number(stage)
      ensures HashOf(n, s) == HashOf(m, s)
    {
      if s < Confirmed(m) {
        assert Number(StageAt(s)) == s;
      }
    }
  }

  // ---- Every manifest the protocol saves is valid ----

  /** What the confirmations of module Story promise about their result. */
  predicate Sourced(op: Operation, c: Confirmation) {
    && IsAddress(c.ipId) && IsAddress(c.licenseTemplate)
    && (op.stage != Registration(Root) && op.intent.licenseTermsId.Some? && op.intent.licenseTemplate.Some? ==>
          && IsDecimal(op.intent.licenseTermsId.value)
          && c.licenseTermsId == DecimalValue(op.intent.licenseTermsId.value)
          && SameHex(c.licenseTemplate, op.intent.licenseTemplate.value))
  }

  predicate HttpsMetadata(facts: Facts, m: Metadata) { facts.isHttps(m.ipUri) && facts.isHttps(m.nftUri) }

  lemma MetadataShape(facts: Facts, op: Operation, p: Proof)
    requires op.intent.metadata.Some? && op.intent.artifactPath.Some? && !Blank(op.intent.artifactPath.value)
    requires ValidMetadata(op.intent.metadata.value) && IsMarkdown(op.intent.metadata.value.mediaType)
    requires var m := op.intent.metadata.value;
             p.metadata == MetadataProof(m.ipUri, m.ipHash, m.nftUri, m.nftHash, op.intent.artifactPath.value,
                                         m.mediaHash, m.mediaType)
    ensures MetadataAccepted(facts.isHttps, p.metadata) <==> HttpsMetadata(facts, op.intent.metadata.value)
  {
  }

  lemma FeesShape(op: Operation, c: Confirmation, p: Proof)
    requires op.stage.Registration? && op.intent.stage == op.stage && ValidIntent(op.intent) && Built(op.intent)
    requires RegistrationProof(op, c) == Ok(p)
    ensures FeesAccepted(op.stage.demo, p)
    ensures forall i :: 0 <= i < |p.parentIpIds| ==> IsAddress(p.parentIpIds[i])
  {
  }

  lemma ProofShape(facts: Facts, op: Operation, c: Confirmation, p: Proof)
    requires op.stage.Registration? && ValidOperation(facts, op) && Built(op.intent) && Sourced(op, c)
    requires RegistrationProof(op, c) == Ok(p)
    ensures ProofAccepted(facts.isHttps, op.stage.demo, p) <==> HttpsMetadata(facts, op.intent.metadata.value)
  {
    FeesShape(op, c, p);
    MetadataShape(facts, op, p);
    DecimalRoundTrip(c.tokenId);
    DecimalRoundTrip(c.licenseTermsId);
  }

  /** Parent edge, license terms and template of a confirmed derivative are those of its parent in the manifest. */
  lemma ProofInherits(facts: Facts, m: Manifest, op: Operation, c: Confirmation, p: Proof)
    requires op.stage.Registration? && op.stage.demo != Root
    requires op.intent.licenseTermsId.Some? ==> IsDecimal(op.intent.licenseTermsId.value)
    requires Descends(m, op.stage.demo, op.intent) && Sourced(op, c) && RegistrationProof(op, c) == Ok(p)
    ensures ParentLinked(ParentOf(m, op.stage.demo), Some(p))
    ensures TermsInherited(ParentOf(m, op.stage.demo), Some(p))
    ensures TemplateInherited(ParentOf(m, op.stage.demo), Some(p))
  {
    DecimalTextRoundTrip(op.intent.licenseTermsId.value);
  }

  lemma ManifestExtends(isHttps: Text -> bool, m: Manifest, stage: DemoStage, p: Proof)
    requires Accepts(isHttps, m) && InOrder(m) && Confirmed(m) == Number(Registration(stage))
    requires stage != Root ==>
               && ParentLinked(ParentOf(m, stage), Some(p))
               && TermsInherited(ParentOf(m, stage), Some(p))
               && TemplateInherited(ParentOf(m, stage), Some(p))
    ensures Accepts(isHttps, UpdateStatus(WithProof(m, stage, p))) <==> ProofAccepted(isHttps, stage, p)
  {
  }

  /**
   The manifest that follows a confirmation is accepted exactly when the journaled metadata has HTTPS URIs: the
   one thing the manifest demands that neither the journal nor the chain has checked.
   */
  lemma ConfirmedManifestAccepted(facts: Facts, m: Manifest, op: Operation, c: Confirmation, p: Proof)
    requires op.stage.Registration? && Fits(facts, m, op) && Sourced(op, c) && RegistrationProof(op, c) == Ok(p)
    ensures Accepts(facts.isHttps, UpdateStatus(WithProof(m, op.stage.demo, p)))
       <==> HttpsMetadata(facts, op.intent.metadata.value)
  {
    AcceptedInOrder(facts.isHttps, m);
    ProofShape(facts, op, c, p);
    if op.stage.demo != Root {
      FitsDescends(facts, m, op);
      ProofInherits(facts, m, op, c, p);
    }
    ManifestExtends(facts.isHttps, m, op.stage.demo, p);
  }

  /** Whatever the chain confirms: a manifest that takes an operation with metadata has HTTPS URIs in it. */
  lemma AcceptedNeedsHttps(facts: Facts, m: Manifest, op: Operation, n: Manifest)
    requires op.stage.Registration? && op.intent.metadata.Some?
    requires exists c, p :: RegistrationProof(op, c) == Ok(p) && n == UpdateStatus(WithProof(m, op.stage.demo, p))
    requires Accepts(facts.isHttps, n)
    ensures HttpsMetadata(facts, op.intent.metadata.value)
  {
  }

  lemma FitsDescends(facts: Facts, m: Manifest, op: Operation)
    requires Fits(facts, m, op) && op.stage.Registration? && op.stage.demo != Root
    ensures Descends(m, op.stage.demo, op.intent)
    ensures op.intent.licenseTermsId.Some? && IsDecimal(op.intent.licenseTermsId.value)
  {
  }

  lemma ConfirmedCollectionAccepted(facts: Facts, m: Manifest, op: Operation, spgNftContract: Text)
    requires op.stage == Collection && Fits(facts, m, op)
    ensures Accepts(facts.isHttps, UpdateStatus(WithCollection(m, op, spgNftContract))) <==> IsAddress(spgNftContract)
  {
    AcceptedInOrder(facts.isHttps, m);
  }

  /** A proof loses nothing of what the chain confirmed, decimal texts included, nor of what was journaled. */
  lemma ProofFaithful(op: Operation, c: Confirmation, p: Proof)
    requires RegistrationProof(op, c) == Ok(p)
    ensures IsDecimal(p.tokenId) && IsDecimal(p.licenseTermsId)
    ensures c == Confirmation(p.ipId, DecimalValue(p.tokenId), c.txHash, DecimalValue(p.licenseTermsId), p.licenseTemplate)
    ensures p.txHash == op.transactionHash && SameHex(p.txHash, c.txHash)
    ensures op.stage == Registration(p.stage)
    ensures op.intent.registrationName == Some(p.name) && op.intent.artifactPath == Some(p.metadata.artifactPath)
    ensures op.intent.metadata == Some(Metadata(p.metadata.ipUri, p.metadata.ipHash, p.metadata.nftUri,
                                                p.metadata.nftHash, p.metadata.mediaHash, p.metadata.mediaType))
    ensures op.intent.defaultMintingFee == p.defaultMintingFee && op.intent.maxMintingFee == p.maxMintingFee
    ensures p.stage != Root ==> |p.parentIpIds| == 1 && op.intent.parentIpId == Some(p.parentIpIds[0])
  {
    DecimalRoundTrip(c.tokenId);
    DecimalRoundTrip(c.licenseTermsId);
  }

  /** Whatever parts of it the chain sends, a proof that can be built extends the manifest as the protocol records it. */
  lemma ProofExtends(m: Manifest, op: Operation, c: Confirmation, p: Proof)
    requires op.stage.Registration? && RegistrationProof(op, c) == Ok(p)
    ensures Extends(m, op, UpdateStatus(WithProof(m, op.stage.demo, p)))
  {
  }
}
