/** The pending operation of phase0/src/transactions.ts and what the journal accepts as one. */
module Transactions {
  import opened Wrappers
  import opened Utf16
  import opened Registrations

  datatype Stage = Collection | Registration(demo: DemoStage)

  const CHAIN_ID := 1315

  datatype Metadata = Metadata(
    ipUri: Text, ipHash: Text,
    nftUri: Text, nftHash: Text,
    mediaHash: Text, mediaType: Text)

  datatype Intent = Intent(
    stage: Stage,
    chainId: int,
    wallet: Text,
    registrationName: Option<Text>,
    artifactPath: Option<Text>,
    spgNftContract: Option<Text>,
    parentIpId: Option<Text>,
    licenseTermsId: Option<Text>,
    licenseTemplate: Option<Text>,
    currencyToken: Option<Text>,
    defaultMintingFee: Option<Text>,
    maxMintingFee: Option<Text>,
    metadata: Option<Metadata>,
    runConfigHash: Text)

  datatype OperationState = Prepared | Broadcast

  datatype Operation = Operation(
    operationId: Text,
    stage: Stage,
    intent: Intent,
    intentHash: Text,
    transactionHash: Text,
    serializedTransaction: Text,
    state: OperationState)

  datatype Snapshot = Snapshot(revision: nat, operation: Option<Operation>)

  datatype StageConfig = StageConfig(name: Text, description: Text, artifactPath: Text, artifactSha256: Text)

  datatype RunConfig = RunConfig(wallet: Text, root: StageConfig, child: StageConfig, grandchild: StageConfig)
  {
    function For(stage: DemoStage): StageConfig {
      match stage
      case Root => root
      case Child => child
      case Grandchild => grandchild
    }
  }

  /** The library calls: hashing, URL parsing and path resolution are uninterpreted. */
  datatype Facts = Facts(
    isHttps: Text -> bool,
    keccak: Text -> Text,
    intentHash: Intent -> Text,
    runConfigHash: RunConfig -> Text,
    resolvePath: Text -> Text)

  // ---- Field checks ----

  /** White space as String.prototype.trim removes it. */
  predicate IsSpace(u: Unit) {
    || 0x09 <= u <= 0x0d || u in {0x20, 0xa0, 0x1680, 0x2028, 0x2029, 0x202f, 0x205f, 0x3000, 0xfeff}
    || 0x2000 <= u <= 0x200a
  }

  predicate Blank(t: Text) { forall i :: 0 <= i < |t| ==> IsSpace(t[i]) }

  predicate Addressed(t: Option<Text>) { t.Some? && IsAddress(t.value) }

  /** 0x and one or more hexadecimal bytes. */
  predicate IsSerialized(t: Text) {
    && |t| >= 4 && |t| % 2 == 0 && t[0] == 0x30 && t[1] == 0x78
    && forall i :: 2 <= i < |t| ==> IsAnyHexDigit(t[i])
  }

  predicate ValidMetadata(m: Metadata) {
    && !Blank(m.ipUri) && IsLowerHash(m.ipHash)
    && !Blank(m.nftUri) && IsLowerHash(m.nftHash)
    && IsLowerHash(m.mediaHash) && !Blank(m.mediaType)
  }

  /** The checks on every intent, whatever its stage. */
  predicate ValidFields(i: Intent) {
    && i.chainId == CHAIN_ID
    && IsAddress(i.wallet)
    && (i.registrationName.Some? ==> !Blank(i.registrationName.value))
    && (i.artifactPath.Some? ==> !Blank(i.artifactPath.value))
    && OptionalAddress(i.spgNftContract)
    && OptionalAddress(i.parentIpId)
    && (i.licenseTermsId.Some? ==> IsDecimal(i.licenseTermsId.value))
    && OptionalAddress(i.licenseTemplate)
    && OptionalAddress(i.currencyToken)
    && (i.defaultMintingFee.Some? ==> IsDecimal(i.defaultMintingFee.value))
    && (i.maxMintingFee.Some? ==> IsDecimal(i.maxMintingFee.value))
    && IsLowerHash(i.runConfigHash)
  }

  /** The checks of its stage. */
  predicate ValidForStage(i: Intent) {
    match i.stage
    case Collection => i.registrationName.None? && i.artifactPath.None? && i.metadata.None?
    case Registration(stage) =>
      && i.registrationName.Some? && i.artifactPath.Some?
      && i.metadata.Some? && ValidMetadata(i.metadata.value)
      && i.spgNftContract.Some?
      && (stage == Root ==> i.parentIpId.None?)
      && (stage != Root ==>
            && i.parentIpId.Some? && i.licenseTermsId.Some? && i.licenseTemplate.Some?
            && i.currencyToken.Some? && i.maxMintingFee.Some?)
  }

  /** validateCanonicalIntent. */
  predicate ValidIntent(i: Intent) { ValidFields(i) && ValidForStage(i) }

  /** The transaction hash is that of the bytes. */
  predicate ValidTransaction(facts: Facts, hash: Text, serialized: Text) {
    IsLowerHash(hash) && IsSerialized(serialized) && facts.keccak(serialized) == hash
  }

  /** validatePendingOperation. */
  predicate ValidOperation(facts: Facts, op: Operation) {
    && !Blank(op.operationId)
    && ValidIntent(op.intent)
    && op.intent.stage == op.stage
    && IsLowerHash(op.intentHash)
    && op.intentHash == facts.intentHash(op.intent)
    && ValidTransaction(facts, op.transactionHash, op.serializedTransaction)
  }

  const MAX_SAFE_INTEGER := 9007199254740991

  /** validateJournalFile. */
  predicate ValidSnapshot(facts: Facts, s: Snapshot) {
    s.revision <= MAX_SAFE_INTEGER && (s.operation.Some? ==> ValidOperation(facts, s.operation.value))
  }

  function Number(stage: Stage): (n: nat)
    ensures n < 4
  {
    match stage
    case Collection => 0
    case Registration(Root) => 1
    case Registration(Child) => 2
    case Registration(Grandchild) => 3
  }
}
