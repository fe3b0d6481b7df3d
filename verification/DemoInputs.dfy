/**
 What one run of phase0/src/demo.ts gets from outside: its configuration, and the answers of the chain, the
 metadata provider and the receipts. Each answer is a function of what is asked, which is asked once a run.
 */
module DemoInputs {
  import opened Wrappers
  import opened Utf16
  import opened Registrations
  import opened Transactions
  import opened Story
  import opened DemoOperations

  datatype Transaction = Transaction(hash: Text, serialized: Text)

  datatype Onchain = Onchain(ipUri: Text, ipHash: Text, nftUri: Text, nftHash: Text)

  datatype PreparedMetadata = PreparedMetadata(onchain: Onchain, proof: MetadataProof)

  datatype Fee = Fee(currencyToken: Text, tokenAmount: int)

  datatype Readiness = Readiness(currencyToken: Text, spender: Text, requiredAmount: int, balance: int, allowance: int)

  datatype Definition = Definition(name: Text, description: Text, artifactPath: Text)

  datatype Environment = Environment(
    chainId: int,
    wallet: Text,
    definitions: DemoStage -> Definition,
    /** The SHA-256 of each artifact file, if it can be read. */
    artifacts: DemoStage -> Option<Text>,
    balance: int,
    gasPrice: int,
    metadata: DemoStage -> Option<PreparedMetadata>,
    fees: DemoStage -> Option<Fee>,
    readiness: DemoStage -> Option<Readiness>,
    /** The transaction the chain client prepares and signs. */
    prepared: Stage -> Option<Transaction>,
    /** The answer to sending a transaction, by its hash. */
    sends: Text -> SendAnswer,
    /** Whether a transaction reaches the network although sending it throws. */
    arrives: Text -> bool,
    receipts: Operation -> Option<Receipt>)

  // ---- resolveRunConfig ----

  predicate DefinitionUsable(d: Definition) { !Blank(d.name) && !Blank(d.description) && !Blank(d.artifactPath) }

  predicate StageUsable(env: Environment, stage: DemoStage) {
    DefinitionUsable(env.definitions(stage)) && env.artifacts(stage).Some? && IsLowerHash(env.artifacts(stage).value)
  }

  function StageConfigOf(env: Environment, stage: DemoStage): StageConfig
    requires StageUsable(env, stage)
  {
    var d := env.definitions(stage);
    StageConfig(d.name, d.description, d.artifactPath, env.artifacts(stage).value)
  }

  function Resolve(env: Environment): Result<RunConfig, Reason> {
    if !StageUsable(env, Root) || !StageUsable(env, Child) || !StageUsable(env, Grandchild) || !IsAddress(env.wallet) then
      Err(BadConfiguration)
    else
      Ok(RunConfig(env.wallet, StageConfigOf(env, Root), StageConfigOf(env, Child), StageConfigOf(env, Grandchild)))
  }

  // ---- metadataForIntent ----

  /** Journaled metadata is that of the chain, agrees with its proof, and is bound to the local artifact. */
  function MetadataForIntent(facts: Facts, config: StageConfig, prepared: PreparedMetadata)
    : (r: Result<Metadata, Reason>)
    ensures r.Ok? ==>
              && prepared.onchain == Onchain(r.value.ipUri, r.value.ipHash, r.value.nftUri, r.value.nftHash)
              && prepared.proof.ipUri == r.value.ipUri && SameHex(prepared.proof.ipHash, r.value.ipHash)
              && prepared.proof.nftUri == r.value.nftUri && SameHex(prepared.proof.nftHash, r.value.nftHash)
              && prepared.proof.mediaHash == r.value.mediaHash && SameHex(r.value.mediaHash, config.artifactSha256)
              && IsMarkdown(r.value.mediaType)
  {
    var o, p := prepared.onchain, prepared.proof;
    if p.ipUri != o.ipUri || !SameHex(p.ipHash, o.ipHash) || p.nftUri != o.nftUri || !SameHex(p.nftHash, o.nftHash) then
      Err(MetadataMismatch)
    else if facts.resolvePath(p.artifactPath) != facts.resolvePath(config.artifactPath) then Err(MetadataMismatch)
    else if !SameHex(p.mediaHash, config.artifactSha256) then Err(MetadataMismatch)
    else if !IsMarkdown(p.mediaType) then Err(MetadataMismatch)
    else Ok(Metadata(o.ipUri, o.ipHash, o.nftUri, o.nftHash, p.mediaHash, p.mediaType))
  }

  // ---- The intents ----

  function CollectionIntent(wallet: Text, hash: Text): Intent {
    Intent(Collection, CHAIN_ID, wallet, None, None, None, None, None, None, None, None, None, None, hash)
  }

  /** 0.001 tokens of 18 decimals. */
  const DEMO_ROOT_MINTING_FEE: nat := 1_000_000_000_000_000

  function RootIntent(wallet: Text, config: StageConfig, collection: Text, metadata: Metadata, hash: Text): Intent {
    Intent(Registration(Root), CHAIN_ID, wallet, Some(config.name), Some(config.artifactPath), Some(collection),
           None, None, None, None, Some(Decimal(DEMO_ROOT_MINTING_FEE)), None, Some(metadata), hash)
  }

  /** BigInt.prototype.toString. */
  function IntegerText(n: int): Text { if n < 0 then [0x2d] + Decimal(-n) else Decimal(n) }

  function DerivativeIntent(
    stage: DemoStage, wallet: Text, config: StageConfig, collection: Text, parent: Proof, fee: Fee, metadata: Metadata,
    hash: Text): Intent
  {
    Intent(Registration(stage), CHAIN_ID, wallet, Some(config.name), Some(config.artifactPath), Some(collection),
           Some(parent.ipId), Some(parent.licenseTermsId), Some(parent.licenseTemplate), Some(fee.currencyToken),
           None, Some(IntegerText(fee.tokenAmount)), Some(metadata), hash)
  }

  // ---- Preparing a transaction ----

  /** requireDerivativeFeeReadiness. */
  predicate FeeReady(fee: Fee, readiness: Option<Readiness>) {
    && fee.tokenAmount >= 0 && readiness.Some?
    && SameHex(readiness.value.currencyToken, fee.currencyToken)
    && readiness.value.requiredAmount == fee.tokenAmount
    && IsAddress(readiness.value.spender)
    && readiness.value.balance >= fee.tokenAmount
    && readiness.value.allowance >= fee.tokenAmount
  }

  function Prepare(env: Environment, stage: Stage): Result<Transaction, Reason> {
    if env.prepared(stage).None? then Err(PreparationFailed) else Ok(env.prepared(stage).value)
  }

  function PrepareDerivative(env: Environment, stage: DemoStage, fee: Fee): Result<Transaction, Reason> {
    if !FeeReady(fee, env.readiness(stage)) then Err(FeeNotReady) else Prepare(env, Registration(stage))
  }

  // ---- Confirming one ----

  datatype Outcome = NewCollection(spgNftContract: Text) | NewRegistration(confirmation: Confirmation)

  /** The confirm callbacks of recovery and of the four stages, which ask the chain in the same way. */
  function Confirm(env: Environment, op: Operation): Result<Outcome, Reason> {
    var receipt, hash, i := env.receipts(op), op.transactionHash, op.intent;
    match op.stage
    case Collection =>
      (match ConfirmCollection(receipt, hash)
       case None => Err(ConfirmationFailed)
       case Some(spg) => Ok(NewCollection(spg)))
    case Registration(stage) =>
      if !Addressed(i.spgNftContract) then Err(MissingProof)
      else if stage == Root then
        (match ConfirmSkill(receipt, hash, i.spgNftContract.value)
         case None => Err(ConfirmationFailed)
         case Some(c) => Ok(NewRegistration(c)))
      else if !Addressed(i.parentIpId) || i.licenseTermsId.None? || !IsDecimal(i.licenseTermsId.value)
              || !Addressed(i.licenseTemplate) then Err(MissingProof)
      else
        (match ConfirmDerivative(receipt, hash, i.spgNftContract.value, i.parentIpId.value,
                                 DecimalValue(i.licenseTermsId.value), i.licenseTemplate.value)
         case None => Err(ConfirmationFailed)
         case Some(c) => Ok(NewRegistration(c)))
  }

  /** The apply callbacks, and updateStatus after them. */
  function ApplyOutcome(m: Manifest, op: Operation, outcome: Outcome): Result<Manifest, Reason> {
    match outcome
    case NewCollection(spg) =>
      if op.stage != Collection then Err(MissingProof) else Ok(UpdateStatus(WithCollection(m, op, spg)))
    case NewRegistration(c) =>
      match RegistrationProof(op, c)
      case Err(reason) => Err(reason)
      case Ok(proof) => Ok(UpdateStatus(WithProof(m, op.stage.demo, proof)))
  }

  // ---- What the outside promises ----

  /** The chain client decodes well-formed addresses, and the metadata provider answers HTTPS URIs. */
  ghost predicate Honest(facts: Facts, env: Environment) {
    && (forall op :: WellFormedReceipt(env.receipts(op)))
    && (forall stage :: env.metadata(stage).Some? ==>
          facts.isHttps(env.metadata(stage).value.onchain.ipUri) && facts.isHttps(env.metadata(stage).value.onchain.nftUri))
  }

  /** A pending operation whose confirmation the manifest can take. */
  predicate Recordable(facts: Facts, op: Option<Operation>) {
    op.Some? && op.value.intent.metadata.Some? ==> HttpsMetadata(facts, op.value.intent.metadata.value)
  }

  lemma SkillSourced(receipt: Option<Receipt>, hash: Text, collection: Text)
    requires WellFormedReceipt(receipt) && ConfirmSkill(receipt, hash, collection).Some?
    ensures var c := ConfirmSkill(receipt, hash, collection).value;
            IsAddress(c.ipId) && IsAddress(c.licenseTemplate) && c.txHash == hash
  {
    var c, logs := ConfirmSkill(receipt, hash, collection).value, receipt.value.logs;
    ConfirmSkillExact(receipt, hash, collection, c);
    var i: nat, j: nat :| SkillEvents(logs, collection, i, j, hash, c);
    assert WellFormedLog(logs[i]) && WellFormedLog(logs[j]);
  }

  lemma DerivativeSourced(
    receipt: Option<Receipt>, hash: Text, collection: Text, parent: Text, terms: nat, template: Text)
    requires WellFormedReceipt(receipt)
    requires ConfirmDerivative(receipt, hash, collection, parent, terms, template).Some?
    ensures var c := ConfirmDerivative(receipt, hash, collection, parent, terms, template).value;
            && IsAddress(c.ipId) && IsAddress(c.licenseTemplate) && c.txHash == hash
            && c.licenseTermsId == terms && SameHex(c.licenseTemplate, template)
  {
    var c, logs := ConfirmDerivative(receipt, hash, collection, parent, terms, template).value, receipt.value.logs;
    ConfirmDerivativeExact(receipt, hash, collection, parent, terms, template, c);
    var i: nat, j: nat :| DerivativeEvents(logs, collection, parent, terms, template, i, j, hash, c);
    assert WellFormedLog(logs[i]) && WellFormedLog(logs[j]);
  }

  lemma ConfirmedSourced(env: Environment, op: Operation)
    requires Confirm(env, op).Ok? && op.stage.Registration? && WellFormedReceipt(env.receipts(op))
    ensures Confirm(env, op).value.NewRegistration?
    ensures Sourced(op, Confirm(env, op).value.confirmation)
    ensures Confirm(env, op).value.confirmation.txHash == op.transactionHash
  {
    var receipt, hash, i := env.receipts(op), op.transactionHash, op.intent;
    if op.stage.demo == Root {
      SkillSourced(receipt, hash, i.spgNftContract.value);
    } else {
      DerivativeSourced(receipt, hash, i.spgNftContract.value, i.parentIpId.value,
                        DecimalValue(i.licenseTermsId.value), i.licenseTemplate.value);
    }
  }

  lemma CollectionSourced(env: Environment, op: Operation)
    requires Confirm(env, op).Ok? && op.stage == Collection && WellFormedReceipt(env.receipts(op))
    ensures Confirm(env, op).value.NewCollection? && IsAddress(Confirm(env, op).value.spgNftContract)
  {
    var spg, logs := Confirm(env, op).value.spgNftContract, env.receipts(op).value.logs;
    ConfirmCollectionExact(env.receipts(op), op.transactionHash, spg);
    var i: nat :| Unique(logs, Creations(), i) && logs[i] == CollectionCreated(spg);
    assert WellFormedLog(logs[i]);
  }

  /** A confirmed operation can be applied, and the result records it. */
  lemma OutcomeApplies(facts: Facts, env: Environment, m: Manifest, op: Operation)
    requires Fits(facts, m, op) && Confirm(env, op).Ok?
    ensures ApplyOutcome(m, op, Confirm(env, op).value).Ok?
    ensures Extends(m, op, ApplyOutcome(m, op, Confirm(env, op).value).value)
  {
    if op.stage == Collection {
    } else {
      OutcomeHash(env, op);
      ProofBuilds(facts, op, Confirm(env, op).value.confirmation);
      ProofExtends(m, op, Confirm(env, op).value.confirmation,
                   RegistrationProof(op, Confirm(env, op).value.confirmation).value);
    }
  }

  lemma OutcomeHash(env: Environment, op: Operation)
    requires Confirm(env, op).Ok? && op.stage.Registration?
    ensures Confirm(env, op).value.NewRegistration?
    ensures Confirm(env, op).value.confirmation.txHash == op.transactionHash
  {
  }

  lemma ProofBuilds(facts: Facts, op: Operation, c: Confirmation)
    requires ValidOperation(facts, op) && op.stage.Registration? && c.txHash == op.transactionHash
    ensures RegistrationProof(op, c).Ok?
  {
  }

  /** With honest answers the manifest that follows is accepted. */
  lemma OutcomeAccepted(facts: Facts, env: Environment, m: Manifest, op: Operation)
    requires Fits(facts, m, op) && Confirm(env, op).Ok? && Honest(facts, env) && Recordable(facts, Some(op))
    ensures ApplyOutcome(m, op, Confirm(env, op).value).Ok?
    ensures Accepts(facts.isHttps, ApplyOutcome(m, op, Confirm(env, op).value).value)
  {
    OutcomeApplies(facts, env, m, op);
    if op.stage == Collection {
      CollectionSourced(env, op);
      ConfirmedCollectionAccepted(facts, m, op, Confirm(env, op).value.spgNftContract);
    } else {
      var c := Confirm(env, op).value.confirmation;
      ConfirmedSourced(env, op);
      ConfirmedManifestAccepted(facts, m, op, c, RegistrationProof(op, c).value);
    }
  }
}
