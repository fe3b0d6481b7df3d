/**
 The plans that runDemo of phase0/src/demo.ts hands to executeOrResume, why each of them suits the store it is
 made for, and what a run with an unchanged configuration leaves in the two files.
 */
module DemoPlans {
  import opened Wrappers
  import opened Utf16
  import opened Registrations
  import opened Transactions
  import opened Story
  import opened DemoOperations
  import opened DemoInputs
  import opened Execution

  type DemoPlan = Plan<Operation, Outcome, Reason>

  /** The operation that is journaled for a prepared transaction, if its hash is that of its bytes. */
  function NewOperation(facts: Facts, intent: Intent, prepared: Result<Transaction, Reason>): Result<Operation, Reason> {
    match prepared
    case Err(reason) => Err(reason)
    case Ok(tx) =>
      if !ValidTransaction(facts, tx.hash, tx.serialized) then Err(PreparationMismatch)
      else
        Ok(Operation(OperationId(intent.wallet, intent.stage), intent.stage, intent, facts.intentHash(intent), tx.hash,
                     tx.serialized, Prepared))
  }

  function ConfirmWith(env: Environment): Operation -> Result<Outcome, Reason> { (op: Operation) => Confirm(env, op) }

  function ReturnsWith(env: Environment): Operation -> bool {
    (op: Operation) => BroadcastReturns(env.sends(op.transactionHash), op.transactionHash)
  }

  function ArrivesWith(env: Environment): Operation -> bool {
    (op: Operation) => env.arrives(op.transactionHash)
  }

  function ApplyWith(): (Manifest, Operation, Outcome) -> Result<Manifest, Reason> {
    (m: Manifest, op: Operation, outcome: Outcome) => ApplyOutcome(m, op, outcome)
  }

  predicate IsCurrent(facts: Facts, intent: Intent, op: Operation) {
    && op.operationId == OperationId(intent.wallet, intent.stage)
    && op.stage == intent.stage
    && op.intentHash == facts.intentHash(intent)
  }

  /** A plan for one intent; `prepared` is what the chain client would prepare for it. */
  function PlanFor(facts: Facts, env: Environment, intent: Intent, prepared: Result<Transaction, Reason>): DemoPlan {
    Plan(
      (op: Operation) => Integral(facts, op),
      (op: Operation) => IsCurrent(facts, intent, op),
      NewOperation(facts, intent, prepared),
      ReturnsWith(env),
      ArrivesWith(env),
      ConfirmWith(env))
  }

  /** The intent is the next one for the manifest. */
  predicate IntentFits(facts: Facts, m: Manifest, i: Intent) {
    && Accepts(facts.isHttps, m)
    && Number(i.stage) == Confirmed(m)
    && Built(i)
    && i.chainId == CHAIN_ID
    && (m.wallet.Some? ==> SameHex(m.wallet.value, i.wallet))
    && match i.stage
       case Collection => true
       case Registration(stage) => OnCollection(m, i) && (stage != Root ==> Descends(m, stage, i))
  }

  lemma NewFits(facts: Facts, m: Manifest, i: Intent, prepared: Result<Transaction, Reason>)
    requires IntentFits(facts, m, i) && NewOperation(facts, i, prepared).Ok?
    requires ValidOperation(facts, NewOperation(facts, i, prepared).value)
    ensures Fits(facts, m, NewOperation(facts, i, prepared).value)
  {
    AcceptedInOrder(facts.isHttps, m);
  }

  lemma CollectionIntentFits(facts: Facts, m: Manifest, wallet: Text, hash: Text)
    requires Accepts(facts.isHttps, m) && m.spgNftContract.None?
    ensures IntentFits(facts, m, CollectionIntent(wallet, hash))
  {
    AcceptedInOrder(facts.isHttps, m);
  }

  lemma RootIntentFits(
    facts: Facts, m: Manifest, wallet: Text, config: StageConfig, prepared: PreparedMetadata, hash: Text)
    requires Accepts(facts.isHttps, m) && m.spgNftContract.Some? && m.root.None?
    requires m.wallet.Some? ==> SameHex(m.wallet.value, wallet)
    requires MetadataForIntent(facts, config, prepared).Ok?
    ensures IntentFits(facts, m, RootIntent(wallet, config, m.spgNftContract.value,
                                            MetadataForIntent(facts, config, prepared).value, hash))
  {
    AcceptedInOrder(facts.isHttps, m);
  }

  lemma DerivativeIntentFits(
    facts: Facts, m: Manifest, stage: DemoStage, wallet: Text, config: StageConfig, fee: Fee,
    prepared: PreparedMetadata, hash: Text)
    requires Accepts(facts.isHttps, m) && stage != Root && Number(Registration(stage)) == Confirmed(m)
    requires m.spgNftContract.Some? && ParentOf(m, stage).Some?
    requires m.wallet.Some? ==> SameHex(m.wallet.value, wallet)
    requires MetadataForIntent(facts, config, prepared).Ok?
    ensures IntentFits(facts, m, DerivativeIntent(stage, wallet, config, m.spgNftContract.value, ParentOf(m, stage).value,
                                                  fee, MetadataForIntent(facts, config, prepared).value, hash))
  {
    ParentShape(facts, m, stage);
  }

  lemma ParentShape(facts: Facts, m: Manifest, stage: DemoStage)
    requires Accepts(facts.isHttps, m) && ParentOf(m, stage).Some?
    ensures IsAddress(ParentOf(m, stage).value.ipId) && IsAddress(ParentOf(m, stage).value.licenseTemplate)
    ensures IsDecimal(ParentOf(m, stage).value.licenseTermsId)
  {
  }

  // ---- An unchanged configuration ----

  predicate ArtifactAgrees(m: Manifest, config: RunConfig, stage: DemoStage) {
    m.Registered(stage).Some? ==>
      SameHex(m.Registered(stage).value.metadata.mediaHash, config.For(stage).artifactSha256)
  }

  /** verifyConfirmedArtifactHashes passes. */
  predicate ArtifactsAgree(m: Manifest, config: RunConfig) {
    ArtifactAgrees(m, config, Root) && ArtifactAgrees(m, config, Child) && ArtifactAgrees(m, config, Grandchild)
  }

  predicate IntentConfigured(facts: Facts, config: RunConfig, i: Intent) {
    && i.runConfigHash == facts.runConfigHash(config)
    && SameHex(i.wallet, config.wallet)
    && (i.stage.Registration? ==>
          && i.registrationName == Some(config.For(i.stage.demo).name)
          && i.artifactPath == Some(config.For(i.stage.demo).artifactPath)
          && i.metadata.Some? && SameHex(i.metadata.value.mediaHash, config.For(i.stage.demo).artifactSha256))
  }

  /** A registration under its configured name, with its configured artifact. */
  predicate ProofConfigured(m: Manifest, config: RunConfig, stage: DemoStage) {
    m.Registered(stage).Some? ==>
      var p := m.Registered(stage).value;
      && p.name == config.For(stage).name && p.metadata.artifactPath == config.For(stage).artifactPath
      && SameHex(p.metadata.mediaHash, config.For(stage).artifactSha256)
  }

  /** Everything on disk was written by runs of this configuration. */
  predicate Configured(facts: Facts, config: RunConfig, pending: Option<Operation>, m: Manifest) {
    && (m.wallet.Some? ==> SameHex(m.wallet.value, config.wallet))
    && ProofConfigured(m, config, Root) && ProofConfigured(m, config, Child) && ProofConfigured(m, config, Grandchild)
    && (pending.Some? ==> pending.value.intent.stage == pending.value.stage
                          && IntentConfigured(facts, config, pending.value.intent))
  }

  lemma AppliedConfigured(facts: Facts, config: RunConfig, m: Manifest, op: Operation, outcome: Outcome)
    requires Configured(facts, config, Some(op), m) && ApplyOutcome(m, op, outcome).Ok?
    ensures Configured(facts, config, Some(op), ApplyOutcome(m, op, outcome).value)
  {
  }

  lemma DerivedIntentConfigured(
    facts: Facts, config: RunConfig, stage: DemoStage, prepared: PreparedMetadata, i: Intent)
    requires MetadataForIntent(facts, config.For(stage), prepared).Ok?
    requires i.stage == Registration(stage) && i.wallet == config.wallet
    requires i.runConfigHash == facts.runConfigHash(config)
    requires i.registrationName == Some(config.For(stage).name)
    requires i.artifactPath == Some(config.For(stage).artifactPath)
    requires i.metadata == Some(MetadataForIntent(facts, config.For(stage), prepared).value)
    ensures IntentConfigured(facts, config, i)
  {
  }

  // ---- An environment in which nothing goes wrong ----

  ghost predicate HashesAreHashes(facts: Facts) {
    && (forall i :: IsLowerHash(facts.intentHash(i)))
    && (forall config :: IsLowerHash(facts.runConfigHash(config)))
  }

  predicate MetadataReady(facts: Facts, env: Environment, config: RunConfig, stage: DemoStage) {
    && env.metadata(stage).Some?
    && MetadataForIntent(facts, config.For(stage), env.metadata(stage).value).Ok?
    && ValidMetadata(MetadataForIntent(facts, config.For(stage), env.metadata(stage).value).value)
    && HttpsMetadata(facts, MetadataForIntent(facts, config.For(stage), env.metadata(stage).value).value)
  }

  predicate FeesReady(env: Environment, stage: DemoStage) {
    && env.fees(stage).Some? && IsAddress(env.fees(stage).value.currencyToken)
    && FeeReady(env.fees(stage).value, env.readiness(stage))
  }

  /** The wallet is funded, the provider and the chain answer, and the chain confirms whatever is sent. */
  ghost predicate Benign(facts: Facts, env: Environment, config: RunConfig) {
    && env.chainId == CHAIN_ID && Resolve(env) == Ok(config)
    && env.gasPrice > 0 && env.balance >= env.gasPrice * GAS_UNITS
    && (forall stage :: MetadataReady(facts, env, config, stage))
    && (forall stage :: stage != Root ==> FeesReady(env, stage))
    && (forall stage {:trigger env.prepared(stage)} ::
          env.prepared(stage).Some?
          && ValidTransaction(facts, env.prepared(stage).value.hash, env.prepared(stage).value.serialized))
    && (forall hash {:trigger env.sends(hash)} :: BroadcastReturns(env.sends(hash), hash))
    && (forall op {:trigger Confirm(env, op)} :: SoundOperation(facts, op) ==> Confirm(env, op).Ok?)
  }

  /** DEMO_GAS_UNITS_ENVELOPE of phase0/src/funding.ts. */
  const GAS_UNITS := 6_000_000

  /** estimateRemainingDemoGasMinimum throws, or asks for more than there is. */
  predicate Underfunded(env: Environment) { env.gasPrice <= 0 || env.balance < env.gasPrice * GAS_UNITS }

  lemma NewValid(facts: Facts, i: Intent, prepared: Result<Transaction, Reason>)
    requires HashesAreHashes(facts) && ValidIntent(i) && NewOperation(facts, i, prepared).Ok?
    ensures ValidOperation(facts, NewOperation(facts, i, prepared).value)
  {
    OperationIdNotBlank(i.wallet, i.stage);
  }

  lemma CollectionIntentValid(facts: Facts, config: RunConfig)
    requires HashesAreHashes(facts) && IsAddress(config.wallet)
    ensures ValidIntent(CollectionIntent(config.wallet, facts.runConfigHash(config)))
  {
  }

  lemma RootIntentValid(facts: Facts, config: RunConfig, collection: Text, metadata: Metadata)
    requires HashesAreHashes(facts) && IsAddress(config.wallet) && IsAddress(collection) && ValidMetadata(metadata)
    requires !Blank(config.root.name) && !Blank(config.root.artifactPath)
    ensures var i := RootIntent(config.wallet, config.root, collection, metadata, facts.runConfigHash(config));
            ValidIntent(i) && DecimalValue(i.defaultMintingFee.value) == DEMO_ROOT_MINTING_FEE
  {
    DecimalRoundTrip(DEMO_ROOT_MINTING_FEE);
  }

  lemma DerivativeIntentValid(
    facts: Facts, config: RunConfig, stage: DemoStage, collection: Text, parent: Proof, fee: Fee, metadata: Metadata)
    requires HashesAreHashes(facts) && IsAddress(config.wallet) && IsAddress(collection) && ValidMetadata(metadata)
    requires !Blank(config.For(stage).name) && !Blank(config.For(stage).artifactPath) && stage != Root
    requires IsAddress(parent.ipId) && IsDecimal(parent.licenseTermsId) && IsAddress(parent.licenseTemplate)
    requires IsAddress(fee.currencyToken) && fee.tokenAmount >= 0
    ensures var i := DerivativeIntent(stage, config.wallet, config.For(stage), collection, parent, fee, metadata,
                                      facts.runConfigHash(config));
            ValidIntent(i) && DecimalValue(i.maxMintingFee.value) == fee.tokenAmount
  {
    DecimalRoundTrip(fee.tokenAmount);
  }
}
