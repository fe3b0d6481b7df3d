/**
 runDemo of phase0/src/demo.ts as a whole, and any sequence of runs with a crash anywhere in each of them.
 */
module RunDemo {
  import opened Wrappers
  import opened Utf16
  import opened Registrations
  import opened Transactions
  import opened Story
  import opened DemoOperations
  import opened DemoInputs
  import opened DemoPlans
  import opened JournalProtocol
  import opened DurableStore
  import opened Execution
  import opened Demo

  type DemoStore = Store<Operation, Manifest>

  // ---- One stage ----

  /** An honest provider makes the intent recordable, and an unchanged configuration makes it its own. */
  ghost predicate Intends(facts: Facts, env: Environment, m: Manifest, i: Intent) {
    && (Honest(facts, env) && i.metadata.Some? ==> HttpsMetadata(facts, i.metadata.value))
    && (Resolve(env).Ok? && Configured(facts, Resolve(env).value, None, m) ==>
          IntentConfigured(facts, Resolve(env).value, i))
  }

  lemma NewSuits(store: DemoStore, facts: Facts, env: Environment, i: Intent, prepared: Result<Transaction, Reason>)
    requires Ready(store, facts) && store.pending == None && IntentFits(facts, store.manifest, i)
    ensures Suits(PlanFor(facts, env, i, prepared), store)
  {
    var made := NewOperation(facts, i, prepared);
    if made.Ok? && ValidOperation(facts, made.value) {
      NewFits(facts, store.manifest, i, prepared);
    }
  }

  lemma NewMayPend(facts: Facts, env: Environment, m: Manifest, i: Intent, prepared: Result<Transaction, Reason>)
    requires NewOperation(facts, i, prepared).Ok? && Intends(facts, env, m, i)
    ensures MayPend(facts, env, None, m, Sending(NewOperation(facts, i, prepared).value))
  {
  }

  lemma NewSound(facts: Facts, i: Intent, prepared: Result<Transaction, Reason>)
    requires HashesAreHashes(facts) && ValidIntent(i) && Built(i) && NewOperation(facts, i, prepared).Ok?
    ensures SoundOperation(facts, Sending(NewOperation(facts, i, prepared).value))
  {
    NewValid(facts, i, prepared);
    StateIrrelevant(facts, NewOperation(facts, i, prepared).value);
  }

  /** The manifest with one more operation confirmed. */
  predicate Advanced(facts: Facts, before: Manifest, i: Intent, after: Manifest) {
    && Accepts(facts.isHttps, after)
    && Confirmed(after) == Confirmed(before) + 1
    && after.wallet == (if i.stage == Collection then Some(i.wallet) else before.wallet)
  }

  lemma CompletedAdvances(facts: Facts, env: Environment, before: Manifest, op: Operation, after: Manifest)
    requires Completed(facts, env, before, op, after) && Accepts(facts.isHttps, after)
    ensures Advanced(facts, before, op.intent, after)
  {
    OutcomeApplies(facts, env, before, op);
    RecordsHashes(facts, before, op, after);
    ExtendsWallet(before, op, after);
  }

  lemma ExtendsWallet(before: Manifest, op: Operation, after: Manifest)
    requires Extends(before, op, after)
    ensures after.wallet == (if op.stage == Collection then Some(op.intent.wallet) else before.wallet)
  {
  }

  /** How the attempt at a new operation leaves the files, when it was not even prepared. */
  lemma UnpreparedPart(
    store: DemoStore, facts: Facts, env: Environment, before: Manifest, i: Intent,
    prepared: Result<Transaction, Reason>, interruptible: bool, r: Result<Manifest, Stop<Reason>>)
    requires Ready(store, facts) && NewOperation(facts, i, prepared).Err?
    requires prepared.Err? ==> !OddReason(prepared.error)
    requires Attempted(store, facts, env, before, NewOperation(facts, i, prepared), false, interruptible, r)
    ensures Part(facts, env, None, before, store, r, interruptible) && r.Err?
  {
  }

  lemma PreparedPart(
    store: DemoStore, facts: Facts, env: Environment, before: Manifest, i: Intent,
    prepared: Result<Transaction, Reason>, interruptible: bool, r: Result<Manifest, Stop<Reason>>)
    requires Ready(store, facts) && NewOperation(facts, i, prepared).Ok? && Intends(facts, env, before, i)
    requires Attempted(store, facts, env, before, NewOperation(facts, i, prepared), false, interruptible, r)
    ensures Part(facts, env, None, before, store, r, interruptible)
    ensures r.Ok? ==> Advanced(facts, before, i, store.manifest)
    ensures Favourable(facts, env) && ValidIntent(i) && Built(i) && !interruptible ==> r.Ok?
  {
    var op := Sending(NewOperation(facts, i, prepared).value);
    NewMayPend(facts, env, before, i, prepared);
    KeptByOperation(facts, env, None, before, op, store.pending, store.manifest);
    if r.Err? {
      Excused(facts, env, None, before, op, interruptible, r.error);
      if Favourable(facts, env) && ValidIntent(i) && Built(i) {
        NewSound(facts, i, prepared);
      }
    } else {
      StoredAccepted(store, facts);
      CompletedAdvances(facts, env, before, op, store.manifest);
    }
  }

  /** The chain takes and confirms whatever is sent. */
  ghost predicate Confirming(facts: Facts, env: Environment) {
    && HashesAreHashes(facts)
    && (forall hash {:trigger env.sends(hash)} :: BroadcastReturns(env.sends(hash), hash))
    && (forall op {:trigger Confirm(env, op)} :: SoundOperation(facts, op) ==> Confirm(env, op).Ok?)
  }

  /** A stage that was sent, confirmed by the chain, and refused by the manifest. */
  ghost predicate RefusedAfterSending(
    store: DemoStore, before: Manifest, op: Operation, r: Result<Manifest, Stop<Reason>>)
    reads store
  {
    && r == Err(Storage(ManifestRejected))
    && store.pending == Some(op) && store.manifest == before && OnChain(store, op)
  }

  /** With metadata that is not HTTPS, a chain that confirms everything leaves the stage in just that state. */
  lemma StageRefused(
    store: DemoStore, facts: Facts, env: Environment, before: Manifest, i: Intent,
    prepared: Result<Transaction, Reason>, r: Result<Manifest, Stop<Reason>>)
    requires Ready(store, facts) && NewOperation(facts, i, prepared).Ok? && ValidIntent(i) && Built(i)
    requires Confirming(facts, env) && !Recordable(facts, Some(NewOperation(facts, i, prepared).value))
    requires Attempted(store, facts, env, before, NewOperation(facts, i, prepared), false, false, r)
    ensures RefusedAfterSending(store, before, Sending(NewOperation(facts, i, prepared).value), r)
  {
    var op := Sending(NewOperation(facts, i, prepared).value);
    NewSound(facts, i, prepared);
    StoredAccepted(store, facts);
    if Completed(facts, env, before, op, store.manifest) {
      StuckNeverCompletes(facts, env, before, op, store.manifest);
    } else {
      assert BroadcastReturns(env.sends(op.transactionHash), op.transactionHash);
      assert Confirm(env, op).Ok?;
    }
  }

  /** executeOrResume and persistExecuted for a new intent. */
  method RunStage(
    store: DemoStore, facts: Facts, env: Environment, intent: Intent, prepared: Result<Transaction, Reason>)
    returns (r: Result<Manifest, Stop<Reason>>)
    requires Ready(store, facts) && store.pending == None && IntentFits(facts, store.manifest, intent)
    requires Intends(facts, env, store.manifest, intent)
    requires prepared.Err? ==> !OddReason(prepared.error)
    modifies store
    ensures old(store.trail) <= store.trail
    ensures Part(facts, env, None, old(store.manifest), store, r, old(store.stopIn).Some?)
    ensures r.Ok? ==> Advanced(facts, old(store.manifest), intent, store.manifest)
    ensures && Favourable(facts, env) && ValidIntent(intent) && NewOperation(facts, intent, prepared).Ok?
            && old(store.stopIn).None?
            ==> r.Ok?
    ensures && Confirming(facts, env) && ValidIntent(intent) && NewOperation(facts, intent, prepared).Ok?
            && old(store.stopIn).None? && !Recordable(facts, Some(NewOperation(facts, intent, prepared).value))
            ==> RefusedAfterSending(store, old(store.manifest), Sending(NewOperation(facts, intent, prepared).value), r)
    ensures old(store.stopIn).None? ==> store.stopIn.None?
  {
    ghost var before, interruptible := store.manifest, store.stopIn.Some?;
    var plan := PlanFor(facts, env, intent, prepared);
    NewSuits(store, facts, env, intent, prepared);
    ghost var was := NewOperation(facts, intent, prepared);
    r := CompleteOperation(store, facts, env, plan, was, before);
    if was.Ok? {
      PreparedPart(store, facts, env, before, intent, prepared, interruptible, r);
      if Confirming(facts, env) && ValidIntent(intent) && !interruptible && !Recordable(facts, Some(was.value)) {
        StageRefused(store, facts, env, before, intent, prepared, r);
      }
    } else {
      UnpreparedPart(store, facts, env, before, intent, prepared, interruptible, r);
    }
  }

  // ---- The four stages ----

  predicate WalletAgrees(m: Manifest, wallet: Text) { m.wallet.Some? ==> SameHex(m.wallet.value, wallet) }

  /** Before a new operation: nothing pending, the wallet's own manifest, and the stage next. */
  ghost predicate NextUp(store: DemoStore, facts: Facts, env: Environment, config: RunConfig, stage: Stage)
    reads store
  {
    && Ready(store, facts) && store.pending == None && Resolve(env) == Ok(config)
    && WalletAgrees(store.manifest, env.wallet) && Confirmed(store.manifest) == Number(stage)
  }

  /** The stage was carried out. */
  ghost predicate StageDone(store: DemoStore, facts: Facts, env: Environment, stage: Stage)
    reads store
  {
    && Accepts(facts.isHttps, store.manifest)
    && WalletAgrees(store.manifest, env.wallet) && Confirmed(store.manifest) == Number(stage) + 1
  }

  lemma AdvancedDone(store: DemoStore, facts: Facts, env: Environment, before: Manifest, i: Intent)
    requires Advanced(facts, before, i, store.manifest) && WalletAgrees(before, env.wallet) && i.wallet == env.wallet
    requires Confirmed(before) == Number(i.stage)
    ensures StageDone(store, facts, env, i.stage)
  {
  }

  lemma CollectionReady(store: DemoStore, facts: Facts, env: Environment, config: RunConfig)
    requires NextUp(store, facts, env, config, Collection)
    ensures var i := CollectionIntent(env.wallet, facts.runConfigHash(config));
            && IntentFits(facts, store.manifest, i)
            && Intends(facts, env, store.manifest, i)
            && (HashesAreHashes(facts) ==> ValidIntent(i))
  {
    StoredAccepted(store, facts);
    AcceptedInOrder(facts.isHttps, store.manifest);
    CollectionIntentFits(facts, store.manifest, env.wallet, facts.runConfigHash(config));
    if HashesAreHashes(facts) {
      CollectionIntentValid(facts, config);
    }
  }

  lemma PreparedReady(facts: Facts, env: Environment, stage: Stage, i: Intent)
    requires Favourable(facts, env)
    ensures Prepare(env, stage).Ok? && NewOperation(facts, i, Prepare(env, stage)).Ok?
  {
    assert env.prepared(stage).Some?;
  }

  method RunCollection(store: DemoStore, facts: Facts, env: Environment, config: RunConfig)
    returns (r: Result<Manifest, Stop<Reason>>)
    requires NextUp(store, facts, env, config, Collection)
    modifies store
    ensures old(store.trail) <= store.trail
    ensures Part(facts, env, None, old(store.manifest), store, r, old(store.stopIn).Some?)
    ensures r.Ok? ==> StageDone(store, facts, env, Collection)
    ensures Favourable(facts, env) && old(store.stopIn).None? ==> r.Ok?
    ensures old(store.stopIn).None? ==> store.stopIn.None?
  {
    var intent := CollectionIntent(env.wallet, facts.runConfigHash(config));
    ghost var before := store.manifest;
    CollectionReady(store, facts, env, config);
    if Favourable(facts, env) {
      PreparedReady(facts, env, Collection, intent);
    }
    r := RunStage(store, facts, env, intent, Prepare(env, Collection));
    if r.Ok? {
      AdvancedDone(store, facts, env, before, intent);
    }
  }

  lemma MetadataRecordable(facts: Facts, env: Environment, config: StageConfig, stage: DemoStage)
    requires Honest(facts, env) && env.metadata(stage).Some?
    requires MetadataForIntent(facts, config, env.metadata(stage).value).Ok?
    ensures HttpsMetadata(facts, MetadataForIntent(facts, config, env.metadata(stage).value).value)
  {
  }

  /** The metadata of a stage, checked against its definition. */
  function StageMetadata(facts: Facts, env: Environment, config: RunConfig, stage: DemoStage): Result<Metadata, Reason> {
    if env.metadata(stage).None? then Err(MetadataFailed)
    else MetadataForIntent(facts, config.For(stage), env.metadata(stage).value)
  }

  lemma RootReady(store: DemoStore, facts: Facts, env: Environment, config: RunConfig)
    requires NextUp(store, facts, env, config, Registration(Root)) && StageMetadata(facts, env, config, Root).Ok?
    ensures store.manifest.spgNftContract.Some?
    ensures var i := RootIntentOf(facts, env, config, store.manifest);
            && IntentFits(facts, store.manifest, i)
            && Intends(facts, env, store.manifest, i)
            && (Favourable(facts, env) ==> ValidIntent(i))
  {
    StoredAccepted(store, facts);
    AcceptedInOrder(facts.isHttps, store.manifest);
    var prepared, hash := env.metadata(Root).value, facts.runConfigHash(config);
    var metadata := StageMetadata(facts, env, config, Root).value;
    var collection := store.manifest.spgNftContract.value;
    var i := RootIntent(env.wallet, config.root, collection, metadata, hash);
    RootIntentFits(facts, store.manifest, env.wallet, config.root, prepared, hash);
    DerivedIntentConfigured(facts, config, Root, prepared, i);
    if Honest(facts, env) {
      MetadataRecordable(facts, env, config.root, Root);
    }
    if Favourable(facts, env) {
      assert MetadataReady(facts, env, config, Root);
      CollectionShape(facts, store.manifest);
      RootIntentValid(facts, config, collection, metadata);
    }
  }

  lemma CollectionShape(facts: Facts, m: Manifest)
    requires Accepts(facts.isHttps, m) && m.spgNftContract.Some?
    ensures IsAddress(m.spgNftContract.value)
  {
  }

  method RunRoot(store: DemoStore, facts: Facts, env: Environment, config: RunConfig)
    returns (r: Result<Manifest, Stop<Reason>>)
    requires NextUp(store, facts, env, config, Registration(Root))
    modifies store
    ensures old(store.trail) <= store.trail
    ensures Part(facts, env, None, old(store.manifest), store, r, old(store.stopIn).Some?)
    ensures r.Ok? ==> StageDone(store, facts, env, Registration(Root))
    ensures Favourable(facts, env) && old(store.stopIn).None? ==> r.Ok?
    ensures old(store.stopIn).None? ==> store.stopIn.None?
  {
    var metadata := StageMetadata(facts, env, config, Root);
    if metadata.Err? {
      MetadataNeverOdd(facts, env, config, Root);
      return Err(Outside(metadata.error));
    }
    r := RunRootStage(store, facts, env, config);
  }

  function RootIntentOf(facts: Facts, env: Environment, config: RunConfig, m: Manifest): Intent
    requires m.spgNftContract.Some? && StageMetadata(facts, env, config, Root).Ok?
  {
    RootIntent(env.wallet, config.root, m.spgNftContract.value, StageMetadata(facts, env, config, Root).value,
               facts.runConfigHash(config))
  }

  method RunRootStage(store: DemoStore, facts: Facts, env: Environment, config: RunConfig)
    returns (r: Result<Manifest, Stop<Reason>>)
    requires NextUp(store, facts, env, config, Registration(Root)) && StageMetadata(facts, env, config, Root).Ok?
    modifies store
    ensures old(store.trail) <= store.trail
    ensures Part(facts, env, None, old(store.manifest), store, r, old(store.stopIn).Some?)
    ensures r.Ok? ==> StageDone(store, facts, env, Registration(Root))
    ensures Favourable(facts, env) && old(store.stopIn).None? ==> r.Ok?
    ensures old(store.stopIn).None? ==> store.stopIn.None?
  {
    RootReady(store, facts, env, config);
    ghost var before := store.manifest;
    var intent := RootIntentOf(facts, env, config, store.manifest);
    if Favourable(facts, env) {
      PreparedReady(facts, env, Registration(Root), intent);
    }
    r := RunStage(store, facts, env, intent, Prepare(env, Registration(Root)));
    if r.Ok? {
      AdvancedDone(store, facts, env, before, intent);
    }
  }

  lemma FavourableMetadata(facts: Facts, env: Environment, config: RunConfig, stage: DemoStage)
    requires Favourable(facts, env) && Resolve(env) == Ok(config)
    ensures StageMetadata(facts, env, config, stage).Ok?
    ensures ValidMetadata(StageMetadata(facts, env, config, stage).value)
  {
    assert MetadataReady(facts, env, config, stage);
  }

  lemma MetadataNeverOdd(facts: Facts, env: Environment, config: RunConfig, stage: DemoStage)
    requires Resolve(env) == Ok(config) && StageMetadata(facts, env, config, stage).Err?
    ensures !OddReason(StageMetadata(facts, env, config, stage).error)
    ensures !Favourable(facts, env)
  {
    if Favourable(facts, env) {
      FavourableMetadata(facts, env, config, stage);
    }
  }

  /** The predicted fee of a derivative, in an address's currency. */
  function StageFee(env: Environment, stage: DemoStage): Result<Fee, Reason> {
    if env.fees(stage).None? || !IsAddress(env.fees(stage).value.currencyToken) then Err(FeeUnknown)
    else Ok(env.fees(stage).value)
  }

  function StageIntent(facts: Facts, env: Environment, config: RunConfig, m: Manifest, stage: DemoStage): Intent
    requires stage != Root && m.spgNftContract.Some? && ParentOf(m, stage).Some?
    requires StageFee(env, stage).Ok? && StageMetadata(facts, env, config, stage).Ok?
  {
    DerivativeIntent(stage, env.wallet, config.For(stage), m.spgNftContract.value, ParentOf(m, stage).value,
                     StageFee(env, stage).value, StageMetadata(facts, env, config, stage).value,
                     facts.runConfigHash(config))
  }

  lemma ParentPresent(store: DemoStore, facts: Facts, env: Environment, config: RunConfig, stage: DemoStage)
    requires NextUp(store, facts, env, config, Registration(stage)) && stage != Root
    ensures store.manifest.spgNftContract.Some? && ParentOf(store.manifest, stage).Some?
    ensures Accepts(facts.isHttps, store.manifest)
  {
    StoredAccepted(store, facts);
    AcceptedInOrder(facts.isHttps, store.manifest);
  }

  lemma DerivativeReady(store: DemoStore, facts: Facts, env: Environment, config: RunConfig, stage: DemoStage)
    requires NextUp(store, facts, env, config, Registration(stage)) && stage != Root
    requires StageFee(env, stage).Ok? && StageMetadata(facts, env, config, stage).Ok?
    requires store.manifest.spgNftContract.Some? && ParentOf(store.manifest, stage).Some?
    ensures var i := StageIntent(facts, env, config, store.manifest, stage);
            && IntentFits(facts, store.manifest, i)
            && Intends(facts, env, store.manifest, i)
  {
    StoredAccepted(store, facts);
    var prepared, hash := env.metadata(stage).value, facts.runConfigHash(config);
    DerivativeIntentFits(facts, store.manifest, stage, env.wallet, config.For(stage), env.fees(stage).value, prepared, hash);
    DerivedIntentConfigured(facts, config, stage, prepared, StageIntent(facts, env, config, store.manifest, stage));
    if Honest(facts, env) {
      MetadataRecordable(facts, env, config.For(stage), stage);
    }
  }

  lemma DerivativeValid(facts: Facts, env: Environment, config: RunConfig, m: Manifest, stage: DemoStage)
    requires Favourable(facts, env) && Resolve(env) == Ok(config) && Accepts(facts.isHttps, m) && stage != Root
    requires m.spgNftContract.Some? && ParentOf(m, stage).Some?
    ensures StageFee(env, stage).Ok? && StageMetadata(facts, env, config, stage).Ok?
    ensures ValidIntent(StageIntent(facts, env, config, m, stage))
    ensures PrepareDerivative(env, stage, StageFee(env, stage).value) == Prepare(env, Registration(stage))
  {
    FavourableFee(facts, env, stage);
    FavourableMetadata(facts, env, config, stage);
    CollectionShape(facts, m);
    ParentShape(facts, m, stage);
    DerivativeIntentValid(facts, config, stage, m.spgNftContract.value, ParentOf(m, stage).value,
                          StageFee(env, stage).value, StageMetadata(facts, env, config, stage).value);
  }

  /** The fee is predicted first, then the metadata is prepared. */
  function DerivativeInputs(facts: Facts, env: Environment, config: RunConfig, stage: DemoStage)
    : Result<Metadata, Reason>
  {
    if StageFee(env, stage).Err? then Err(StageFee(env, stage).error) else StageMetadata(facts, env, config, stage)
  }

  lemma InputsNeverOdd(facts: Facts, env: Environment, config: RunConfig, stage: DemoStage)
    requires Resolve(env) == Ok(config) && stage != Root && DerivativeInputs(facts, env, config, stage).Err?
    ensures !OddReason(DerivativeInputs(facts, env, config, stage).error)
    ensures !Favourable(facts, env)
  {
    if StageFee(env, stage).Ok? {
      MetadataNeverOdd(facts, env, config, stage);
    } else if Favourable(facts, env) {
      FavourableFee(facts, env, stage);
    }
  }

  lemma FavourableFee(facts: Facts, env: Environment, stage: DemoStage)
    requires Favourable(facts, env) && stage != Root
    ensures StageFee(env, stage).Ok?
    ensures PrepareDerivative(env, stage, StageFee(env, stage).value) == Prepare(env, Registration(stage))
    ensures StageFee(env, stage).value.tokenAmount >= 0
  {
    assert FeesReady(env, stage);
  }

  method RunDerivative(store: DemoStore, facts: Facts, env: Environment, config: RunConfig, stage: DemoStage)
    returns (r: Result<Manifest, Stop<Reason>>)
    requires NextUp(store, facts, env, config, Registration(stage)) && stage != Root
    modifies store
    ensures old(store.trail) <= store.trail
    ensures Part(facts, env, None, old(store.manifest), store, r, old(store.stopIn).Some?)
    ensures r.Ok? ==> StageDone(store, facts, env, Registration(stage))
    ensures Favourable(facts, env) && old(store.stopIn).None? ==> r.Ok?
    ensures old(store.stopIn).None? ==> store.stopIn.None?
  {
    var inputs := DerivativeInputs(facts, env, config, stage);
    if inputs.Err? {
      InputsNeverOdd(facts, env, config, stage);
      return Err(Outside(inputs.error));
    }
    r := RunDerivativeStage(store, facts, env, config, stage);
  }

  method RunDerivativeStage(store: DemoStore, facts: Facts, env: Environment, config: RunConfig, stage: DemoStage)
    returns (r: Result<Manifest, Stop<Reason>>)
    requires NextUp(store, facts, env, config, Registration(stage)) && stage != Root
    requires DerivativeInputs(facts, env, config, stage).Ok?
    modifies store
    ensures old(store.trail) <= store.trail
    ensures Part(facts, env, None, old(store.manifest), store, r, old(store.stopIn).Some?)
    ensures r.Ok? ==> StageDone(store, facts, env, Registration(stage))
    ensures Favourable(facts, env) && old(store.stopIn).None? ==> r.Ok?
    ensures old(store.stopIn).None? ==> store.stopIn.None?
  {
    ghost var before := store.manifest;
    ParentPresent(store, facts, env, config, stage);
    var intent := StageIntent(facts, env, config, store.manifest, stage);
    var prepared := PrepareDerivative(env, stage, StageFee(env, stage).value);
    DerivativeReady(store, facts, env, config, stage);
    if Favourable(facts, env) {
      DerivativeValid(facts, env, config, store.manifest, stage);
      PreparedReady(facts, env, Registration(stage), intent);
    }
    r := RunStage(store, facts, env, intent, prepared);
    if r.Ok? {
      AdvancedDone(store, facts, env, before, intent);
    }
  }

  // ---- What is missing ----

  /** Nothing pending, and the first so many operations confirmed for this wallet. */
  ghost predicate Reached(store: DemoStore, facts: Facts, env: Environment, config: RunConfig, count: nat)
    reads store
  {
    && Ready(store, facts) && store.pending == None && Resolve(env) == Ok(config)
    && Accepts(facts.isHttps, store.manifest)
    && WalletAgrees(store.manifest, env.wallet) && Confirmed(store.manifest) >= count
  }

  /** A part that follows a completed one continues what came before it. */
  lemma PartAfter(
    facts: Facts, env: Environment, pending: Option<Operation>, m: Manifest, n: Manifest, store: DemoStore,
    r: Result<Manifest, Stop<Reason>>, interruptible: bool)
    requires Kept(facts, env, pending, m, None, n) && Part(facts, env, None, n, store, r, interruptible)
    requires !Stuck(facts, pending, m)
    ensures Part(facts, env, pending, m, store, r, interruptible)
  {
  }

  /** Carry out a stage unless the manifest confirms it already. */
  method RunIfMissing(store: DemoStore, facts: Facts, env: Environment, config: RunConfig, stage: Stage)
    returns (r: Result<Manifest, Stop<Reason>>)
    requires Reached(store, facts, env, config, Number(stage))
    modifies store
    ensures old(store.trail) <= store.trail
    ensures Part(facts, env, None, old(store.manifest), store, r, old(store.stopIn).Some?)
    ensures r.Ok? ==> Reached(store, facts, env, config, Number(stage) + 1)
    ensures Favourable(facts, env) && old(store.stopIn).None? ==> r.Ok?
    ensures old(store.stopIn).None? ==> store.stopIn.None?
  {
    AcceptedInOrder(facts.isHttps, store.manifest);
    match stage
    case Collection =>
      if store.manifest.spgNftContract.Some? {
        return Ok(store.manifest);
      }
      r := RunCollection(store, facts, env, config);
    case Registration(s) =>
      if store.manifest.Registered(s).Some? {
        return Ok(store.manifest);
      }
      if s == Root {
        r := RunRoot(store, facts, env, config);
      } else {
        r := RunDerivative(store, facts, env, config, s);
      }
  }

  /** The same, as the continuation of what has been done since the manifest was `start`. */
  method Continue(
    store: DemoStore, facts: Facts, env: Environment, config: RunConfig, stage: Stage, ghost start: Manifest,
    ghost interruptible: bool)
    returns (r: Result<Manifest, Stop<Reason>>)
    requires Reached(store, facts, env, config, Number(stage)) && Kept(facts, env, None, start, None, store.manifest)
    requires store.stopIn.Some? ==> interruptible
    modifies store
    ensures old(store.trail) <= store.trail
    ensures Part(facts, env, None, start, store, r, interruptible)
    ensures r.Ok? ==> Reached(store, facts, env, config, Number(stage) + 1)
    ensures r.Ok? ==> Kept(facts, env, None, start, None, store.manifest)
    ensures Favourable(facts, env) && old(store.stopIn).None? ==> r.Ok?
    ensures store.stopIn.Some? ==> interruptible && old(store.stopIn).Some?
  {
    ghost var before := store.manifest;
    r := RunIfMissing(store, facts, env, config, stage);
    PartAfter(facts, env, None, start, before, store, r, interruptible);
  }

  method RunMissing(store: DemoStore, facts: Facts, env: Environment, config: RunConfig)
    returns (r: Result<Manifest, Stop<Reason>>)
    requires Reached(store, facts, env, config, 0)
    modifies store
    ensures old(store.trail) <= store.trail
    ensures Part(facts, env, None, old(store.manifest), store, r, old(store.stopIn).Some?)
    ensures r.Ok? ==> NothingMissing(store.manifest)
    ensures Favourable(facts, env) && old(store.stopIn).None? ==> r.Ok?
  {
    ghost var start, interruptible := store.manifest, store.stopIn.Some?;
    r := Continue(store, facts, env, config, Collection, start, interruptible);
    if r.Err? {
      return;
    }
    r := RunRegistrations(store, facts, env, config, start, interruptible);
  }

  method RunRegistrations(
    store: DemoStore, facts: Facts, env: Environment, config: RunConfig, ghost start: Manifest, ghost interruptible: bool)
    returns (r: Result<Manifest, Stop<Reason>>)
    requires Reached(store, facts, env, config, 1) && Kept(facts, env, None, start, None, store.manifest)
    requires store.stopIn.Some? ==> interruptible
    modifies store
    ensures old(store.trail) <= store.trail
    ensures Part(facts, env, None, start, store, r, interruptible)
    ensures r.Ok? ==> NothingMissing(store.manifest)
    ensures Favourable(facts, env) && old(store.stopIn).None? ==> r.Ok?
  {
    r := Continue(store, facts, env, config, Registration(Root), start, interruptible);
    if r.Err? {
      return;
    }
    r := RunDerivatives(store, facts, env, config, start, interruptible);
    if r.Ok? {
      AllReached(store, facts, env, config);
    }
  }

  lemma AllReached(store: DemoStore, facts: Facts, env: Environment, config: RunConfig)
    requires Reached(store, facts, env, config, 4)
    ensures NothingMissing(store.manifest)
  {
    AcceptedInOrder(facts.isHttps, store.manifest);
  }

  method RunDerivatives(
    store: DemoStore, facts: Facts, env: Environment, config: RunConfig, ghost start: Manifest, ghost interruptible: bool)
    returns (r: Result<Manifest, Stop<Reason>>)
    requires Reached(store, facts, env, config, 2) && Kept(facts, env, None, start, None, store.manifest)
    requires store.stopIn.Some? ==> interruptible
    modifies store
    ensures old(store.trail) <= store.trail
    ensures Part(facts, env, None, start, store, r, interruptible)
    ensures r.Ok? ==> Reached(store, facts, env, config, 4)
    ensures Favourable(facts, env) && old(store.stopIn).None? ==> r.Ok?
  {
    var stages := [Child, Grandchild];
    r := Ok(store.manifest);
    for i := 0 to 2
      invariant old(store.trail) <= store.trail && r == Ok(store.manifest)
      invariant Reached(store, facts, env, config, 2 + i)
      invariant Kept(facts, env, None, start, None, store.manifest)
      invariant store.stopIn.Some? ==> interruptible && old(store.stopIn).Some?
    {
      r := Continue(store, facts, env, config, Registration(stages[i]), start, interruptible);
      if r.Err? {
        return;
      }
    }
  }

  // ---- The run ----

  lemma HashOfConfirmed(m: Manifest, stage: Stage)
    requires InOrder(m)
    ensures HashOf(m, Number(stage)) == ConfirmedHash(m, stage)
  {
    assert StageAt(Number(stage)) == stage;
  }

  /** What a run finds pending passes every check that recovery makes. */
  lemma PendingAdmitted(store: DemoStore, facts: Facts)
    requires Ready(store, facts)
    ensures Accepts(facts.isHttps, store.manifest) && store.revision <= 14
    ensures store.pending.Some? ==>
              var op := store.pending.value;
              && SoundOperation(facts, op)
              && HashOf(store.manifest, Number(op.stage)) == ConfirmedHash(store.manifest, op.stage)
              && match ConfirmedHash(store.manifest, op.stage)
                 case Some(hash) => hash == op.transactionHash
                 case None => Fits(facts, store.manifest, op)
  {
    RulesSound(facts);
    store.Admitted();
    AcceptedInOrder(facts.isHttps, store.manifest);
    if store.pending.Some? {
      HashOfConfirmed(store.manifest, store.pending.value.stage);
    }
  }

  /** The manifest confirms the pending operation already: only the journal is behind. */
  method ClearConfirmed(store: DemoStore, facts: Facts, env: Environment, pending: Operation)
    returns (r: Result<Manifest, Stop<Reason>>)
    requires Ready(store, facts) && store.pending == Some(pending)
    requires HashOf(store.manifest, Number(pending.stage)) == Some(pending.transactionHash)
    requires ConfirmedHash(store.manifest, pending.stage).Some?
    modifies store
    ensures old(store.trail) <= store.trail
    ensures Part(facts, env, Some(pending), old(store.manifest), store, r, old(store.stopIn).Some?)
    ensures old(store.stopIn).None? ==> store.stopIn.None? && r.Ok?
  {
    var cleared := store.ClearJournal(pending.operationId, store.revision);
    return if cleared.Ok? then Ok(store.manifest) else Err(Storage(cleared.error));
  }

  /** Settle the pending operation: clear it if the manifest confirms it, complete it otherwise. */
  method Recover(store: DemoStore, facts: Facts, env: Environment, pending: Operation)
    returns (r: Result<Manifest, Stop<Reason>>)
    requires Ready(store, facts) && store.pending == Some(pending)
    modifies store
    ensures old(store.trail) <= store.trail
    ensures Part(facts, env, Some(pending), old(store.manifest), store, r, old(store.stopIn).Some?)
    ensures Favourable(facts, env) && Recordable(facts, Some(pending)) && old(store.stopIn).None? ==> r.Ok?
    ensures old(store.stopIn).None? ==> store.stopIn.None?
  {
    PendingAdmitted(store, facts);
    if !Integral(facts, pending) {
      return Err(IntegrityFailed);
    }
    var persisted := ConfirmedHash(store.manifest, pending.stage);
    if persisted.Some? {
      if !SameHex(persisted.value, pending.transactionHash) {
        return Err(Outside(PersistedHashMismatch));
      }
      r := ClearConfirmed(store, facts, env, pending);
      return;
    }
    if !Prerequisites(store.manifest, pending) {
      return Err(Outside(PrerequisiteFailed));
    }
    r := RecoverPending(store, facts, env, pending);
  }

  lemma ResolveNeverOdd(env: Environment)
    ensures Resolve(env).Err? ==> !OddReason(Resolve(env).error)
    ensures Resolve(env).Ok? ==> Resolve(env).value.wallet == env.wallet
  {
  }

  /** The checks between recovery and the first new operation: the balance, the configuration, the artifacts. */
  function Admission(env: Environment, m: Manifest): Result<RunConfig, Reason> {
    if Underfunded(env) then Err(InsufficientFunds)
    else
      match Resolve(env)
      case Err(reason) => Err(reason)
      case Ok(config) => if ArtifactsAgree(m, config) then Ok(config) else Err(ArtifactDrift)
  }

  lemma Admits(facts: Facts, env: Environment, m: Manifest)
    ensures Admission(env, m).Err? ==> !OddReason(Admission(env, m).error)
    ensures Admission(env, m).Ok? ==> Resolve(env) == Admission(env, m)
    ensures Favourable(facts, env) && Configured(facts, Resolve(env).value, None, m) ==> Admission(env, m).Ok?
  {
    ResolveNeverOdd(env);
  }

  method Fund(store: DemoStore, facts: Facts, env: Environment)
    returns (r: Result<Manifest, Stop<Reason>>)
    requires Ready(store, facts) && store.pending == None && Accepts(facts.isHttps, store.manifest)
    requires WalletAgrees(store.manifest, env.wallet)
    modifies store
    ensures old(store.trail) <= store.trail
    ensures Part(facts, env, None, old(store.manifest), store, r, old(store.stopIn).Some?)
    ensures r.Ok? ==> NothingMissing(store.manifest)
    ensures Favourable(facts, env) && old(store.stopIn).None? && Admission(env, old(store.manifest)).Ok? ==> r.Ok?
  {
    var config := Admission(env, store.manifest);
    Admits(facts, env, store.manifest);
    if config.Err? {
      return Err(Outside(config.error));
    }
    r := RunMissing(store, facts, env, config.value);
  }

  lemma ConfiguredAgrees(facts: Facts, env: Environment, m: Manifest)
    requires Resolve(env).Ok? && Configured(facts, Resolve(env).value, None, m)
    ensures WalletAgrees(m, env.wallet)
  {
    ResolveNeverOdd(env);
  }

  /** Everything after recovery. */
  method Proceed(store: DemoStore, facts: Facts, env: Environment)
    returns (r: Result<Manifest, Stop<Reason>>)
    requires Ready(store, facts) && store.pending == None
    modifies store
    ensures old(store.trail) <= store.trail
    ensures Part(facts, env, None, old(store.manifest), store, r, old(store.stopIn).Some?)
    ensures r.Ok? ==> NothingMissing(store.manifest)
    ensures && Favourable(facts, env) && old(store.stopIn).None?
            && WalletAgrees(old(store.manifest), env.wallet) && Admission(env, old(store.manifest)).Ok?
            ==> r.Ok?
  {
    StoredAccepted(store, facts);
    if !WalletAgrees(store.manifest, env.wallet) {
      return Err(Outside(WrongWallet));
    }
    if NothingMissing(store.manifest) {
      return Ok(store.manifest);
    }
    r := Fund(store, facts, env);
  }

  /** The last revision, when all is done. */
  lemma DoneRevision(store: DemoStore, facts: Facts)
    requires Ready(store, facts) && store.pending == None && NothingMissing(store.manifest)
    ensures store.revision == 12 && store.manifest.status == Complete
  {
    RulesSound(facts);
    store.Admitted();
    AcceptedInOrder(facts.isHttps, store.manifest);
  }

  method RunDemo(store: DemoStore, facts: Facts, env: Environment)
    returns (r: Result<Manifest, Stop<Reason>>)
    requires Ready(store, facts)
    modifies store
    ensures old(store.trail) <= store.trail
    ensures Part(facts, env, old(store.pending), old(store.manifest), store, r, old(store.stopIn).Some?)
    ensures r.Ok? ==> NothingMissing(store.manifest) && store.manifest.status == Complete && store.revision == 12
    ensures && Favourable(facts, env) && old(store.stopIn).None? && Recordable(facts, old(store.pending))
            && Configured(facts, Resolve(env).value, old(store.pending), old(store.manifest))
            ==> r.Ok?
  {
    if env.chainId != CHAIN_ID {
      return Err(Outside(WrongNetwork));
    }
    PendingAdmitted(store, facts);
    if !Accepts(facts.isHttps, store.manifest) {
      return Err(Outside(MalformedManifest));
    }
    if !ValidSnapshot(facts, Snapshot(store.revision, store.pending)) {
      return Err(Outside(MalformedJournal));
    }
    r := RecoverAndProceed(store, facts, env);
    if r.Ok? {
      DoneRevision(store, facts);
    }
  }

  /** Recovery, and the check that this run has the configuration of the recovered one. */
  method RecoverFirst(store: DemoStore, facts: Facts, env: Environment, pending: Operation)
    returns (r: Result<Manifest, Stop<Reason>>)
    requires Ready(store, facts) && store.pending == Some(pending)
    modifies store
    ensures old(store.trail) <= store.trail
    ensures Part(facts, env, Some(pending), old(store.manifest), store, r, old(store.stopIn).Some?)
    ensures && Favourable(facts, env) && old(store.stopIn).None? && Recordable(facts, Some(pending))
            && Configured(facts, Resolve(env).value, Some(pending), old(store.manifest))
            ==> r.Ok?
    ensures old(store.stopIn).None? ==> store.stopIn.None?
  {
    r := Recover(store, facts, env, pending);
    if r.Err? {
      return;
    }
    var config := Resolve(env);
    if config.Err? {
      ResolveNeverOdd(env);
      return Err(Outside(config.error));
    }
    if facts.runConfigHash(config.value) != pending.intent.runConfigHash {
      return Err(Outside(ConfigurationDiffers));
    }
  }

  lemma ProceedReady(facts: Facts, env: Environment, m: Manifest)
    requires Favourable(facts, env) && Configured(facts, Resolve(env).value, None, m)
    ensures WalletAgrees(m, env.wallet) && Admission(env, m).Ok?
  {
    Admits(facts, env, m);
    ConfiguredAgrees(facts, env, m);
  }

  method RecoverAndProceed(store: DemoStore, facts: Facts, env: Environment)
    returns (r: Result<Manifest, Stop<Reason>>)
    requires Ready(store, facts)
    modifies store
    ensures old(store.trail) <= store.trail
    ensures Part(facts, env, old(store.pending), old(store.manifest), store, r, old(store.stopIn).Some?)
    ensures r.Ok? ==> NothingMissing(store.manifest)
    ensures && Favourable(facts, env) && old(store.stopIn).None? && Recordable(facts, old(store.pending))
            && Configured(facts, Resolve(env).value, old(store.pending), old(store.manifest))
            ==> r.Ok?
  {
    var initial := store.pending;
    ghost var before, interruptible := store.manifest, store.stopIn.Some?;
    if initial.Some? {
      r := RecoverFirst(store, facts, env, initial.value);
      if r.Err? {
        return;
      }
    }
    ghost var between := store.manifest;
    if Favourable(facts, env) && Configured(facts, Resolve(env).value, None, between) {
      ProceedReady(facts, env, between);
    }
    r := Proceed(store, facts, env);
    PartAfter(facts, env, initial, before, between, store, r, interruptible);
  }
}
