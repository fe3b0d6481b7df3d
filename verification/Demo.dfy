/**
 runDemo of phase0/src/demo.ts: recover what is pending, then carry out the operations that are missing. A run
 may stop anywhere, by an error or by a crash; the next one starts from what is on disk.
 */
module Demo {
  import opened Wrappers
  import opened Utf16
  import opened Registrations
  import opened Transactions
  import opened Story
  import opened DemoOperations
  import opened DemoInputs
  import opened DemoPlans
  import opened JournalProtocol
  import opened DurableStore
  import opened Execution

  function ValidWith(facts: Facts): Operation -> bool { (op: Operation) => ValidOperation(facts, op) }

  function IdOf(): Operation -> Text { (op: Operation) => op.operationId }

  /** A store of demo operations and manifests, with its whole history legal. */
  ghost predicate Ready(store: Store<Operation, Manifest>, facts: Facts)
    reads store
  {
    store.Valid() && store.rules == DemoRules(facts) && store.valid == ValidWith(facts) && store.id == IdOf()
  }

  method NewStore(facts: Facts) returns (store: Store<Operation, Manifest>)
    ensures fresh(store) && Ready(store, facts) && store.Now() == Start(DemoRules(facts)) && store.stopIn == None
  {
    store := new Store(DemoRules(facts), ValidWith(facts), IdOf());
  }

  // ---- One operation ----

  /** The operation was confirmed, and this is the manifest with it. */
  predicate Completed(facts: Facts, env: Environment, before: Manifest, op: Operation, after: Manifest) {
    Fits(facts, before, op) && Confirm(env, op).Ok? && ApplyOutcome(before, op, Confirm(env, op).value) == Ok(after)
  }

  lemma ConfirmationsRecord(facts: Facts, env: Environment)
    ensures ApplySound(DemoRules(facts), ConfirmWith(env), ApplyWith())
  {
    var rules, confirm, apply := DemoRules(facts), ConfirmWith(env), ApplyWith();
    forall m, op | rules.fits(m, op) && confirm(op).Ok?
      ensures var applied := apply(m, op, confirm(op).value);
              applied.Ok? && (rules.accepts(applied.value) ==> rules.records(m, op, applied.value))
    {
      OutcomeApplies(facts, env, m, op);
    }
  }

  /** Why an operation was not completed. */
  ghost predicate Explains(
    facts: Facts, env: Environment, before: Manifest, op: Operation, interruptible: bool, stop: Stop<Reason>)
  {
    match stop
    case Storage(Interrupted) => interruptible
    case Storage(JournalRejected) => !ValidOperation(facts, op)
    case Storage(BroadcastFailed) => !BroadcastReturns(env.sends(op.transactionHash), op.transactionHash)
    case Storage(ManifestRejected) => Unacceptable(facts, env, before, op)
    case Outside(reason) => Fits(facts, before, op) && Confirm(env, op) == Err(reason)
    case _ => false
  }

  predicate Unacceptable(facts: Facts, env: Environment, before: Manifest, op: Operation) {
    && Fits(facts, before, op) && Confirm(env, op).Ok?
    && var applied := ApplyOutcome(before, op, Confirm(env, op).value);
       applied.Ok? && !Accepts(facts.isHttps, applied.value)
  }

  /** A plan for the demo, and the operation it is for: in state `broadcast` by the time it is confirmed. */
  ghost predicate Plans(
    store: Store<Operation, Manifest>, facts: Facts, env: Environment, plan: DemoPlan, was: Result<Operation, Reason>)
    reads store
  {
    && Ready(store, facts) && Suits(plan, store) && was == Subject(plan, store)
    && plan.confirm == ConfirmWith(env) && plan.returned == ReturnsWith(env)
  }

  function Sending(op: Operation): Operation { op.(state := Broadcast) }

  /** The transaction of the operation has been broadcast. */
  ghost predicate OnChain(store: Store<Operation, Manifest>, op: Operation)
    reads store
  {
    Sent(Number(op.stage), op.transactionHash) in store.sent
  }

  /** How an attempt at the operation `was` leaves the two files, and why it stopped. */
  ghost predicate Attempted(
    store: Store<Operation, Manifest>, facts: Facts, env: Environment, before: Manifest,
    was: Result<Operation, Reason>, resumed: bool, interruptible: bool, r: Result<Manifest, Stop<Reason>>)
    reads store
  {
    match was
    case Err(reason) => r == Err(Outside(reason)) && store.manifest == before && store.pending == None
    case Ok(found) =>
      var op := Sending(found);
      var done := Completed(facts, env, before, op, store.manifest);
      && (store.manifest == before || done)
      && (store.pending.Some? ==> Sending(store.pending.value) == op)
      && (resumed && store.pending == None ==> done)
      && match r
         case Ok(m) => m == store.manifest && store.pending == None && done
         case Err(stop) =>
           && Explains(facts, env, before, op, interruptible, stop)
           && (stop == Storage(ManifestRejected) ==>
                 store.pending == Some(op) && store.manifest == before && OnChain(store, op))
  }

  lemma Restated(
    store: Store<Operation, Manifest>, facts: Facts, env: Environment, plan: DemoPlan, before: Manifest,
    was: Result<Operation, Reason>, resumed: bool, interruptible: bool, r: Result<Manifest, Stop<Reason>>)
    requires store.rules == DemoRules(facts) && store.valid == ValidWith(facts)
    requires plan.confirm == ConfirmWith(env) && plan.returned == ReturnsWith(env)
    requires Ends(store, plan, ApplyWith(), before, was, resumed, interruptible, r)
    ensures Attempted(store, facts, env, before, was, resumed, interruptible, r)
  {
    if was.Ok? {
      assert Final(store, was.value) == Sending(was.value);
      StateIrrelevant(facts, was.value);
    }
  }

  lemma StateIrrelevant(facts: Facts, op: Operation)
    ensures ValidOperation(facts, Sending(op)) <==> ValidOperation(facts, op)
  {
  }

  /** executeOrResume, then persistExecuted. */
  method CompleteOperation(
    store: Store<Operation, Manifest>, facts: Facts, env: Environment, plan: DemoPlan,
    ghost was: Result<Operation, Reason>, ghost before: Manifest)
    returns (r: Result<Manifest, Stop<Reason>>)
    requires Plans(store, facts, env, plan, was) && before == store.manifest
    modifies store
    ensures Ready(store, facts) && old(store.trail) <= store.trail
    ensures Attempted(store, facts, env, before, was, old(store.pending).Some?, old(store.stopIn).Some?, r)
    ensures old(store.stopIn).None? ==> store.stopIn.None?
  {
    RulesSound(facts);
    ConfirmationsRecord(facts, env);
    ghost var resumed, interruptible := store.pending.Some?, store.stopIn.Some?;
    r := CarryOut(store, plan, ApplyWith(), was, before);
    Restated(store, facts, env, plan, before, was, resumed, interruptible, r);
  }

  // ---- What stops a run, and what a run leaves behind ----

  predicate OddReason(reason: Reason) {
    || reason.PersistedHashMismatch? || reason.PrerequisiteFailed? || reason.NeverPrepare? || reason.MissingProof?
    || reason.MalformedJournal? || reason.MalformedManifest?
  }

  /** Errors that would mean that a run is at odds with what earlier runs wrote. */
  predicate AtOdds(stop: Stop<Reason>) { Blocking(stop) || (stop.Outside? && OddReason(stop.reason)) }

  lemma ConfirmReasons(facts: Facts, env: Environment, op: Operation)
    requires ValidOperation(facts, op) && Confirm(env, op).Err?
    ensures Confirm(env, op).error == ConfirmationFailed
  {
  }

  lemma ExplainedFine(
    facts: Facts, env: Environment, before: Manifest, op: Operation, interruptible: bool, stop: Stop<Reason>)
    requires Explains(facts, env, before, op, interruptible, stop)
    ensures !AtOdds(stop)
  {
    if stop.Outside? {
      ConfirmReasons(facts, env, op);
    }
  }

  lemma HonestAcceptable(facts: Facts, env: Environment, before: Manifest, op: Operation)
    requires Honest(facts, env) && Recordable(facts, Some(op))
    ensures !Unacceptable(facts, env, before, op)
  {
    if Fits(facts, before, op) && Confirm(env, op).Ok? {
      OutcomeAccepted(facts, env, before, op);
    }
  }

  /** The provider, the chain and the hashes behave. */
  ghost predicate Favourable(facts: Facts, env: Environment) {
    HashesAreHashes(facts) && Honest(facts, env) && Resolve(env).Ok? && Benign(facts, env, Resolve(env).value)
  }

  lemma FavourableCompletes(facts: Facts, env: Environment, before: Manifest, op: Operation, stop: Stop<Reason>)
    requires Favourable(facts, env) && Recordable(facts, Some(op)) && SoundOperation(facts, op)
    ensures !Explains(facts, env, before, op, false, stop)
  {
    HonestAcceptable(facts, env, before, op);
    assert BroadcastReturns(env.sends(op.transactionHash), op.transactionHash);
    assert Confirm(env, op).Ok?;
  }

  /** Both files keep to one configuration, and what is pending can be recorded. */
  ghost predicate Kept(
    facts: Facts, env: Environment, pending: Option<Operation>, m: Manifest, pendingAfter: Option<Operation>,
    after: Manifest)
  {
    && (Honest(facts, env) && Recordable(facts, pending) ==> Recordable(facts, pendingAfter))
    && (Resolve(env).Ok? && Configured(facts, Resolve(env).value, pending, m) ==>
          Configured(facts, Resolve(env).value, pendingAfter, after))
  }

  /** The operation may take the place of what was pending. */
  ghost predicate MayPend(
    facts: Facts, env: Environment, pending: Option<Operation>, m: Manifest, op: Operation)
  {
    Kept(facts, env, pending, m, Some(op), m)
  }

  lemma KeptByOperation(
    facts: Facts, env: Environment, pending: Option<Operation>, before: Manifest, op: Operation,
    pendingAfter: Option<Operation>, after: Manifest)
    requires MayPend(facts, env, pending, before, op)
    requires pendingAfter.Some? ==> Sending(pendingAfter.value) == op
    requires after == before || Completed(facts, env, before, op, after)
    ensures Kept(facts, env, pending, before, pendingAfter, after)
  {
    if Resolve(env).Ok? && Configured(facts, Resolve(env).value, pending, before) {
      if after != before {
        AppliedConfigured(facts, Resolve(env).value, before, op, Confirm(env, op).value);
      }
      ConfiguredPending(facts, Resolve(env).value, op, pendingAfter, after);
    }
  }

  lemma ConfiguredPending(
    facts: Facts, config: RunConfig, op: Operation, pendingAfter: Option<Operation>, m: Manifest)
    requires Configured(facts, config, Some(op), m)
    requires pendingAfter.Some? ==> Sending(pendingAfter.value) == op
    ensures Configured(facts, config, pendingAfter, m)
  {
  }

  // ---- An operation that no run can complete ----

  /** Pending, not confirmed by the manifest, and with metadata that the manifest never takes. */
  predicate Stuck(facts: Facts, pending: Option<Operation>, m: Manifest) {
    pending.Some? && ConfirmedHash(m, pending.value.stage).None? && !Recordable(facts, pending)
  }

  /** The same operation is still pending, its transaction sent or not, and the manifest is as it was. */
  ghost predicate StillPending(store: Store<Operation, Manifest>, op: Operation, m: Manifest)
    reads store
  {
    store.manifest == m && store.pending.Some? && Sending(store.pending.value) == Sending(op)
  }

  lemma StoredAccepted(store: Store<Operation, Manifest>, facts: Facts)
    requires Ready(store, facts)
    ensures Accepts(facts.isHttps, store.manifest)
  {
    RulesSound(facts);
    store.Admitted();
  }

  lemma StuckNeverCompletes(facts: Facts, env: Environment, before: Manifest, op: Operation, after: Manifest)
    requires Completed(facts, env, before, op, after) && Accepts(facts.isHttps, after)
    ensures Recordable(facts, Some(op))
  {
    if op.stage == Collection {
      NoCollectionMetadata(facts, op);
    } else if op.intent.metadata.Some? {
      var c := Confirm(env, op).value.confirmation;
      assert RegistrationProof(op, c).Ok?;
      AcceptedNeedsHttps(facts, before, op, after);
    }
  }

  lemma NoCollectionMetadata(facts: Facts, op: Operation)
    requires SoundOperation(facts, op) && op.stage == Collection
    ensures op.intent.metadata.None?
  {
  }

  lemma StuckStays(
    store: Store<Operation, Manifest>, facts: Facts, env: Environment, before: Manifest, op: Operation,
    interruptible: bool, r: Result<Manifest, Stop<Reason>>)
    requires Ready(store, facts) && Stuck(facts, Some(op), before)
    requires Attempted(store, facts, env, before, Ok(op), true, interruptible, r)
    ensures r.Err? && StillPending(store, op, before)
  {
    StoredAccepted(store, facts);
    if Completed(facts, env, before, Sending(op), store.manifest) {
      StuckNeverCompletes(facts, env, before, Sending(op), store.manifest);
    }
  }

  /** What every part of a run guarantees, whether it finishes or not. */
  ghost predicate Part(
    facts: Facts, env: Environment, pending: Option<Operation>, before: Manifest,
    store: Store<Operation, Manifest>, r: Result<Manifest, Stop<Reason>>, interruptible: bool)
    reads store
  {
    && Ready(store, facts)
    && Kept(facts, env, pending, before, store.pending, store.manifest)
    && (r.Ok? ==> r.value == store.manifest && store.pending == None)
    && (r.Err? ==> !AtOdds(r.error))
    && (r == Err(Storage(Interrupted)) ==> interruptible)
    && (r == Err(Storage(ManifestRejected)) ==> !(Honest(facts, env) && Recordable(facts, pending)))
    && (Stuck(facts, pending, before) ==> r.Err? && StillPending(store, pending.value, before))
  }

  // ---- Recovery and the stages ----

  /** recoverPending: resend exactly the journaled bytes; never prepare a replacement. */
  method RecoverPending(store: Store<Operation, Manifest>, facts: Facts, env: Environment, pending: Operation)
    returns (r: Result<Manifest, Stop<Reason>>)
    requires Ready(store, facts) && store.pending == Some(pending) && Fits(facts, store.manifest, pending)
    modifies store
    ensures old(store.trail) <= store.trail
    ensures Part(facts, env, Some(pending), old(store.manifest), store, r, old(store.stopIn).Some?)
    ensures r.Ok? ==> Completed(facts, env, old(store.manifest), Sending(pending), store.manifest)
    ensures Favourable(facts, env) && Recordable(facts, Some(pending)) && old(store.stopIn).None? ==> r.Ok?
    ensures old(store.stopIn).None? ==> store.stopIn.None?
  {
    ghost var before, interruptible := store.manifest, store.stopIn.Some?;
    var plan := PlanFor(facts, env, pending.intent, Err(NeverPrepare));
    r := CompleteOperation(store, facts, env, plan, Ok(pending), before);
    KeptByOperation(facts, env, Some(pending), before, Sending(pending), store.pending, store.manifest);
    if Stuck(facts, Some(pending), before) {
      StuckStays(store, facts, env, before, pending, interruptible, r);
    }
    if r.Err? {
      Excused(facts, env, Some(pending), before, Sending(pending), interruptible, r.error);
    }
  }

  lemma Excused(
    facts: Facts, env: Environment, pending: Option<Operation>, before: Manifest, op: Operation, interruptible: bool,
    stop: Stop<Reason>)
    requires Explains(facts, env, before, op, interruptible, stop)
    requires Honest(facts, env) && Recordable(facts, pending) ==> Recordable(facts, Some(op))
    ensures !AtOdds(stop)
    ensures stop == Storage(Interrupted) ==> interruptible
    ensures stop == Storage(ManifestRejected) ==> !(Honest(facts, env) && Recordable(facts, pending))
    ensures Favourable(facts, env) && Recordable(facts, pending) && SoundOperation(facts, op) ==> interruptible
  {
    ExplainedFine(facts, env, before, op, interruptible, stop);
    if Honest(facts, env) && Recordable(facts, pending) {
      HonestAcceptable(facts, env, before, op);
      if Favourable(facts, env) && SoundOperation(facts, op) && !interruptible {
        FavourableCompletes(facts, env, before, op, stop);
      }
    }
  }
}
