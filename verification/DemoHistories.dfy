/**
 Any sequence of runs of the demo, each with its own environment and its own crash: what is broadcast, what the
 two files say at every moment, and that a run in which nothing goes wrong always finishes the job.
 */
module DemoHistories {
  import opened Wrappers
  import opened Utf16
  import opened Registrations
  import opened Transactions
  import opened DemoOperations
  import opened DemoInputs
  import opened DemoPlans
  import opened JournalProtocol
  import opened DurableStore
  import opened Execution
  import opened Demo
  import opened RunDemo

  /** The journal, the manifest and the broadcasts so far. */
  type State = Durable<Operation, Manifest>

  /** One run: its environment, and the half-step at which it crashes, if it does. */
  datatype Run = Run(env: Environment, stopIn: Option<nat>)

  ghost predicate AllHonest(facts: Facts, runs: seq<Run>) {
    forall i :: 0 <= i < |runs| ==> Honest(facts, runs[i].env)
  }

  ghost predicate AllConfigured(config: RunConfig, runs: seq<Run>) {
    forall i :: 0 <= i < |runs| ==> Resolve(runs[i].env) == Ok(config)
  }

  /** Whether the two files agree with one configuration and can take what is pending. */
  ghost predicate Settled(facts: Facts, config: RunConfig, runs: seq<Run>, store: DemoStore)
    reads store
  {
    && (AllHonest(facts, runs) ==> Recordable(facts, store.pending))
    && (AllConfigured(config, runs) ==> Configured(facts, config, store.pending, store.manifest))
  }

  lemma SettledNext(facts: Facts, config: RunConfig, runs: seq<Run>, i: nat, store: DemoStore,
                    pending: Option<Operation>, m: Manifest)
    requires i < |runs|
    requires AllHonest(facts, runs) ==> Recordable(facts, pending)
    requires AllConfigured(config, runs) ==> Configured(facts, config, pending, m)
    requires Kept(facts, runs[i].env, pending, m, store.pending, store.manifest)
    ensures Settled(facts, config, runs, store)
  {
    if AllConfigured(config, runs) {
      assert Resolve(runs[i].env) == Ok(config);
    }
    if AllHonest(facts, runs) {
      assert Honest(facts, runs[i].env);
    }
  }

  /** Run after run from an empty start. No run is ever stopped by what an earlier one wrote. */
  method RunAll(facts: Facts, runs: seq<Run>, ghost config: RunConfig)
    returns (store: DemoStore, outcomes: seq<Result<Manifest, Stop<Reason>>>)
    ensures fresh(store) && Ready(store, facts) && Settled(facts, config, runs, store)
    ensures |outcomes| == |runs|
    ensures forall i :: 0 <= i < |runs| && outcomes[i].Err? ==> !AtOdds(outcomes[i].error)
    ensures forall i :: 0 <= i < |runs| ==>
              (outcomes[i] == Err(Storage(Interrupted)) ==> runs[i].stopIn.Some?)
    ensures AllHonest(facts, runs) ==>
              forall i :: 0 <= i < |runs| ==> outcomes[i] != Err(Storage(ManifestRejected))
  {
    store := NewStore(facts);
    outcomes := [];
    for i := 0 to |runs|
      invariant fresh(store) && Ready(store, facts) && Settled(facts, config, runs, store)
      invariant |outcomes| == i
      invariant forall k :: 0 <= k < i && outcomes[k].Err? ==> !AtOdds(outcomes[k].error)
      invariant forall k :: 0 <= k < i ==> (outcomes[k] == Err(Storage(Interrupted)) ==> runs[k].stopIn.Some?)
      invariant AllHonest(facts, runs) ==>
                  forall k :: 0 <= k < i ==> outcomes[k] != Err(Storage(ManifestRejected))
    {
      var outcome := RunOnce(store, facts, runs, i, config);
      outcomes := outcomes + [outcome];
    }
  }

  method RunOnce(store: DemoStore, facts: Facts, runs: seq<Run>, i: nat, ghost config: RunConfig)
    returns (outcome: Result<Manifest, Stop<Reason>>)
    requires i < |runs| && Ready(store, facts) && Settled(facts, config, runs, store)
    modifies store
    ensures Ready(store, facts) && Settled(facts, config, runs, store)
    ensures outcome.Err? ==> !AtOdds(outcome.error)
    ensures outcome == Err(Storage(Interrupted)) ==> runs[i].stopIn.Some?
    ensures AllHonest(facts, runs) ==> outcome != Err(Storage(ManifestRejected))
  {
    store.stopIn := runs[i].stopIn;
    ghost var pending, m := store.pending, store.manifest;
    outcome := RunDemo.RunDemo(store, facts, runs[i].env);
    SettledNext(facts, config, runs, i, store, pending, m);
    if AllHonest(facts, runs) {
      assert Honest(facts, runs[i].env);
    }
  }

  /** One crash-free run with the same configuration, enough funds and a chain that confirms ends complete. */
  method RerunCompletes(facts: Facts, runs: seq<Run>, config: RunConfig, env: Environment)
    returns (store: DemoStore, r: Result<Manifest, Stop<Reason>>)
    requires AllHonest(facts, runs) && AllConfigured(config, runs)
    requires Favourable(facts, env) && Resolve(env) == Ok(config)
    ensures Ready(store, facts) && r == Ok(store.manifest)
    ensures store.manifest.status == Complete && NothingMissing(store.manifest)
    ensures store.pending == None && store.revision == 12
  {
    var outcomes;
    store, outcomes := RunAll(facts, runs, config);
    store.stopIn := None;
    r := RunDemo.RunDemo(store, facts, env);
  }

  /** An operation the manifest can never take stays pending, and no later run, in whatever environment, succeeds. */
  method StuckForGood(store: DemoStore, facts: Facts, runs: seq<Run>)
    returns (outcomes: seq<Result<Manifest, Stop<Reason>>>)
    requires Ready(store, facts) && Stuck(facts, store.pending, store.manifest)
    modifies store
    ensures Ready(store, facts) && |outcomes| == |runs|
    ensures forall i :: 0 <= i < |runs| ==> outcomes[i].Err?
    ensures StillPending(store, old(store.pending).value, old(store.manifest))
  {
    ghost var op, m := store.pending.value, store.manifest;
    outcomes := [];
    for i := 0 to |runs|
      invariant Ready(store, facts) && Stuck(facts, store.pending, store.manifest) && StillPending(store, op, m)
      invariant |outcomes| == i && forall k :: 0 <= k < i ==> outcomes[k].Err?
    {
      store.stopIn := runs[i].stopIn;
      ghost var pending := store.pending.value;
      var outcome := RunDemo.RunDemo(store, facts, runs[i].env);
      StaysStuck(store, facts, pending, m);
      outcomes := outcomes + [outcome];
    }
  }

  lemma StaysStuck(store: DemoStore, facts: Facts, op: Operation, m: Manifest)
    requires Stuck(facts, Some(op), m) && StillPending(store, op, m)
    ensures Stuck(facts, store.pending, store.manifest)
  {
    var now := store.pending.value;
    assert now.stage == Sending(now).stage == op.stage && now.intent == Sending(now).intent == op.intent;
  }

  // ---- What every moment of every history shows ----

  /**
   At most one transaction per stage is ever broadcast, in whatever runs: the one in the journal entry whenever the
   stage is pending, and the one the manifest names once it is confirmed.
   */
  lemma ExactlyOnePerStage(
    facts: Facts, trail: seq<State>, i: nat, j: nat, k: nat, stage: Stage, first: Text, second: Text)
    requires Trail(DemoRules(facts), trail) && i < |trail| && j < |trail| && k < |trail|
    requires Sent(Number(stage), first) in trail[i].sent && Sent(Number(stage), second) in trail[j].sent
    ensures first == second
    ensures trail[k].pending.Some? && trail[k].pending.value.stage == stage ==>
              trail[k].pending.value.transactionHash == first
    ensures ConfirmedHash(trail[k].manifest, stage).Some? ==> ConfirmedHash(trail[k].manifest, stage).value == first
  {
    RulesSound(facts);
    var rules, a, b := DemoRules(facts), Sent(Number(stage), first), Sent(Number(stage), second);
    ExactlyOnce(rules, trail, i, j, a, b);
    if trail[k].pending.Some? && trail[k].pending.value.stage == stage {
      PendingNamesBroadcasts(rules, trail, i, k, a);
    }
    if ConfirmedHash(trail[k].manifest, stage).Some? {
      ConfirmedWasBroadcast(facts, trail, k, k, stage);
      ExactlyOnce(rules, trail, i, k, a, Sent(Number(stage), ConfirmedHash(trail[k].manifest, stage).value));
    }
  }

  lemma HashShown(facts: Facts, trail: seq<State>, j: nat, stage: Stage)
    requires Trail(DemoRules(facts), trail) && j < |trail|
    ensures HashOf(trail[j].manifest, Number(stage)) == ConfirmedHash(trail[j].manifest, stage)
    ensures Accepts(facts.isHttps, trail[j].manifest)
  {
    RulesSound(facts);
    TrailInv(DemoRules(facts), trail, j);
    AcceptedInOrder(facts.isHttps, trail[j].manifest);
    HashOfConfirmed(trail[j].manifest, stage);
  }

  /** A confirmed stage was broadcast, with the hash the manifest names; and that never changes. */
  lemma ConfirmedWasBroadcast(facts: Facts, trail: seq<State>, i: nat, j: nat, stage: Stage)
    requires Trail(DemoRules(facts), trail) && i <= j < |trail| && ConfirmedHash(trail[i].manifest, stage).Some?
    ensures Sent(Number(stage), ConfirmedHash(trail[i].manifest, stage).value) in trail[i].sent
    ensures ConfirmedHash(trail[j].manifest, stage) == ConfirmedHash(trail[i].manifest, stage)
  {
    RulesSound(facts);
    var rules := DemoRules(facts);
    HashShown(facts, trail, i, stage);
    HashShown(facts, trail, j, stage);
    TrailInv(rules, trail, i);
    HistoryGrows(rules, trail, i, j, Number(stage));
    assert Committed(rules, trail[i], Number(stage)) == ConfirmedHash(trail[i].manifest, stage);
  }

  /** What is broadcast was journaled before, as a valid operation of that stage and hash. */
  lemma BroadcastWasJournaled(facts: Facts, trail: seq<State>, j: nat, s: Sent) returns (i: nat)
    requires Trail(DemoRules(facts), trail) && j < |trail| && s in trail[j].sent
    ensures i < j && trail[i].pending.Some?
    ensures Number(trail[i].pending.value.stage) == s.stage && trail[i].pending.value.transactionHash == s.hash
    ensures ValidOperation(facts, trail[i].pending.value)
  {
    RulesSound(facts);
    i := SentWasJournaled(DemoRules(facts), trail, j, s);
    TrailInv(DemoRules(facts), trail, i);
  }

  /** The manifest on disk is valid at every moment, and the revision counts the journal writes. */
  lemma FilesAlwaysValid(facts: Facts, trail: seq<State>, i: nat)
    requires Trail(DemoRules(facts), trail) && i < |trail|
    ensures Accepts(facts.isHttps, trail[i].manifest)
    ensures var k := Confirmed(trail[i].manifest);
            trail[i].revision ==
            match trail[i].pending
            case None => 3 * k
            case Some(op) =>
              if ConfirmedHash(trail[i].manifest, op.stage).Some? then 3 * k - 1
              else if op.state == Broadcast then 3 * k + 2
              else 3 * k + 1
    ensures trail[i].manifest.status == Complete && trail[i].pending.None? ==> trail[i].revision == 12
  {
    RulesSound(facts);
    TrailInv(DemoRules(facts), trail, i);
    RevisionExact(DemoRules(facts), trail, i);
    AcceptedInOrder(facts.isHttps, trail[i].manifest);
    if trail[i].pending.Some? {
      HashShown(facts, trail, i, trail[i].pending.value.stage);
    }
  }
}
