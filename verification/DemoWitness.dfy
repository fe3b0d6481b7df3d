/**
 An environment in which nothing goes wrong exists: the promise that a run then completes is not an empty one. And a
 metadata provider whose URIs are not HTTPS leaves an operation that was sent and can never be recorded.
 */
module DemoWitness {
  import opened Wrappers
  import opened Utf16
  import opened Registrations
  import opened Transactions
  import opened Story
  import opened DemoOperations
  import opened DemoInputs
  import opened DemoPlans
  import opened Demo
  import opened JournalProtocol
  import opened DurableStore
  import opened Execution
  import opened RunDemo
  import DemoHistories

  /** 0x and zeros. */
  function Zeros(digits: nat): (t: Text)
    ensures IsAnyHex(t, digits) && Lower(t) == t
  {
    var t := seq(digits + 2, i requires 0 <= i < digits + 2 => if i == 1 then 0x78 else 0x30);
    assert forall i :: 0 <= i < |t| ==> Lower(t)[i] == t[i];
    assert Lower(t) == t;
    t
  }

  /** A receipt that confirms a sound operation. */
  function GoodReceipt(facts: Facts, op: Operation): Option<Receipt> {
    var i := op.intent;
    if !SoundOperation(facts, op) then None
    else
      Some(Receipt(op.transactionHash, true,
                   match op.stage
                   case Collection => [CollectionCreated(Zeros(40))]
                   case Registration(Root) =>
                     [IpRegistered(Zeros(40), 1315, i.spgNftContract.value, 0),
                      LicenseTermsAttached(Zeros(40), Zeros(40), 0)]
                   case Registration(_) =>
                     [IpRegistered(Zeros(40), 1315, i.spgNftContract.value, 0),
                      DerivativeRegistered(Zeros(40), [i.parentIpId.value], [DecimalValue(i.licenseTermsId.value)],
                                           i.licenseTemplate.value)]))
  }

  lemma SelectOne(a: Log, keep: Log -> bool)
    ensures Filter([a], keep) == if keep(a) then [a] else []
    ensures Only([a], keep) == if keep(a) then Some(a) else None
  {
    assert [a][1..] == [];
    assert Filter([], keep) == [];
    assert Filter([a], keep) == (if keep(a) then [a] else []) + Filter([a][1..], keep);
  }

  lemma SelectTwo(a: Log, b: Log, keep: Log -> bool)
    ensures keep(a) && !keep(b) ==> Only([a, b], keep) == Some(a)
    ensures keep(b) && !keep(a) ==> Only([a, b], keep) == Some(b)
  {
    assert [a, b][1..] == [b];
    SelectOne(b, keep);
    assert Filter([a, b], keep) == (if keep(a) then [a] else []) + Filter([a, b][1..], keep);
  }

  function GoodMetadata(uri: Text): PreparedMetadata {
    var hash := Zeros(64);
    PreparedMetadata(Onchain(uri, hash, uri, hash),
                     MetadataProof(uri, hash, uri, hash, [0x61], hash, Ascii("text/markdown")))
  }

  function GoodEnvironment(facts: Facts, uri: Text, serialized: Text): Environment {
    var a := Zeros(40);
    Environment(
      CHAIN_ID, a,
      (_: DemoStage) => Definition([0x61], [0x61], [0x61]),
      (_: DemoStage) => Some(Zeros(64)),
      GAS_UNITS, 1,
      (_: DemoStage) => Some(GoodMetadata(uri)),
      (_: DemoStage) => Some(Fee(a, 0)),
      (_: DemoStage) => Some(Readiness(a, a, 0, 0, 0)),
      (_: Stage) => Some(Transaction(facts.keccak(serialized), serialized)),
      (hash: Text) => Observed(hash),
      (hash: Text) => true,
      (op: Operation) => GoodReceipt(facts, op))
  }

  lemma GoodConfirms(facts: Facts, env: Environment, op: Operation)
    requires SoundOperation(facts, op) && env.receipts(op) == GoodReceipt(facts, op)
    ensures Confirm(env, op).Ok?
  {
    var i := op.intent;
    match op.stage
    case Collection => SelectOne(CollectionCreated(Zeros(40)), Creations());
    case Registration(stage) =>
      assert Addressed(i.spgNftContract);
      if stage == Root {
        GoodSkill(op.transactionHash, i.spgNftContract.value);
      } else {
        assert Addressed(i.parentIpId) && IsDecimal(i.licenseTermsId.value) && Addressed(i.licenseTemplate);
        GoodDerivative(op.transactionHash, i.spgNftContract.value, i.parentIpId.value,
                       DecimalValue(i.licenseTermsId.value), i.licenseTemplate.value);
      }
  }

  lemma GoodSkill(hash: Text, collection: Text)
    ensures ConfirmSkill(
              Some(Receipt(hash, true, [IpRegistered(Zeros(40), 1315, collection, 0),
                                        LicenseTermsAttached(Zeros(40), Zeros(40), 0)])), hash, collection).Some?
  {
    var a, b := IpRegistered(Zeros(40), 1315, collection, 0), LicenseTermsAttached(Zeros(40), Zeros(40), 0);
    SelectTwo(a, b, RegistrationsOn(collection));
    SelectTwo(a, b, LicensesOf(a.ipId));
  }

  lemma GoodDerivative(hash: Text, collection: Text, parent: Text, terms: nat, template: Text)
    ensures ConfirmDerivative(
              Some(Receipt(hash, true, [IpRegistered(Zeros(40), 1315, collection, 0),
                                        DerivativeRegistered(Zeros(40), [parent], [terms], template)])),
              hash, collection, parent, terms, template).Some?
  {
    var a := IpRegistered(Zeros(40), 1315, collection, 0);
    var b := DerivativeRegistered(Zeros(40), [parent], [terms], template);
    SelectTwo(a, b, RegistrationsOn(collection));
    SelectTwo(a, b, Derivatives());
  }

  lemma GoodWellFormed(facts: Facts, op: Operation)
    ensures WellFormedReceipt(GoodReceipt(facts, op))
  {
  }

  lemma GoodReady(facts: Facts, uri: Text, serialized: Text, config: RunConfig, stage: DemoStage)
    requires facts.isHttps(uri) && !Blank(uri)
    requires Resolve(GoodEnvironment(facts, uri, serialized)) == Ok(config)
    ensures MetadataReady(facts, GoodEnvironment(facts, uri, serialized), config, stage)
  {
    assert Ascii("text/markdown")[0] == 0x74;
    assert !IsSpace(0x74);
  }

  lemma GoodResolves(facts: Facts, uri: Text, serialized: Text)
    ensures Resolve(GoodEnvironment(facts, uri, serialized)).Ok?
  {
    assert !IsSpace(0x61);
    assert [0x61 as Unit][0] == 0x61;
  }

  /** Whatever the URI, everything that is sent is confirmed. */
  lemma GoodConfirming(facts: Facts, uri: Text, serialized: Text)
    requires HashesAreHashes(facts)
    ensures Confirming(facts, GoodEnvironment(facts, uri, serialized))
  {
    var env := GoodEnvironment(facts, uri, serialized);
    forall op {:trigger Confirm(env, op)} | SoundOperation(facts, op)
      ensures Confirm(env, op).Ok?
    {
      GoodConfirms(facts, env, op);
    }
  }

  /** Whatever the hashes, one HTTPS URL and one hashable transaction are enough. */
  lemma FavourableExists(facts: Facts, uri: Text, serialized: Text)
    requires HashesAreHashes(facts) && facts.isHttps(uri) && !Blank(uri)
    requires IsSerialized(serialized) && IsLowerHash(facts.keccak(serialized))
    ensures Favourable(facts, GoodEnvironment(facts, uri, serialized))
  {
    var env := GoodEnvironment(facts, uri, serialized);
    GoodResolves(facts, uri, serialized);
    var config := Resolve(env).value;
    forall stage: DemoStage
      ensures MetadataReady(facts, env, config, stage)
    {
      GoodReady(facts, uri, serialized, config, stage);
    }
    GoodConfirming(facts, uri, serialized);
    forall op
      ensures WellFormedReceipt(env.receipts(op))
    {
      GoodWellFormed(facts, op);
    }
  }

  // ---- A provider whose URIs are not HTTPS ----

  lemma OtherMetadata(facts: Facts, uri: Text, serialized: Text, config: RunConfig)
    requires !Blank(uri) && !facts.isHttps(uri) && Resolve(GoodEnvironment(facts, uri, serialized)) == Ok(config)
    ensures var metadata := StageMetadata(facts, GoodEnvironment(facts, uri, serialized), config, Root);
            metadata.Ok? && ValidMetadata(metadata.value) && !HttpsMetadata(facts, metadata.value)
  {
    assert Ascii("text/markdown")[0] == 0x74;
    assert !IsSpace(0x74);
  }

  lemma SameConfiguration(facts: Facts, a: Text, b: Text, serialized: Text)
    ensures Resolve(GoodEnvironment(facts, a, serialized)) == Resolve(GoodEnvironment(facts, b, serialized))
  {
  }

  /** The operation that a root stage with such metadata journals. */
  function OtherRoot(facts: Facts, env: Environment, config: RunConfig, m: Manifest): Result<Operation, Reason>
    requires m.spgNftContract.Some? && StageMetadata(facts, env, config, Root).Ok?
  {
    NewOperation(facts, RootIntentOf(facts, env, config, m), Prepare(env, Registration(Root)))
  }

  lemma OtherRootMade(
    store: DemoStore, facts: Facts, uri: Text, serialized: Text, env: Environment, config: RunConfig)
    requires HashesAreHashes(facts) && !Blank(uri) && !facts.isHttps(uri)
    requires IsSerialized(serialized) && IsLowerHash(facts.keccak(serialized))
    requires env == GoodEnvironment(facts, uri, serialized) && NextUp(store, facts, env, config, Registration(Root))
    ensures store.manifest.spgNftContract.Some? && StageMetadata(facts, env, config, Root).Ok?
    ensures var i := RootIntentOf(facts, env, config, store.manifest);
            IntentFits(facts, store.manifest, i) && Intends(facts, env, store.manifest, i) && ValidIntent(i)
    ensures var op := OtherRoot(facts, env, config, store.manifest);
            op.Ok? && op.value.stage == Registration(Root) && !Recordable(facts, Some(op.value))
  {
    OtherMetadata(facts, uri, serialized, config);
    RootReady(store, facts, env, config);
    StoredAccepted(store, facts);
    CollectionShape(facts, store.manifest);
    RootIntentValid(facts, config, store.manifest.spgNftContract.value,
                    StageMetadata(facts, env, config, Root).value);
  }

  /**
   The collection is registered; then the provider answers a URI that is not HTTPS. The root transaction is
   broadcast and confirmed, the manifest is refused, and the operation stays behind.
   */
  method ConfirmedButRefused(facts: Facts, https: Text, other: Text, serialized: Text)
    returns (store: DemoStore, r: Result<Manifest, Stop<Reason>>)
    requires HashesAreHashes(facts) && IsSerialized(serialized) && IsLowerHash(facts.keccak(serialized))
    requires facts.isHttps(https) && !Blank(https) && !facts.isHttps(other) && !Blank(other)
    ensures fresh(store) && Ready(store, facts) && r == Err(Storage(ManifestRejected))
    ensures Stuck(facts, store.pending, store.manifest)
    ensures store.pending.value.stage == Registration(Root) && store.pending.value.state == Broadcast
    ensures OnChain(store, store.pending.value)
  {
    store := NewStore(facts);
    var env := GoodEnvironment(facts, https, serialized);
    FavourableExists(facts, https, serialized);
    var config := Resolve(env).value;
    r := RunCollection(store, facts, env, config);
    SameConfiguration(facts, https, other, serialized);
    r := RefusedRoot(store, facts, other, serialized, config);
  }

  method RefusedRoot(store: DemoStore, facts: Facts, uri: Text, serialized: Text, config: RunConfig)
    returns (r: Result<Manifest, Stop<Reason>>)
    requires HashesAreHashes(facts) && !Blank(uri) && !facts.isHttps(uri)
    requires IsSerialized(serialized) && IsLowerHash(facts.keccak(serialized))
    requires NextUp(store, facts, GoodEnvironment(facts, uri, serialized), config, Registration(Root))
    requires store.stopIn.None?
    modifies store
    ensures Ready(store, facts) && r == Err(Storage(ManifestRejected))
    ensures Stuck(facts, store.pending, store.manifest)
    ensures store.pending.value.stage == Registration(Root) && store.pending.value.state == Broadcast
    ensures OnChain(store, store.pending.value)
  {
    var env := GoodEnvironment(facts, uri, serialized);
    OtherRootMade(store, facts, uri, serialized, env, config);
    GoodConfirming(facts, uri, serialized);
    ghost var op := OtherRoot(facts, env, config, store.manifest).value;
    StoredAccepted(store, facts);
    AcceptedInOrder(facts.isHttps, store.manifest);
    r := RunStage(store, facts, env, RootIntentOf(facts, env, config, store.manifest), Prepare(env, Registration(Root)));
    StateIrrelevantToRecording(facts, op);
  }

  lemma StateIrrelevantToRecording(facts: Facts, op: Operation)
    ensures Recordable(facts, Some(Sending(op))) <==> Recordable(facts, Some(op))
  {
  }

  /** Everything hashes to zero, and one URI is HTTPS. */
  function PlainFacts(): Facts {
    Facts((t: Text) => t == [0x61], (t: Text) => Zeros(64), (i: Intent) => Zeros(64), (c: RunConfig) => Zeros(64),
          (t: Text) => t)
  }

  /** Such facts and URIs exist. */
  lemma PlainFactsFit()
    ensures HashesAreHashes(PlainFacts()) && IsSerialized(Zeros(2)) && IsLowerHash(PlainFacts().keccak(Zeros(2)))
    ensures PlainFacts().isHttps([0x61]) && !Blank([0x61]) && !PlainFacts().isHttps([0x62]) && !Blank([0x62])
  {
    assert [0x61 as Unit][0] == 0x61 && [0x62 as Unit][0] == 0x62;
    assert !IsSpace(0x61) && !IsSpace(0x62);
  }

  /** Hence there is a real store in that state, and no later run of any kind gets it out of it. */
  method RefusedForGood(runs: seq<DemoHistories.Run>)
    returns (store: DemoStore, outcomes: seq<Result<Manifest, Stop<Reason>>>)
    ensures Ready(store, PlainFacts()) && Stuck(PlainFacts(), store.pending, store.manifest)
    ensures |outcomes| == |runs| && forall i :: 0 <= i < |runs| ==> outcomes[i].Err?
  {
    PlainFactsFit();
    var r;
    store, r := ConfirmedButRefused(PlainFacts(), [0x61], [0x62], Zeros(2));
    ghost var op, m := store.pending.value, store.manifest;
    outcomes := DemoHistories.StuckForGood(store, PlainFacts(), runs);
    DemoHistories.StaysStuck(store, PlainFacts(), op, m);
  }
}
