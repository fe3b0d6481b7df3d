/**
 The journal file and the manifest file of phase0, as one run sees them while it holds the lease
 (FileOperationJournal.saveUnderLease and clearUnderLease, FileRegistrationStore.save), and the chain the
 journaled transactions are sent to. Each write replaces its file by rename (module FileReplace), so the process can
 be interrupted before the write or after it, never within it.
 */
module DurableStore {
  import opened Wrappers
  import opened Utf16
  import opened Device
  import opened JournalProtocol

  datatype Failure =
    /** The process dies, a call of the operating system fails, or the lease is found lost. */
    | Interrupted
    | JournalRejected
    | StaleRevision
    | WrongOperation
    | ManifestRejected
    | BroadcastFailed

  class Store<Op(==,!new), M(==,!new)> {
    const rules: Rules<Op, M>
    /** validatePendingOperation, and the identifier of an operation. */
    const valid: Op -> bool
    const id: Op -> Text

    var revision: nat
    var pending: Option<Op>
    var manifest: M
    /** Be interrupted at this many half-steps from now, if at all. */
    var stopIn: Option<nat>
    ghost var sent: seq<Sent>
    /** Every durable state since the empty start, over all runs. */
    ghost var trail: seq<Durable<Op, M>>

    ghost function Now(): Durable<Op, M>
      reads this
    {
      Durable(revision, pending, manifest, sent)
    }

    /** The history ends with what the files hold now. */
    ghost predicate Recorded()
      reads this
    {
      |trail| > 0 && trail[|trail| - 1] == Now()
    }

    /** And every step of it was one of the protocol. */
    ghost predicate Valid()
      reads this
    {
      Recorded() && Trail(rules, trail)
    }

    ghost function JournalFile(): (nat, Option<Op>)
      reads this
    {
      (revision, pending)
    }

    constructor (rules: Rules<Op, M>, valid: Op -> bool, id: Op -> Text)
      ensures Valid() && this.rules == rules && this.valid == valid && this.id == id
      ensures Now() == Start(rules) && stopIn == None
    {
      this.rules, this.valid, this.id := rules, valid, id;
      revision, pending, manifest := 0, None, rules.empty;
      stopIn := None;
      sent := [];
      trail := [Start(rules)];
    }

    /** What the two files always say together. */
    lemma Admitted()
      requires Valid() && Sound(rules)
      ensures Inv(rules, Now())
    {
      TrailInv(rules, trail, |trail| - 1);
    }

    /** Half a step: the process may be interrupted here. */
    method Tick() returns (alive: bool)
      modifies this`stopIn
      ensures old(stopIn).None? ==> alive && stopIn.None?
    {
      alive := stopIn != Some(0);
      if alive && stopIn.Some? {
        stopIn := Some(stopIn.value - 1);
      }
    }

    /** Add the durable state just reached to the history. */
    ghost method Note(was: Durable<Op, M>)
      requires |trail| > 0 && trail[|trail| - 1] == was
      modifies this`trail
      ensures Recorded() && trail == old(trail) + [Now()]
      ensures Trail(rules, old(trail)) && Step(rules, was, Now()) ==> Valid()
    {
      trail := trail + [Now()];
    }

    /** The operation may be journaled next: a new one that fits, or the pending one once it was sent. */
    ghost predicate MayFollow(op: Op)
      reads this
    {
      match pending
      case None => !rules.broadcast(op) && (valid(op) ==> rules.fits(manifest, op))
      case Some(was) =>
        && rules.fits(manifest, was) && !rules.broadcast(was) && op == rules.mark(was)
        && Sent(rules.stage(was), rules.hash(was)) in sent
    }

    /** saveUnderLease: validate, compare the revision, replace the file. */
    method SaveJournal(op: Op, expectedRevision: nat) returns (r: Result<nat, Failure>)
      requires Recorded()
      modifies this`revision, this`pending, this`stopIn, this`trail
      ensures Recorded() && old(trail) <= trail
      ensures old(Valid() && MayFollow(op)) ==> Valid()
      ensures Replaced(old(JournalFile()), (old(revision) + 1, Some(op)), JournalFile(), r.Ok?)
      ensures JournalFile() != old(JournalFile()) ==> valid(op) && expectedRevision == old(revision)
      ensures r.Ok? ==> r.value == revision
      ensures r.Err? && r.error != Interrupted ==>
                && JournalFile() == old(JournalFile())
                && r.error == (if !valid(op) then JournalRejected else StaleRevision)
                && (valid(op) ==> expectedRevision != old(revision))
      ensures old(stopIn).None? ==> stopIn.None? && r != Err(Interrupted)
    {
      var alive := Tick();
      if !alive {
        return Err(Interrupted);
      }
      if !valid(op) {
        return Err(JournalRejected);
      }
      if revision != expectedRevision {
        return Err(StaleRevision);
      }
      ghost var was := Now();
      revision, pending := revision + 1, Some(op);
      Note(was);
      alive := Tick();
      return if alive then Ok(revision) else Err(Interrupted);
    }

    /** The manifest confirms the operation, if it is the pending one. */
    ghost predicate MayClear(operationId: Text)
      reads this
    {
      pending.Some? && id(pending.value) == operationId ==>
        rules.confirmedHash(manifest, rules.stage(pending.value)) == Some(rules.hash(pending.value))
    }

    /** clearUnderLease. */
    method ClearJournal(operationId: Text, expectedRevision: nat) returns (r: Result<nat, Failure>)
      requires Recorded()
      modifies this`revision, this`pending, this`stopIn, this`trail
      ensures Recorded() && old(trail) <= trail
      ensures old(Valid() && MayClear(operationId)) ==> Valid()
      ensures Replaced(old(JournalFile()), (old(revision) + 1, None), JournalFile(), r.Ok?)
      ensures JournalFile() != old(JournalFile()) ==>
                && expectedRevision == old(revision)
                && old(pending).Some? && id(old(pending).value) == operationId
      ensures r.Ok? ==> r.value == revision && old(pending).Some? && id(old(pending).value) == operationId
      ensures r.Err? && r.error != Interrupted ==>
                && JournalFile() == old(JournalFile())
                && r.error == (if expectedRevision != old(revision) then StaleRevision else WrongOperation)
                && (expectedRevision == old(revision) ==> old(pending).None? || id(old(pending).value) != operationId)
      ensures old(stopIn).None? ==> stopIn.None? && r != Err(Interrupted)
    {
      var alive := Tick();
      if !alive {
        return Err(Interrupted);
      }
      if revision != expectedRevision {
        return Err(StaleRevision);
      }
      if pending.None? || id(pending.value) != operationId {
        return Err(WrongOperation);
      }
      ghost var was := Now();
      revision, pending := revision + 1, None;
      Note(was);
      alive := Tick();
      return if alive then Ok(revision) else Err(Interrupted);
    }

    /** The manifest records the pending operation, which was sent. */
    ghost predicate MayRecord(m: M)
      reads this
    {
      && pending.Some? && rules.broadcast(pending.value) && rules.fits(manifest, pending.value)
      && (rules.accepts(m) ==> rules.records(manifest, pending.value, m))
    }

    /** FileRegistrationStore.save: parse what is to be written, then replace the file. */
    method SaveManifest(m: M) returns (r: Result<(), Failure>)
      requires Recorded()
      modifies this`manifest, this`stopIn, this`trail
      ensures Recorded() && old(trail) <= trail
      ensures old(Valid() && MayRecord(m)) ==> Valid()
      ensures Replaced(old(manifest), m, manifest, r.Ok?)
      ensures manifest != old(manifest) || r.Ok? ==> rules.accepts(m)
      ensures r.Err? && r.error != Interrupted ==>
                manifest == old(manifest) && r.error == ManifestRejected && !rules.accepts(m)
      ensures old(stopIn).None? ==> stopIn.None? && r != Err(Interrupted)
    {
      var alive := Tick();
      if !alive {
        return Err(Interrupted);
      }
      if !rules.accepts(m) {
        return Err(ManifestRejected);
      }
      ghost var was := Now();
      manifest := m;
      Note(was);
      alive := Tick();
      return if alive then Ok(()) else Err(Interrupted);
    }

    /** The operation is the pending one and the next one for the manifest. */
    ghost predicate MaySend(op: Op)
      reads this
    {
      pending == Some(op) && rules.fits(manifest, op)
    }

    /**
     broadcastPrepared. The call may throw although the transaction reached the network: `returned` says whether it
     returns, `delivered` whether the transaction gets there all the same.
     */
    method Send(op: Op, returned: bool, delivered: bool) returns (r: Result<(), Failure>)
      requires Recorded()
      modifies this`sent, this`stopIn, this`trail
      ensures Recorded() && old(trail) <= trail
      ensures old(Valid() && MaySend(op)) ==> Valid()
      ensures Replaced(old(sent), old(sent) + [Sent(rules.stage(op), rules.hash(op))], sent, r.Ok?)
      ensures sent != old(sent) ==> returned || delivered
      ensures r == Err(BroadcastFailed) ==> !returned && (sent == old(sent) <==> !delivered)
      ensures r.Err? ==> r.error in {BroadcastFailed, Interrupted}
      ensures r.Ok? ==> returned
      ensures old(stopIn).None? ==> stopIn.None? && r != Err(Interrupted)
    {
      var alive := Tick();
      if !alive {
        return Err(Interrupted);
      }
      if returned || delivered {
        ghost var was := Now();
        sent := sent + [Sent(rules.stage(op), rules.hash(op))];
        Note(was);
      }
      alive := Tick();
      if !alive {
        return Err(Interrupted);
      }
      return if returned then Ok(()) else Err(BroadcastFailed);
    }
  }
}
