/**
 executeOrResume, recoverPending and persistExecuted of phase0/src/demo.ts, for whatever operations and
 manifests the store holds: the callbacks of the source are the fields of a plan.
 */
module Execution {
  import opened Wrappers
  import opened Utf16
  import opened JournalProtocol
  import opened DurableStore

  datatype Stop<+E> =
    | Storage(failure: Failure)
    | IntegrityFailed
    | PendingMismatch
    | Outside(reason: E)

  /** Errors that would mean the protocol is at odds with its own files. */
  predicate Blocking<E>(stop: Stop<E>) {
    || stop.IntegrityFailed? || stop.PendingMismatch?
    || stop == Storage(StaleRevision) || stop == Storage(WrongOperation)
  }

  datatype Plan<!Op, T, E> = Plan(
    /** assertPendingIntegrity, and the comparison with the current identifier, stage and intent. */
    integral: Op -> bool,
    current: Op -> bool,
    /** The operation to journal when none is pending. */
    prepare: Result<Op, E>,
    /** Whether the broadcast of its transaction returns, and whether it arrives if it does not. */
    returned: Op -> bool,
    delivered: Op -> bool,
    confirm: Op -> Result<T, E>)

  datatype Executed<Op, T> = Executed(result: T, operation: Op, revision: nat)

  /** The plan is about the pending operation, or prepares one that fits. */
  ghost predicate Suits<Op(!new), M(!new), T, E>(plan: Plan<Op, T, E>, store: Store<Op, M>)
    reads store
  {
    match store.pending
    case Some(op) => plan.integral(op) && plan.current(op) && store.rules.fits(store.manifest, op)
    case None =>
      plan.prepare.Ok? ==>
        var op := plan.prepare.value;
        !store.rules.broadcast(op) && (store.valid(op) ==> store.rules.fits(store.manifest, op))
  }

  /** The pending operation, sent. */
  ghost predicate Underway<Op(!new), M(!new)>(store: Store<Op, M>, op: Op, revision: nat)
    reads store
  {
    && store.pending == Some(op) && store.revision == revision
    && store.rules.broadcast(op) && store.rules.fits(store.manifest, op)
  }

  /** The transaction of the operation has been broadcast. */
  ghost predicate WasSent<Op(!new), M(!new)>(store: Store<Op, M>, op: Op)
    reads store
  {
    Sent(store.rules.stage(op), store.rules.hash(op)) in store.sent
  }

  /** What executeOrResume works on: the operation found pending, or the prepared one. */
  ghost function Subject<Op(!new), M(!new), T, E>(plan: Plan<Op, T, E>, store: Store<Op, M>): Result<Op, E>
    reads store
  {
    if store.pending.Some? then Ok(store.pending.value) else plan.prepare
  }

  /** The operation found pending, or the prepared one once it is journaled. */
  method Journaled<Op(==,!new), M(==,!new), T, E>(
    store: Store<Op, M>, plan: Plan<Op, T, E>, ghost was: Result<Op, E>)
    returns (r: Result<Op, Stop<E>>)
    requires store.Valid() && Suits(plan, store) && was == Subject(plan, store)
    modifies store`revision, store`pending, store`stopIn, store`trail
    ensures store.Valid() && old(store.trail) <= store.trail
    ensures r.Ok? ==>
              && store.pending == Some(r.value) && store.rules.fits(store.manifest, r.value)
              && was == Ok(r.value)
    ensures r.Err? ==> r.error.Outside? || r.error == Storage(JournalRejected) || r.error == Storage(Interrupted)
    ensures r.Err? && r.error.Outside? ==> was == Err(r.error.reason)
    ensures was.Err? ==> r.Err? && r.error.Outside? && store.pending == None
    ensures r == Err(Storage(JournalRejected)) ==> was.Ok? && !store.valid(was.value)
    ensures old(store.stopIn).None? ==> store.stopIn.None? && r != Err(Storage(Interrupted))
    ensures store.pending.Some? ==> was == Ok(store.pending.value)
    ensures old(store.pending).Some? ==> store.pending == old(store.pending)
  {
    if store.pending.Some? {
      var operation := store.pending.value;
      if !plan.integral(operation) {
        return Err(IntegrityFailed);
      }
      if !plan.current(operation) {
        return Err(PendingMismatch);
      }
      return Ok(operation);
    }
    if plan.prepare.Err? {
      return Err(Outside(plan.prepare.error));
    }
    var saved := store.SaveJournal(plan.prepare.value, store.revision);
    return if saved.Ok? then Ok(plan.prepare.value) else Err(Storage(saved.error));
  }

  /** Send it, and note in the journal that it was sent. */
  method Launch<Op(==,!new), M(==,!new)>(store: Store<Op, M>, found: Op, returned: bool, delivered: bool)
    returns (r: Result<Op, Failure>)
    requires store.Valid() && Sound(store.rules)
    requires store.pending == Some(found) && store.rules.fits(store.manifest, found)
    modifies store`revision, store`pending, store`sent, store`stopIn, store`trail
    ensures store.Valid() && old(store.trail) <= store.trail
    ensures r.Ok? ==>
              && Underway(store, r.value, store.revision)
              && r.value == (if store.rules.broadcast(found) then found else store.rules.mark(found))
              && WasSent(store, r.value)
    ensures r.Err? ==> r.error in {BroadcastFailed, Interrupted, JournalRejected}
    ensures r == Err(BroadcastFailed) ==> !returned
    ensures r == Err(JournalRejected) ==> !store.valid(store.rules.mark(found))
    ensures old(store.stopIn).None? ==> store.stopIn.None? && r != Err(Interrupted)
    ensures store.pending == Some(found) || store.pending == Some(store.rules.mark(found))
  {
    var sent := store.Send(found, returned, delivered);
    if sent.Err? {
      return Err(sent.error);
    }
    if store.rules.broadcast(found) {
      return Ok(found);
    }
    var marked := store.rules.mark(found);
    assert store.rules.stage(marked) == store.rules.stage(found);
    var saved := store.SaveJournal(marked, store.revision);
    return if saved.Ok? then Ok(marked) else Err(saved.error);
  }

  /** The operation the plan ends up sending. */
  ghost function Final<Op(!new), M(!new)>(store: Store<Op, M>, op: Op): Op {
    if store.rules.broadcast(op) then op else store.rules.mark(op)
  }

  /** Why it could not be journaled, sent and confirmed. */
  ghost predicate NotExecuted<Op(!new), M(!new), T, E>(
    store: Store<Op, M>, plan: Plan<Op, T, E>, m: M, found: Op, interruptible: bool, stop: Stop<E>)
  {
    match stop
    case Storage(Interrupted) => interruptible
    case Storage(JournalRejected) => !(store.valid(found) && store.valid(store.rules.mark(found)))
    case Storage(BroadcastFailed) => !plan.returned(found)
    case Outside(reason) => plan.confirm(Final(store, found)) == Err(reason) && store.rules.fits(m, Final(store, found))
    case _ => false
  }

  /** Journal it, send it, note that it was sent, and wait for its confirmation. */
  method ExecuteOrResume<Op(==,!new), M(==,!new), T, E>(
    store: Store<Op, M>, plan: Plan<Op, T, E>, ghost was: Result<Op, E>)
    returns (r: Result<Executed<Op, T>, Stop<E>>)
    requires store.Valid() && Sound(store.rules) && Suits(plan, store) && was == Subject(plan, store)
    modifies store`revision, store`pending, store`sent, store`stopIn, store`trail
    ensures store.Valid() && old(store.trail) <= store.trail
    ensures r.Ok? ==>
              && Underway(store, r.value.operation, r.value.revision)
              && plan.confirm(r.value.operation) == Ok(r.value.result)
              && WasSent(store, r.value.operation)
    ensures was.Err? ==> r == Err(Outside(was.error)) && store.pending == None
    ensures old(store.pending).Some? ==> store.pending.Some?
    ensures was.Ok? && r.Ok? ==> r.value.operation == Final(store, was.value)
    ensures was.Ok? && r.Err? ==> NotExecuted(store, plan, store.manifest, was.value, old(store.stopIn).Some?, r.error)
    ensures was.Ok? && store.pending.Some? ==>
              store.pending.value == was.value || store.pending.value == store.rules.mark(was.value)
    ensures old(store.stopIn).None? ==> store.stopIn.None?
  {
    var journaled := Journaled(store, plan, was);
    if journaled.Err? {
      return Err(journaled.error);
    }
    var launched := Launch(store, journaled.value, plan.returned(journaled.value), plan.delivered(journaled.value));
    if launched.Err? {
      return Err(Storage(launched.error));
    }
    var confirmed := plan.confirm(launched.value);
    if confirmed.Err? {
      return Err(Outside(confirmed.error));
    }
    return Ok(Executed(confirmed.value, launched.value, store.revision));
  }

  /** Save the manifest with the confirmation, then clear the journal. */
  method PersistExecuted<Op(==,!new), M(==,!new), T, E>(
    store: Store<Op, M>, executed: Executed<Op, T>, applied: Result<M, E>)
    returns (r: Result<M, Stop<E>>)
    requires store.Valid() && Sound(store.rules) && Underway(store, executed.operation, executed.revision)
    requires applied.Ok? && store.rules.accepts(applied.value) ==>
               store.rules.records(store.manifest, executed.operation, applied.value)
    modifies store`revision, store`pending, store`manifest, store`stopIn, store`trail
    ensures store.Valid() && old(store.trail) <= store.trail
    ensures r.Ok? ==> applied == Ok(store.manifest) && r.value == store.manifest && store.pending == None
    ensures r.Err? ==> !Blocking(r.error) && r.error != Storage(JournalRejected) && r.error != Storage(BroadcastFailed)
    ensures r.Err? && r.error.Outside? ==> applied == Err(r.error.reason)
    ensures r == Err(Storage(ManifestRejected)) ==>
              && applied.Ok? && !store.rules.accepts(applied.value)
              && Underway(store, executed.operation, executed.revision) && store.manifest == old(store.manifest)
    ensures store.pending == None ==> applied == Ok(store.manifest)
    ensures old(store.stopIn).None? ==> store.stopIn.None? && r != Err(Storage(Interrupted))
    ensures store.manifest == old(store.manifest) || applied == Ok(store.manifest)
    ensures store.pending == old(store.pending) || store.pending == None
  {
    if applied.Err? {
      return Err(Outside(applied.error));
    }
    var saved := store.SaveManifest(applied.value);
    if saved.Err? {
      return Err(Storage(saved.error));
    }
    var cleared := store.ClearJournal(store.id(executed.operation), executed.revision);
    if cleared.Err? {
      return Err(Storage(cleared.error));
    }
    return Ok(store.manifest);
  }

  /** What a confirmed operation puts into the manifest is what the rules call recording it. */
  ghost predicate ApplySound<Op(!new), M(!new), T(!new), E>(
    rules: Rules<Op, M>, confirm: Op -> Result<T, E>, apply: (M, Op, T) -> Result<M, E>)
  {
    forall m, op {:trigger rules.fits(m, op), confirm(op)} :: rules.fits(m, op) && confirm(op).Ok? ==>
      var applied := apply(m, op, confirm(op).value);
      applied.Ok? && (rules.accepts(applied.value) ==> rules.records(m, op, applied.value))
  }

  /** The operation fitted and was confirmed, and this is the manifest with it. */
  ghost predicate Applied<Op(!new), M(!new), T, E>(
    rules: Rules<Op, M>, confirm: Op -> Result<T, E>, apply: (M, Op, T) -> Result<M, E>, before: M, op: Op, after: M)
  {
    rules.fits(before, op) && confirm(op).Ok? && apply(before, op, confirm(op).value) == Ok(after)
  }

  /** Why a plan for the operation found was not completed. */
  ghost predicate Explained<Op(!new), M(!new), T, E>(
    store: Store<Op, M>, plan: Plan<Op, T, E>, apply: (M, Op, T) -> Result<M, E>, before: M, found: Op,
    interruptible: bool, stop: Stop<E>)
  {
    || NotExecuted(store, plan, before, found, interruptible, stop)
    || (stop == Storage(ManifestRejected) && store.rules.fits(before, Final(store, found))
        && Refused(store.rules, plan.confirm, apply, before, Final(store, found)))
  }

  /** The manifest with the confirmed operation is not one the manifest store accepts. */
  ghost predicate Refused<Op(!new), M(!new), T, E>(
    rules: Rules<Op, M>, confirm: Op -> Result<T, E>, apply: (M, Op, T) -> Result<M, E>, before: M, op: Op)
  {
    confirm(op).Ok? && var applied := apply(before, op, confirm(op).value); applied.Ok? && !rules.accepts(applied.value)
  }

  /** How the store and the answer are left when a plan for the operation `was` has been carried out, or stopped. */
  ghost predicate Ends<Op(!new), M(!new), T, E>(
    store: Store<Op, M>, plan: Plan<Op, T, E>, apply: (M, Op, T) -> Result<M, E>, before: M, was: Result<Op, E>,
    resumed: bool, interruptible: bool, r: Result<M, Stop<E>>)
    reads store
  {
    match was
    case Err(reason) => r == Err(Outside(reason)) && store.manifest == before && store.pending == None
    case Ok(op) =>
      var done := Applied(store.rules, plan.confirm, apply, before, Final(store, op), store.manifest);
      && (store.manifest == before || done)
      && (store.pending.Some? ==> store.pending.value == op || store.pending.value == store.rules.mark(op))
      && (resumed && store.pending == None ==> done)
      && match r
         case Ok(m) => m == store.manifest && store.pending == None && done
         case Err(stop) =>
           && Explained(store, plan, apply, before, op, interruptible, stop)
           && (stop == Storage(ManifestRejected) ==>
                 && store.pending == Some(Final(store, op)) && store.manifest == before
                 && WasSent(store, Final(store, op)))
  }

  /** executeOrResume and persistExecuted, one after the other, as recovery and every stage call them. */
  method CarryOut<Op(==,!new), M(==,!new), T(!new), E>(
    store: Store<Op, M>, plan: Plan<Op, T, E>, apply: (M, Op, T) -> Result<M, E>,
    ghost was: Result<Op, E>, ghost before: M)
    returns (r: Result<M, Stop<E>>)
    requires store.Valid() && Sound(store.rules) && Suits(plan, store) && ApplySound(store.rules, plan.confirm, apply)
    requires was == Subject(plan, store) && before == store.manifest
    modifies store
    ensures store.Valid() && old(store.trail) <= store.trail
    ensures Ends(store, plan, apply, before, was, old(store.pending).Some?, old(store.stopIn).Some?, r)
    ensures old(store.stopIn).None? ==> store.stopIn.None?
  {
    var executed := ExecuteOrResume(store, plan, was);
    if executed.Err? {
      return Err(executed.error);
    }
    r := PersistExecuted(store, executed.value,
                         apply(store.manifest, executed.value.operation, executed.value.result));
  }
}
