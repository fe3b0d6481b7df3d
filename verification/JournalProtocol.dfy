/**
 The write-ahead protocol that phase0/src/demo.ts runs over its journal and its manifest, as steps over durable
 state. A crash may come between any two steps, so a history of runs and crashes is any sequence of steps.
 What an operation and a manifest are is left open here; module Demo fills it in.
 */
module JournalProtocol {
  import opened Wrappers
  import opened Utf16

  /** One broadcast: the stage it was for and the hash of the transaction sent. */
  datatype Sent = Sent(stage: nat, hash: Text)

  datatype Durable<Op, M> = Durable(revision: nat, pending: Option<Op>, manifest: M, sent: seq<Sent>)

  /** The four operations of the demo are numbered 0 to 3 in their order. */
  const STAGES: nat := 4

  datatype Rules<!Op, !M> = Rules(
    empty: M,
    stage: Op -> nat,
    hash: Op -> Text,
    broadcast: Op -> bool,
    /** The operation in state `broadcast`. */
    mark: Op -> Op,
    /** How many operations a manifest confirms, and the transaction hash of each. */
    confirmed: M -> nat,
    confirmedHash: (M, nat) -> Option<Text>,
    accepts: M -> bool,
    sound: Op -> bool,
    /** The operation is sound and is the next one for the manifest. */
    fits: (M, Op) -> bool,
    /** The second manifest is the first with the operation confirmed. */
    records: (M, Op, M) -> bool)

  // ---- What the protocol needs of an operation and a manifest ----

  ghost predicate MarkSound<Op(!new), M(!new)>(r: Rules<Op, M>) {
    forall op {:trigger r.mark(op)} ::
      r.stage(r.mark(op)) == r.stage(op) && r.hash(r.mark(op)) == r.hash(op) && r.broadcast(r.mark(op))
  }

  ghost predicate FitSound<Op(!new), M(!new)>(r: Rules<Op, M>) {
    && (forall m, op {:trigger r.fits(m, op)} ::
          r.fits(m, op) ==> r.sound(op) && r.stage(op) == r.confirmed(m) < STAGES)
    && (forall m, op {:trigger r.fits(m, op), r.mark(op)} :: r.fits(m, op) ==> r.fits(m, r.mark(op)))
    && (forall m, s: nat {:trigger r.confirmedHash(m, s)} :: r.confirmedHash(m, s).Some? ==> s < r.confirmed(m))
  }

  ghost predicate RecordSound<Op(!new), M(!new)>(r: Rules<Op, M>) {
    forall m, op, n {:trigger r.records(m, op, n)} :: r.records(m, op, n) && r.fits(m, op) ==>
      && r.accepts(n)
      && r.confirmed(n) == r.confirmed(m) + 1
      && r.confirmedHash(n, r.stage(op)) == Some(r.hash(op))
      && (forall s :: s != r.stage(op) ==> r.confirmedHash(n, s) == r.confirmedHash(m, s))
  }

  ghost predicate Sound<Op(!new), M(!new)>(r: Rules<Op, M>) {
    r.accepts(r.empty) && r.confirmed(r.empty) == 0 && MarkSound(r) && FitSound(r) && RecordSound(r)
  }

  // ---- The steps ----

  /** A new operation is journaled, `prepared`, before anything is sent. */
  ghost predicate Journals<Op, M>(r: Rules<Op, M>, d: Durable<Op, M>, e: Durable<Op, M>) {
    && d.pending.None? && e.pending.Some?
    && r.fits(d.manifest, e.pending.value) && !r.broadcast(e.pending.value)
    && e == d.(revision := d.revision + 1, pending := e.pending)
  }

  /** The journaled transaction is sent, perhaps again. */
  ghost predicate Sends<Op, M>(r: Rules<Op, M>, d: Durable<Op, M>, e: Durable<Op, M>) {
    && d.pending.Some? && r.fits(d.manifest, d.pending.value)
    && e == d.(sent := d.sent + [Sent(r.stage(d.pending.value), r.hash(d.pending.value))])
  }

  /** The journal notes that it was sent. */
  ghost predicate Marks<Op, M>(r: Rules<Op, M>, d: Durable<Op, M>, e: Durable<Op, M>) {
    && d.pending.Some? && r.fits(d.manifest, d.pending.value) && !r.broadcast(d.pending.value)
    && Sent(r.stage(d.pending.value), r.hash(d.pending.value)) in d.sent
    && e == d.(revision := d.revision + 1, pending := Some(r.mark(d.pending.value)))
  }

  /** The confirmed operation goes into the manifest. */
  ghost predicate Confirms<Op, M>(r: Rules<Op, M>, d: Durable<Op, M>, e: Durable<Op, M>) {
    && d.pending.Some? && r.fits(d.manifest, d.pending.value) && r.broadcast(d.pending.value)
    && r.records(d.manifest, d.pending.value, e.manifest)
    && e == d.(manifest := e.manifest)
  }

  /** An operation the manifest confirms leaves the journal. */
  ghost predicate Clears<Op, M>(r: Rules<Op, M>, d: Durable<Op, M>, e: Durable<Op, M>) {
    && d.pending.Some?
    && r.confirmedHash(d.manifest, r.stage(d.pending.value)) == Some(r.hash(d.pending.value))
    && e == d.(revision := d.revision + 1, pending := None)
  }

  ghost predicate Step<Op, M>(r: Rules<Op, M>, d: Durable<Op, M>, e: Durable<Op, M>) {
    Journals(r, d, e) || Sends(r, d, e) || Marks(r, d, e) || Confirms(r, d, e) || Clears(r, d, e)
  }

  function Start<Op, M>(r: Rules<Op, M>): Durable<Op, M> { Durable(0, None, r.empty, []) }

  /** The durable states some sequence of runs and crashes went through, from the empty start. */
  ghost predicate Trail<Op, M>(r: Rules<Op, M>, trail: seq<Durable<Op, M>>) {
    && |trail| > 0 && trail[0] == Start(r)
    && forall i :: 0 <= i < |trail| - 1 ==> Step(r, trail[i], trail[i + 1])
  }

  // ---- The invariant ----

  /** The next operation is pending and fits, `prepared` or `broadcast`. */
  predicate PendingNext<Op, M>(r: Rules<Op, M>, d: Durable<Op, M>) {
    && d.pending.Some? && r.fits(d.manifest, d.pending.value)
    && d.revision == 3 * r.confirmed(d.manifest) + (if r.broadcast(d.pending.value) then 2 else 1)
  }

  /** The last confirmed operation is still pending. */
  predicate PendingDone<Op, M>(r: Rules<Op, M>, d: Durable<Op, M>) {
    && d.pending.Some? && r.broadcast(d.pending.value)
    && r.stage(d.pending.value) + 1 == r.confirmed(d.manifest)
    && r.confirmedHash(d.manifest, r.stage(d.pending.value)) == Some(r.hash(d.pending.value))
    && d.revision == 3 * r.confirmed(d.manifest) - 1
  }

  predicate Idle<Op, M>(r: Rules<Op, M>, d: Durable<Op, M>) {
    d.pending.None? && d.revision == 3 * r.confirmed(d.manifest)
  }

  /** A broadcast belongs to the operation its stage confirms, or to the pending one. */
  predicate Accounted<Op, M>(r: Rules<Op, M>, d: Durable<Op, M>, s: Sent) {
    || r.confirmedHash(d.manifest, s.stage) == Some(s.hash)
    || (PendingNext(r, d) && r.stage(d.pending.value) == s.stage && r.hash(d.pending.value) == s.hash)
  }

  /** The hash of a stage that is confirmed, or pending in state `broadcast`. */
  function Committed<Op, M>(r: Rules<Op, M>, d: Durable<Op, M>, stage: nat): Option<Text> {
    if r.confirmedHash(d.manifest, stage).Some? then r.confirmedHash(d.manifest, stage)
    else if d.pending.Some? && r.broadcast(d.pending.value) && r.stage(d.pending.value) == stage then
      Some(r.hash(d.pending.value))
    else None
  }

  ghost predicate Inv<Op(!new), M(!new)>(r: Rules<Op, M>, d: Durable<Op, M>) {
    && r.accepts(d.manifest)
    && (d.pending.Some? ==> r.sound(d.pending.value))
    && (Idle(r, d) || PendingNext(r, d) || PendingDone(r, d))
    && (forall i :: 0 <= i < |d.sent| ==> Accounted(r, d, d.sent[i]))
    && (forall s {:trigger Committed(r, d, s)} ::
          Committed(r, d, s).Some? ==> Sent(s, Committed(r, d, s).value) in d.sent)
  }

  lemma StartInv<Op(!new), M(!new)>(r: Rules<Op, M>)
    requires Sound(r)
    ensures Inv(r, Start(r))
  {
    forall s
      ensures Committed(r, Start(r), s).None?
    {
      assert r.confirmedHash(r.empty, s).None?;
    }
  }

  lemma JournalsKeeps<Op(!new), M(!new)>(r: Rules<Op, M>, d: Durable<Op, M>, e: Durable<Op, M>)
    requires Sound(r) && Inv(r, d) && Journals(r, d, e)
    ensures Inv(r, e)
  {
    assert Idle(r, d);
    forall i | 0 <= i < |e.sent|
      ensures Accounted(r, e, e.sent[i])
    {
      assert Accounted(r, d, d.sent[i]);
    }
    forall s | Committed(r, e, s).Some?
      ensures Sent(s, Committed(r, e, s).value) in e.sent
    {
      assert Committed(r, d, s) == Committed(r, e, s);
    }
  }

  lemma SendsKeeps<Op(!new), M(!new)>(r: Rules<Op, M>, d: Durable<Op, M>, e: Durable<Op, M>)
    requires Sound(r) && Inv(r, d) && Sends(r, d, e)
    ensures Inv(r, e)
  {
    assert r.confirmedHash(d.manifest, r.stage(d.pending.value)).None?;
    forall i | 0 <= i < |e.sent|
      ensures Accounted(r, e, e.sent[i])
    {
      if i < |d.sent| {
        assert Accounted(r, d, d.sent[i]);
      }
    }
    forall s | Committed(r, e, s).Some?
      ensures Sent(s, Committed(r, e, s).value) in e.sent
    {
      assert Committed(r, d, s) == Committed(r, e, s);
    }
  }

  lemma MarksKeeps<Op(!new), M(!new)>(r: Rules<Op, M>, d: Durable<Op, M>, e: Durable<Op, M>)
    requires Sound(r) && Inv(r, d) && Marks(r, d, e)
    ensures Inv(r, e)
  {
    var op := d.pending.value;
    assert r.stage(r.mark(op)) == r.stage(op) && r.hash(r.mark(op)) == r.hash(op) && r.broadcast(r.mark(op));
    assert r.fits(d.manifest, r.mark(op));
    assert r.confirmedHash(d.manifest, r.stage(op)).None?;
    forall i | 0 <= i < |e.sent|
      ensures Accounted(r, e, e.sent[i])
    {
      assert Accounted(r, d, d.sent[i]);
    }
    forall s | Committed(r, e, s).Some?
      ensures Sent(s, Committed(r, e, s).value) in e.sent
    {
      if s != r.stage(op) {
        assert Committed(r, d, s) == Committed(r, e, s);
      }
    }
  }

  lemma ConfirmsKeeps<Op(!new), M(!new)>(r: Rules<Op, M>, d: Durable<Op, M>, e: Durable<Op, M>)
    requires Sound(r) && Inv(r, d) && Confirms(r, d, e)
    ensures Inv(r, e)
  {
    var op := d.pending.value;
    assert r.records(d.manifest, op, e.manifest);
    assert r.confirmedHash(d.manifest, r.stage(op)).None?;
    forall i | 0 <= i < |e.sent|
      ensures Accounted(r, e, e.sent[i])
    {
      assert Accounted(r, d, d.sent[i]);
    }
    forall s | Committed(r, e, s).Some?
      ensures Sent(s, Committed(r, e, s).value) in e.sent
    {
      assert Committed(r, d, s) == Committed(r, e, s);
    }
  }

  lemma ClearsKeeps<Op(!new), M(!new)>(r: Rules<Op, M>, d: Durable<Op, M>, e: Durable<Op, M>)
    requires Sound(r) && Inv(r, d) && Clears(r, d, e)
    ensures Inv(r, e)
  {
    assert r.stage(d.pending.value) < r.confirmed(d.manifest);
    forall i | 0 <= i < |e.sent|
      ensures Accounted(r, e, e.sent[i])
    {
      assert Accounted(r, d, d.sent[i]);
    }
    forall s | Committed(r, e, s).Some?
      ensures Sent(s, Committed(r, e, s).value) in e.sent
    {
      assert Committed(r, d, s) == Committed(r, e, s);
    }
  }

  lemma StepKeeps<Op(!new), M(!new)>(r: Rules<Op, M>, d: Durable<Op, M>, e: Durable<Op, M>)
    requires Sound(r) && Inv(r, d) && Step(r, d, e)
    ensures Inv(r, e)
  {
    if Journals(r, d, e) {
      JournalsKeeps(r, d, e);
    } else if Sends(r, d, e) {
      SendsKeeps(r, d, e);
    } else if Marks(r, d, e) {
      MarksKeeps(r, d, e);
    } else if Confirms(r, d, e) {
      ConfirmsKeeps(r, d, e);
    } else {
      ClearsKeeps(r, d, e);
    }
  }

  /** Every state of every history satisfies the invariant. */
  lemma {:induction false} TrailInv<Op(!new), M(!new)>(r: Rules<Op, M>, trail: seq<Durable<Op, M>>, i: nat)
    requires Sound(r) && Trail(r, trail) && i < |trail|
    ensures Inv(r, trail[i])
  {
    if i == 0 {
      StartInv(r);
    } else {
      TrailInv(r, trail, i - 1);
      StepKeeps(r, trail[i - 1], trail[i]);
    }
  }

  // ---- What every history guarantees ----

  /** Two broadcasts for one stage are of one transaction. */
  lemma OneHashPerStage<Op(!new), M(!new)>(r: Rules<Op, M>, d: Durable<Op, M>, a: Sent, b: Sent)
    requires Sound(r) && Inv(r, d) && a in d.sent && b in d.sent && a.stage == b.stage
    ensures a == b
  {
    var i :| 0 <= i < |d.sent| && d.sent[i] == a;
    var j :| 0 <= j < |d.sent| && d.sent[j] == b;
    assert Accounted(r, d, d.sent[i]) && Accounted(r, d, d.sent[j]);
    assert PendingNext(r, d) ==> r.confirmedHash(d.manifest, r.stage(d.pending.value)).None?;
  }

  /** Broadcasts are never forgotten, and what a stage was confirmed with never changes. */
  lemma {:induction false} HistoryGrows<Op(!new), M(!new)>(
    r: Rules<Op, M>, trail: seq<Durable<Op, M>>, i: nat, j: nat, s: nat)
    requires Sound(r) && Trail(r, trail) && i <= j < |trail|
    ensures trail[i].sent <= trail[j].sent
    ensures r.confirmedHash(trail[i].manifest, s).Some? ==>
              r.confirmedHash(trail[j].manifest, s) == r.confirmedHash(trail[i].manifest, s)
    decreases j
  {
    if i < j {
      HistoryGrows(r, trail, i, j - 1, s);
      StepGrows(r, trail[j - 1], trail[j], s);
      PrefixTransitive(trail[i].sent, trail[j - 1].sent, trail[j].sent);
    }
  }

  lemma PrefixTransitive(a: seq<Sent>, b: seq<Sent>, c: seq<Sent>)
    requires a <= b <= c
    ensures a <= c
  {
  }

  lemma StepGrows<Op(!new), M(!new)>(r: Rules<Op, M>, d: Durable<Op, M>, e: Durable<Op, M>, s: nat)
    requires Sound(r) && Step(r, d, e)
    ensures d.sent <= e.sent
    ensures r.confirmedHash(d.manifest, s).Some? ==>
              r.confirmedHash(e.manifest, s) == r.confirmedHash(d.manifest, s)
  {
    if Confirms(r, d, e) {
      assert r.records(d.manifest, d.pending.value, e.manifest);
    }
  }

  /**
   Exactly once: whenever two broadcasts for a stage happened, in whatever runs, they were of the same
   transaction; and a confirmed stage was broadcast, with the hash the manifest records.
   */
  lemma ExactlyOnce<Op(!new), M(!new)>(
    r: Rules<Op, M>, trail: seq<Durable<Op, M>>, i: nat, j: nat, a: Sent, b: Sent)
    requires Sound(r) && Trail(r, trail) && i < |trail| && j < |trail|
    requires a in trail[i].sent && b in trail[j].sent && a.stage == b.stage
    ensures a == b
    ensures var h := r.confirmedHash(trail[j].manifest, b.stage); h.Some? ==> a.hash == h.value
  {
    var last := |trail| - 1;
    TrailInv(r, trail, last);
    TrailInv(r, trail, j);
    HistoryGrows(r, trail, i, last, a.stage);
    HistoryGrows(r, trail, j, last, a.stage);
    assert a in trail[last].sent && b in trail[last].sent;
    OneHashPerStage(r, trail[last], a, b);
    var h := r.confirmedHash(trail[j].manifest, b.stage);
    if h.Some? {
      assert Committed(r, trail[j], b.stage) == h;
      OneHashPerStage(r, trail[j], b, Sent(b.stage, h.value));
    }
  }

  /** The manifest confirms the operation with this hash, or it is pending with it. */
  predicate Holds<Op, M>(r: Rules<Op, M>, d: Durable<Op, M>, stage: nat, hash: Text) {
    || r.confirmedHash(d.manifest, stage) == Some(hash)
    || (d.pending.Some? && r.stage(d.pending.value) == stage && r.hash(d.pending.value) == hash)
  }

  lemma StepHolds<Op(!new), M(!new)>(
    r: Rules<Op, M>, d: Durable<Op, M>, e: Durable<Op, M>, stage: nat, hash: Text)
    requires Sound(r) && Inv(r, d) && Step(r, d, e) && Holds(r, d, stage, hash)
    ensures Holds(r, e, stage, hash)
  {
    StepGrows(r, d, e, stage);
    if Marks(r, d, e) {
      assert r.stage(r.mark(d.pending.value)) == r.stage(d.pending.value);
    } else if Confirms(r, d, e) {
      assert r.records(d.manifest, d.pending.value, e.manifest);
    }
  }

  /** What was pending once stays pending, with its hash, until the manifest confirms it with that hash. */
  lemma {:induction false} PendingPersists<Op(!new), M(!new)>(
    r: Rules<Op, M>, trail: seq<Durable<Op, M>>, j: nat, k: nat)
    requires Sound(r) && Trail(r, trail) && j <= k < |trail| && trail[j].pending.Some?
    ensures Holds(r, trail[k], r.stage(trail[j].pending.value), r.hash(trail[j].pending.value))
    decreases k
  {
    if j < k {
      PendingPersists(r, trail, j, k - 1);
      TrailInv(r, trail, k - 1);
      StepHolds(r, trail[k - 1], trail[k], r.stage(trail[j].pending.value), r.hash(trail[j].pending.value));
    }
  }

  lemma HoldsBroadcast<Op(!new), M(!new)>(r: Rules<Op, M>, d: Durable<Op, M>, s: Sent, hash: Text)
    requires Sound(r) && Inv(r, d) && Holds(r, d, s.stage, hash) && s in d.sent
    ensures s.hash == hash
  {
    var i :| 0 <= i < |d.sent| && d.sent[i] == s;
    assert Accounted(r, d, d.sent[i]);
    assert PendingNext(r, d) ==> r.confirmedHash(d.manifest, r.stage(d.pending.value)).None?;
  }

  /** Every broadcast of a stage, before or after, is of the transaction that is pending for it at any moment. */
  lemma PendingNamesBroadcasts<Op(!new), M(!new)>(
    r: Rules<Op, M>, trail: seq<Durable<Op, M>>, i: nat, j: nat, s: Sent)
    requires Sound(r) && Trail(r, trail) && i < |trail| && j < |trail|
    requires s in trail[i].sent && trail[j].pending.Some? && r.stage(trail[j].pending.value) == s.stage
    ensures s.hash == r.hash(trail[j].pending.value)
  {
    var last := |trail| - 1;
    TrailInv(r, trail, last);
    HistoryGrows(r, trail, i, last, s.stage);
    PendingPersists(r, trail, j, last);
    HoldsBroadcast(r, trail[last], s, r.hash(trail[j].pending.value));
  }

  /** A transaction that was never journaled is never broadcast. */
  lemma {:induction false} SentWasJournaled<Op(!new), M(!new)>(
    r: Rules<Op, M>, trail: seq<Durable<Op, M>>, j: nat, s: Sent)
    returns (i: nat)
    requires Trail(r, trail) && j < |trail| && s in trail[j].sent
    ensures i < j && trail[i].pending.Some?
    ensures r.stage(trail[i].pending.value) == s.stage && r.hash(trail[i].pending.value) == s.hash
  {
    if s in trail[j - 1].sent {
      i := SentWasJournaled(r, trail, j - 1, s);
    } else {
      i := j - 1;
      assert Step(r, trail[i], trail[i + 1]);
    }
  }

  /**
   A run that finds a pending operation finds it either recorded in the manifest with its own hash, or unrecorded
   and still the next operation: recovery is never at odds with what the protocol itself wrote.
   */
  lemma RecoveryAdmitted<Op(!new), M(!new)>(r: Rules<Op, M>, trail: seq<Durable<Op, M>>, i: nat)
    requires Sound(r) && Trail(r, trail) && i < |trail| && trail[i].pending.Some?
    ensures var d := trail[i];
            var op := d.pending.value;
            && r.sound(op)
            && match r.confirmedHash(d.manifest, r.stage(op))
               case Some(h) => h == r.hash(op)
               case None => r.fits(d.manifest, op)
  {
    TrailInv(r, trail, i);
  }

  /** The revision counts the journal writes exactly, whatever crashed in between. */
  lemma RevisionExact<Op(!new), M(!new)>(r: Rules<Op, M>, trail: seq<Durable<Op, M>>, i: nat)
    requires Sound(r) && Trail(r, trail) && i < |trail|
    ensures var d := trail[i];
            var k := r.confirmed(d.manifest);
            d.revision ==
            match d.pending
            case None => 3 * k
            case Some(op) =>
              if r.confirmedHash(d.manifest, r.stage(op)).Some? then 3 * k - 1
              else if r.broadcast(op) then 3 * k + 2
              else 3 * k + 1
    ensures r.confirmed(trail[i].manifest) == STAGES && trail[i].pending.None? ==> trail[i].revision == 12
  {
    TrailInv(r, trail, i);
  }
}
