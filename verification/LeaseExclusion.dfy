/**
 Mutual exclusion of the leased callback: exactly which step endangers it, and two rules for recoveries under
 which no run has such a step. Module LeaseCounterexamples shows what happens when either rule is broken.
 */
module LeaseExclusion {
  import opened Wrappers
  import opened Lease

  /** The recovery has read the lock and has not finished. */
  predicate Active(s: State, r: nat) {
    && RecoveryAlive(s, r)
    && (s.recoveries[r].phase == Probing
        || (s.recoveries[r].phase == Acting && Rescuer(r) in s.removals && s.removals[Rescuer(r)] != Ended))
  }

  /** A recovery first reads a lock whose owner is dead already, and while no other recovery is under way. */
  ghost predicate Careful(s: State, a: Action) {
    a.Read? && a.recovery in s.recoveries ==>
      && s.recoveries[a.recovery].target in s.sessions
      && s.sessions[s.recoveries[a.recovery].target].pid in s.dead
      && forall r :: r != a.recovery ==> !Active(s, r)
  }

  // ---- The invariant ----

  /** The session counts on the lock path: it has created its file and neither unlinked nor claimed it. */
  predicate Counts(s: State, l: nat) {
    && SessionAlive(s, l)
    && (s.sessions[l].phase == Writing || s.sessions[l].phase == Inside || s.sessions[l].phase == Failing
        || (s.sessions[l].phase == Leaving && Owner(l) in s.removals && s.removals[Owner(l)] == Claiming))
  }

  /** The recovery counts on it: it has read the lock and not yet claimed it. */
  predicate Aims(s: State, r: nat) {
    && RecoveryAlive(s, r)
    && (s.recoveries[r].phase == Probing
        || (s.recoveries[r].phase == Acting && Rescuer(r) in s.removals && s.removals[Rescuer(r)] == Claiming))
  }

  ghost predicate OwnersHold(s: State) {
    forall l :: Counts(s, l) ==> Lock in s.dir && s.dir[Lock] == l
  }

  ghost predicate RescuersAim(s: State) {
    && (forall r :: Aims(s, r) ==>
          var t := s.recoveries[r].target;
          RecordAt(s, Lock) == Some(t) && t in s.sessions && s.sessions[t].pid in s.dead)
    && (forall r, q :: Active(s, r) && Active(s, q) ==> r == q)
  }

  ghost predicate Exclusive(s: State) { OwnersHold(s) && RescuersAim(s) }

  // ---- Which step breaks it ----

  /** A recovery claims the file of a live owner that counts on it. */
  predicate Steals(s: State, a: Action) {
    a.Rename? && a.agent.Rescuer? && Lock in s.dir && Counts(s, s.dir[Lock])
  }

  lemma OwnersSession(v: Variant, s: State, a: Action, t: State)
    requires OwnersHold(s) && StepSession(v, s, a, t)
    ensures OwnersHold(t)
  {
    forall k | Counts(t, k)
      ensures Lock in t.dir && t.dir[Lock] == k
    {
      match a
      case Begin(l, _) => assert k != l ==> Counts(s, k);
      case Create(l) => assert k != l ==> Counts(s, k);
      case Write(l) => assert Counts(s, l) && Counts(s, k);
      case Fail(l, _) => assert Counts(s, l) && Counts(s, k);
      case UnlinkLock(l) => UnlinksOwn(s, l, t, k);
      case Release(l) => assert Counts(s, l) && Counts(s, k);
    }
  }

  /** The unlink of a failed acquisition takes its own file away, and nobody else counted on it. */
  lemma UnlinksOwn(s: State, l: nat, t: State, k: nat)
    requires OwnersHold(s) && StepSession(JournalLock, s, UnlinkLock(l), t)
    ensures !Counts(t, k)
  {
    assert Counts(s, l);
    if Counts(s, k) {
      assert k == l;
    }
  }

  lemma OwnersRename(s: State, g: Agent, t: State)
    requires Sane(s) && OwnersHold(s) && StepRemoval(s, Rename(g), t)
    ensures OwnersHold(t) <==> !Steals(s, Rename(g))
  {
    if Lock in s.dir && Counts(s, s.dir[Lock]) && g.Rescuer? {
      assert Counts(t, s.dir[Lock]) && Lock !in t.dir;
    } else {
      forall k
        ensures !Counts(t, k)
      {
        if Counts(s, k) {
          OwnClaim(s, g, k);
        }
      }
    }
  }

  /** An owner about to claim the lock is the one session that counts on it. */
  lemma OwnClaim(s: State, g: Agent, k: nat)
    requires Sane(s) && OwnersHold(s) && AtStage(s, g, Claiming) && g.Owner? && Counts(s, k)
    ensures g == Owner(k)
  {
    assert Counts(s, g.lease);
  }

  /** Per step, and for both locks: the path is held by whoever counts on it until a recovery steals it. */
  lemma StealExact(v: Variant, s: State, a: Action, t: State)
    requires Sane(s) && OwnersHold(s) && Step(v, s, a, t)
    ensures OwnersHold(t) <==> !Steals(s, a)
  {
    if StepSession(v, s, a, t) {
      OwnersSession(v, s, a, t);
    } else if a.Rename? {
      OwnersRename(s, a.agent, t);
    } else {
      OwnersElsewhere(s, a, t);
    }
  }

  lemma OwnersElsewhere(s: State, a: Action, t: State)
    requires OwnersHold(s) && (StepRecovery(s, a, t) || StepRemoval(s, a, t) || StepDeath(s, a, t)) && !a.Rename?
    ensures OwnersHold(t)
  {
    forall k | Counts(t, k)
      ensures Lock in t.dir && t.dir[Lock] == k
    {
      assert Counts(s, k);
    }
  }

  // ---- Careful recoveries steal nothing ----

  lemma RescuersCarry(s: State, t: State)
    requires RescuersAim(s) && RecordAt(t, Lock) == RecordAt(s, Lock)
    requires forall r :: Aims(t, r) ==> Aims(s, r) && t.recoveries[r].target == s.recoveries[r].target
    requires forall r :: Active(t, r) ==> Active(s, r)
    requires forall l :: l in s.sessions ==> l in t.sessions && t.sessions[l].pid == s.sessions[l].pid
    requires s.dead <= t.dead
    ensures RescuersAim(t)
  {
  }

  lemma AimsSession(v: Variant, s: State, a: Action, t: State)
    requires Sane(s) && Exclusive(s) && StepSession(v, s, a, t)
    ensures RescuersAim(t)
  {
    forall r | Aims(t, r)
      ensures RecordAt(t, Lock) == Some(t.recoveries[r].target)
    {
      assert Aims(s, r);
      match a
      case Create(_) =>
      case UnlinkLock(l) => assert Counts(s, l);
      case _ =>
    }
    SameRescuers(s, t);
  }

  lemma SameRescuers(s: State, t: State)
    requires forall q, p :: Active(s, q) && Active(s, p) ==> q == p
    requires forall r :: Active(t, r) ==> Active(s, r)
    ensures forall q, p :: Active(t, q) && Active(t, p) ==> q == p
  {
  }

  lemma AimsRecovery(s: State, a: Action, t: State)
    requires Sane(s) && Exclusive(s) && StepRecovery(s, a, t) && Careful(s, a)
    ensures RescuersAim(t)
  {
    match a
    case BeginRecovery(r, pid, target) =>
      assert Rescuer(r) !in s.removals;
      RescuersCarry(s, t);
    case Read(r) => AimsRead(s, r, t);
    case Probe(r) => RescuersCarry(s, t);
  }

  lemma AimsRead(s: State, r: nat, t: State)
    requires Sane(s) && Exclusive(s) && StepRecovery(s, Read(r), t) && Careful(s, Read(r))
    ensures RescuersAim(t)
  {
    assert Rescuer(r) !in s.removals;
    forall q | Aims(t, q)
      ensures RecordAt(t, Lock) == Some(t.recoveries[q].target)
    {
      assert q != r ==> Aims(s, q);
    }
    forall q, p | Active(t, q) && Active(t, p)
      ensures q == p
    {
      assert q != r ==> Active(s, q);
      assert p != r ==> Active(s, p);
    }
  }

  /** Nobody counts on a lock path that somebody is about to claim, but the claimer itself. */
  lemma ClaimsAlone(s: State, g: Agent)
    requires Sane(s) && Exclusive(s) && AtStage(s, g, Claiming)
    ensures Lock in s.dir && Some(s.dir[Lock]) == Expected(s, g)
    ensures g.Rescuer? ==> RecordAt(s, Lock).Some?
    ensures forall l :: Counts(s, l) ==> g == Owner(l)
    ensures forall r :: Aims(s, r) ==> g == Rescuer(r)
  {
    match g
    case Owner(l) => assert Counts(s, l);
    case Rescuer(r) =>
      assert Aims(s, r) && Active(s, r);
      forall q | Aims(s, q)
        ensures q == r
      {
        assert Active(s, q);
      }
  }

  lemma AimsRemoval(s: State, a: Action, t: State)
    requires Sane(s) && Exclusive(s) && StepRemoval(s, a, t)
    ensures RescuersAim(t)
  {
    if a.Rename? {
      ClaimsAlone(s, a.agent);
      forall r
        ensures !Aims(t, r)
      {
        assert Aims(t, r) ==> Aims(s, r);
      }
      SameRescuers(s, t);
    } else {
      AimsElsewhere(s, a, t);
    }
  }

  lemma AimsElsewhere(s: State, a: Action, t: State)
    requires Sane(s) && Exclusive(s) && StepRemoval(s, a, t) && !a.Rename?
    ensures RescuersAim(t)
  {
    forall r | Aims(t, r)
      ensures RecordAt(t, Lock) == Some(t.recoveries[r].target)
    {
      assert Aims(s, r);
    }
    SameRescuers(s, t);
  }

  lemma StepExclusive(v: Variant, s: State, a: Action, t: State)
    requires Sane(s) && Exclusive(s) && Step(v, s, a, t) && Careful(s, a)
    ensures Exclusive(t) && !Steals(s, a)
  {
    StealExact(v, s, a, t);
    if StepSession(v, s, a, t) {
      AimsSession(v, s, a, t);
    } else if StepRecovery(s, a, t) {
      AimsRecovery(s, a, t);
    } else if StepRemoval(s, a, t) {
      AimsRemoval(s, a, t);
      if a.Rename? {
        ClaimsAlone(s, a.agent);
      }
    } else {
      RescuersCarry(s, t);
    }
  }

  // ---- Whole runs ----

  ghost predicate AllCareful(states: seq<State>, actions: seq<Action>)
    requires |states| == |actions| + 1
  {
    forall i :: 0 <= i < |actions| ==> Careful(states[i], actions[i])
  }

  ghost predicate NothingStolen(states: seq<State>, actions: seq<Action>)
    requires |states| == |actions| + 1
  {
    forall i :: 0 <= i < |actions| ==> !Steals(states[i], actions[i])
  }

  /** In a run, the lock path is always held by the sessions that count on it exactly when nothing is stolen. */
  lemma HeldExactly(v: Variant, states: seq<State>, actions: seq<Action>)
    requires Trace(v, states, actions)
    ensures (forall i :: 0 <= i < |states| ==> OwnersHold(states[i])) <==> NothingStolen(states, actions)
  {
    if NothingStolen(states, actions) {
      forall i | 0 <= i < |states|
        ensures OwnersHold(states[i])
      {
        HeldUpTo(v, states, actions, i);
      }
    } else {
      var i :| 0 <= i < |actions| && Steals(states[i], actions[i]);
      TraceSane(v, states, actions, i);
      assert Step(v, states[i], actions[i], states[i + 1]);
      if OwnersHold(states[i]) {
        StealExact(v, states[i], actions[i], states[i + 1]);
      }
    }
  }

  lemma {:induction false} HeldUpTo(v: Variant, states: seq<State>, actions: seq<Action>, i: nat)
    requires Trace(v, states, actions) && NothingStolen(states, actions) && i < |states|
    ensures OwnersHold(states[i])
  {
    if i > 0 {
      HeldUpTo(v, states, actions, i - 1);
      TraceSane(v, states, actions, i - 1);
      assert Step(v, states[i - 1], actions[i - 1], states[i]);
      StealExact(v, states[i - 1], actions[i - 1], states[i]);
    }
  }

  lemma {:induction false} TraceExclusive(v: Variant, states: seq<State>, actions: seq<Action>, i: nat)
    requires Trace(v, states, actions) && AllCareful(states, actions) && i < |states|
    ensures Exclusive(states[i]) && (i < |actions| ==> !Steals(states[i], actions[i]))
  {
    if i > 0 {
      TraceSane(v, states, actions, i - 1);
      TraceExclusive(v, states, actions, i - 1);
      assert Step(v, states[i - 1], actions[i - 1], states[i]);
      StepExclusive(v, states[i - 1], actions[i - 1], states[i]);
    }
    if i < |actions| {
      TraceSane(v, states, actions, i);
      assert Step(v, states[i], actions[i], states[i + 1]);
      StepExclusive(v, states[i], actions[i], states[i + 1]);
    }
  }

  /** Careful recoveries steal nothing. */
  lemma CarefulStealsNothing(v: Variant, states: seq<State>, actions: seq<Action>)
    requires Trace(v, states, actions) && AllCareful(states, actions)
    ensures NothingStolen(states, actions)
  {
    forall i | 0 <= i < |actions|
      ensures !Steals(states[i], actions[i])
    {
      TraceExclusive(v, states, actions, i);
    }
  }

  /** At most one live session is inside its callback, in every run in which no recovery steals a lock. */
  lemma InsideAlone(v: Variant, states: seq<State>, actions: seq<Action>, i: nat, l: nat, m: nat)
    requires Trace(v, states, actions) && NothingStolen(states, actions) && i < |states|
    requires InPhase(states[i], l, Inside) && InPhase(states[i], m, Inside)
    ensures l == m
  {
    HeldUpTo(v, states, actions, i);
    assert Counts(states[i], l) && Counts(states[i], m);
  }

  /** Hence so in every run whose recoveries are careful, whether acquisitions fail or not. */
  lemma MutualExclusion(v: Variant, states: seq<State>, actions: seq<Action>, i: nat, l: nat, m: nat)
    requires Trace(v, states, actions) && AllCareful(states, actions) && i < |states|
    requires InPhase(states[i], l, Inside) && InPhase(states[i], m, Inside)
    ensures l == m
  {
    CarefulStealsNothing(v, states, actions);
    InsideAlone(v, states, actions, i, l, m);
  }

  // ---- What a claim finds ----

  /** Every claim holds the file it was meant for; a recovery's claim has a whole record. */
  ghost predicate ClaimsMatch(s: State) {
    forall g :: AtStage(s, g, Claimed) ==>
      && Claim(g) in s.dir && Some(s.dir[Claim(g)]) == Expected(s, g)
      && (g.Rescuer? ==> s.dir[Claim(g)] in s.whole)
  }

  lemma ClaimsMatchStep(v: Variant, s: State, a: Action, t: State)
    requires Sane(s) && Exclusive(s) && ClaimsMatch(s) && Step(v, s, a, t)
    ensures ClaimsMatch(t)
  {
    forall g | AtStage(t, g, Claimed)
      ensures Claim(g) in t.dir && Some(t.dir[Claim(g)]) == Expected(t, g) && (g.Rescuer? ==> t.dir[Claim(g)] in t.whole)
    {
      if a == Rename(g) {
        ClaimsAlone(s, g);
      } else {
        ClaimStays(v, s, a, t, g);
      }
    }
  }

  /** The claim file of an agent that has just claimed it is touched by nobody else. */
  ghost predicate ClaimStands(s: State, t: State, g: Agent) {
    && AtStage(s, g, Claimed) && Expected(t, g) == Expected(s, g) && s.whole <= t.whole
    && Claim(g) in s.dir && Claim(g) in t.dir && t.dir[Claim(g)] == s.dir[Claim(g)]
  }

  lemma ClaimStays(v: Variant, s: State, a: Action, t: State, g: Agent)
    requires Sane(s) && Step(v, s, a, t) && AtStage(t, g, Claimed) && a != Rename(g)
    ensures ClaimStands(s, t, g)
  {
    if StepSession(v, s, a, t) {
      ClaimStaysSession(v, s, a, t, g);
    } else if StepRemoval(s, a, t) {
      ClaimStaysRemoval(s, a, t, g);
    }
  }

  lemma ClaimStaysSession(v: Variant, s: State, a: Action, t: State, g: Agent)
    requires Sane(s) && StepSession(v, s, a, t) && AtStage(t, g, Claimed)
    ensures ClaimStands(s, t, g)
  {
  }

  lemma ClaimStaysRemoval(s: State, a: Action, t: State, g: Agent)
    requires Sane(s) && StepRemoval(s, a, t) && AtStage(t, g, Claimed) && a != Rename(g)
    ensures ClaimStands(s, t, g)
  {
  }

  lemma {:induction false} TraceClaimsMatch(v: Variant, states: seq<State>, actions: seq<Action>, i: nat)
    requires Trace(v, states, actions) && AllCareful(states, actions) && i < |states|
    ensures ClaimsMatch(states[i])
  {
    if i > 0 {
      TraceSane(v, states, actions, i - 1);
      TraceExclusive(v, states, actions, i - 1);
      TraceClaimsMatch(v, states, actions, i - 1);
      assert Step(v, states[i - 1], actions[i - 1], states[i]);
      ClaimsMatchStep(v, states[i - 1], actions[i - 1], states[i]);
    }
  }

  /**
   In such a run every removal claims the very file it means to destroy. A recovery always goes on to destroy it; an
   owner does unless its own record was cut short.
   */
  lemma RemovalsMatch(v: Variant, states: seq<State>, actions: seq<Action>, i: nat, g: Agent)
    requires Trace(v, states, actions) && AllCareful(states, actions) && i < |actions| && actions[i] == Inspect(g)
    ensures Claim(g) in states[i].dir && Some(states[i].dir[Claim(g)]) == Expected(states[i], g)
    ensures states[i + 1].removals[g] == Matched <==> states[i].dir[Claim(g)] in states[i].whole
    ensures g.Rescuer? ==> states[i + 1].removals[g] == Matched
  {
    TraceClaimsMatch(v, states, actions, i);
    assert Step(v, states[i], actions[i], states[i + 1]);
    assert AtStage(states[i], g, Claimed);
  }
}
