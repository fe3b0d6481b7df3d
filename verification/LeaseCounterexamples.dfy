/**
 Runs of the lease protocol: mutual exclusion is lost to a recovery whose owner was alive at its first read, and to
 two recoveries that overlap; and the clean-up of a failed acquisition (phase0/src/transactions.ts, line 555)
 destroys the record of an owner that is alive and inside its callback.
 */
module LeaseCounterexamples {
  import opened Wrappers
  import opened Lease
  import opened LeaseExclusion

  ghost predicate Reachable(v: Variant, s: State) {
    exists states, actions :: Trace(v, states, actions) && states[|actions|] == s
  }

  lemma ReachableStart(v: Variant)
    ensures Reachable(v, EMPTY)
  {
    var states, actions: seq<Action> := [EMPTY], [];
    assert Trace(v, states, actions);
  }

  lemma ReachableNext(v: Variant, s: State, a: Action, t: State)
    requires Reachable(v, s) && Step(v, s, a, t)
    ensures Reachable(v, t)
  {
    var states, actions :| Trace(v, states, actions) && states[|actions|] == s;
    var more, steps := states + [t], actions + [a];
    forall i | 0 <= i < |steps|
      ensures Step(v, more[i], steps[i], more[i + 1])
    {
      if i < |actions| {
        assert Step(v, states[i], actions[i], states[i + 1]);
      }
    }
    assert Trace(v, more, steps);
  }

  // ---- Acquiring and recovering, from any state in which the lock is free ----

  /** A new session acquires the free lock. */
  lemma Acquires(v: Variant, s: State, l: nat, pid: nat) returns (t: State)
    requires Reachable(v, s) && Lock !in s.dir && l !in s.sessions && pid !in s.dead
    ensures Reachable(v, t)
    ensures t == s.(dir := s.dir[Lock := l], whole := s.whole + {l}, sessions := s.sessions[l := Session(pid, Inside)])
  {
    var u := Creates(v, s, l, pid);
    t := SetPhase(u.(whole := u.whole + {l}), l, Inside);
    ReachableNext(v, u, Write(l), t);
    assert t.sessions == s.sessions[l := Session(pid, Inside)];
  }

  /** It gets as far as creating its file. */
  lemma Creates(v: Variant, s: State, l: nat, pid: nat) returns (t: State)
    requires Reachable(v, s) && Lock !in s.dir && l !in s.sessions && pid !in s.dead
    ensures Reachable(v, t)
    ensures t == s.(dir := s.dir[Lock := l], sessions := s.sessions[l := Session(pid, Writing)])
  {
    var u := s.(sessions := s.sessions[l := Session(pid, Starting)]);
    ReachableNext(v, s, Begin(l, pid), u);
    t := SetPhase(u.(dir := u.dir[Lock := l]), l, Writing);
    ReachableNext(v, u, Create(l), t);
    assert t.sessions == s.sessions[l := Session(pid, Writing)];
  }

  /** A recovery reads a lock with a whole record. */
  lemma Reads(v: Variant, s: State, r: nat, pid: nat, target: nat) returns (t: State)
    requires Reachable(v, s) && r !in s.recoveries && pid !in s.dead && RecordAt(s, Lock) == Some(target)
    ensures Reachable(v, t)
    ensures t == s.(recoveries := s.recoveries[r := Recovery(pid, target, Probing)])
  {
    var u := s.(recoveries := s.recoveries[r := Recovery(pid, target, Reading)]);
    ReachableNext(v, s, BeginRecovery(r, pid, target), u);
    t := u.(recoveries := u.recoveries[r := u.recoveries[r].(phase := Probing)]);
    ReachableNext(v, u, Read(r), t);
    assert t.recoveries == s.recoveries[r := Recovery(pid, target, Probing)];
  }

  /** Its probe finds the owner absent, and it claims whatever is at the lock path by then. */
  lemma Claims(v: Variant, s: State, r: nat) returns (t: State)
    requires Reachable(v, s) && RecoveryAlive(s, r) && s.recoveries[r].phase == Probing && Lock in s.dir
    requires s.recoveries[r].target in s.sessions && s.sessions[s.recoveries[r].target].pid in s.dead
    ensures Reachable(v, t)
    ensures t.dir == Without(s.dir, Lock)[Claim(Rescuer(r)) := s.dir[Lock]]
    ensures t.whole == s.whole && t.sessions == s.sessions && t.dead == s.dead
    ensures t.recoveries == s.recoveries[r := s.recoveries[r].(phase := Acting)]
    ensures t.removals == s.removals[Rescuer(r) := Claimed]
  {
    var u := SetStage(s.(recoveries := s.recoveries[r := s.recoveries[r].(phase := Acting)]), Rescuer(r), Claiming);
    ReachableNext(v, s, Probe(r), u);
    t := SetStage(u.(dir := Without(u.dir, Lock)[Claim(Rescuer(r)) := u.dir[Lock]]), Rescuer(r), Claimed);
    ReachableNext(v, u, Rename(Rescuer(r)), t);
    assert t.removals == s.removals[Rescuer(r) := Claimed];
  }

  /** An agent that claimed the record it expects destroys it. */
  lemma Finishes(v: Variant, s: State, g: Agent) returns (t: State)
    requires Reachable(v, s) && AtStage(s, g, Claimed)
    requires RecordAt(s, Claim(g)).Some? && RecordAt(s, Claim(g)) == Expected(s, g)
    ensures Reachable(v, t)
    ensures t == s.(dir := Without(s.dir, Claim(g)), removals := s.removals[g := Ended])
  {
    var u := SetStage(s, g, Matched);
    ReachableNext(v, s, Inspect(g), u);
    t := SetStage(u.(dir := Without(u.dir, Claim(g))), g, Ended);
    ReachableNext(v, u, Destroy(g), t);
    assert t.removals == s.removals[g := Ended];
  }

  lemma Dies(v: Variant, s: State, pid: nat) returns (t: State)
    requires Reachable(v, s)
    ensures Reachable(v, t) && t == s.(dead := s.dead + {pid})
  {
    t := s.(dead := s.dead + {pid});
    ReachableNext(v, s, Die(pid), t);
  }

  /** The owner inside releases its lock. */
  lemma Releases(v: Variant, s: State, l: nat) returns (t: State)
    requires Reachable(v, s) && InPhase(s, l, Inside) && Lock in s.dir && s.dir[Lock] == l && l in s.whole
    requires Claim(Owner(l)) !in s.dir
    ensures Reachable(v, t)
    ensures t.dir == Without(s.dir, Lock) && t.whole == s.whole && t.dead == s.dead && t.recoveries == s.recoveries
    ensures t.sessions == s.sessions[l := s.sessions[l].(phase := Leaving)]
    ensures t.removals == s.removals[Owner(l) := Ended]
  {
    var g := Owner(l);
    var u := SetStage(SetPhase(s, l, Leaving), g, Claiming);
    ReachableNext(v, s, Release(l), u);
    var w := SetStage(u.(dir := Without(u.dir, Lock)[Claim(g) := u.dir[Lock]]), g, Claimed);
    ReachableNext(v, u, Rename(g), w);
    t := Finishes(v, w, g);
    assert t.removals == s.removals[g := Ended];
    assert t.dir == Without(s.dir, Lock);
  }

  // ---- Mutual exclusion is lost ----

  /**
   A recovery reads the lock of an owner that is alive. The owner releases and exits; another session acquires.
   The probe now truly finds the first owner absent, the recovery claims the new owner's file, and a third session
   walks in.
   */
  lemma ExclusionLost(v: Variant) returns (s: State)
    ensures Reachable(v, s) && InPhase(s, 1, Inside) && InPhase(s, 2, Inside)
  {
    ReachableStart(v);
    s := Acquires(v, EMPTY, 0, 10);
    s := Reads(v, s, 5, 12, 0);
    s := Releases(v, s, 0);
    s := Dies(v, s, 10);
    s := Acquires(v, s, 1, 11);
    s := Claims(v, s, 5);
    s := Acquires(v, s, 2, 13);
  }

  // ---- Overlapping recoveries ----

  /** Two overlapping recoveries of an absent owner: the slower one claims the file of the next session. */
  lemma Displaced(v: Variant) returns (s: State)
    ensures Reachable(v, s)
    ensures Lock !in s.dir && InPhase(s, 1, Writing) && 2 !in s.sessions && 13 !in s.dead
    ensures Owner(1) !in s.removals && Owner(2) !in s.removals
    ensures forall path :: path in s.dir ==> s.dir[path] == 1
  {
    ReachableStart(v);
    s := Acquires(v, EMPTY, 0, 10);
    s := Dies(v, s, 10);
    s := Reads(v, s, 5, 12, 0);
    s := Reads(v, s, 6, 12, 0);
    s := Claims(v, s, 5);
    s := Finishes(v, s, Rescuer(5));
    s := Creates(v, s, 1, 11);
    s := Claims(v, s, 6);
  }

  /** The displaced session finishes its acquisition, and so does the next one: both are inside. */
  lemma ExclusionLostToOverlap(v: Variant) returns (s: State)
    ensures Reachable(v, s) && InPhase(s, 1, Inside) && InPhase(s, 2, Inside)
  {
    var t := Displaced(v);
    var u := Acquires(v, t, 2, 13);
    s := SetPhase(u.(whole := u.whole + {1}), 1, Inside);
    ReachableNext(v, u, Write(1), s);
  }

  // ---- A live owner's record is destroyed ----

  /** The displaced acquisition fails and unlinks the lock path: the file there belongs to a session inside. */
  lemma LiveRecordDestroyed() returns (s: State)
    ensures Reachable(JournalLock, s) && InPhase(s, 2, Inside) && Unreleased(s, 2) && !Kept(s, 2)
  {
    var v := JournalLock;
    var t := Displaced(v);
    var u := Acquires(v, t, 2, 13);
    var w := SetPhase(u, 1, Failing);
    assert w == SetPhase(u.(whole := u.whole), 1, Failing);
    ReachableNext(v, u, Fail(1, false), w);
    s := SetStage(SetPhase(w.(dir := Without(w.dir, Lock)), 1, Leaving), Owner(1), Ended);
    ReachableNext(v, w, UnlinkLock(1), s);
  }
}
