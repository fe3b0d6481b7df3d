/**
 The lock file of phase0/src/transactions.ts (lines 440-618) and phase0/src/attestation-store.ts (lines 362-437):
 any number of processes acquire, release and recover one lock path, one file-system call at a time.
 */
module Lease {
  import opened Wrappers

  // ---- The file system ----

  /** Who is taking a lock file away: the session that owns the lease, or a recovery. */
  datatype Agent = Owner(lease: nat) | Rescuer(recovery: nat)

  /** The lock path, and the claim path of each agent (its random name is its own). */
  datatype Path = Lock | Claim(agent: Agent)

  /** claimAndRemove, between its file-system calls. */
  datatype Stage =
    | Claiming
    | Claimed
    | Matched
    | Mismatched
    | Linked
    | Ended

  datatype Phase = Starting | Writing | Failing | Inside | Leaving

  datatype Session = Session(pid: nat, phase: Phase)

  datatype RecoveryPhase = Reading | Probing | Acting

  datatype Recovery = Recovery(pid: nat, target: nat, phase: RecoveryPhase)

  /**
   A lease creates one lock file at most, so its number names the inode too: `dir` gives the inode at each path,
   and `whole` the inodes whose owner record is completely written.
   */
  datatype State = State(
    dir: map<Path, nat>,
    whole: set<nat>,
    sessions: map<nat, Session>,
    recoveries: map<nat, Recovery>,
    removals: map<Agent, Stage>,
    dead: set<nat>)

  /** The two locks differ in what a failed acquisition does to the file it created. */
  datatype Variant = StoreLock | JournalLock

  datatype Action =
    | Begin(lease: nat, pid: nat)
    | BeginRecovery(recovery: nat, pid: nat, target: nat)
    | Create(lease: nat)
    | Write(lease: nat)
    | Fail(lease: nat, wrote: bool)
    | UnlinkLock(lease: nat)
    | Release(lease: nat)
    | Read(recovery: nat)
    | Probe(recovery: nat)
    | Rename(agent: Agent)
    | Inspect(agent: Agent)
    | Destroy(agent: Agent)
    | Relink(agent: Agent)
    | Unlink(agent: Agent)
    | Abort(agent: Agent)
    | Die(pid: nat)

  const EMPTY := State(map[], {}, map[], map[], map[], {})

  // ---- One step ----

  predicate SessionAlive(s: State, l: nat) { l in s.sessions && s.sessions[l].pid !in s.dead }

  predicate RecoveryAlive(s: State, r: nat) { r in s.recoveries && s.recoveries[r].pid !in s.dead }

  predicate AgentAlive(s: State, a: Agent) {
    match a
    case Owner(l) => SessionAlive(s, l)
    case Rescuer(r) => RecoveryAlive(s, r)
  }

  /** The lease whose record the agent means to destroy. */
  function Expected(s: State, a: Agent): Option<nat> {
    match a
    case Owner(l) => Some(l)
    case Rescuer(r) => if r in s.recoveries then Some(s.recoveries[r].target) else None
  }

  predicate InPhase(s: State, l: nat, phase: Phase) { SessionAlive(s, l) && s.sessions[l].phase == phase }

  predicate AtStage(s: State, a: Agent, stage: Stage) { AgentAlive(s, a) && a in s.removals && s.removals[a] == stage }

  function SetPhase(s: State, l: nat, phase: Phase): State
    requires l in s.sessions
  {
    s.(sessions := s.sessions[l := s.sessions[l].(phase := phase)])
  }

  function SetStage(s: State, a: Agent, stage: Stage): State { s.(removals := s.removals[a := stage]) }

  function Without(dir: map<Path, nat>, path: Path): map<Path, nat> { dir - {path} }

  /** The owner record at a path, if a reader would find a whole one there. */
  function RecordAt(s: State, path: Path): Option<nat> {
    if path in s.dir && s.dir[path] in s.whole then Some(s.dir[path]) else None
  }

  /** acquireLock and withLock up to the callback. */
  predicate StepSession(v: Variant, s: State, a: Action, t: State) {
    match a
    case Begin(l, pid) =>
      l !in s.sessions && pid !in s.dead && t == s.(sessions := s.sessions[l := Session(pid, Starting)])
    case Create(l) =>
      && InPhase(s, l, Starting)
      && t == if Lock in s.dir then s else SetPhase(s.(dir := s.dir[Lock := l]), l, Writing)
    case Write(l) =>
      InPhase(s, l, Writing) && t == SetPhase(s.(whole := s.whole + {l}), l, Inside)
    case Fail(l, wrote) =>
      && InPhase(s, l, Writing)
      && var u := s.(whole := if wrote then s.whole + {l} else s.whole);
         t == if v == StoreLock then SetStage(SetPhase(u, l, Leaving), Owner(l), Claiming) else SetPhase(u, l, Failing)
    case UnlinkLock(l) =>
      && v == JournalLock && InPhase(s, l, Failing)
      && t == SetStage(SetPhase(s.(dir := Without(s.dir, Lock)), l, Leaving), Owner(l), Ended)
    case Release(l) =>
      InPhase(s, l, Inside) && t == SetStage(SetPhase(s, l, Leaving), Owner(l), Claiming)
    case _ => false
  }

  /** recoverStaleLock up to the claim. A probe answers truthfully. */
  predicate StepRecovery(s: State, a: Action, t: State) {
    match a
    case BeginRecovery(r, pid, target) =>
      r !in s.recoveries && pid !in s.dead && t == s.(recoveries := s.recoveries[r := Recovery(pid, target, Reading)])
    case Read(r) =>
      && RecoveryAlive(s, r) && s.recoveries[r].phase == Reading && RecordAt(s, Lock) == Some(s.recoveries[r].target)
      && t == s.(recoveries := s.recoveries[r := s.recoveries[r].(phase := Probing)])
    case Probe(r) =>
      && RecoveryAlive(s, r) && s.recoveries[r].phase == Probing
      && s.recoveries[r].target in s.sessions && s.sessions[s.recoveries[r].target].pid in s.dead
      && t == SetStage(s.(recoveries := s.recoveries[r := s.recoveries[r].(phase := Acting)]), Rescuer(r), Claiming)
    case _ => false
  }

  /** claimAndRemove, by a session or a recovery: rename, read, then unlink or link back. */
  predicate StepRemoval(s: State, a: Action, t: State) {
    match a
    case Rename(g) =>
      && AtStage(s, g, Claiming)
      && t == if Lock in s.dir
              then SetStage(s.(dir := Without(s.dir, Lock)[Claim(g) := s.dir[Lock]]), g, Claimed)
              else SetStage(s, g, Ended)
    case Inspect(g) =>
      && AtStage(s, g, Claimed)
      && t == SetStage(s, g, if RecordAt(s, Claim(g)).Some? && RecordAt(s, Claim(g)) == Expected(s, g)
                             then Matched else Mismatched)
    case Destroy(g) =>
      AtStage(s, g, Matched) && t == SetStage(s.(dir := Without(s.dir, Claim(g))), g, Ended)
    case Relink(g) =>
      && AtStage(s, g, Mismatched)
      && t == if Lock in s.dir || Claim(g) !in s.dir then SetStage(s, g, Ended)
              else SetStage(s.(dir := s.dir[Lock := s.dir[Claim(g)]]), g, Linked)
    case Unlink(g) =>
      AtStage(s, g, Linked) && t == SetStage(s.(dir := Without(s.dir, Claim(g))), g, Ended)
    case Abort(g) =>
      AgentAlive(s, g) && g in s.removals && t == SetStage(s, g, Ended)
    case _ => false
  }

  predicate StepDeath(s: State, a: Action, t: State) { a.Die? && t == s.(dead := s.dead + {a.pid}) }

  predicate Step(v: Variant, s: State, a: Action, t: State) {
    StepSession(v, s, a, t) || StepRecovery(s, a, t) || StepRemoval(s, a, t) || StepDeath(s, a, t)
  }

  // ---- What is always so ----

  /** A claim path about to be unlinked because its record was linked back. */
  predicate Doomed(s: State, path: Path) {
    path.Claim? && path.agent in s.removals && s.removals[path.agent] == Linked
  }

  /** The record of the lease is somewhere it will stay. */
  ghost predicate Kept(s: State, l: nat) { exists path :: path in s.dir && s.dir[path] == l && !Doomed(s, path) }

  predicate HasClaim(stage: Stage) { stage.Claimed? || stage.Matched? || stage.Mismatched? || stage.Linked? }

  ghost predicate ClaimsHeld(s: State) {
    && (forall a :: a in s.removals && HasClaim(s.removals[a]) ==> Claim(a) in s.dir)
    && (forall a :: Claim(a) in s.dir ==> a in s.removals && s.removals[a] != Claiming)
    && (forall a :: a in s.removals && s.removals[a] == Matched ==> Some(s.dir[Claim(a)]) == Expected(s, a))
  }

  ghost predicate AgentsKnown(s: State) {
    && (forall l :: Owner(l) in s.removals ==> l in s.sessions && s.sessions[l].phase == Leaving)
    && (forall r :: Rescuer(r) in s.removals ==>
          && r in s.recoveries && s.recoveries[r].phase == Acting
          && s.recoveries[r].target in s.sessions && s.sessions[s.recoveries[r].target].pid in s.dead)
  }

  ghost predicate FilesKnown(s: State) {
    forall path :: path in s.dir ==> s.dir[path] in s.sessions && s.sessions[s.dir[path]].phase != Starting
  }

  ghost predicate Sane(s: State) { ClaimsHeld(s) && AgentsKnown(s) && FilesKnown(s) }

  /** A live owner that has created its lock file and whose own removal of it has not ended. */
  predicate Unreleased(s: State, l: nat) {
    && SessionAlive(s, l) && s.sessions[l].phase != Starting
    && !(Owner(l) in s.removals && s.removals[Owner(l)] == Ended)
  }

  /** Every live, unreleased owner's record is at the lock path or in a claim file. */
  ghost predicate Conserved(s: State) { forall l :: Unreleased(s, l) ==> Kept(s, l) }

  // ---- Every step keeps it ----

  lemma StartSane()
    ensures Sane(EMPTY) && Conserved(EMPTY)
  {
  }

  /** A step that leaves removals and the directory alone, and forgets no session and no recovery. */
  lemma SessionSane(v: Variant, s: State, a: Action, t: State)
    requires Sane(s) && StepSession(v, s, a, t)
    ensures Sane(t)
  {
    match a
    case Begin(l, pid) => SaneBegin(s, l, pid, t);
    case Create(l) => SaneCreate(s, l, t);
    case Write(l) => SaneWrite(s, l, t);
    case Fail(l, wrote) => SaneFail(v, s, l, wrote, t);
    case UnlinkLock(l) => SaneUnlinkLock(v, s, l, t);
    case Release(l) => SaneRelease(v, s, l, t);
  }

  lemma SaneBegin(s: State, l: nat, pid: nat, t: State)
    requires Sane(s) && StepSession(StoreLock, s, Begin(l, pid), t)
    ensures Sane(t)
  {
    assert t.dir == s.dir && t.removals == s.removals && t.recoveries == s.recoveries;
  }

  lemma SaneCreate(s: State, l: nat, t: State)
    requires Sane(s) && StepSession(StoreLock, s, Create(l), t)
    ensures Sane(t)
  {
  }

  lemma SaneWrite(s: State, l: nat, t: State)
    requires Sane(s) && StepSession(StoreLock, s, Write(l), t)
    ensures Sane(t)
  {
  }

  lemma SaneFail(v: Variant, s: State, l: nat, wrote: bool, t: State)
    requires Sane(s) && StepSession(v, s, Fail(l, wrote), t)
    ensures Sane(t)
  {
    assert Claim(Owner(l)) !in s.dir;
  }

  lemma SaneUnlinkLock(v: Variant, s: State, l: nat, t: State)
    requires Sane(s) && StepSession(v, s, UnlinkLock(l), t)
    ensures Sane(t)
  {
    assert Claim(Owner(l)) !in s.dir;
  }

  lemma SaneRelease(v: Variant, s: State, l: nat, t: State)
    requires Sane(s) && StepSession(v, s, Release(l), t)
    ensures Sane(t)
  {
    assert Claim(Owner(l)) !in s.dir;
  }

  lemma RecoverySane(s: State, a: Action, t: State)
    requires Sane(s) && StepRecovery(s, a, t)
    ensures Sane(t)
  {
    match a
    case BeginRecovery(r, pid, target) => SaneBeginRecovery(s, r, pid, target, t);
    case Read(r) => SaneRead(s, r, t);
    case Probe(r) => SaneProbe(s, r, t);
  }

  lemma SaneBeginRecovery(s: State, r: nat, pid: nat, target: nat, t: State)
    requires Sane(s) && StepRecovery(s, BeginRecovery(r, pid, target), t)
    ensures Sane(t)
  {
    assert Rescuer(r) !in s.removals;
  }

  lemma SaneRead(s: State, r: nat, t: State)
    requires Sane(s) && StepRecovery(s, Read(r), t)
    ensures Sane(t)
  {
    assert Rescuer(r) !in s.removals;
  }

  lemma SaneProbe(s: State, r: nat, t: State)
    requires Sane(s) && StepRecovery(s, Probe(r), t)
    ensures Sane(t)
  {
    assert Rescuer(r) !in s.removals;
    assert Claim(Rescuer(r)) !in s.dir;
  }

  lemma RemovalSane(s: State, a: Action, t: State)
    requires Sane(s) && StepRemoval(s, a, t)
    ensures Sane(t)
  {
    match a
    case Rename(g) => SaneRename(s, g, t);
    case Inspect(g) => SaneInspect(s, g, t);
    case Destroy(g) => SaneDestroy(s, g, t);
    case Relink(g) => SaneRelink(s, g, t);
    case Unlink(g) => SaneUnlink(s, g, t);
    case Abort(g) => SaneAbort(s, g, t);
  }

  lemma SaneRename(s: State, g: Agent, t: State)
    requires Sane(s) && StepRemoval(s, Rename(g), t)
    ensures Sane(t)
  {
    assert Claim(g) !in s.dir;
  }

  lemma SaneInspect(s: State, g: Agent, t: State)
    requires Sane(s) && StepRemoval(s, Inspect(g), t)
    ensures Sane(t)
  {
  }

  lemma SaneDestroy(s: State, g: Agent, t: State)
    requires Sane(s) && StepRemoval(s, Destroy(g), t)
    ensures Sane(t)
  {
  }

  lemma SaneRelink(s: State, g: Agent, t: State)
    requires Sane(s) && StepRemoval(s, Relink(g), t)
    ensures Sane(t)
  {
  }

  lemma SaneUnlink(s: State, g: Agent, t: State)
    requires Sane(s) && StepRemoval(s, Unlink(g), t)
    ensures Sane(t)
  {
  }

  lemma SaneAbort(s: State, g: Agent, t: State)
    requires Sane(s) && StepRemoval(s, Abort(g), t)
    ensures Sane(t)
  {
  }

  lemma StepSane(v: Variant, s: State, a: Action, t: State)
    requires Sane(s) && Step(v, s, a, t)
    ensures Sane(t)
  {
    if StepSession(v, s, a, t) {
      SessionSane(v, s, a, t);
    } else if StepRecovery(s, a, t) {
      RecoverySane(s, a, t);
    } else if StepRemoval(s, a, t) {
      RemovalSane(s, a, t);
    }
  }

  // ---- Conservation ----

  /** The only steps that destroy a record: the end of a matching removal, and the unconditional unlink. */
  predicate Destroys(s: State, a: Action, l: nat) {
    || (a.Destroy? && Expected(s, a.agent) == Some(l))
    || (a.UnlinkLock? && Lock in s.dir && s.dir[Lock] == l)
  }

  lemma KeptSession(v: Variant, s: State, a: Action, t: State, l: nat)
    requires Sane(s) && StepSession(v, s, a, t) && Kept(s, l) && !Destroys(s, a, l)
    ensures Kept(t, l)
  {
    var path :| path in s.dir && s.dir[path] == l && !Doomed(s, path);
    assert path in t.dir && t.dir[path] == l && !Doomed(t, path);
  }

  lemma KeptRename(s: State, g: Agent, t: State, l: nat)
    requires Sane(s) && StepRemoval(s, Rename(g), t) && Kept(s, l)
    ensures Kept(t, l)
  {
    var path :| path in s.dir && s.dir[path] == l && !Doomed(s, path);
    var now := if path == Lock then Claim(g) else path;
    assert Claim(g) !in s.dir;
    assert now in t.dir && t.dir[now] == l && !Doomed(t, now);
  }

  lemma KeptRelink(s: State, g: Agent, t: State, l: nat)
    requires Sane(s) && StepRemoval(s, Relink(g), t) && Kept(s, l)
    ensures Kept(t, l)
  {
    var path :| path in s.dir && s.dir[path] == l && !Doomed(s, path);
    var now := if path == Claim(g) && t.removals[g] == Linked then Lock else path;
    assert now in t.dir && t.dir[now] == l && !Doomed(t, now);
  }

  lemma KeptRemoval(s: State, a: Action, t: State, l: nat)
    requires Sane(s) && StepRemoval(s, a, t) && Kept(s, l) && !Destroys(s, a, l)
    ensures Kept(t, l)
  {
    match a
    case Rename(g) => KeptRename(s, g, t, l);
    case Relink(g) => KeptRelink(s, g, t, l);
    case Inspect(g) => KeptPlain(s, a, t, l);
    case Destroy(g) => KeptPlain(s, a, t, l);
    case Unlink(g) => KeptPlain(s, a, t, l);
    case Abort(g) => KeptPlain(s, a, t, l);
  }

  /** The steps that move nothing: what is kept is kept where it is. */
  lemma KeptPlain(s: State, a: Action, t: State, l: nat)
    requires Sane(s) && StepRemoval(s, a, t) && Kept(s, l) && !Destroys(s, a, l)
    requires !a.Rename? && !a.Relink?
    ensures Kept(t, l)
  {
    var path :| path in s.dir && s.dir[path] == l && !Doomed(s, path);
    assert path in t.dir && t.dir[path] == l && !Doomed(t, path);
  }

  /** No step but those that destroy it loses a record, whoever owns it. */
  lemma KeptStep(v: Variant, s: State, a: Action, t: State, l: nat)
    requires Sane(s) && Step(v, s, a, t) && Kept(s, l) && !Destroys(s, a, l)
    ensures Kept(t, l)
  {
    if StepSession(v, s, a, t) {
      KeptSession(v, s, a, t, l);
    } else if StepRemoval(s, a, t) {
      KeptRemoval(s, a, t, l);
    } else {
      var path :| path in s.dir && s.dir[path] == l && !Doomed(s, path);
      assert path in t.dir && t.dir[path] == l;
      KeptElsewhere(s, a, t, path);
    }
  }

  lemma KeptElsewhere(s: State, a: Action, t: State, path: Path)
    requires Sane(s) && (StepRecovery(s, a, t) || StepDeath(s, a, t)) && !Doomed(s, path)
    ensures !Doomed(t, path)
  {
  }

  /** The unconditional unlink finds nothing, or the file its own acquisition created. */
  predicate Tidy(s: State, a: Action) { a.UnlinkLock? ==> Lock !in s.dir || s.dir[Lock] == a.lease }

  /** An owner that is unreleased after a step was so before it, or has just created its file. */
  lemma UnreleasedBefore(v: Variant, s: State, a: Action, t: State, l: nat)
    requires Sane(s) && Step(v, s, a, t) && Unreleased(t, l)
    ensures Unreleased(s, l) || (a == Create(l) && Lock in t.dir && t.dir[Lock] == l)
  {
    if StepSession(v, s, a, t) {
      UnreleasedSession(v, s, a, t, l);
    } else if StepRemoval(s, a, t) {
      UnreleasedRemoval(s, a, t, l);
    }
  }

  lemma UnreleasedSession(v: Variant, s: State, a: Action, t: State, l: nat)
    requires Sane(s) && StepSession(v, s, a, t) && Unreleased(t, l)
    ensures Unreleased(s, l) || (a == Create(l) && Lock in t.dir && t.dir[Lock] == l)
  {
  }

  lemma UnreleasedRemoval(s: State, a: Action, t: State, l: nat)
    requires Sane(s) && StepRemoval(s, a, t) && Unreleased(t, l)
    ensures Unreleased(s, l)
  {
  }

  /** Whoever destroys a record of an unreleased owner is that owner; recoveries destroy those of absent owners. */
  lemma DestroyerEntitled(v: Variant, s: State, a: Action, t: State, l: nat)
    requires Sane(s) && Step(v, s, a, t) && Destroys(s, a, l) && Tidy(s, a)
    ensures !Unreleased(t, l)
    ensures (a.Destroy? && a.agent == Owner(l)) || (a.UnlinkLock? && a.lease == l)
            || (a.Destroy? && a.agent.Rescuer? && l in s.sessions && s.sessions[l].pid in s.dead)
  {
    if a.Destroy? {
      EntitledRemoval(s, a, t, l);
    }
  }

  lemma EntitledRemoval(s: State, a: Action, t: State, l: nat)
    requires Sane(s) && StepRemoval(s, a, t) && a.Destroy? && Expected(s, a.agent) == Some(l)
    ensures !Unreleased(t, l)
    ensures a.agent == Owner(l) || (a.agent.Rescuer? && l in s.sessions && s.sessions[l].pid in s.dead)
  {
  }

  lemma StepConserves(v: Variant, s: State, a: Action, t: State)
    requires Sane(s) && Conserved(s) && Step(v, s, a, t) && Tidy(s, a)
    ensures Conserved(t)
  {
    forall l | Unreleased(t, l)
      ensures Kept(t, l)
    {
      UnreleasedBefore(v, s, a, t, l);
      if Unreleased(s, l) {
        if Destroys(s, a, l) {
          DestroyerEntitled(v, s, a, t, l);
        } else {
          KeptStep(v, s, a, t, l);
        }
      } else {
        assert Lock in t.dir && t.dir[Lock] == l && !Doomed(t, Lock);
      }
    }
  }

  // ---- Whole runs ----

  /** States and the steps between them, from no lock and no process. */
  ghost predicate Trace(v: Variant, states: seq<State>, actions: seq<Action>) {
    && |states| == |actions| + 1 && states[0] == EMPTY
    && forall i :: 0 <= i < |actions| ==> Step(v, states[i], actions[i], states[i + 1])
  }

  ghost predicate AllTidy(states: seq<State>, actions: seq<Action>)
    requires |states| == |actions| + 1
  {
    forall i :: 0 <= i < |actions| ==> Tidy(states[i], actions[i])
  }

  lemma {:induction false} TraceSane(v: Variant, states: seq<State>, actions: seq<Action>, i: nat)
    requires Trace(v, states, actions) && i < |states|
    ensures Sane(states[i])
  {
    if i == 0 {
      StartSane();
    } else {
      TraceSane(v, states, actions, i - 1);
      StepSane(v, states[i - 1], actions[i - 1], states[i]);
    }
  }

  lemma {:induction false} TraceConserved(v: Variant, states: seq<State>, actions: seq<Action>, i: nat)
    requires Trace(v, states, actions) && AllTidy(states, actions) && i < |states|
    ensures Conserved(states[i])
  {
    if i == 0 {
      StartSane();
    } else {
      TraceSane(v, states, actions, i - 1);
      TraceConserved(v, states, actions, i - 1);
      StepConserves(v, states[i - 1], actions[i - 1], states[i]);
    }
  }

  lemma StoreTidy(states: seq<State>, actions: seq<Action>)
    requires Trace(StoreLock, states, actions)
    ensures AllTidy(states, actions)
  {
    forall i | 0 <= i < |actions|
      ensures Tidy(states[i], actions[i])
    {
      assert Step(StoreLock, states[i], actions[i], states[i + 1]);
    }
  }

  /** The store's lock: in every run, every live, unreleased owner's record is at the lock path or in a claim. */
  lemma StoreLockConserves(states: seq<State>, actions: seq<Action>, i: nat, l: nat)
    requires Trace(StoreLock, states, actions) && i < |states| && Unreleased(states[i], l)
    ensures Kept(states[i], l)
  {
    StoreTidy(states, actions);
    TraceConserved(StoreLock, states, actions, i);
  }

  /** The same of the journal's lock, as long as no failed acquisition unlinks a file it did not create. */
  lemma JournalLockConserves(states: seq<State>, actions: seq<Action>, i: nat, l: nat)
    requires Trace(JournalLock, states, actions) && AllTidy(states, actions) && i < |states|
    requires Unreleased(states[i], l)
    ensures Kept(states[i], l)
  {
    TraceConserved(JournalLock, states, actions, i);
  }

  /** In every run a record is only ever destroyed by its owner, by the recovery of an absent owner, or by line 555. */
  lemma OnlyEntitledDestroy(v: Variant, states: seq<State>, actions: seq<Action>, i: nat, l: nat)
    requires Trace(v, states, actions) && i < |actions| && Kept(states[i], l) && !Kept(states[i + 1], l)
    ensures var a := actions[i];
            || a == Destroy(Owner(l))
            || (a.Destroy? && a.agent.Rescuer? && l in states[i].sessions && states[i].sessions[l].pid in states[i].dead)
            || (v == JournalLock && a.UnlinkLock?)
  {
    var s, a, t := states[i], actions[i], states[i + 1];
    TraceSane(v, states, actions, i);
    assert Step(v, s, a, t);
    if !Destroys(s, a, l) {
      KeptStep(v, s, a, t, l);
    } else if a.Destroy? {
      EntitledRemoval(s, a, t, l);
    }
  }

  /** Exactly when the unconditional unlink of a failed acquisition costs a live owner its record. */
  lemma CleanupExact(s: State, m: nat, t: State)
    requires Sane(s) && Conserved(s) && Step(JournalLock, s, UnlinkLock(m), t)
    ensures Conserved(t) <==>
              || Lock !in s.dir || s.dir[Lock] == m || !Unreleased(s, s.dir[Lock])
              || (exists path :: path in s.dir && path != Lock && s.dir[path] == s.dir[Lock] && !Doomed(s, path))
  {
    if Lock in s.dir && s.dir[Lock] != m && Unreleased(s, s.dir[Lock]) {
      var l := s.dir[Lock];
      assert Unreleased(t, l);
      if path :| path in s.dir && path != Lock && s.dir[path] == l && !Doomed(s, path) {
        CleanupSpares(s, m, t, l, path);
      } else {
        CleanupKeeps(s, m, t, l);
      }
    } else {
      CleanupHarmless(s, m, t);
    }
  }

  lemma CleanupKeeps(s: State, m: nat, t: State, l: nat)
    requires Sane(s) && Step(JournalLock, s, UnlinkLock(m), t) && l != m
    ensures Kept(t, l) ==> exists path :: path in s.dir && path != Lock && s.dir[path] == l && !Doomed(s, path)
  {
    if Kept(t, l) {
      var path :| path in t.dir && t.dir[path] == l && !Doomed(t, path);
      assert path in s.dir && path != Lock && s.dir[path] == l && !Doomed(s, path);
    }
  }

  lemma CleanupHarmless(s: State, m: nat, t: State)
    requires Sane(s) && Conserved(s) && Step(JournalLock, s, UnlinkLock(m), t)
    requires Lock !in s.dir || s.dir[Lock] == m || !Unreleased(s, s.dir[Lock])
    ensures Conserved(t)
  {
    forall k | Unreleased(t, k)
      ensures Kept(t, k)
    {
      UnreleasedBefore(JournalLock, s, UnlinkLock(m), t, k);
      KeptStep(JournalLock, s, UnlinkLock(m), t, k);
    }
  }

  lemma CleanupSpares(s: State, m: nat, t: State, l: nat, path: Path)
    requires Sane(s) && Conserved(s) && Step(JournalLock, s, UnlinkLock(m), t)
    requires Lock in s.dir && s.dir[Lock] == l && path in s.dir && path != Lock && s.dir[path] == l && !Doomed(s, path)
    ensures Conserved(t)
  {
    forall k | Unreleased(t, k)
      ensures Kept(t, k)
    {
      UnreleasedBefore(JournalLock, s, UnlinkLock(m), t, k);
      if k == l {
        assert path in t.dir && t.dir[path] == l && !Doomed(t, path);
      } else {
        KeptStep(JournalLock, s, UnlinkLock(m), t, k);
      }
    }
  }
}
