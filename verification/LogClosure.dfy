/**
 How the verdict on a log depends on the log, the clock and the base: prefixes of an accepted log are accepted,
 a later clock changes nothing, and the base subjects may come in any order.
 */
module LogClosure {
  import opened Wrappers
  import opened Utf16
  import opened Attestations
  import opened Statements
  import opened Platform
  import opened Reducer
  import opened Refinement
  import opened AttestationIndex
  import opened HistoryTheorems
  import Folding
  import Reduction
  import BaseConflicts

  // ---- Prefixes ----

  /** Every prefix of an accepted log is accepted. */
  lemma PrefixesAccepted(
    lib: Library, trust: Trust, log: seq<Event>, index: Index, m: nat, r: Result<Index, Error>)
    requires Answers(lib, trust, log, index) && m <= |log|
    requires Reduces(lib, trust, log[..m], r)
    ensures r.Ok?
  {
    var subjects, base, st := Parts(lib, trust, log, index);
    Folding.OkBefore(TurnOf(lib, trust, subjects), InitialState(subjects, base), log, m, |log|);
    Folding.FoldPrefix(TurnOf(lib, trust, subjects), InitialState(subjects, base), log, m, m);
    PrefixFinishes(Run(lib, trust, subjects, base, log[..m], |log[..m]|), log[..m], r);
  }

  lemma PrefixFinishes(run: Result<State, Error>, log: seq<Event>, r: Result<Index, Error>)
    requires run.Ok? && Finishes(run, log, r)
    ensures r.Ok?
  {
  }

  /** Neither of the two guards against running backwards is ever the reason a log is refused. */
  lemma DeadGuards(lib: Library, trust: Trust, log: seq<Event>, r: Result<Index, Error>)
    requires Reduces(lib, trust, log, r)
    ensures r != Err(RevocationPrecedesEvidence) && r != Err(ResolutionPrecedesChallenge)
  {
    if ValidTrust(trust) {
      var list := trust.baseSubjects;
      SubjectErrors(list, |list|);
      if SubjectMap(list, |list|).Ok? {
        SubjectMapHolds(list, |list|);
        var subjects := SubjectMap(list, |list|).value;
        HoldsIndexed(list, subjects);
        SeedsKeyed(lib, trust);
        Reduction.RunRefinesHistory(lib, trust, subjects, BaseOf(lib, trust), log, |log|);
      }
    }
  }

  lemma SubjectErrors(list: seq<Subject>, n: nat)
    requires n <= |list|
    ensures SubjectMap(list, n).Err? ==>
              SubjectMap(list, n).error == MalformedBaseSubject || SubjectMap(list, n).error == DuplicateBaseRegistration
  {
  }

  // ---- The same verifier at another time, or over another base ----

  ghost predicate SameVerifier(t: Trust, u: Trust) {
    && t.organizationSigners == u.organizationSigners
    && t.adminSigners == u.adminSigners
    && t.repositoryVerifier == u.repositoryVerifier
  }

  lemma RepositorySame(lib: Library, t: Trust, u: Trust, st: State, e: RepositoryControl)
    requires SameVerifier(t, u)
    ensures ApplyRepository(lib, t, st, e) == ApplyRepository(lib, u, st, e)
  {
  }

  lemma OrganizationSame(lib: Library, t: Trust, u: Trust, st: State, e: OrganizationApproved)
    requires SameVerifier(t, u)
    ensures ApplyOrganization(lib, t, st, e) == ApplyOrganization(lib, u, st, e)
  {
  }

  lemma ResolvedSame(lib: Library, t: Trust, u: Trust, st: State, e: ChallengeResolved)
    requires SameVerifier(t, u)
    ensures ApplyResolved(lib, t, st, e) == ApplyResolved(lib, u, st, e)
  {
  }

  lemma RevokedSame(lib: Library, t: Trust, u: Trust, st: State, e: AttestationRevoked)
    requires SameVerifier(t, u)
    ensures ApplyRevoked(lib, t, st, e) == ApplyRevoked(lib, u, st, e)
  {
  }

  lemma KindSame(lib: Library, t: Trust, u: Trust, subjects: Subjects, st: State, e: Event)
    requires SameVerifier(t, u)
    ensures ApplyKind(lib, t, subjects, st, e) == ApplyKind(lib, u, subjects, st, e)
  {
    match e
    case RepositoryEvent(r) => RepositorySame(lib, t, u, st, r);
    case OrganizationEvent(o) => OrganizationSame(lib, t, u, st, o);
    case OpenedEvent(_) =>
    case ResolvedEvent(r) => ResolvedSame(lib, t, u, st, r);
    case RevokedEvent(v) => RevokedSame(lib, t, u, st, v);
  }

  /** The second verifier trusts the same signers, and accepts whatever evidence the first accepts. */
  ghost predicate NotStricter(t: Trust, u: Trust) {
    && t.organizationSigners == u.organizationSigners
    && t.adminSigners == u.adminSigners
    && (t.repositoryVerifier.Some? ==>
          && u.repositoryVerifier.Some?
          && forall e :: t.repositoryVerifier.value(e) ==> u.repositoryVerifier.value(e))
  }

  lemma RepositoryFollows(lib: Library, t: Trust, u: Trust, st: State, e: RepositoryControl)
    requires NotStricter(t, u) && ApplyRepository(lib, t, st, e).Ok?
    ensures ApplyRepository(lib, u, st, e) == ApplyRepository(lib, t, st, e)
  {
  }

  lemma OrganizationFollows(lib: Library, t: Trust, u: Trust, st: State, e: OrganizationApproved)
    requires NotStricter(t, u)
    ensures ApplyOrganization(lib, u, st, e) == ApplyOrganization(lib, t, st, e)
  {
  }

  lemma ResolvedFollows(lib: Library, t: Trust, u: Trust, st: State, e: ChallengeResolved)
    requires NotStricter(t, u)
    ensures ApplyResolved(lib, u, st, e) == ApplyResolved(lib, t, st, e)
  {
  }

  lemma RevokedFollows(lib: Library, t: Trust, u: Trust, st: State, e: AttestationRevoked)
    requires NotStricter(t, u)
    ensures ApplyRevoked(lib, u, st, e) == ApplyRevoked(lib, t, st, e)
  {
  }

  lemma KindFollows(lib: Library, t: Trust, u: Trust, subjects: Subjects, st: State, e: Event)
    requires NotStricter(t, u) && ApplyKind(lib, t, subjects, st, e).Ok?
    ensures ApplyKind(lib, u, subjects, st, e) == ApplyKind(lib, t, subjects, st, e)
  {
    match e
    case RepositoryEvent(r) => RepositoryFollows(lib, t, u, st, r);
    case OrganizationEvent(o) => OrganizationFollows(lib, t, u, st, o);
    case OpenedEvent(_) =>
    case ResolvedEvent(r) => ResolvedFollows(lib, t, u, st, r);
    case RevokedEvent(v) => RevokedFollows(lib, t, u, st, v);
  }

  /** The second clock is unset, or not behind the first. */
  predicate NotEarlier(t: Trust, u: Trust) {
    u.now.None? || (t.now.Some? && t.now.value <= u.now.value)
  }

  lemma EnvelopeLater(lib: Library, t: Trust, u: Trust, st: State, index: nat, e: Event)
    requires NotEarlier(t, u) && CheckEnvelope(lib, t, st, index, e).None?
    ensures CheckEnvelope(lib, u, st, index, e).None?
  {
  }

  lemma StepLater(lib: Library, t: Trust, u: Trust, subjects: Subjects, st: State, index: nat, e: Event)
    requires NotStricter(t, u) && NotEarlier(t, u) && Step(lib, t, subjects, st, index, e).Ok?
    ensures Step(lib, u, subjects, st, index, e) == Step(lib, t, subjects, st, index, e)
  {
    EnvelopeLater(lib, t, u, st, index, e);
    KindFollows(lib, t, u, subjects, Seen(lib, st, e), e);
  }

  lemma TurnsFollow(lib: Library, t: Trust, u: Trust, subjects: Subjects)
    requires NotStricter(t, u) && NotEarlier(t, u)
    ensures Folding.Follows(TurnOf(lib, t, subjects), TurnOf(lib, u, subjects))
  {
    forall st: State, i: nat, e: Event | TurnOf(lib, t, subjects)(st, i, e).Ok?
      ensures TurnOf(lib, u, subjects)(st, i, e) == TurnOf(lib, t, subjects)(st, i, e)
    {
      StepLater(lib, t, u, subjects, st, i, e);
    }
  }

  /** A log accepted at one time is accepted at every later time, with the same index. */
  lemma ClockMonotone(lib: Library, t: Trust, u: Trust, log: seq<Event>, index: Index)
    requires Answers(lib, t, log, index) && NotEarlier(t, u) && NotStricter(t, u) && u.baseSubjects == t.baseSubjects
    ensures Answers(lib, u, log, index)
  {
    var subjects, base, st := Parts(lib, t, log, index);
    TurnsFollow(lib, t, u, subjects);
    Folding.FoldFollows(TurnOf(lib, t, subjects), TurnOf(lib, u, subjects), InitialState(subjects, base), log, |log|);
  }

  // ---- The order of the base subjects ----

  lemma EnvelopeSame(lib: Library, t: Trust, u: Trust, st: State, index: nat, e: Event)
    requires t.now == u.now
    ensures CheckEnvelope(lib, t, st, index, e) == CheckEnvelope(lib, u, st, index, e)
  {
  }

  lemma StepSame(lib: Library, t: Trust, u: Trust, subjects: Subjects, st: State, index: nat, e: Event)
    requires SameVerifier(t, u) && t.now == u.now
    ensures Step(lib, u, subjects, st, index, e) == Step(lib, t, subjects, st, index, e)
  {
    EnvelopeSame(lib, t, u, st, index, e);
    KindSame(lib, t, u, subjects, Seen(lib, st, e), e);
  }

  lemma TurnsSame(lib: Library, t: Trust, u: Trust, subjects: Subjects)
    requires SameVerifier(t, u) && t.now == u.now
    ensures Folding.Same(TurnOf(lib, t, subjects), TurnOf(lib, u, subjects))
  {
    forall st: State, i: nat, e: Event
      ensures TurnOf(lib, u, subjects)(st, i, e) == TurnOf(lib, t, subjects)(st, i, e)
    {
      StepSame(lib, t, u, subjects, st, i, e);
    }
  }

  ghost predicate SubjectsWithin(a: Subjects, b: Subjects) {
    forall id :: id in a ==> id in b && b[id] == a[id]
  }

  lemma SubjectsCarryOver(s: seq<Subject>, t: seq<Subject>, a: Subjects, b: Subjects)
    requires Holds(s, |s|, a) && Holds(t, |t|, b) && forall x :: x in s ==> x in t
    ensures SubjectsWithin(a, b)
  {
    forall id | id in a
      ensures id in b && b[id] == a[id]
    {
      var i :| 0 <= i < |s| && s[i].registrationId == id;
      assert s[i] in t;
      var j :| 0 <= j < |t| && t[j] == s[i];
    }
  }

  lemma SubjectsSame(s: seq<Subject>, t: seq<Subject>, a: Subjects, b: Subjects)
    requires Holds(s, |s|, a) && Holds(t, |t|, b) && multiset(s) == multiset(t)
    ensures a == b
  {
    BaseConflicts.SameElements(s, t);
    SubjectsCarryOver(s, t, a, b);
    SubjectsCarryOver(t, s, b, a);
  }

  /** Distinctness and well-formedness do not depend on the order. */
  lemma ValidBasePermuted(s: seq<Subject>, t: seq<Subject>)
    requires BaseConflicts.ValidBase(s) && multiset(s) == multiset(t)
    ensures BaseConflicts.ValidBase(t)
  {
    BaseConflicts.SameElements(s, t);
    forall i | 0 <= i < |t|
      ensures ValidSubject(t[i])
    {
      assert t[i] in s;
    }
    forall i, j | 0 <= i < j < |t|
      ensures t[i].registrationId != t[j].registrationId
    {
      if t[i].registrationId == t[j].registrationId {
        SameIdSameSubject(s, t[i], t[j]);
        CountsOnce(s, t[i]);
        CountsTwice(t, i, j);
      }
    }
  }

  lemma SameIdSameSubject(s: seq<Subject>, a: Subject, b: Subject)
    requires BaseConflicts.DistinctIds(s) && a in s && b in s && a.registrationId == b.registrationId
    ensures a == b
  {
    var i :| 0 <= i < |s| && s[i] == a;
    var j :| 0 <= j < |s| && s[j] == b;
  }

  lemma {:induction false} CountsOnce(s: seq<Subject>, a: Subject)
    requires BaseConflicts.DistinctIds(s)
    ensures multiset(s)[a] <= 1
  {
    if s != [] {
      var init, last := s[..|s| - 1], s[|s| - 1];
      assert s == init + [last];
      forall i, j | 0 <= i < j < |init|
        ensures init[i].registrationId != init[j].registrationId
      {
        assert s[i].registrationId != s[j].registrationId;
      }
      CountsOnce(init, a);
      forall i | 0 <= i < |init|
        ensures init[i] != last
      {
        assert s[i].registrationId != s[|s| - 1].registrationId;
      }
    }
  }

  lemma CountsTwice(t: seq<Subject>, i: nat, j: nat)
    requires i < j < |t| && t[i] == t[j]
    ensures multiset(t)[t[i]] >= 2
  {
    assert t == t[..j] + t[j..];
    assert t[i] in t[..j] && t[j] in t[j..];
    assert t[..j][i] == t[i] && t[j..][0] == t[j];
  }

  lemma ListsUnique(conflicts: map<Text, Conflict>, a: seq<Conflict>, b: seq<Conflict>)
    requires Lists(conflicts, a) && Lists(conflicts, b)
    ensures a == b
  {
    SameListing(a, b);
  }

  lemma {:induction false} SameListing(a: seq<Conflict>, b: seq<Conflict>)
    requires Increasing(a) && Increasing(b) && forall v :: v in a <==> v in b
    ensures a == b
  {
    if b != [] {
      assert b[0] in b;
    }
    if a != [] {
      assert a[0] in a;
      HeadsAgree(a, b);
      TailIncreasing(a);
      TailIncreasing(b);
      forall v: Conflict
        ensures v in a[1..] <==> v in b[1..]
      {
        TailMember(a, v);
        TailMember(b, v);
      }
      SameListing(a[1..], b[1..]);
      assert a == [a[0]] + a[1..] && b == [b[0]] + b[1..];
    }
  }

  lemma TailMember(a: seq<Conflict>, v: Conflict)
    requires a != [] && Increasing(a)
    ensures v in a[1..] <==> v in a && v != a[0]
  {
    assert a == [a[0]] + a[1..];
    if v in a[1..] {
      HeadLeast(a, v);
      Trichotomy(a[0].conflictId, v.conflictId);
    }
  }

  lemma HeadsAgree(a: seq<Conflict>, b: seq<Conflict>)
    requires Increasing(a) && Increasing(b) && a != [] && b != [] && a[0] in b && b[0] in a
    ensures a[0] == b[0]
  {
    if a[0] != b[0] {
      TailMember(a, b[0]);
      TailMember(b, a[0]);
      HeadLeast(a, b[0]);
      HeadLeast(b, a[0]);
      Trichotomy(a[0].conflictId, b[0].conflictId);
    }
  }

  lemma PublishesUnique(st: State, log: seq<Event>, a: Index, b: Index)
    requires Publishes(st, log, a) && Publishes(st, log, b)
    ensures a == b
  {
    ListsUnique(st.conflicts, a.conflicts, b.conflicts);
    assert a.registrations == b.registrations;
  }

  /** The base conflicts do not depend on the order of the base subjects. */
  lemma BasePermuted(lib: Library, t: Trust, u: Trust)
    requires BaseConflicts.InjectiveHash(lib) && BaseConflicts.ValidBase(t.baseSubjects)
    requires multiset(t.baseSubjects) == multiset(u.baseSubjects)
    ensures BaseOf(lib, t) == BaseOf(lib, u)
  {
    var a, b, naming := t.baseSubjects, u.baseSubjects, BaseConflicts.Filed(lib);
    ValidBasePermuted(a, b);
    BaseConflicts.ValidBaseComparable(a);
    BaseConflicts.ValidBaseComparable(b);
    BaseConflicts.SeedMapSeeds(naming, a, |a|);
    BaseConflicts.SeedMapSeeds(naming, b, |b|);
    BaseConflicts.SeedsOrderIndependent(lib, a, b, BaseOf(lib, t), BaseOf(lib, u));
  }

  lemma SubjectMapPermuted(s: seq<Subject>, t: seq<Subject>)
    requires BaseConflicts.ValidBase(s) && multiset(s) == multiset(t)
    ensures SubjectMap(s, |s|).Ok? && SubjectMap(t, |t|) == SubjectMap(s, |s|)
  {
    ValidBasePermuted(s, t);
    assert s[..|s|] == s && t[..|t|] == t;
    SubjectMapExact(s, |s|);
    SubjectMapExact(t, |t|);
    SubjectMapHolds(s, |s|);
    SubjectMapHolds(t, |t|);
    SubjectsSame(s, t, SubjectMap(s, |s|).value, SubjectMap(t, |t|).value);
  }

  /** Permuting the base subjects changes neither the verdict nor anything in the index. */
  lemma BaseOrderIndependent(
    lib: Library, t: Trust, u: Trust, log: seq<Event>, r: Result<Index, Error>, s: Result<Index, Error>)
    requires BaseConflicts.InjectiveHash(lib) && BaseConflicts.ValidBase(t.baseSubjects)
    requires u == t.(baseSubjects := u.baseSubjects) && multiset(t.baseSubjects) == multiset(u.baseSubjects)
    requires Reduces(lib, t, log, r) && Reduces(lib, u, log, s)
    ensures r == s
  {
    if ValidTrust(t) {
      BasePermuted(lib, t, u);
      SubjectMapPermuted(t.baseSubjects, u.baseSubjects);
      var subjects := SubjectMap(t.baseSubjects, |t.baseSubjects|).value;
      var base := BaseOf(lib, t);
      TurnsSame(lib, t, u, subjects);
      Folding.FoldSame(TurnOf(lib, t, subjects), TurnOf(lib, u, subjects), InitialState(subjects, base), log, |log|);
      SameFinish(Run(lib, t, subjects, base, log, |log|), log, r, s);
    }
  }

  lemma SameFinish(run: Result<State, Error>, log: seq<Event>, r: Result<Index, Error>, s: Result<Index, Error>)
    requires Finishes(run, log, r) && Finishes(run, log, s)
    ensures r == s
  {
    if run.Ok? {
      PublishesUnique(run.value, log, r.value, s.value);
    }
  }

  /** With no events the conflicts are exactly the pairs of equal bytes under different wallets. */
  lemma EmptyLogConflicts(lib: Library, trust: Trust, index: Index, i: nat, j: nat)
    requires BaseConflicts.InjectiveHash(lib) && Answers(lib, trust, [], index)
    requires i < j < |trust.baseSubjects|
    ensures var a, b := trust.baseSubjects[i], trust.baseSubjects[j];
            BaseConflicts.SeedConflict(lib, a, b) in index.conflicts <==> BaseConflicts.Clash(a, b)
  {
    var list := trust.baseSubjects;
    var subjects, base, st := Parts(lib, trust, [], index);
    assert list[..|list|] == list;
    SubjectMapExact(list, |list|);
    BaseConflicts.ValidBaseComparable(list);
    BaseConflicts.SeedMapSeeds(BaseConflicts.Filed(lib), list, |list|);
    BaseConflicts.SeedsExact(lib, list, base, i, j);
  }

  /** And every one of them comes from such a pair. */
  lemma EmptyLogOnlyPairs(lib: Library, trust: Trust, index: Index, v: Conflict)
    requires Answers(lib, trust, [], index) && v in index.conflicts
    ensures exists i, j :: 0 <= i < j < |trust.baseSubjects|
              && BaseConflicts.IsSeed(BaseConflicts.Filed(lib), trust.baseSubjects[i], trust.baseSubjects[j],
                                      v.conflictId, v)
  {
    var list := trust.baseSubjects;
    var subjects, base, st := Parts(lib, trust, [], index);
    BaseConflicts.SeedMapSeeds(BaseConflicts.Filed(lib), list, |list|);
    var i, j := BaseConflicts.SeedWitness(BaseConflicts.Filed(lib), list, base, v.conflictId);
  }
}
