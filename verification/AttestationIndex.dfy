/**
 reduceAttestationEvents of phase0/src/attestations.ts as a whole (lines 772-1004): base subjects, seeded
 conflicts, the loop over the log, and the published index.
 */
module AttestationIndex {
  import opened Wrappers
  import opened Utf16
  import opened Attestations
  import opened Platform
  import opened Reducer
  import opened History
  import opened Refinement
  import Folding
  import Reduction
  import BaseConflicts

  datatype Level = WalletAsserted | RepositoryControlVerified | OrganizationApprovedLevel

  /** The claim and the safety-review status are a function of the level and a constant. */
  datatype PublicRegistration = PublicRegistration(
    subject: Subject,
    level: Level,
    challenged: bool,
    evidenceEventIds: seq<Text>,
    revocations: seq<RevocationRecord>)

  datatype Index = Index(
    registrations: map<Text, PublicRegistration>,
    conflicts: seq<Conflict>,
    events: seq<Event>)

  function LevelOf(r: Registration): Level {
    if r.organizationActive then OrganizationApprovedLevel
    else if r.repositoryActive then RepositoryControlVerified
    else WalletAsserted
  }

  function Publish(r: Registration, challenged: bool): PublicRegistration {
    PublicRegistration(r.subject, LevelOf(r), challenged, r.evidenceEventIds, r.revocations)
  }

  // ---- The base subjects ----

  /** The first n subjects by identifier, or the first error. */
  function SubjectMap(list: seq<Subject>, n: nat): Result<Subjects, Error>
    requires n <= |list|
  {
    if n == 0 then Ok(map[])
    else
      match SubjectMap(list, n - 1)
      case Err(error) => Err(error)
      case Ok(subjects) =>
        var s := list[n - 1];
        if !ValidSubject(s) then Err(MalformedBaseSubject)
        else if s.registrationId in subjects then Err(DuplicateBaseRegistration)
        else Ok(subjects[s.registrationId := s])
  }

  /** The map holds exactly the first n subjects, each under its own identifier. */
  ghost predicate Holds(list: seq<Subject>, n: nat, subjects: Subjects)
    requires n <= |list|
  {
    && (forall i :: 0 <= i < n ==> list[i].registrationId in subjects && subjects[list[i].registrationId] == list[i])
    && (forall id :: id in subjects ==> exists i :: 0 <= i < n && list[i].registrationId == id)
  }

  lemma {:induction false} SubjectMapHolds(list: seq<Subject>, n: nat)
    requires n <= |list|
    ensures SubjectMap(list, n).Ok? ==> Holds(list, n, SubjectMap(list, n).value)
  {
    if n > 0 {
      SubjectMapHolds(list, n - 1);
    }
  }

  lemma HoldsIndexed(list: seq<Subject>, subjects: Subjects)
    requires Holds(list, |list|, subjects)
    ensures Indexed(subjects)
  {
  }

  /** The base is refused exactly when a subject is malformed or an identifier comes twice. */
  lemma {:induction false} SubjectMapExact(list: seq<Subject>, n: nat)
    requires n <= |list|
    ensures SubjectMap(list, n).Ok? <==> BaseConflicts.ValidBase(list[..n])
  {
    if n > 0 {
      SubjectMapExact(list, n - 1);
      ValidBaseStep(list, n);
      SubjectMapHolds(list, n - 1);
    }
  }

  lemma ValidBaseStep(list: seq<Subject>, n: nat)
    requires 0 < n <= |list|
    ensures BaseConflicts.ValidBase(list[..n]) <==>
              && BaseConflicts.ValidBase(list[..n - 1])
              && ValidSubject(list[n - 1])
              && forall i :: 0 <= i < n - 1 ==> list[i].registrationId != list[n - 1].registrationId
  {
    var was, now := list[..n - 1], list[..n];
    assert forall i :: 0 <= i < n - 1 ==> was[i] == now[i] == list[i];
    if BaseConflicts.ValidBase(now) {
      assert forall i :: 0 <= i < n - 1 ==> ValidSubject(now[i]);
      forall i | 0 <= i < n - 1
        ensures list[i].registrationId != list[n - 1].registrationId
      {
        assert now[i].registrationId != now[n - 1].registrationId;
      }
    }
  }

  method ReadSubjects(list: seq<Subject>) returns (r: Result<Subjects, Error>)
    ensures r == SubjectMap(list, |list|)
  {
    var subjects: Subjects := map[];
    for i := 0 to |list|
      invariant SubjectMap(list, i) == Ok(subjects)
    {
      var subject := list[i];
      if !ValidSubject(subject) {
        ErrorStays(list, i + 1);
        return Err(MalformedBaseSubject);
      }
      if subject.registrationId in subjects {
        ErrorStays(list, i + 1);
        return Err(DuplicateBaseRegistration);
      }
      subjects := subjects[subject.registrationId := subject];
    }
    return Ok(subjects);
  }

  lemma ErrorStays(list: seq<Subject>, n: nat)
    requires n <= |list| && SubjectMap(list, n).Err?
    ensures SubjectMap(list, |list|) == SubjectMap(list, n)
    decreases |list| - n
  {
    if n < |list| {
      ErrorStays(list, n + 1);
    }
  }

  // ---- The published conflicts ----

  function InsertConflict(v: Conflict, list: seq<Conflict>): (r: seq<Conflict>) {
    if list == [] then [v]
    else if Compare(v.conflictId, list[0].conflictId) <= 0 then [v] + list
    else [list[0]] + InsertConflict(v, list[1..])
  }

  /** Strictly increasing identifiers. */
  predicate Increasing(list: seq<Conflict>) {
    forall i, j {:trigger list[i].conflictId, list[j].conflictId} :: 0 <= i < j < |list| ==>
      Less(list[i].conflictId, list[j].conflictId)
  }

  lemma {:induction false} InsertMembers(v: Conflict, list: seq<Conflict>, w: Conflict)
    ensures w in InsertConflict(v, list) <==> w == v || w in list
  {
    if list != [] && Compare(v.conflictId, list[0].conflictId) > 0 {
      InsertMembers(v, list[1..], w);
      assert list == [list[0]] + list[1..];
    }
  }

  lemma PrependIncreasing(v: Conflict, list: seq<Conflict>)
    requires Increasing(list) && forall w :: w in list ==> Less(v.conflictId, w.conflictId)
    ensures Increasing([v] + list)
  {
    var r := [v] + list;
    forall i, j | 0 <= i < j < |r|
      ensures Less(r[i].conflictId, r[j].conflictId)
    {
      assert r[j] == list[j - 1];
      if i > 0 {
        assert r[i] == list[i - 1];
      }
    }
  }

  lemma HeadLeast(list: seq<Conflict>, w: Conflict)
    requires Increasing(list) && list != [] && w in list[1..]
    ensures Less(list[0].conflictId, w.conflictId)
  {
    var i :| 0 <= i < |list[1..]| && list[1..][i] == w;
    assert list[i + 1] == w;
  }

  lemma TailIncreasing(list: seq<Conflict>)
    requires Increasing(list) && list != []
    ensures Increasing(list[1..])
  {
    var t := list[1..];
    forall i, j | 0 <= i < j < |t|
      ensures Less(t[i].conflictId, t[j].conflictId)
    {
      assert t[i] == list[i + 1] && t[j] == list[j + 1];
    }
  }

  lemma {:induction false} InsertIncreasing(v: Conflict, list: seq<Conflict>)
    requires Increasing(list) && forall w :: w in list ==> w.conflictId != v.conflictId
    ensures Increasing(InsertConflict(v, list))
  {
    if list == [] {
    } else if Compare(v.conflictId, list[0].conflictId) <= 0 {
      forall w | w in list
        ensures Less(v.conflictId, w.conflictId)
      {
        BelowHead(v, list, w);
      }
      PrependIncreasing(v, list);
    } else {
      TailIncreasing(list);
      InsertIncreasing(v, list[1..]);
      var r := InsertConflict(v, list[1..]);
      forall w | w in r
        ensures Less(list[0].conflictId, w.conflictId)
      {
        InsertMembers(v, list[1..], w);
        if w != v {
          HeadLeast(list, w);
        }
      }
      PrependIncreasing(list[0], r);
    }
  }

  lemma BelowHead(v: Conflict, list: seq<Conflict>, w: Conflict)
    requires Increasing(list) && list != [] && w in list && v.conflictId != list[0].conflictId
    requires Compare(v.conflictId, list[0].conflictId) <= 0
    ensures Less(v.conflictId, w.conflictId)
  {
    if w != list[0] {
      assert list == [list[0]] + list[1..];
      HeadLeast(list, w);
      LessTransitive(v.conflictId, list[0].conflictId, w.conflictId);
    }
  }

  /** Each conflict is filed under its own identifier. */
  ghost predicate Keyed(conflicts: map<Text, Conflict>) {
    forall c :: c in conflicts ==> conflicts[c].conflictId == c
  }

  /** The list holds exactly the conflicts of the map, in strictly increasing order of their identifiers. */
  ghost predicate Lists(conflicts: map<Text, Conflict>, list: seq<Conflict>) {
    && Increasing(list)
    && (forall v :: v in list <==> v.conflictId in conflicts && conflicts[v.conflictId] == v)
  }

  method SortConflicts(conflicts: map<Text, Conflict>) returns (list: seq<Conflict>)
    requires Keyed(conflicts)
    ensures Lists(conflicts, list)
  {
    list := [];
    var remaining := conflicts.Keys;
    while remaining != {}
      invariant remaining <= conflicts.Keys
      invariant Increasing(list)
      invariant forall v :: v in list <==>
                  v.conflictId in conflicts && v.conflictId !in remaining && conflicts[v.conflictId] == v
    {
      var c :| c in remaining;
      remaining := remaining - {c};
      InsertIncreasing(conflicts[c], list);
      ghost var was := list;
      list := InsertConflict(conflicts[c], list);
      forall v: Conflict
        ensures v in list <==>
                v.conflictId in conflicts && v.conflictId !in remaining && conflicts[v.conflictId] == v
      {
        InsertMembers(conflicts[c], was, v);
      }
    }
  }

  /** The registrations some open conflict names. */
  ghost predicate Disputed(conflicts: map<Text, Conflict>, id: Text) {
    exists c :: c in conflicts && conflicts[c].outcome.None? && id in conflicts[c].registrationIds
  }

  method MarkChallenged(conflicts: map<Text, Conflict>) returns (challenged: set<Text>)
    ensures forall id :: id in challenged <==> Disputed(conflicts, id)
  {
    challenged := {};
    var remaining := conflicts.Keys;
    while remaining != {}
      invariant remaining <= conflicts.Keys
      invariant forall id :: id in challenged <==>
                  exists c :: c in conflicts && c !in remaining && conflicts[c].outcome.None?
                              && id in conflicts[c].registrationIds
    {
      var c :| c in remaining;
      remaining := remaining - {c};
      ghost var was := challenged;
      if conflicts[c].outcome.None? {
        challenged := challenged + set id | id in conflicts[c].registrationIds;
      }
      assert forall id :: id in challenged <==>
                          id in was || (conflicts[c].outcome.None? && id in conflicts[c].registrationIds);
    }
  }

  /** What the index says, read off the final state. */
  ghost predicate Publishes(st: State, log: seq<Event>, index: Index) {
    && index.registrations.Keys == st.registrations.Keys
    && (forall id :: id in index.registrations ==>
          index.registrations[id].challenged == Disputed(st.conflicts, id)
          && index.registrations[id] == Publish(st.registrations[id], index.registrations[id].challenged))
    && Lists(st.conflicts, index.conflicts)
    && index.events == log
  }

  // ---- The whole reduction ----

  /** The conflicts before the first event. */
  function BaseOf(lib: Library, trust: Trust): Base {
    BaseConflicts.SeedMap(BaseConflicts.Filed(lib), trust.baseSubjects, |trust.baseSubjects|)
  }

  /** What the reducer answers: the first error of its stages, or the index of the final state. */
  ghost predicate Reduces(lib: Library, trust: Trust, log: seq<Event>, r: Result<Index, Error>) {
    if !ValidTrust(trust) then r == Err(MalformedTrust)
    else
      match SubjectMap(trust.baseSubjects, |trust.baseSubjects|)
      case Err(error) => r == Err(error)
      case Ok(subjects) => Finishes(Run(lib, trust, subjects, BaseOf(lib, trust), log, |log|), log, r)
  }

  ghost predicate Finishes(run: Result<State, Error>, log: seq<Event>, r: Result<Index, Error>) {
    match run
    case Err(error) => r == Err(error)
    case Ok(st) => r.Ok? && Publishes(st, log, r.value)
  }

  method ReduceAttestationEvents(lib: Library, trust: Trust, eventValues: seq<Event>)
    returns (r: Result<Index, Error>)
    ensures Reduces(lib, trust, eventValues, r)
  {
    if !ValidTrust(trust) {
      return Err(MalformedTrust);
    }
    var read := ReadSubjects(trust.baseSubjects);
    if read.Err? {
      return Err(read.error);
    }
    var subjects := read.value;
    var conflicts := BaseConflicts.SeedConflicts(BaseConflicts.Filed(lib), trust.baseSubjects);
    var folded := Folding.Loop(TurnOf(lib, trust, subjects), InitialState(subjects, conflicts), eventValues);
    if folded.Err? {
      return Err(folded.error);
    }
    SeedsKeyed(lib, trust);
    var index := PublishIndex(lib, trust, subjects, conflicts, eventValues, folded.value);
    return Ok(index);
  }

  method PublishIndex(
    lib: Library, trust: Trust, subjects: Subjects, ghost base: Base, log: seq<Event>, st: State)
    returns (index: Index)
    requires Keyed(base) && Run(lib, trust, subjects, base, log, |log|) == Ok(st)
    ensures Publishes(st, log, index)
  {
    RunKeyed(lib, trust, subjects, base, log, |log|);
    var challenged := MarkChallenged(st.conflicts);
    var registrations := map id | id in st.registrations :: Publish(st.registrations[id], id in challenged);
    var conflicts := SortConflicts(st.conflicts);
    index := Index(registrations, conflicts, log);
  }

  lemma SeedsKeyed(lib: Library, trust: Trust)
    ensures Keyed(BaseOf(lib, trust)) && FreshBase(BaseOf(lib, trust))
  {
    var base, naming, list := BaseOf(lib, trust), BaseConflicts.Filed(lib), trust.baseSubjects;
    BaseConflicts.SeedMapSeeds(naming, list, |list|);
    forall c | c in base
      ensures base[c].conflictId == c && base[c].outcome.None? && base[c].eventIds == []
    {
      var i, j := BaseConflicts.SeedWitness(naming, list, base, c);
    }
  }

  lemma RunKeyed(lib: Library, trust: Trust, subjects: Subjects, base: Base, log: seq<Event>, n: nat)
    requires n <= |log| && Keyed(base) && Run(lib, trust, subjects, base, log, n).Ok?
    ensures Keyed(Run(lib, trust, subjects, base, log, n).value.conflicts)
  {
    TurnsKeyed(lib, trust, subjects);
    Folding.FoldKeeps(TurnOf(lib, trust, subjects), InitialState(subjects, base), log, n, KeyedState());
  }

  ghost function KeyedState(): State -> bool { (st: State) => Keyed(st.conflicts) }

  lemma TurnsKeyed(lib: Library, trust: Trust, subjects: Subjects)
    ensures var turn := TurnOf(lib, trust, subjects);
            forall st, i, e :: KeyedState()(st) && turn(st, i, e).Ok? ==> KeyedState()(turn(st, i, e).value)
  {
    var turn := TurnOf(lib, trust, subjects);
    forall st: State, i: nat, e: Event | KeyedState()(st) && turn(st, i, e).Ok?
      ensures KeyedState()(turn(st, i, e).value)
    {
      StepKeyed(lib, trust, subjects, st, i, e);
    }
  }

  lemma StepKeyed(lib: Library, trust: Trust, subjects: Subjects, st: State, index: nat, e: Event)
    requires Keyed(st.conflicts) && Step(lib, trust, subjects, st, index, e).Ok?
    ensures Keyed(Step(lib, trust, subjects, st, index, e).value.conflicts)
  {
    var seen := Seen(lib, st, e);
    KindKeyed(lib, trust, subjects, seen, e);
  }

  lemma KindKeyed(lib: Library, trust: Trust, subjects: Subjects, st: State, e: Event)
    requires Keyed(st.conflicts) && ApplyKind(lib, trust, subjects, st, e).Ok?
    ensures Keyed(ApplyKind(lib, trust, subjects, st, e).value.conflicts)
  {
    match e
    case RepositoryEvent(c) => RepositoryKeyed(lib, trust, st, c);
    case OrganizationEvent(c) => OrganizationKeyed(lib, trust, st, c);
    case RevokedEvent(c) => RevokedKeyed(lib, trust, st, c);
    case OpenedEvent(c) => OpenedKeyed(lib, subjects, st, c);
    case ResolvedEvent(c) => ResolvedKeyed(lib, trust, st, c);
  }

  lemma RepositoryKeyed(lib: Library, trust: Trust, st: State, e: RepositoryControl)
    requires ApplyRepository(lib, trust, st, e).Ok?
    ensures ApplyRepository(lib, trust, st, e).value.conflicts == st.conflicts
  {
  }

  lemma OrganizationKeyed(lib: Library, trust: Trust, st: State, e: OrganizationApproved)
    requires ApplyOrganization(lib, trust, st, e).Ok?
    ensures ApplyOrganization(lib, trust, st, e).value.conflicts == st.conflicts
  {
  }

  lemma RevokedKeyed(lib: Library, trust: Trust, st: State, e: AttestationRevoked)
    requires ApplyRevoked(lib, trust, st, e).Ok?
    ensures ApplyRevoked(lib, trust, st, e).value.conflicts == st.conflicts
  {
  }

  lemma OpenedKeyed(lib: Library, subjects: Subjects, st: State, e: ChallengeOpened)
    requires Keyed(st.conflicts) && ApplyOpened(lib, subjects, st, e).Ok?
    ensures Keyed(ApplyOpened(lib, subjects, st, e).value.conflicts)
  {
    OpenedShape(lib, subjects, st, e);
  }

  lemma ResolvedKeyed(lib: Library, trust: Trust, st: State, e: ChallengeResolved)
    requires Keyed(st.conflicts) && ApplyResolved(lib, trust, st, e).Ok?
    ensures Keyed(ApplyResolved(lib, trust, st, e).value.conflicts)
  {
  }
}
