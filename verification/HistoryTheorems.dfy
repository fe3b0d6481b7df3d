/**
 What an accepted log guarantees: the promises of the evidence index, each read off the index that
 reduceAttestationEvents answers.
 */
module HistoryTheorems {
  import opened Wrappers
  import opened Utf16
  import opened Attestations
  import opened Statements
  import opened Platform
  import opened Reducer
  import opened History
  import opened Refinement
  import opened AttestationIndex
  import Reduction
  import BaseConflicts

  /** The reducer answers this index. */
  ghost predicate Answers(lib: Library, trust: Trust, log: seq<Event>, index: Index) {
    Reduces(lib, trust, log, Ok(index))
  }

  /** The parts of a successful reduction. */
  lemma Parts(lib: Library, trust: Trust, log: seq<Event>, index: Index)
    returns (subjects: Subjects, base: Base, st: State)
    requires Answers(lib, trust, log, index)
    ensures SubjectMap(trust.baseSubjects, |trust.baseSubjects|) == Ok(subjects) && base == BaseOf(lib, trust)
    ensures Run(lib, trust, subjects, base, log, |log|) == Ok(st) && Publishes(st, log, index)
    ensures Indexed(subjects) && FreshBase(base) && Keyed(st.conflicts)
  {
    subjects, base := SubjectMap(trust.baseSubjects, |trust.baseSubjects|).value, BaseOf(lib, trust);
    st := Run(lib, trust, subjects, base, log, |log|).value;
    SubjectMapHolds(trust.baseSubjects, |trust.baseSubjects|);
    HoldsIndexed(trust.baseSubjects, subjects);
    SeedsKeyed(lib, trust);
    RunKeyed(lib, trust, subjects, base, log, |log|);
  }

  /** The history behind a successful reduction. */
  lemma Behind(lib: Library, trust: Trust, log: seq<Event>, index: Index)
    returns (subjects: Subjects, base: Base, st: State)
    requires Answers(lib, trust, log, index)
    ensures SubjectMap(trust.baseSubjects, |trust.baseSubjects|) == Ok(subjects) && base == BaseOf(lib, trust)
    ensures Indexed(subjects) && Publishes(st, log, index)
    ensures Accepted(lib, trust, subjects, Seeded(base), log, |log|)
    ensures ReadsRegistrations(lib, subjects, log, |log|, st)
    ensures ReadsConflicts(subjects, base, log, |log|, st) && Keyed(st.conflicts)
  {
    subjects, base, st := Parts(lib, trust, log, index);
    Reduction.RunRefinesHistory(lib, trust, subjects, base, log, |log|);
  }

  /** A log is accepted exactly when each of its events was allowed by the events before it. */
  lemma AcceptedExactly(lib: Library, trust: Trust, log: seq<Event>, r: Result<Index, Error>)
    requires Reduces(lib, trust, log, r)
    ensures r.Ok? <==>
              && ValidTrust(trust)
              && BaseConflicts.ValidBase(trust.baseSubjects)
              && SubjectMap(trust.baseSubjects, |trust.baseSubjects|).Ok?
              && Accepted(lib, trust, SubjectMap(trust.baseSubjects, |trust.baseSubjects|).value,
                          Seeded(BaseOf(lib, trust)), log, |log|)
  {
    var list := trust.baseSubjects;
    assert list[..|list|] == list;
    SubjectMapExact(list, |list|);
    if ValidTrust(trust) && SubjectMap(list, |list|).Ok? {
      var subjects := SubjectMap(list, |list|).value;
      SubjectMapHolds(list, |list|);
      HoldsIndexed(list, subjects);
      SeedsKeyed(lib, trust);
      Reduction.RunRefinesHistory(lib, trust, subjects, BaseOf(lib, trust), log, |log|);
    }
  }

  // ---- Levels ----

  /** Organization evidence never outlives repository evidence. */
  lemma {:induction false} OrganizationNeedsRepository(
    lib: Library, trust: Trust, subjects: Subjects, seeds: Seeds, log: seq<Event>, n: nat, id: Text)
    requires n <= |log| && Accepted(lib, trust, subjects, seeds, log, n)
    ensures OrganizationActive(log, n, id) ==> RepositoryActive(log, n, id)
  {
    if n > 0 {
      OrganizationNeedsRepository(lib, trust, subjects, seeds, log, n - 1, id);
      if ApprovalFor(log[n - 1], id) {
        ApprovalAllowed(lib, trust, subjects, seeds, log, n - 1, id);
      }
    }
  }

  lemma ApprovalAllowed(
    lib: Library, trust: Trust, subjects: Subjects, seeds: Seeds, log: seq<Event>, k: nat, id: Text)
    requires k < |log| && Allowed(lib, trust, subjects, seeds, log, k) && ApprovalFor(log[k], id)
    ensures HasRepositoryEvidence(log, k, id)
  {
  }

  lemma RegistrationRead(
    lib: Library, subjects: Subjects, log: seq<Event>, st: State, index: Index, id: Text)
    requires Publishes(st, log, index) && ReadsRegistrations(lib, subjects, log, |log|, st)
    requires id in index.registrations
    ensures id in subjects
    ensures index.registrations[id] ==
            Publish(RegistrationOf(lib, subjects[id], log, |log|), index.registrations[id].challenged)
  {
    assert Lookup(st.registrations, id) == RegistrationAt(lib, subjects, log, |log|, id);
  }

  /** The published level says exactly what the whole log says. */
  lemma LevelsRefineHistory(lib: Library, trust: Trust, log: seq<Event>, index: Index, id: Text)
    requires Answers(lib, trust, log, index) && id in index.registrations
    ensures var level := index.registrations[id].level;
            && (level == OrganizationApprovedLevel <==> HasOrganizationEvidence(log, |log|, id))
            && (level != WalletAsserted <==> HasRepositoryEvidence(log, |log|, id))
  {
    var subjects, base, st := Behind(lib, trust, log, index);
    RegistrationRead(lib, subjects, log, st, index, id);
    OrganizationNeedsRepository(lib, trust, subjects, Seeded(base), log, |log|, id);
  }

  function NotedIds(notes: seq<RevocationRecord>): seq<Text> {
    seq(|notes|, i requires 0 <= i < |notes| => notes[i].eventId)
  }

  lemma {:induction false} NotesListed(log: seq<Event>, n: nat, id: Text)
    requires n <= |log|
    ensures NotedIds(Notes(log, n, id)) == Ids(Filter(log, n, Revocations(id)))
  {
    if n > 0 {
      NotesListed(log, n - 1, id);
      if Revokes(log[n - 1], id) {
        IdsAppend(Filter(log, n - 1, Revocations(id)), log[n - 1]);
      }
    }
  }

  /** The published record names exactly the evidence and the revocations the log has for it, in order. */
  lemma RecordsRefineHistory(lib: Library, trust: Trust, log: seq<Event>, index: Index, id: Text)
    requires Answers(lib, trust, log, index) && id in index.registrations
    ensures index.registrations[id].subject.registrationId == id
    ensures index.registrations[id].subject in trust.baseSubjects
    ensures index.registrations[id].evidenceEventIds == Ids(Filter(log, |log|, Evidence(id)))
    ensures NotedIds(index.registrations[id].revocations) == Ids(Filter(log, |log|, Revocations(id)))
  {
    var subjects, base, st := Behind(lib, trust, log, index);
    RegistrationRead(lib, subjects, log, st, index, id);
    NotesListed(log, |log|, id);
    SubjectsListed(trust.baseSubjects, subjects, id);
  }

  lemma SubjectsListed(list: seq<Subject>, subjects: Subjects, id: Text)
    requires SubjectMap(list, |list|) == Ok(subjects) && id in subjects
    ensures subjects[id] in list && subjects[id].registrationId == id
  {
    SubjectMapHolds(list, |list|);
    var i :| 0 <= i < |list| && list[i].registrationId == id;
  }

  /** The events about one registration, in order. */
  function Select(log: seq<Event>, n: nat, id: Text): seq<Event>
    requires n <= |log|
  {
    if n == 0 then [] else
    if About(log[n - 1], id) then Select(log, n - 1, id) + [log[n - 1]] else Select(log, n - 1, id)
  }

  lemma {:induction false} RegistrationPrefix(
    lib: Library, s: Subject, a: seq<Event>, b: seq<Event>, n: nat)
    requires n <= |a| && n <= |b| && a[..n] == b[..n]
    ensures RegistrationOf(lib, s, a, n) == RegistrationOf(lib, s, b, n)
  {
    if n > 0 {
      assert a[n - 1] == a[..n][n - 1] == b[n - 1];
      assert a[..n - 1] == a[..n][..n - 1] == b[..n - 1];
      RegistrationPrefix(lib, s, a, b, n - 1);
      RegistrationGrows(lib, s, a, b, n - 1);
    }
  }

  /** The next record depends on the record so far and on the event alone. */
  lemma RegistrationGrows(lib: Library, s: Subject, a: seq<Event>, b: seq<Event>, n: nat)
    requires n < |a| && n < |b| && a[n] == b[n]
    requires RegistrationOf(lib, s, a, n) == RegistrationOf(lib, s, b, n)
    ensures RegistrationOf(lib, s, a, n + 1) == RegistrationOf(lib, s, b, n + 1)
  {
    StepsAlike(lib, s, a, n, b, n);
  }

  lemma StepsAlike(lib: Library, s: Subject, a: seq<Event>, n: nat, b: seq<Event>, m: nat)
    requires n < |a| && m < |b| && a[n] == b[m]
    requires RegistrationOf(lib, s, a, n) == RegistrationOf(lib, s, b, m)
    ensures RegistrationOf(lib, s, a, n + 1) == RegistrationOf(lib, s, b, m + 1)
  {
    var id := s.registrationId;
    if RepositoryFor(a[n], id) {
      RepositoryRegistration(lib, s, a, n);
      RepositoryRegistration(lib, s, b, m);
    } else if ApprovalFor(a[n], id) {
      OrganizationRegistration(lib, s, a, n);
      OrganizationRegistration(lib, s, b, m);
    } else if Revokes(a[n], id) {
      RevokedRegistration(lib, s, a, n);
      RevokedRegistration(lib, s, b, m);
    } else {
      RegistrationUnaffected(lib, s, a, n);
      RegistrationUnaffected(lib, s, b, m);
    }
  }

  /** A registration's record is a function of the events about it: the rest of the log could be dropped. */
  lemma {:induction false} OwnEventsSuffice(lib: Library, s: Subject, log: seq<Event>, n: nat)
    requires n <= |log|
    ensures var own := Select(log, n, s.registrationId);
            RegistrationOf(lib, s, log, n) == RegistrationOf(lib, s, own, |own|)
  {
    if n == 0 {
    } else {
      OwnEventsSuffice(lib, s, log, n - 1);
      var was := Select(log, n - 1, s.registrationId);
      if About(log[n - 1], s.registrationId) {
        var own := was + [log[n - 1]];
        RegistrationPrefix(lib, s, was, own, |was|);
        StepsAlike(lib, s, log, n - 1, own, |was|);
      } else {
        RegistrationUnaffected(lib, s, log, n - 1);
      }
    }
  }

  /**
   What is published of a registration, but for the conflicts it is in, depends on its subject and on the events
   about it alone: two logs, under whatever trust, that say the same of it publish the same of it.
   */
  lemma RegistrationsIndependent(
    lib: Library, t: Trust, u: Trust, log: seq<Event>, other: seq<Event>, a: Index, b: Index, id: Text)
    requires Answers(lib, t, log, a) && Answers(lib, u, other, b)
    requires id in a.registrations && id in b.registrations
    requires a.registrations[id].subject == b.registrations[id].subject
    requires Select(log, |log|, id) == Select(other, |other|, id)
    ensures a.registrations[id].(challenged := false) == b.registrations[id].(challenged := false)
  {
    var subjectsA, _, stA := Behind(lib, t, log, a);
    var subjectsB, _, stB := Behind(lib, u, other, b);
    RegistrationRead(lib, subjectsA, log, stA, a, id);
    RegistrationRead(lib, subjectsB, other, stB, b, id);
    OwnEventsSuffice(lib, subjectsA[id], log, |log|);
    OwnEventsSuffice(lib, subjectsB[id], other, |other|);
    SubjectsListed(t.baseSubjects, subjectsA, id);
    SubjectsListed(u.baseSubjects, subjectsB, id);
  }

  // ---- Freshness and single use ----

  /** Repository evidence is fresher than every earlier repository revocation, not only the last one. */
  lemma RepositoryEvidenceFresh(
    lib: Library, trust: Trust, log: seq<Event>, index: Index, j: nat, k: nat)
    requires Answers(lib, trust, log, index) && j < k < |log|
    requires log[k].RepositoryEvent? && RevokesRepository(log[j], log[k].repository.subject.registrationId)
    ensures Time(lib, log[j]) < lib.date(log[k].repository.challenge.issuedAt)
    ensures Time(lib, log[j]) < lib.date(log[k].repository.forgeObservation.observedAt)
  {
    var subjects, base, st := Behind(lib, trust, log, index);
    assert Allowed(lib, trust, subjects, Seeded(base), log, k);
  }

  /** An approval is fresher than every earlier revocation of either level. */
  lemma ApprovalsFresh(
    lib: Library, trust: Trust, log: seq<Event>, index: Index, j: nat, k: nat)
    requires Answers(lib, trust, log, index) && j < k < |log|
    requires log[k].OrganizationEvent? && Revokes(log[j], log[k].organization.subject.registrationId)
    ensures Time(lib, log[j]) < lib.date(log[k].organization.approval.approvedAt) <= Time(lib, log[k])
  {
    var subjects, base, st := Behind(lib, trust, log, index);
    assert Allowed(lib, trust, subjects, Seeded(base), log, k);
  }

  /** Statement hash, nonce, signature and forge observation are each used by one repository event at most. */
  lemma RepositoryCredentialsSingleUse(
    lib: Library, trust: Trust, log: seq<Event>, index: Index, j: nat, k: nat)
    requires Answers(lib, trust, log, index) && j < |log| && k < |log| && j != k
    requires log[j].RepositoryEvent? && log[k].RepositoryEvent?
    ensures log[j].repository.statementHash != log[k].repository.statementHash
    ensures log[j].repository.challenge.nonce != log[k].repository.challenge.nonce
    ensures log[j].repository.signature != log[k].repository.signature
    ensures log[j].repository.forgeObservation != log[k].repository.forgeObservation
  {
    var subjects, base, st := Behind(lib, trust, log, index);
    if j < k {
      RepositoryUnshared(lib, trust, subjects, Seeded(base), log, j, k);
    } else {
      RepositoryUnshared(lib, trust, subjects, Seeded(base), log, k, j);
    }
  }

  lemma RepositoryUnshared(
    lib: Library, trust: Trust, subjects: Subjects, seeds: Seeds, log: seq<Event>, j: nat, k: nat)
    requires j < k < |log| && Accepted(lib, trust, subjects, seeds, log, |log|)
    requires log[j].RepositoryEvent? && log[k].RepositoryEvent?
    ensures !SharesRepositoryCredential(log[j].repository, log[k].repository)
  {
    assert Allowed(lib, trust, subjects, seeds, log, k);
  }

  lemma ApprovalCredentialsSingleUse(
    lib: Library, trust: Trust, log: seq<Event>, index: Index, j: nat, k: nat)
    requires Answers(lib, trust, log, index) && j < |log| && k < |log| && j != k
    requires log[j].OrganizationEvent? && log[k].OrganizationEvent?
    ensures log[j].organization.approval.statementHash != log[k].organization.approval.statementHash
    ensures log[j].organization.approval.signature != log[k].organization.approval.signature
  {
    var subjects, base, st := Behind(lib, trust, log, index);
    if j < k {
      ApprovalUnshared(lib, trust, subjects, Seeded(base), log, j, k);
    } else {
      ApprovalUnshared(lib, trust, subjects, Seeded(base), log, k, j);
    }
  }

  lemma ApprovalUnshared(
    lib: Library, trust: Trust, subjects: Subjects, seeds: Seeds, log: seq<Event>, j: nat, k: nat)
    requires j < k < |log| && Accepted(lib, trust, subjects, seeds, log, |log|)
    requires log[j].OrganizationEvent? && log[k].OrganizationEvent?
    ensures !SharesApprovalCredential(log[j].organization.approval, log[k].organization.approval)
  {
    assert Allowed(lib, trust, subjects, seeds, log, k);
  }

  /**
   Single use by content: no wallet statement counts twice, whatever its recorded hash. Two repository events
   of an accepted log never carry the same challenge.
   */
  lemma ChallengesSingleUse(
    lib: Library, trust: Trust, log: seq<Event>, index: Index, j: nat, k: nat)
    requires SignsStatements(lib) && Answers(lib, trust, log, index)
    requires j < |log| && k < |log| && j != k && log[j].RepositoryEvent? && log[k].RepositoryEvent?
    ensures Statement(Repository(log[j].repository.challenge)) != Statement(Repository(log[k].repository.challenge))
    ensures !SaysTheSame(Repository(log[j].repository.challenge), Repository(log[k].repository.challenge))
  {
    var subjects, base, st := Behind(lib, trust, log, index);
    RepositoryCredentialsSingleUse(lib, trust, log, index, j, k);
    StatementHashed(lib, trust, subjects, Seeded(base), log, j);
    StatementHashed(lib, trust, subjects, Seeded(base), log, k);
    StatementsInjective(Repository(log[j].repository.challenge), Repository(log[k].repository.challenge));
  }

  lemma StatementHashed(lib: Library, trust: Trust, subjects: Subjects, seeds: Seeds, log: seq<Event>, k: nat)
    requires SignsStatements(lib) && k < |log| && Accepted(lib, trust, subjects, seeds, log, |log|)
    requires log[k].RepositoryEvent?
    ensures log[k].repository.statementHash == lib.keccak(Statement(Repository(log[k].repository.challenge)))
  {
    assert Allowed(lib, trust, subjects, seeds, log, k);
    assert RepositorySigned(lib, log[k].repository);
  }

  // ---- Conflicts ----

  /** The parties of a conflict are settled when it first appears. */
  lemma {:induction false} OriginStable(
    subjects: Subjects, base: Base, log: seq<Event>, m: nat, n: nat, c: Text)
    requires m <= n <= |log| && Origin(subjects, base, log, m, c).Some?
    ensures Origin(subjects, base, log, n, c) == Origin(subjects, base, log, m, c)
    decreases n
  {
    if m < n {
      OriginStable(subjects, base, log, m, n - 1, c);
    }
  }

  lemma ConflictRead(subjects: Subjects, base: Base, log: seq<Event>, st: State, index: Index, v: Conflict)
    requires Publishes(st, log, index) && ReadsConflicts(subjects, base, log, |log|, st) && Keyed(st.conflicts)
    ensures v in index.conflicts <==> ConflictOf(subjects, base, log, |log|, v.conflictId) == Some(v)
  {
    assert Lookup(st.conflicts, v.conflictId) == ConflictOf(subjects, base, log, |log|, v.conflictId);
  }

  /** A published conflict lists its own events in order, and is resolved exactly when a resolution is among them. */
  lemma ConflictsRefineHistory(lib: Library, trust: Trust, log: seq<Event>, index: Index, v: Conflict)
    requires Answers(lib, trust, log, index) && v in index.conflicts
    ensures v.eventIds == Ids(Filter(log, |log|, ConflictEvents(v.conflictId)))
    ensures v.outcome.Some? <==> exists i :: 0 <= i < |log| && Resolves(log[i], v.conflictId)
    ensures v.outcome.Some? ==>
              exists i :: 0 <= i < |log| && Resolves(log[i], v.conflictId) && log[i].resolution.outcome == v.outcome.value
  {
    var subjects, base, st := Behind(lib, trust, log, index);
    ConflictRead(subjects, base, log, st, index, v);
    OutcomeWitness(log, |log|, v.conflictId);
  }

  lemma OutcomeWitness(log: seq<Event>, n: nat, c: Text)
    requires n <= |log|
    ensures OutcomeOf(log, n, c).Some? <==> exists i :: 0 <= i < n && Resolves(log[i], c)
    ensures OutcomeOf(log, n, c).Some? ==>
              exists i :: 0 <= i < n && Resolves(log[i], c) && log[i].resolution.outcome == OutcomeOf(log, n, c).value
  {
    if n > 0 {
      OutcomeWitness(log, n - 1, c);
    }
  }

  /** A resolution is the only one, comes after a signed challenge, and is followed by none. */
  lemma ConflictLifecycle(
    lib: Library, trust: Trust, log: seq<Event>, index: Index, c: Text, i: nat, j: nat)
    requires Answers(lib, trust, log, index) && i < |log| && Resolves(log[i], c)
    ensures exists k :: 0 <= k < i && Opens(log[k], c)
    ensures i < j < |log| ==> !Opens(log[j], c)
    ensures j < |log| && Resolves(log[j], c) ==> i == j
  {
    var subjects, base, st := Behind(lib, trust, log, index);
    assert Allowed(lib, trust, subjects, Seeded(base), log, i);
    if i < j < |log| {
      assert Allowed(lib, trust, subjects, Seeded(base), log, j);
    }
  }

  lemma SeedParties(lib: Library, trust: Trust, subjects: Subjects, base: Base, log: seq<Event>, j: nat, c: Text)
    requires j < |log| && Accepted(lib, trust, subjects, Seeded(base), log, |log|) && c in base && Opens(log[j], c)
    ensures log[j].opening.challengedRegistrationId in base[c].registrationIds
    ensures log[j].opening.challengerRegistrationId in base[c].registrationIds
  {
    assert Allowed(lib, trust, subjects, Seeded(base), log, j);
  }

  /** Every signed challenge to a conflict is between its two published registrations. */
  lemma ConflictParties(
    lib: Library, trust: Trust, log: seq<Event>, index: Index, v: Conflict, j: nat)
    requires Answers(lib, trust, log, index) && v in index.conflicts
    requires j < |log| && Opens(log[j], v.conflictId)
    ensures log[j].opening.challengedRegistrationId in v.registrationIds
    ensures log[j].opening.challengerRegistrationId in v.registrationIds
    ensures v.conflictId !in BaseOf(lib, trust) ==> SameMembers(v.registrationIds, log[j].opening)
  {
    var subjects, base, st := Behind(lib, trust, log, index);
    ConflictRead(subjects, base, log, st, index, v);
    var c := v.conflictId;
    if c in base {
      SeedStays(subjects, base, log, |log|, c);
      SeedParties(lib, trust, subjects, base, log, j, c);
    } else {
      OriginParties(lib, trust, subjects, base, log, |log|, j, c);
    }
  }

  /** Shorter prefixes of the log already show the same two registrations for the conflict. */
  lemma ConflictPartiesNeverChange(
    lib: Library, trust: Trust, log: seq<Event>, index: Index, m: nat, c: Text)
    requires Answers(lib, trust, log, index) && m <= |log|
    ensures var subjects := SubjectMap(trust.baseSubjects, |trust.baseSubjects|).value;
            var before := ConflictOf(subjects, BaseOf(lib, trust), log, m, c);
            before.Some? ==>
              exists v :: v in index.conflicts && v.conflictId == c
                          && v.registrationIds == before.value.registrationIds
  {
    var subjects, base, st := Behind(lib, trust, log, index);
    if ConflictOf(subjects, base, log, m, c).Some? {
      OriginStable(subjects, base, log, m, |log|, c);
      assert Lookup(st.conflicts, c) == ConflictOf(subjects, base, log, |log|, c);
      assert st.conflicts[c] in index.conflicts;
    }
  }

  /** A registration is challenged exactly while some published conflict that names it is open. */
  lemma ChallengedMeansOpenConflict(lib: Library, trust: Trust, log: seq<Event>, index: Index, id: Text)
    requires Answers(lib, trust, log, index) && id in index.registrations
    ensures index.registrations[id].challenged <==>
            exists v :: v in index.conflicts && v.outcome.None? && id in v.registrationIds
  {
    var subjects, base, st := Behind(lib, trust, log, index);
    if index.registrations[id].challenged {
      assert Disputed(st.conflicts, id);
      var c :| c in st.conflicts && st.conflicts[c].outcome.None? && id in st.conflicts[c].registrationIds;
      assert st.conflicts[c] in index.conflicts;
    }
    if v :| v in index.conflicts && v.outcome.None? && id in v.registrationIds {
      assert st.conflicts[v.conflictId] == v;
    }
  }
}
