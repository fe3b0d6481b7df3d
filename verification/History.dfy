/**
 What a whole log says, read without any running state. `n` counts the events that are already in the log:
 every notion below looks at log[0..n].
 */
module History {
  import opened Wrappers
  import opened Utf16
  import opened Attestations
  import opened Statements
  import opened Platform

  // ---- What an event is about ----

  predicate RepositoryFor(e: Event, id: Text) { e.RepositoryEvent? && e.repository.subject.registrationId == id }

  predicate ApprovalFor(e: Event, id: Text) { e.OrganizationEvent? && e.organization.subject.registrationId == id }

  /** A revocation of either level for the registration. */
  predicate Revokes(e: Event, id: Text) { e.RevokedEvent? && e.revocation.registrationId == id }

  predicate RevokesRepository(e: Event, id: Text) { Revokes(e, id) && e.revocation.level == RepositoryLevel }

  predicate Opens(e: Event, c: Text) { e.OpenedEvent? && e.opening.conflictId == c }

  predicate Resolves(e: Event, c: Text) { e.ResolvedEvent? && e.resolution.conflictId == c }

  function Time(lib: Library, e: Event): int { lib.date(e.OccurredAt()) }

  /** Repository evidence that no later repository-level revocation removes. */
  ghost predicate HasRepositoryEvidence(log: seq<Event>, n: nat, id: Text)
    requires n <= |log|
  {
    exists i :: 0 <= i < n && RepositoryFor(log[i], id) && forall j :: i < j < n ==> !RevokesRepository(log[j], id)
  }

  /** An approval that no later revocation of either level removes. */
  ghost predicate HasOrganizationEvidence(log: seq<Event>, n: nat, id: Text)
    requires n <= |log|
  {
    exists i :: 0 <= i < n && ApprovalFor(log[i], id) && forall j :: i < j < n ==> !Revokes(log[j], id)
  }

  // ---- When the event log[k] may follow log[0..k] ----

  predicate SharesRepositoryCredential(a: RepositoryControl, b: RepositoryControl) {
    || a.statementHash == b.statementHash
    || a.challenge.nonce == b.challenge.nonce
    || a.signature == b.signature
    || a.forgeObservation == b.forgeObservation
  }

  predicate SharesApprovalCredential(a: Approval, b: Approval) {
    a.statementHash == b.statementHash || a.signature == b.signature
  }

  ghost predicate EnvelopeAllowed(lib: Library, trust: Trust, log: seq<Event>, k: nat)
    requires k < |log|
  {
    && ValidEvent(lib, log[k])
    && log[k].Sequence() == k + 1
    && (forall j :: 0 <= j < k ==> log[j].EventId() != log[k].EventId())
    && (forall j :: 0 <= j < k ==> Time(lib, log[j]) <= Time(lib, log[k]))
    && (trust.now.Some? ==> Time(lib, log[k]) <= trust.now.value)
  }

  /** The challenge was issued and observed strictly after every earlier repository revocation. */
  ghost predicate RepositoryFresh(lib: Library, log: seq<Event>, k: nat)
    requires k < |log| && log[k].RepositoryEvent?
  {
    var e := log[k].repository;
    forall j :: 0 <= j < k && RevokesRepository(log[j], e.subject.registrationId) ==>
      Time(lib, log[j]) < lib.date(e.challenge.issuedAt) && Time(lib, log[j]) < lib.date(e.forgeObservation.observedAt)
  }

  ghost predicate RepositoryAllowed(lib: Library, trust: Trust, subjects: map<Text, Subject>, log: seq<Event>, k: nat)
    requires k < |log| && log[k].RepositoryEvent?
  {
    var e := log[k].repository;
    && e.subject.registrationId in subjects
    && subjects[e.subject.registrationId] == e.subject
    && (forall j :: 0 <= j < k && log[j].RepositoryEvent? ==> !SharesRepositoryCredential(log[j].repository, e))
    && RepositoryFresh(lib, log, k)
    && RepositorySigned(lib, e)
    && trust.repositoryVerifier.Some?
    && trust.repositoryVerifier.value(e)
  }

  /** Approved strictly after every earlier revocation, and not before any repository evidence. */
  ghost predicate ApprovalFresh(lib: Library, log: seq<Event>, k: nat)
    requires k < |log| && log[k].OrganizationEvent?
  {
    var e := log[k].organization;
    var approvedAt := lib.date(e.approval.approvedAt);
    && (forall j :: 0 <= j < k && Revokes(log[j], e.subject.registrationId) ==> Time(lib, log[j]) < approvedAt)
    && (forall j :: 0 <= j < k && RepositoryFor(log[j], e.subject.registrationId) ==> Time(lib, log[j]) <= approvedAt)
    && approvedAt <= Time(lib, log[k])
  }

  ghost predicate OrganizationAllowed(lib: Library, trust: Trust, subjects: map<Text, Subject>, log: seq<Event>, k: nat)
    requires k < |log| && log[k].OrganizationEvent?
  {
    var e := log[k].organization;
    && e.subject.registrationId in subjects
    && subjects[e.subject.registrationId] == e.subject
    && e.approval.subject == e.subject
    && HasRepositoryEvidence(log, k, e.subject.registrationId)
    && (forall j :: 0 <= j < k && log[j].OrganizationEvent? ==>
          !SharesApprovalCredential(log[j].organization.approval, e.approval))
    && ApprovalFresh(lib, log, k)
    && ApprovalSigned(lib, trust, e.approval)
  }

  /** The conflicts seeded by the base subjects, and the two registrations of each. */
  type Seeds = map<Text, seq<Text>>

  ghost predicate OpenedAllowed(lib: Library, subjects: map<Text, Subject>, seeds: Seeds, log: seq<Event>, k: nat)
    requires k < |log| && log[k].OpenedEvent?
  {
    var e := log[k].opening;
    var c := e.conflictId;
    && ChallengeSigned(lib, subjects, e)
    && (c in seeds ==> e.challengedRegistrationId in seeds[c] && e.challengerRegistrationId in seeds[c])
    && (c !in seeds ==> forall j :: 0 <= j < k && Opens(log[j], c) ==> SameParties(log[j].opening, e))
    && (forall j :: 0 <= j < k ==> !Resolves(log[j], c))
  }

  predicate SameParties(a: ChallengeOpened, b: ChallengeOpened) {
    {a.challengedRegistrationId, a.challengerRegistrationId} == {b.challengedRegistrationId, b.challengerRegistrationId}
  }

  ghost predicate ResolvedAllowed(lib: Library, trust: Trust, log: seq<Event>, k: nat)
    requires k < |log| && log[k].ResolvedEvent?
  {
    var e := log[k].resolution;
    && AdminSigned(lib, trust, e.adminSignerId, Resolved(e), e.statementHash, e.signature)
    && (exists j :: 0 <= j < k && Opens(log[j], e.conflictId))
    && (forall j :: 0 <= j < k ==> !Resolves(log[j], e.conflictId))
  }

  ghost predicate RevokedAllowed(lib: Library, trust: Trust, subjects: map<Text, Subject>, log: seq<Event>, k: nat)
    requires k < |log| && log[k].RevokedEvent?
  {
    var e := log[k].revocation;
    && AdminSigned(lib, trust, e.adminSignerId, Revoked(e), e.statementHash, e.signature)
    && e.registrationId in subjects
    && (e.level == RepositoryLevel ==> HasRepositoryEvidence(log, k, e.registrationId))
    && (e.level == OrganizationLevel ==> HasOrganizationEvidence(log, k, e.registrationId))
  }

  ghost predicate KindAllowed(
    lib: Library, trust: Trust, subjects: map<Text, Subject>, seeds: Seeds, log: seq<Event>, k: nat)
    requires k < |log|
  {
    match log[k]
    case RepositoryEvent(_) => RepositoryAllowed(lib, trust, subjects, log, k)
    case OrganizationEvent(_) => OrganizationAllowed(lib, trust, subjects, log, k)
    case OpenedEvent(_) => OpenedAllowed(lib, subjects, seeds, log, k)
    case ResolvedEvent(_) => ResolvedAllowed(lib, trust, log, k)
    case RevokedEvent(_) => RevokedAllowed(lib, trust, subjects, log, k)
  }

  ghost predicate Allowed(
    lib: Library, trust: Trust, subjects: map<Text, Subject>, seeds: Seeds, log: seq<Event>, k: nat)
    requires k < |log|
  {
    EnvelopeAllowed(lib, trust, log, k) && KindAllowed(lib, trust, subjects, seeds, log, k)
  }

  /** Each of the first n events was allowed when it came. */
  ghost predicate Accepted(
    lib: Library, trust: Trust, subjects: map<Text, Subject>, seeds: Seeds, log: seq<Event>, n: nat)
    requires n <= |log|
  {
    forall k :: 0 <= k < n ==> Allowed(lib, trust, subjects, seeds, log, k)
  }

  lemma AcceptedTimes(
    lib: Library, trust: Trust, subjects: map<Text, Subject>, seeds: Seeds, log: seq<Event>, n: nat, i: nat, j: nat)
    requires n <= |log| && Accepted(lib, trust, subjects, seeds, log, n) && i <= j < n
    ensures Time(lib, log[i]) <= Time(lib, log[j])
  {
    assert Allowed(lib, trust, subjects, seeds, log, j);
  }

  // ---- The same notions, event by event ----

  function RepositoryActive(log: seq<Event>, n: nat, id: Text): (r: bool)
    requires n <= |log|
    ensures r <==> HasRepositoryEvidence(log, n, id)
  {
    if n == 0 then false
    else if RevokesRepository(log[n - 1], id) then false
    else RepositoryFor(log[n - 1], id) || RepositoryActive(log, n - 1, id)
  }

  function OrganizationActive(log: seq<Event>, n: nat, id: Text): (r: bool)
    requires n <= |log|
    ensures r <==> HasOrganizationEvidence(log, n, id)
  {
    if n == 0 then false
    else if Revokes(log[n - 1], id) then false
    else ApprovalFor(log[n - 1], id) || OrganizationActive(log, n - 1, id)
  }

  /** What to look for in a log. */
  datatype Query =
    | RepositoryEvidence(id: Text)
    | Approvals(id: Text)
    | Evidence(id: Text)
    | RepositoryRevocations(id: Text)
    | Revocations(id: Text)
    | Openings(id: Text)
    | ConflictEvents(id: Text)

  predicate Matches(q: Query, e: Event) {
    match q
    case RepositoryEvidence(id) => RepositoryFor(e, id)
    case Approvals(id) => ApprovalFor(e, id)
    case Evidence(id) => RepositoryFor(e, id) || ApprovalFor(e, id)
    case RepositoryRevocations(id) => RevokesRepository(e, id)
    case Revocations(id) => Revokes(e, id)
    case Openings(c) => Opens(e, c)
    case ConflictEvents(c) => Opens(e, c) || Resolves(e, c)
  }

  /** The time of the last matching event. */
  function LastTime(lib: Library, log: seq<Event>, n: nat, q: Query): Option<int>
    requires n <= |log|
  {
    if n == 0 then None
    else if Matches(q, log[n - 1]) then Some(Time(lib, log[n - 1]))
    else LastTime(lib, log, n - 1, q)
  }

  /** The time of the first matching event. */
  function FirstTime(lib: Library, log: seq<Event>, n: nat, q: Query): Option<int>
    requires n <= |log|
  {
    if n == 0 then None
    else if FirstTime(lib, log, n - 1, q).Some? then FirstTime(lib, log, n - 1, q)
    else if Matches(q, log[n - 1]) then Some(Time(lib, log[n - 1]))
    else None
  }

  /** The matching events, in order. */
  function Filter(log: seq<Event>, n: nat, q: Query): seq<Event>
    requires n <= |log|
  {
    if n == 0 then []
    else if Matches(q, log[n - 1]) then Filter(log, n - 1, q) + [log[n - 1]]
    else Filter(log, n - 1, q)
  }

  function Ids(events: seq<Event>): (r: seq<Text>) {
    seq(|events|, i requires 0 <= i < |events| => events[i].EventId())
  }

  /** The last matching time is the latest one when times never run backwards. */
  lemma LastTimeIsLatest(lib: Library, log: seq<Event>, n: nat, q: Query)
    requires n <= |log|
    requires forall i, j :: 0 <= i <= j < n ==> Time(lib, log[i]) <= Time(lib, log[j])
    ensures LastTime(lib, log, n, q).None? <==> forall i :: 0 <= i < n ==> !Matches(q, log[i])
    ensures LastTime(lib, log, n, q).Some? ==>
              && (forall i :: 0 <= i < n && Matches(q, log[i]) ==> Time(lib, log[i]) <= LastTime(lib, log, n, q).value)
              && (exists i :: 0 <= i < n && Matches(q, log[i]) && Time(lib, log[i]) == LastTime(lib, log, n, q).value)
  {
    if n > 0 {
      LastTimeIsLatest(lib, log, n - 1, q);
    }
  }

  lemma FirstTimeIsEarliest(lib: Library, log: seq<Event>, n: nat, q: Query)
    requires n <= |log|
    requires forall i, j :: 0 <= i <= j < n ==> Time(lib, log[i]) <= Time(lib, log[j])
    ensures FirstTime(lib, log, n, q).None? <==> forall i :: 0 <= i < n ==> !Matches(q, log[i])
    ensures FirstTime(lib, log, n, q).Some? ==>
              forall i :: 0 <= i < n && Matches(q, log[i]) ==> FirstTime(lib, log, n, q).value <= Time(lib, log[i])
    ensures FirstTime(lib, log, n, q).Some? && n > 0 ==> FirstTime(lib, log, n, q).value <= Time(lib, log[n - 1])
  {
    if n > 0 {
      FirstTimeIsEarliest(lib, log, n - 1, q);
    }
  }
}
