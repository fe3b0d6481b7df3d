/** The attestation log as an append-only log: events printed as JSON, and the reducer as the judge of a candidate. */
module EventLog {
  import opened Wrappers
  import opened Utf16
  import opened Utf8
  import opened Json
  import opened Attestations
  import opened Records
  import opened Statements
  import opened Platform
  import opened Reducer
  import opened Refinement
  import opened AttestationIndex
  import Folding
  import History
  import Reduction
  import AppendLog
  import LogClosure

  // ---- An event as a JSON object, its keys in the declared order ----

  function Kind(e: Event): Text {
    match e
    case RepositoryEvent(_) => Ascii("repository_control_verified")
    case OrganizationEvent(_) => Ascii("organization_approved")
    case OpenedEvent(_) => Ascii("challenge_opened")
    case ResolvedEvent(_) => Ascii("challenge_resolved")
    case RevokedEvent(_) => Ascii("attestation_revoked")
  }

  function RepositoryKeys(): seq<string> {
    ["type", "eventId", "sequence", "occurredAt", "subject", "challenge", "forgeObservation", "statementHash",
     "signature"]
  }

  function OrganizationKeys(): seq<string> {
    ["type", "eventId", "sequence", "occurredAt", "subject", "approval"]
  }

  function OpenedKeys(): seq<string> {
    ["type", "eventId", "sequence", "occurredAt", "conflictId", "challengedRegistrationId",
     "challengerRegistrationId", "challengerWallet", "evidenceUris", "reason", "statementHash", "signature"]
  }

  function ResolvedKeys(): seq<string> {
    ["type", "eventId", "sequence", "occurredAt", "conflictId", "outcome", "rationale", "adminSignerId",
     "statementHash", "signature"]
  }

  function RevokedKeys(): seq<string> {
    ["type", "eventId", "sequence", "occurredAt", "registrationId", "level", "reason", "adminSignerId",
     "statementHash", "signature"]
  }

  function Keys(e: Event): (keys: seq<string>) {
    match e
    case RepositoryEvent(_) => RepositoryKeys()
    case OrganizationEvent(_) => OrganizationKeys()
    case OpenedEvent(_) => OpenedKeys()
    case ResolvedEvent(_) => ResolvedKeys()
    case RevokedEvent(_) => RevokedKeys()
  }

  /** The values of an event after its four common ones. */
  function Details(e: Event): seq<Json> {
    match e
    case RepositoryEvent(r) =>
      [SubjectJson(r.subject), ChallengeJson(r.challenge), ObservationJson(r.forgeObservation), Str(r.statementHash),
       Str(r.signature)]
    case OrganizationEvent(o) => [SubjectJson(o.subject), ApprovalJson(o.approval)]
    case OpenedEvent(c) =>
      [Str(c.conflictId), Str(c.challengedRegistrationId), Str(c.challengerRegistrationId), Str(c.challengerWallet),
       Strings(c.evidenceUris), Str(ReasonText(c.reason)), Str(c.statementHash), Str(c.signature)]
    case ResolvedEvent(r) =>
      [Str(r.conflictId), Str(OutcomeText(r.outcome)), Str(r.rationale), Str(r.adminSignerId), Str(r.statementHash),
       Str(r.signature)]
    case RevokedEvent(v) =>
      [Str(v.registrationId), Str(LevelText(v.level)), Str(v.reason), Str(v.adminSignerId), Str(v.statementHash),
       Str(v.signature)]
  }

  function EventValues(e: Event): (values: seq<Json>)
    ensures |values| == |Keys(e)|
  {
    [Str(Kind(e)), Str(e.EventId()), Num(e.Sequence()), Str(e.OccurredAt())] + Details(e)
  }

  function EventJson(e: Event): Json { Object(Keys(e), EventValues(e)) }

  function Written(e: Event): Text { Render(EventJson(e)) }

  // ---- Reading an event ----

  predicate HasEnvelope(v: seq<Json>) {
    |v| >= 4 && v[1].Str? && v[2].Num? && v[3].Str?
  }

  function ReadRepository(v: seq<Json>): Option<Event>
    requires |v| == |RepositoryKeys()|
  {
    if HasEnvelope(v) && ReadSubject(v[4]).Some? && ReadChallenge(v[5]).Some? && ReadObservation(v[6]).Some?
       && v[7].Str? && v[8].Str?
    then Some(RepositoryEvent(RepositoryControl(
      v[1].s, v[2].n, v[3].s, ReadSubject(v[4]).value, ReadChallenge(v[5]).value, ReadObservation(v[6]).value,
      v[7].s, v[8].s)))
    else None
  }

  function ReadOrganization(v: seq<Json>): Option<Event>
    requires |v| == |OrganizationKeys()|
  {
    if HasEnvelope(v) && ReadSubject(v[4]).Some? && ReadApproval(v[5]).Some?
    then Some(OrganizationEvent(OrganizationApproved(
      v[1].s, v[2].n, v[3].s, ReadSubject(v[4]).value, ReadApproval(v[5]).value)))
    else None
  }

  function ReadReason(t: Text): Option<ConflictReason> {
    if t == ReasonText(DuplicateBytes) then Some(DuplicateBytes)
    else if t == ReasonText(MisattributedCreator) then Some(MisattributedCreator)
    else if t == ReasonText(UnauthorizedRegistration) then Some(UnauthorizedRegistration)
    else None
  }

  function ReadOpened(v: seq<Json>): Option<Event>
    requires |v| == |OpenedKeys()|
  {
    if HasEnvelope(v) && v[4].Str? && v[5].Str? && v[6].Str? && v[7].Str? && Texts(v[8]).Some? && v[9].Str?
       && ReadReason(v[9].s).Some? && v[10].Str? && v[11].Str?
    then Some(OpenedEvent(ChallengeOpened(
      v[1].s, v[2].n, v[3].s, v[4].s, v[5].s, v[6].s, v[7].s, Texts(v[8]).value, ReadReason(v[9].s).value, v[10].s,
      v[11].s)))
    else None
  }

  function ReadOutcome(t: Text): Option<Outcome> {
    if t == OutcomeText(Upheld) then Some(Upheld)
    else if t == OutcomeText(Rejected) then Some(Rejected)
    else if t == OutcomeText(Inconclusive) then Some(Inconclusive)
    else None
  }

  function ReadResolved(v: seq<Json>): Option<Event>
    requires |v| == |ResolvedKeys()|
  {
    if HasEnvelope(v) && AllStrings(v, 4) && ReadOutcome(v[5].s).Some?
    then Some(ResolvedEvent(ChallengeResolved(
      v[1].s, v[2].n, v[3].s, v[4].s, ReadOutcome(v[5].s).value, v[6].s, v[7].s, v[8].s, v[9].s)))
    else None
  }

  function ReadLevel(t: Text): Option<EvidenceLevel> {
    if t == LevelText(RepositoryLevel) then Some(RepositoryLevel)
    else if t == LevelText(OrganizationLevel) then Some(OrganizationLevel)
    else None
  }

  function ReadRevoked(v: seq<Json>): Option<Event>
    requires |v| == |RevokedKeys()|
  {
    if HasEnvelope(v) && AllStrings(v, 4) && ReadLevel(v[5].s).Some?
    then Some(RevokedEvent(AttestationRevoked(
      v[1].s, v[2].n, v[3].s, v[4].s, ReadLevel(v[5].s).value, v[6].s, v[7].s, v[8].s, v[9].s)))
    else None
  }

  /** The values of the exact keys that go with one type of event, read as such an event. */
  function ReadAs(j: Json, keys: seq<string>, reader: seq<Json> --> Option<Event>): Option<Event>
    requires forall v :: |v| == |keys| ==> reader.requires(v)
  {
    match Fields(j, keys)
    case None => None
    case Some(v) => reader(v)
  }

  /** The shapes parseAttestationEvent knows, by the value of `type`. */
  function EventOf(j: Json): Option<Event> {
    if !j.Obj? then None
    else
      match ValueOf(j.members, Ascii("type"))
      case Some(Str(kind)) =>
        if kind == Ascii("repository_control_verified") then ReadAs(j, RepositoryKeys(), ReadRepository)
        else if kind == Ascii("organization_approved") then ReadAs(j, OrganizationKeys(), ReadOrganization)
        else if kind == Ascii("challenge_opened") then ReadAs(j, OpenedKeys(), ReadOpened)
        else if kind == Ascii("challenge_resolved") then ReadAs(j, ResolvedKeys(), ReadResolved)
        else if kind == Ascii("attestation_revoked") then ReadAs(j, RevokedKeys(), ReadRevoked)
        else None
      case _ => None
  }

  /** parseJsonLine. */
  function ReadLine(lib: Library, t: Text): Option<Event> {
    match ParseJson(t)
    case None => None
    case Some(j) =>
      match EventOf(j)
      case None => None
      case Some(e) => if ValidEvent(lib, e) then Some(e) else None
  }

  // ---- Reading undoes printing ----

  lemma RepositoryKeysApart()
    ensures Apart(RepositoryKeys())
  {
    KeysApart(RepositoryKeys());
  }

  lemma OrganizationKeysApart()
    ensures Apart(OrganizationKeys())
  {
    KeysApart(OrganizationKeys());
  }

  lemma OpenedKeysApart()
    ensures Apart(OpenedKeys())
  {
    KeysApart(OpenedKeys());
  }

  lemma ResolvedKeysApart()
    ensures Apart(ResolvedKeys())
  {
    KeysApart(ResolvedKeys());
  }

  lemma RevokedKeysApart()
    ensures Apart(RevokedKeys())
  {
    KeysApart(RevokedKeys());
  }

  lemma EventKeysApart(e: Event)
    ensures Apart(Keys(e))
  {
    RepositoryKeysApart();
    OrganizationKeysApart();
    OpenedKeysApart();
    ResolvedKeysApart();
    RevokedKeysApart();
  }

  lemma KindsApart(e: Event)
    ensures Kind(e) == Ascii("repository_control_verified") <==> e.RepositoryEvent?
    ensures Kind(e) == Ascii("organization_approved") <==> e.OrganizationEvent?
    ensures Kind(e) == Ascii("challenge_opened") <==> e.OpenedEvent?
    ensures Kind(e) == Ascii("challenge_resolved") <==> e.ResolvedEvent?
    ensures Kind(e) == Ascii("attestation_revoked") <==> e.RevokedEvent?
  {
  }

  lemma ReadsReason(reason: ConflictReason)
    ensures ReadReason(ReasonText(reason)) == Some(reason)
  {
    ReasonInjective(reason, DuplicateBytes);
    ReasonInjective(reason, MisattributedCreator);
    ReasonInjective(reason, UnauthorizedRegistration);
  }

  lemma ReadsOutcome(outcome: Outcome)
    ensures ReadOutcome(OutcomeText(outcome)) == Some(outcome)
  {
    OutcomeInjective(outcome, Upheld);
    OutcomeInjective(outcome, Rejected);
    OutcomeInjective(outcome, Inconclusive);
  }

  lemma ReadsLevel(level: EvidenceLevel)
    ensures ReadLevel(LevelText(level)) == Some(level)
  {
    LevelInjective(level, RepositoryLevel);
    LevelInjective(level, OrganizationLevel);
  }

  lemma ReadsRepository(e: Event)
    requires e.RepositoryEvent?
    ensures ReadRepository(EventValues(e)) == Some(e)
  {
    ReadsSubject(e.repository.subject);
    ReadsChallenge(e.repository.challenge);
    ReadsObservation(e.repository.forgeObservation);
  }

  lemma ReadsOrganization(e: Event)
    requires e.OrganizationEvent?
    ensures ReadOrganization(EventValues(e)) == Some(e)
  {
    ReadsSubject(e.organization.subject);
    ReadsApproval(e.organization.approval);
  }

  lemma ReadsOpened(e: Event)
    requires e.OpenedEvent?
    ensures ReadOpened(EventValues(e)) == Some(e)
  {
    TextsOfPrinted(e.opening.evidenceUris);
    ReadsReason(e.opening.reason);
  }

  lemma ReadsResolved(e: Event)
    requires e.ResolvedEvent?
    ensures ReadResolved(EventValues(e)) == Some(e)
  {
    ReadsOutcome(e.resolution.outcome);
  }

  lemma ReadsRevoked(e: Event)
    requires e.RevokedEvent?
    ensures ReadRevoked(EventValues(e)) == Some(e)
  {
    ReadsLevel(e.revocation.level);
  }

  lemma TypeOfPrinted(e: Event)
    ensures ValueOf(EventJson(e).members, Ascii("type")) == Some(Str(Kind(e)))
  {
    var members := EventJson(e).members;
    EventKeysApart(e);
    assert members[0] == Member(Ascii("type"), Str(Kind(e)));
    ValueOfOnly(members, 0);
  }

  /** The reader gives back every printed event. */
  lemma ReadsEvent(e: Event)
    ensures EventOf(EventJson(e)) == Some(e)
  {
    TypeOfPrinted(e);
    KindsApart(e);
    EventKeysApart(e);
    FieldsOfPrinted(Keys(e), EventValues(e));
    match e
    case RepositoryEvent(_) => ReadsRepository(e);
    case OrganizationEvent(_) => ReadsOrganization(e);
    case OpenedEvent(_) => ReadsOpened(e);
    case ResolvedEvent(_) => ReadsResolved(e);
    case RevokedEvent(_) => ReadsRevoked(e);
  }

  /** A printed event is read back exactly when the parser accepts it. */
  lemma ReadsWritten(lib: Library, e: Event)
    ensures ReadLine(lib, Written(e)) == if ValidEvent(lib, e) then Some(e) else None
  {
    assert Written(e) + [] == Written(e);
    ParsesRendered(EventJson(e), []);
    ReadsEvent(e);
  }

  // ---- The judge ----

  /** The trust of a store whose repository verifier reads the clock as well. */
  function TrustAt(trust: Trust, verifier: (int, RepositoryControl) -> bool, now: int): Trust {
    trust.(now := Some(now), repositoryVerifier := Some((e: RepositoryControl) => verifier(now, e)))
  }

  /** What the verifier accepts it goes on accepting. */
  ghost predicate LastingVerifier(verifier: (int, RepositoryControl) -> bool) {
    forall now, later, e {:trigger verifier(now, e), verifier(later, e)} ::
      now <= later && verifier(now, e) ==> verifier(later, e)
  }

  /** validateEvents at a time: the reducer accepts the whole candidate. */
  predicate Accepts(
    lib: Library, trust: Trust, verifier: (int, RepositoryControl) -> bool, now: int, events: seq<Event>)
  {
    var at := TrustAt(trust, verifier, now);
    && ValidTrust(at)
    && SubjectMap(at.baseSubjects, |at.baseSubjects|).Ok?
    && Run(lib, at, SubjectMap(at.baseSubjects, |at.baseSubjects|).value, BaseOf(lib, at), events, |events|).Ok?
  }

  function CodecOf(lib: Library, trust: Trust, verifier: (int, RepositoryControl) -> bool): AppendLog.Codec<Event> {
    AppendLog.Codec((e: Event) => Written(e), (t: Text) => ReadLine(lib, t),
                    (now: int, events: seq<Event>) => Accepts(lib, trust, verifier, now, events))
  }

  lemma WrittenLine(e: Event)
    ensures Written(e) != [] && LF !in Written(e) && WellFormed(Written(e))
  {
    RenderStart(EventJson(e));
    RenderClean(EventJson(e));
    LineFree(Written(e));
  }

  lemma LineFree(t: Text)
    requires Clean(t)
    ensures LF !in t
  {
    forall i | 0 <= i < |t|
      ensures t[i] != LF
    {
      assert !IsControl(t[i]);
    }
  }

  /** Every event of an accepted candidate is one the parser accepts. */
  lemma AcceptedValid(
    lib: Library, trust: Trust, verifier: (int, RepositoryControl) -> bool, now: int, events: seq<Event>, i: nat)
    requires Accepts(lib, trust, verifier, now, events) && i < |events|
    ensures ValidEvent(lib, events[i])
  {
    var at := TrustAt(trust, verifier, now);
    var list := at.baseSubjects;
    var subjects := SubjectMap(list, |list|).value;
    SubjectMapHolds(list, |list|);
    HoldsIndexed(list, subjects);
    SeedsKeyed(lib, at);
    Reduction.RunRefinesHistory(lib, at, subjects, BaseOf(lib, at), events, |events|);
    AllowedValid(lib, at, subjects, Seeded(BaseOf(lib, at)), events, i);
  }

  lemma AllowedValid(
    lib: Library, trust: Trust, subjects: Subjects, seeds: History.Seeds, events: seq<Event>, i: nat)
    requires i < |events| && History.Accepted(lib, trust, subjects, seeds, events, |events|)
    ensures ValidEvent(lib, events[i])
  {
    assert History.Allowed(lib, trust, subjects, seeds, events, i);
  }

  lemma VerifierFollows(trust: Trust, verifier: (int, RepositoryControl) -> bool, now: int, later: int)
    requires LastingVerifier(verifier) && now <= later
    ensures LogClosure.NotStricter(TrustAt(trust, verifier, now), TrustAt(trust, verifier, later))
  {
  }

  lemma RunFollows(lib: Library, t: Trust, u: Trust, subjects: Subjects, base: Base, events: seq<Event>)
    requires LogClosure.NotStricter(t, u) && LogClosure.NotEarlier(t, u)
    requires Run(lib, t, subjects, base, events, |events|).Ok?
    ensures Run(lib, u, subjects, base, events, |events|).Ok?
  {
    LogClosure.TurnsFollow(lib, t, u, subjects);
    Folding.FoldFollows(
      TurnOf(lib, t, subjects), TurnOf(lib, u, subjects), InitialState(subjects, base), events, |events|);
  }

  lemma TrustAtKeeps(
    lib: Library, trust: Trust, verifier: (int, RepositoryControl) -> bool, now: int, later: int)
    ensures BaseOf(lib, TrustAt(trust, verifier, now)) == BaseOf(lib, TrustAt(trust, verifier, later))
    ensures ValidTrust(TrustAt(trust, verifier, now)) ==> ValidTrust(TrustAt(trust, verifier, later))
  {
  }

  /** What the reducer accepts it accepts at every later time. */
  lemma AcceptedLater(
    lib: Library, trust: Trust, verifier: (int, RepositoryControl) -> bool, now: int, later: int, events: seq<Event>)
    requires LastingVerifier(verifier) && Accepts(lib, trust, verifier, now, events) && now <= later
    ensures Accepts(lib, trust, verifier, later, events)
  {
    var t, u := TrustAt(trust, verifier, now), TrustAt(trust, verifier, later);
    VerifierFollows(trust, verifier, now, later);
    TrustAtKeeps(lib, trust, verifier, now, later);
    RunFollows(lib, t, u, SubjectMap(t.baseSubjects, |t.baseSubjects|).value, BaseOf(lib, t), events);
  }

  /** The log store may be run with the reducer as its judge: all its guarantees hold of attestation events. */
  lemma EventCodecSound(lib: Library, trust: Trust, verifier: (int, RepositoryControl) -> bool)
    requires LastingVerifier(verifier)
    ensures AppendLog.Sound(CodecOf(lib, trust, verifier))
  {
    var c := CodecOf(lib, trust, verifier);
    assert AppendLog.PrintSound(c) by {
      forall e {:trigger c.write(e)}
        ensures c.write(e) != [] && LF !in c.write(e) && WellFormed(c.write(e))
      {
        WrittenLine(e);
      }
      forall t, entries, i {:trigger c.accepts(t, entries), entries[i]} | c.accepts(t, entries) && 0 <= i < |entries|
        ensures c.read(c.write(entries[i])) == Some(entries[i])
      {
        AcceptedValid(lib, trust, verifier, t, entries, i);
        ReadsWritten(lib, entries[i]);
      }
    }
    assert AppendLog.Lasting(c) by {
      forall t, u, entries {:trigger c.accepts(t, entries), c.accepts(u, entries)} | t <= u && c.accepts(t, entries)
        ensures c.accepts(u, entries)
      {
        AcceptedLater(lib, trust, verifier, t, u, entries);
      }
    }
  }
}
