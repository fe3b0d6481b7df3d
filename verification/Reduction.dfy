/**
 reduceAttestationEvents as a whole: a loop over the log that accepts exactly the logs each of whose events
 the history allowed, and answers an index that reads the history.
 */
module Reduction {
  import opened Wrappers
  import opened Utf16
  import opened Attestations
  import opened Statements
  import opened Platform
  import opened Reducer
  import opened History
  import opened Refinement

  // ---- One step and whole runs ----

  lemma OrderedStep(lib: Library, trust: Trust, log: seq<Event>, n: nat)
    requires n < |log| && Ordered(lib, log, n) && EnvelopeAllowed(lib, trust, log, n)
    ensures Ordered(lib, log, n + 1)
  {
    assert forall j :: 0 <= j < n ==> Time(lib, log[j]) <= Time(lib, log[n]);
  }

  lemma EvidenceStep(lib: Library, trust: Trust, subjects: Subjects, base: Base, log: seq<Event>, n: nat, st: State)
    requires n < |log| && Indexed(subjects) && Ordered(lib, log, n) && Ordered(lib, log, n + 1)
    requires !log[n].OpenedEvent? && !log[n].ResolvedEvent?
    requires ReadsRegistrations(lib, subjects, log, n, st) && st.consumed == ConsumedBy(log, n)
    ensures var r := ApplyKind(lib, trust, subjects, st, log[n]);
            && (r.Ok? <==> KindAllowed(lib, trust, subjects, Seeded(base), log, n))
            && r != Err(RevocationPrecedesEvidence)
            && r != Err(ResolutionPrecedesChallenge)
  {
    match log[n]
    case RepositoryEvent(e) => RepositoryStep(lib, trust, subjects, base, log, n, st);
    case OrganizationEvent(e) => OrganizationStep(lib, trust, subjects, log, n, st);
    case RevokedEvent(e) => RevokedStep(lib, trust, subjects, log, n, st);
  }

  lemma DisputeStep(lib: Library, trust: Trust, subjects: Subjects, base: Base, log: seq<Event>, n: nat, st: State)
    requires n < |log| && Accepted(lib, trust, subjects, Seeded(base), log, n) && Ordered(lib, log, n + 1)
    requires log[n].OpenedEvent? || log[n].ResolvedEvent?
    requires log[n].OpenedEvent? ==>
               log[n].opening.challengedRegistrationId != log[n].opening.challengerRegistrationId
    requires ReadsConflicts(subjects, base, log, n, st) && ReadsOpenings(lib, log, n, st)
    ensures var r := ApplyKind(lib, trust, subjects, st, log[n]);
            && (r.Ok? <==> KindAllowed(lib, trust, subjects, Seeded(base), log, n))
            && r != Err(RevocationPrecedesEvidence)
            && r != Err(ResolutionPrecedesChallenge)
  {
    match log[n]
    case OpenedEvent(e) => OpenedStep(lib, trust, subjects, base, log, n, st);
    case ResolvedEvent(e) => ResolvedStep(lib, trust, subjects, base, log, n, st);
  }

  lemma KindReads(lib: Library, trust: Trust, subjects: Subjects, base: Base, log: seq<Event>, n: nat, st: State)
    requires n < |log| && Indexed(subjects) && Accepted(lib, trust, subjects, Seeded(base), log, n)
    requires Ordered(lib, log, n + 1) && Reads(lib, subjects, base, log, n, st)
    requires ApplyKind(lib, trust, subjects, Seen(lib, st, log[n]), log[n]).Ok?
    ensures Reads(lib, subjects, base, log, n + 1,
                  ApplyKind(lib, trust, subjects, Seen(lib, st, log[n]), log[n]).value)
  {
    var seen := Seen(lib, st, log[n]);
    SeenReads(lib, log, n, st);
    assert ReadsRegistrations(lib, subjects, log, n, seen);
    assert ReadsConflicts(subjects, base, log, n, seen);
    assert ReadsOpenings(lib, log, n, seen);
    match log[n]
    case RepositoryEvent(e) =>
      RepositoryReads(lib, trust, subjects, log, n, seen);
      ConflictsUnaffected(subjects, base, log, n, seen);
      OpeningsUnaffected(lib, log, n, seen);
    case OrganizationEvent(e) =>
      OrganizationReads(lib, trust, subjects, log, n, seen);
      ConflictsUnaffected(subjects, base, log, n, seen);
      OpeningsUnaffected(lib, log, n, seen);
    case OpenedEvent(e) =>
      OpenedReads(lib, trust, subjects, base, log, n, seen);
      RegistrationsUnaffected(lib, subjects, log, n, seen);
      ConsumedByNone(log, n);
    case ResolvedEvent(e) =>
      ResolvedReads(lib, trust, subjects, base, log, n, seen);
      RegistrationsUnaffected(lib, subjects, log, n, seen);
      OpeningsUnaffected(lib, log, n, seen);
      ConsumedByNone(log, n);
    case RevokedEvent(e) =>
      RevokedReads(lib, trust, subjects, log, n, seen);
      ConflictsUnaffected(subjects, base, log, n, seen);
      OpeningsUnaffected(lib, log, n, seen);
      ConsumedByNone(log, n);
  }

  /** One turn of the loop accepts an event exactly when the history allows it, and never meets the two dead guards. */
  lemma StepRefines(lib: Library, trust: Trust, subjects: Subjects, base: Base, log: seq<Event>, n: nat, st: State)
    requires n < |log| && Indexed(subjects) && Accepted(lib, trust, subjects, Seeded(base), log, n)
    requires Reads(lib, subjects, base, log, n, st)
    ensures var r := Step(lib, trust, subjects, st, n, log[n]);
            && (r.Ok? <==> Accepted(lib, trust, subjects, Seeded(base), log, n + 1))
            && (r.Ok? ==> Reads(lib, subjects, base, log, n + 1, r.value))
            && r != Err(RevocationPrecedesEvidence)
            && r != Err(ResolutionPrecedesChallenge)
  {
    AcceptedStep(lib, trust, subjects, Seeded(base), log, n);
    AcceptedOrdered(lib, trust, subjects, Seeded(base), log, n);
    EnvelopeStep(lib, trust, log, n, st);
    if CheckEnvelope(lib, trust, st, n, log[n]).None? {
      OrderedStep(lib, trust, log, n);
      if log[n].OpenedEvent? || log[n].ResolvedEvent? {
        DisputeStep(lib, trust, subjects, base, log, n, Seen(lib, st, log[n]));
      } else {
        EvidenceStep(lib, trust, subjects, base, log, n, Seen(lib, st, log[n]));
      }
      if ApplyKind(lib, trust, subjects, Seen(lib, st, log[n]), log[n]).Ok? {
        KindReads(lib, trust, subjects, base, log, n, st);
      }
    }
  }

  lemma InitialReads(lib: Library, subjects: Subjects, base: Base, log: seq<Event>)
    requires Indexed(subjects) && FreshBase(base)
    ensures Reads(lib, subjects, base, log, 0, InitialState(subjects, base))
  {
    var st := InitialState(subjects, base);
    forall id: Text
      ensures Lookup(st.registrations, id) == RegistrationAt(lib, subjects, log, 0, id)
    {
      assert Ids([]) == [];
    }
    forall c: Text
      ensures Lookup(st.conflicts, c) == ConflictOf(subjects, base, log, 0, c)
    {
      assert Ids([]) == [];
    }
  }

  lemma AcceptedStep(lib: Library, trust: Trust, subjects: Subjects, seeds: Seeds, log: seq<Event>, n: nat)
    requires n < |log|
    ensures Accepted(lib, trust, subjects, seeds, log, n + 1)
       <==> Accepted(lib, trust, subjects, seeds, log, n) && Allowed(lib, trust, subjects, seeds, log, n)
  {
  }

  /** The reducer accepts a log exactly when each event was allowed when it came, and then reads the whole log. */
  lemma {:induction false} RunRefinesHistory(
    lib: Library, trust: Trust, subjects: Subjects, base: Base, log: seq<Event>, n: nat)
    requires n <= |log| && Indexed(subjects) && FreshBase(base)
    ensures Run(lib, trust, subjects, base, log, n).Ok? <==> Accepted(lib, trust, subjects, Seeded(base), log, n)
    ensures Run(lib, trust, subjects, base, log, n).Ok? ==>
              Reads(lib, subjects, base, log, n, Run(lib, trust, subjects, base, log, n).value)
    ensures Run(lib, trust, subjects, base, log, n) != Err(RevocationPrecedesEvidence)
    ensures Run(lib, trust, subjects, base, log, n) != Err(ResolutionPrecedesChallenge)
  {
    if n == 0 {
      InitialReads(lib, subjects, base, log);
    } else {
      RunRefinesHistory(lib, trust, subjects, base, log, n - 1);
      if Run(lib, trust, subjects, base, log, n - 1).Ok? {
        StepRefines(lib, trust, subjects, base, log, n - 1, Run(lib, trust, subjects, base, log, n - 1).value);
      }
    }
  }
}
