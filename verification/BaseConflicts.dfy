/**
 The conflicts that the base registrations alone give rise to: equal bytes under different wallets
 (phase0/src/attestations.ts, lines 747-750 and 805-824).
 */
module BaseConflicts {
  import opened Wrappers
  import opened Utf16
  import opened Attestations
  import opened Platform
  import opened Reducer

  /** The two identifiers in ordinal order, on two lines. */
  function PairText(a: Text, b: Text): Text {
    var pair := SortedPair(a, b);
    assert |multiset(pair)| == 2;
    pair[0] + [LF] + pair[1]
  }

  /** deterministicConflictId. */
  function ConflictId(lib: Library, a: Subject, b: Subject): Text {
    Ascii("sha256:") + lib.sha256(PairText(a.registrationId, b.registrationId))
  }

  predicate Clash(a: Subject, b: Subject) { a.artifactHash == b.artifactHash && a.wallet != b.wallet }

  function SeedConflict(lib: Library, a: Subject, b: Subject): Conflict {
    Conflict(ConflictId(lib, a, b), Some(b.artifactHash), SortedPair(a.registrationId, b.registrationId),
             DuplicateBytes, None, [])
  }

  /** How a clashing pair is filed. */
  datatype Naming = Naming(id: (Subject, Subject) -> Text, record: (Subject, Subject) -> Conflict)

  /** As the source files it. */
  function Filed(lib: Library): Naming {
    Naming((a, b) => ConflictId(lib, a, b), (a, b) => SeedConflict(lib, a, b))
  }

  predicate IsSeed(naming: Naming, a: Subject, b: Subject, c: Text, v: Conflict) {
    Clash(a, b) && c == naming.id(a, b) && v == naming.record(a, b)
  }

  /** Two of the first n subjects clash in the conflict v. */
  ghost predicate Seeded(naming: Naming, subjects: seq<Subject>, n: nat, c: Text, v: Conflict)
    requires n <= |subjects|
  {
    exists i, j {:trigger IsSeed(naming, subjects[i], subjects[j], c, v)} ::
      0 <= i < j < n && IsSeed(naming, subjects[i], subjects[j], c, v)
  }

  ghost predicate OnlySeeds(naming: Naming, subjects: seq<Subject>, n: nat, conflicts: map<Text, Conflict>)
    requires n <= |subjects|
  {
    forall c :: c in conflicts ==> Seeded(naming, subjects, n, c, conflicts[c])
  }

  ghost predicate AllSeeds(naming: Naming, subjects: seq<Subject>, n: nat, conflicts: map<Text, Conflict>)
    requires n <= |subjects|
  {
    forall i, j {:trigger Clash(subjects[i], subjects[j])} :: 0 <= i < j < n && Clash(subjects[i], subjects[j]) ==>
      naming.id(subjects[i], subjects[j]) in conflicts
  }

  /** Every clash of two of the first n subjects has its conflict, and there is no other conflict. */
  ghost predicate Seeds(naming: Naming, subjects: seq<Subject>, n: nat, conflicts: map<Text, Conflict>)
    requires n <= |subjects|
  {
    AllSeeds(naming, subjects, n, conflicts) && OnlySeeds(naming, subjects, n, conflicts)
  }

  // ---- The loops of the source ----

  /** The positions below n of the subjects with these bytes, in order: the group the source keeps for them. */
  function Group(subjects: seq<Subject>, n: nat, h: Text): (r: seq<nat>)
    requires n <= |subjects|
    ensures forall k :: 0 <= k < |r| ==> r[k] < n && subjects[r[k]].artifactHash == h
    ensures forall i :: 0 <= i < n && subjects[i].artifactHash == h ==> i in r
  {
    if n == 0 then []
    else if subjects[n - 1].artifactHash == h then Group(subjects, n - 1, h) + [n - 1]
    else Group(subjects, n - 1, h)
  }

  /** The conflicts once a subject has been compared with the first k of a group. */
  function WithGroup(
    naming: Naming, subjects: seq<Subject>, index: nat, group: seq<nat>, k: nat, was: map<Text, Conflict>)
    : map<Text, Conflict>
    requires index < |subjects| && k <= |group| && forall m :: 0 <= m < |group| ==> group[m] < index
  {
    if k == 0 then was
    else
      var before := WithGroup(naming, subjects, index, group, k - 1, was);
      var prior, subject := subjects[group[k - 1]], subjects[index];
      if prior.wallet == subject.wallet then before
      else before[naming.id(prior, subject) := naming.record(prior, subject)]
  }

  /** The conflicts the first n subjects seed. */
  function SeedMap(naming: Naming, subjects: seq<Subject>, n: nat): map<Text, Conflict>
    requires n <= |subjects|
  {
    if n == 0 then map[]
    else
      var group := Group(subjects, n - 1, subjects[n - 1].artifactHash);
      WithGroup(naming, subjects, n - 1, group, |group|, SeedMap(naming, subjects, n - 1))
  }

  function GroupIn(byHash: map<Text, seq<nat>>, h: Text): seq<nat> { if h in byHash then byHash[h] else [] }

  ghost predicate Grouped(subjects: seq<Subject>, n: nat, byHash: map<Text, seq<nat>>)
    requires n <= |subjects|
  {
    forall h :: GroupAt(subjects, n, byHash, h)
  }

  predicate GroupAt(subjects: seq<Subject>, n: nat, byHash: map<Text, seq<nat>>, h: Text)
    requires n <= |subjects|
  {
    GroupIn(byHash, h) == Group(subjects, n, h)
  }

  lemma GroupsGrow(subjects: seq<Subject>, n: nat, byHash: map<Text, seq<nat>>, h: Text, group: seq<nat>)
    requires n < |subjects| && Grouped(subjects, n, byHash)
    requires h == subjects[n].artifactHash && group == GroupIn(byHash, h)
    ensures Grouped(subjects, n + 1, byHash[h := group + [n]])
  {
    var after, next := byHash[h := group + [n]], n + 1;
    forall other: Text
      ensures GroupAt(subjects, next, after, other)
    {
      assert GroupAt(subjects, n, byHash, other) && GroupAt(subjects, n, byHash, h);
    }
  }

  method SeedConflicts(naming: Naming, subjects: seq<Subject>) returns (conflicts: map<Text, Conflict>)
    ensures conflicts == SeedMap(naming, subjects, |subjects|)
  {
    conflicts := map[];
    var byHash: map<Text, seq<nat>> := map[];
    for index := 0 to |subjects|
      invariant conflicts == SeedMap(naming, subjects, index)
      invariant Grouped(subjects, index, byHash)
    {
      var subject := subjects[index];
      var group := GroupIn(byHash, subject.artifactHash);
      assert GroupAt(subjects, index, byHash, subject.artifactHash);
      conflicts := ClashWithGroup(naming, subjects, index, group, conflicts);
      GroupsGrow(subjects, index, byHash, subject.artifactHash, group);
      byHash := byHash[subject.artifactHash := group + [index]];
    }
  }

  /** The inner loop: one subject against the earlier subjects with the same bytes. */
  method ClashWithGroup(
    naming: Naming, subjects: seq<Subject>, index: nat, group: seq<nat>, was: map<Text, Conflict>)
    returns (conflicts: map<Text, Conflict>)
    requires index < |subjects| && forall m :: 0 <= m < |group| ==> group[m] < index
    ensures conflicts == WithGroup(naming, subjects, index, group, |group|, was)
  {
    conflicts := was;
    var subject := subjects[index];
    for k := 0 to |group|
      invariant conflicts == WithGroup(naming, subjects, index, group, k, was)
    {
      var prior := subjects[group[k]];
      if prior.wallet != subject.wallet {
        conflicts := conflicts[naming.id(prior, subject) := naming.record(prior, subject)];
      }
    }
  }

  // ---- They record every clash, and nothing else ----

  /** The conflicts of the subject with the first k of its group are recorded. */
  ghost predicate Met(
    naming: Naming, subjects: seq<Subject>, index: nat, group: seq<nat>, k: nat, conflicts: map<Text, Conflict>)
    requires index < |subjects| && k <= |group|
  {
    forall m :: 0 <= m < k ==> MetOne(naming, subjects, index, group[m], conflicts)
  }

  ghost predicate MetOne(naming: Naming, subjects: seq<Subject>, index: nat, i: nat, conflicts: map<Text, Conflict>)
    requires index < |subjects|
  {
    i < index && (Clash(subjects[i], subjects[index]) ==> naming.id(subjects[i], subjects[index]) in conflicts)
  }

  lemma MetGrow(
    naming: Naming, subjects: seq<Subject>, index: nat, group: seq<nat>, k: nat, was: map<Text, Conflict>,
    conflicts: map<Text, Conflict>)
    requires index < |subjects| && k < |group| && Met(naming, subjects, index, group, k, was)
    requires forall c :: c in was ==> c in conflicts
    requires MetOne(naming, subjects, index, group[k], conflicts)
    ensures Met(naming, subjects, index, group, k + 1, conflicts)
  {
  }

  lemma {:induction false} WithGroupMeets(
    naming: Naming, subjects: seq<Subject>, index: nat, group: seq<nat>, k: nat, was: map<Text, Conflict>)
    requires index < |subjects| && k <= |group| && OnlySeeds(naming, subjects, index + 1, was)
    requires forall m :: 0 <= m < |group| ==>
               group[m] < index && subjects[group[m]].artifactHash == subjects[index].artifactHash
    ensures var now := WithGroup(naming, subjects, index, group, k, was);
            && (forall c :: c in was ==> c in now)
            && Met(naming, subjects, index, group, k, now)
            && OnlySeeds(naming, subjects, index + 1, now)
  {
    if k > 0 {
      WithGroupMeets(naming, subjects, index, group, k - 1, was);
      var before := WithGroup(naming, subjects, index, group, k - 1, was);
      var now := WithGroup(naming, subjects, index, group, k, was);
      if subjects[group[k - 1]].wallet != subjects[index].wallet {
        OnlySeedsAdd(naming, subjects, group[k - 1], index, before);
      }
      MetGrow(naming, subjects, index, group, k - 1, before, now);
    }
  }

  lemma {:induction false} SeedMapSeeds(naming: Naming, subjects: seq<Subject>, n: nat)
    requires n <= |subjects|
    ensures Seeds(naming, subjects, n, SeedMap(naming, subjects, n))
  {
    if n > 0 {
      SeedMapSeeds(naming, subjects, n - 1);
      var was, group := SeedMap(naming, subjects, n - 1), Group(subjects, n - 1, subjects[n - 1].artifactHash);
      OnlySeedsGrow(naming, subjects, n - 1, was);
      WithGroupMeets(naming, subjects, n - 1, group, |group|, was);
      AllSeedsGrow(naming, subjects, n - 1, group, was, SeedMap(naming, subjects, n));
    }
  }

  lemma AllSeedsGrow(
    naming: Naming, subjects: seq<Subject>, index: nat, group: seq<nat>, was: map<Text, Conflict>,
    conflicts: map<Text, Conflict>)
    requires index < |subjects| && AllSeeds(naming, subjects, index, was) && forall c :: c in was ==> c in conflicts
    requires forall i :: 0 <= i < index && subjects[i].artifactHash == subjects[index].artifactHash ==> i in group
    requires Met(naming, subjects, index, group, |group|, conflicts)
    ensures AllSeeds(naming, subjects, index + 1, conflicts)
  {
    forall i, j | 0 <= i < j < index + 1 && Clash(subjects[i], subjects[j])
      ensures naming.id(subjects[i], subjects[j]) in conflicts
    {
      if j == index {
        var m :| 0 <= m < |group| && group[m] == i;
        assert MetOne(naming, subjects, index, group[m], conflicts);
      } else {
        assert naming.id(subjects[i], subjects[j]) in was;
      }
    }
  }

  lemma OnlySeedsGrow(naming: Naming, subjects: seq<Subject>, n: nat, m: map<Text, Conflict>)
    requires n < |subjects| && OnlySeeds(naming, subjects, n, m)
    ensures OnlySeeds(naming, subjects, n + 1, m)
  {
    forall c | c in m
      ensures Seeded(naming, subjects, n + 1, c, m[c])
    {
      assert Seeded(naming, subjects, n, c, m[c]);
    }
  }

  lemma OnlySeedsAdd(naming: Naming, subjects: seq<Subject>, i: nat, n: nat, m: map<Text, Conflict>)
    requires i < n < |subjects| && Clash(subjects[i], subjects[n]) && OnlySeeds(naming, subjects, n + 1, m)
    ensures OnlySeeds(naming, subjects, n + 1,
                      m[naming.id(subjects[i], subjects[n]) := naming.record(subjects[i], subjects[n])])
  {
    var id := naming.id(subjects[i], subjects[n]);
    var after := m[id := naming.record(subjects[i], subjects[n])];
    assert IsSeed(naming, subjects[i], subjects[n], id, after[id]);
    forall c | c in after
      ensures Seeded(naming, subjects, n + 1, c, after[c])
    {
      if c != id {
        assert Seeded(naming, subjects, n + 1, c, m[c]);
      }
    }
  }

  // ---- With an injective hash the conflicts are exactly the clashing pairs ----

  ghost predicate InjectiveHash(lib: Library) {
    forall a, b :: lib.sha256(a) == lib.sha256(b) ==> a == b
  }

  /** What the reducer accepts as base subjects. */
  predicate ValidBase(subjects: seq<Subject>) {
    && (forall i :: 0 <= i < |subjects| ==> ValidSubject(subjects[i]))
    && DistinctIds(subjects)
  }

  /** What matters of it here: the identifiers are distinct and all of one length. */
  predicate ComparableIds(subjects: seq<Subject>) {
    (forall i :: 0 <= i < |subjects| ==> |subjects[i].registrationId| == 54) && DistinctIds(subjects)
  }

  lemma ValidBaseComparable(subjects: seq<Subject>)
    requires ValidBase(subjects)
    ensures ComparableIds(subjects)
  {
    forall i | 0 <= i < |subjects|
      ensures |subjects[i].registrationId| == 54
    {
      RegistrationIdLength(subjects[i]);
    }
  }

  predicate DistinctIds(subjects: seq<Subject>) {
    forall i, j {:trigger subjects[i].registrationId, subjects[j].registrationId} :: 0 <= i < j < |subjects| ==>
      subjects[i].registrationId != subjects[j].registrationId
  }

  lemma PairSymmetric(a: Text, b: Text)
    ensures SortedPair(a, b) == SortedPair(b, a)
    ensures |SortedPair(a, b)| == 2
    ensures multiset(SortedPair(a, b)) == multiset{a, b}
  {
    SortCanonical([a, b], [b, a]);
    assert multiset([a, b]) == multiset{a, b} == multiset([b, a]);
    assert |SortedPair(a, b)| == |multiset(SortedPair(a, b))|;
  }

  lemma PairMultiset(p: seq<Text>)
    requires |p| == 2
    ensures multiset(p) == multiset{p[0], p[1]}
  {
    assert p == [p[0], p[1]];
  }

  lemma RegistrationIdLength(s: Subject)
    requires ValidSubject(s)
    ensures |s.registrationId| == 54
  {
  }

  lemma PairLengths(a: Text, b: Text, n: nat)
    requires |a| == n && |b| == n
    ensures |SortedPair(a, b)| == 2 && |SortedPair(a, b)[0]| == n
  {
    PairSymmetric(a, b);
    var p := SortedPair(a, b);
    assert p[0] in multiset(p);
  }

  lemma JoinInjective(a: Text, b: Text, c: Text, d: Text)
    requires |a| == |c| && a + [LF] + b == c + [LF] + d
    ensures a == c && b == d
  {
    assert (a + [LF] + b)[..|a|] == a && (c + [LF] + d)[..|a|] == c;
    assert (a + [LF] + b)[|a| + 1..] == b && (c + [LF] + d)[|a| + 1..] == d;
  }

  lemma PrefixInjective(p: Text, a: Text, b: Text)
    requires p + a == p + b
    ensures a == b
  {
    assert (p + a)[|p|..] == a && (p + b)[|p|..] == b;
  }

  /** The same two identifiers, whichever comes first. */
  predicate SamePair(a: Text, b: Text, c: Text, d: Text) { (a == c && b == d) || (a == d && b == c) }

  lemma PairsDiffer(a: Text, b: Text, c: Text, d: Text)
    requires multiset{a, b} == multiset{c, d}
    ensures SamePair(a, b, c, d)
  {
    assert a in multiset{c, d};
    if a == c {
      assert multiset{a, b} - multiset{a} == multiset{b};
      assert multiset{c, d} - multiset{a} == multiset{d};
      assert b in multiset{d};
    } else {
      assert multiset{a, b} - multiset{a} == multiset{b};
      assert multiset{c, d} - multiset{a} == multiset{c};
      assert b in multiset{c};
    }
  }

  lemma PairTextInjective(a: Text, b: Text, c: Text, d: Text)
    requires |a| == |b| == |c| == |d|
    ensures PairText(a, b) == PairText(c, d) <==> SamePair(a, b, c, d)
  {
    var p, q := SortedPair(a, b), SortedPair(c, d);
    PairSymmetric(a, b);
    PairSymmetric(c, d);
    if PairText(a, b) == PairText(c, d) {
      PairLengths(a, b, |a|);
      PairLengths(c, d, |a|);
      JoinInjective(p[0], p[1], q[0], q[1]);
      PairMultiset(p);
      PairMultiset(q);
      PairsDiffer(a, b, c, d);
    }
  }

  predicate SameSubjects(a: Subject, b: Subject, c: Subject, d: Subject) {
    SamePair(a.registrationId, b.registrationId, c.registrationId, d.registrationId)
  }

  /** Two pairs share a conflict identifier exactly when they are the same pair, whichever comes first. */
  lemma ConflictIdInjective(lib: Library, a: Subject, b: Subject, c: Subject, d: Subject)
    requires InjectiveHash(lib)
    requires |a.registrationId| == |b.registrationId| == |c.registrationId| == |d.registrationId|
    ensures ConflictId(lib, a, b) == ConflictId(lib, c, d) <==> SameSubjects(a, b, c, d)
  {
    PairTextInjective(a.registrationId, b.registrationId, c.registrationId, d.registrationId);
    HashedInjective(lib, PairText(a.registrationId, b.registrationId), PairText(c.registrationId, d.registrationId));
  }

  lemma HashedInjective(lib: Library, t: Text, u: Text)
    requires InjectiveHash(lib)
    ensures Ascii("sha256:") + lib.sha256(t) == Ascii("sha256:") + lib.sha256(u) <==> t == u
  {
    if Ascii("sha256:") + lib.sha256(t) == Ascii("sha256:") + lib.sha256(u) {
      PrefixInjective(Ascii("sha256:"), lib.sha256(t), lib.sha256(u));
    }
  }

  lemma SeedSymmetric(lib: Library, a: Subject, b: Subject)
    requires Clash(a, b)
    ensures SeedConflict(lib, a, b) == SeedConflict(lib, b, a)
    ensures ConflictId(lib, a, b) == ConflictId(lib, b, a)
  {
    PairSymmetric(a.registrationId, b.registrationId);
  }

  lemma SeedWitness(naming: Naming, subjects: seq<Subject>, conflicts: map<Text, Conflict>, c: Text)
    returns (i: nat, j: nat)
    requires OnlySeeds(naming, subjects, |subjects|, conflicts) && c in conflicts
    ensures i < j < |subjects| && IsSeed(naming, subjects[i], subjects[j], c, conflicts[c])
  {
    assert Seeded(naming, subjects, |subjects|, c, conflicts[c]);
    i, j :| 0 <= i < j < |subjects| && IsSeed(naming, subjects[i], subjects[j], c, conflicts[c]);
  }

  /** In a valid base a conflict identifier names one pair of positions. */
  lemma PairPosition(lib: Library, subjects: seq<Subject>, i: nat, j: nat, k: nat, m: nat)
    requires InjectiveHash(lib) && ComparableIds(subjects)
    requires i < j < |subjects| && k < m < |subjects|
    requires ConflictId(lib, subjects[i], subjects[j]) == ConflictId(lib, subjects[k], subjects[m])
    ensures i == k && j == m
  {
    ConflictIdInjective(lib, subjects[i], subjects[j], subjects[k], subjects[m]);
  }

  /** With no events the conflicts are exactly the unordered pairs of equal bytes under different wallets. */
  lemma SeedsExact(lib: Library, subjects: seq<Subject>, conflicts: map<Text, Conflict>, i: nat, j: nat)
    requires InjectiveHash(lib) && ComparableIds(subjects)
    requires OnlySeeds(Filed(lib), subjects, |subjects|, conflicts) && AllSeeds(Filed(lib), subjects, |subjects|, conflicts)
    requires i < j < |subjects|
    ensures var c := ConflictId(lib, subjects[i], subjects[j]);
            && (Clash(subjects[i], subjects[j]) <==> c in conflicts)
            && (c in conflicts ==> conflicts[c] == SeedConflict(lib, subjects[i], subjects[j]))
  {
    var c := ConflictId(lib, subjects[i], subjects[j]);
    if c in conflicts {
      var k, m := SeedWitness(Filed(lib), subjects, conflicts, c);
      PairPosition(lib, subjects, i, j, k, m);
    }
  }

  /** A conflict of one order of the subjects is the same conflict in any other order. */
  lemma SeedsCarryOver(
    lib: Library, s: seq<Subject>, t: seq<Subject>, m: map<Text, Conflict>, n: map<Text, Conflict>, c: Text)
    requires InjectiveHash(lib) && ComparableIds(s) && ComparableIds(t) && (forall x :: x in s ==> x in t)
    requires OnlySeeds(Filed(lib), s, |s|, m) && OnlySeeds(Filed(lib), t, |t|, n) && AllSeeds(Filed(lib), t, |t|, n)
    requires c in m
    ensures c in n && n[c] == m[c]
  {
    var i, j := SeedWitness(Filed(lib), s, m, c);
    assert s[i] in t && s[j] in t;
    var k :| 0 <= k < |t| && t[k] == s[i];
    var l :| 0 <= l < |t| && t[l] == s[j];
    assert s[i].registrationId != s[j].registrationId;
    SeedSymmetric(lib, s[i], s[j]);
    if k < l {
      SeedsExact(lib, t, n, k, l);
    } else {
      SeedsExact(lib, t, n, l, k);
    }
  }

  ghost predicate Within(m: map<Text, Conflict>, n: map<Text, Conflict>) {
    forall c :: c in m ==> c in n && n[c] == m[c]
  }

  lemma SeedsWithin(
    lib: Library, s: seq<Subject>, t: seq<Subject>, m: map<Text, Conflict>, n: map<Text, Conflict>)
    requires InjectiveHash(lib) && ComparableIds(s) && ComparableIds(t) && (forall x :: x in s ==> x in t)
    requires OnlySeeds(Filed(lib), s, |s|, m) && OnlySeeds(Filed(lib), t, |t|, n) && AllSeeds(Filed(lib), t, |t|, n)
    ensures Within(m, n)
  {
    forall c | c in m
      ensures c in n && n[c] == m[c]
    {
      SeedsCarryOver(lib, s, t, m, n, c);
    }
  }

  lemma WithinEachOther(m: map<Text, Conflict>, n: map<Text, Conflict>)
    requires Within(m, n) && Within(n, m)
    ensures m == n
  {
  }

  /** The order of the base subjects does not matter. */
  lemma SeedsOrderIndependent(
    lib: Library, s: seq<Subject>, t: seq<Subject>, m: map<Text, Conflict>, n: map<Text, Conflict>)
    requires InjectiveHash(lib) && ComparableIds(s) && ComparableIds(t) && multiset(s) == multiset(t)
    requires Seeds(Filed(lib), s, |s|, m) && Seeds(Filed(lib), t, |t|, n)
    ensures m == n
  {
    SameElements(s, t);
    SeedsWithin(lib, s, t, m, n);
    SeedsWithin(lib, t, s, n, m);
    WithinEachOther(m, n);
  }

  lemma SameElements(s: seq<Subject>, t: seq<Subject>)
    requires multiset(s) == multiset(t)
    ensures forall x :: x in s <==> x in t
  {
    forall x: Subject
      ensures x in s <==> x in t
    {
      assert x in s <==> x in multiset(s);
      assert x in t <==> x in multiset(t);
    }
  }
}
