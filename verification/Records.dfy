/**
 The evidence records of phase0/src/attestations.ts as JSON objects: printed with their keys in the declared order,
 parsed by key. A parsed object has the set of its keys, and for a repeated key the last value.
 */
module Records {
  import opened Wrappers
  import opened Utf16
  import opened Json
  import opened Attestations
  import opened Statements

  // ---- Objects by key ----

  /** The value a parsed object has under a key. */
  function ValueOf(members: seq<Member>, key: Text): Option<Json> {
    if members == [] then None
    else
      var last := members[|members| - 1];
      if last.key == key then Some(last.value) else ValueOf(members[..|members| - 1], key)
  }

  function Values(members: seq<Member>, keys: seq<string>): (r: Option<seq<Json>>)
    ensures r.Some? ==> |r.value| == |keys|
  {
    if keys == [] then Some([])
    else
      match Values(members, keys[..|keys| - 1])
      case None => None
      case Some(init) =>
        match ValueOf(members, Ascii(keys[|keys| - 1]))
        case None => None
        case Some(last) => Some(init + [last])
  }

  predicate Names(keys: seq<string>, key: Text) {
    exists i :: 0 <= i < |keys| && Ascii(keys[i]) == key
  }

  /** record and exactKeys: the values of an object that has these keys and no other. */
  function Fields(j: Json, keys: seq<string>): (r: Option<seq<Json>>)
    ensures r.Some? ==> |r.value| == |keys|
  {
    if j.Obj? && forall i :: 0 <= i < |j.members| ==> Names(keys, j.members[i].key)
    then Values(j.members, keys) else None
  }

  /** Object.keys: the keys in the order in which each first occurs. */
  function KeyOrder(members: seq<Member>): seq<Text> {
    if members == [] then []
    else
      var init, last := KeyOrder(members[..|members| - 1]), members[|members| - 1].key;
      if last in init then init else init + [last]
  }

  function AsciiAll(keys: seq<string>): seq<Text> {
    seq(|keys|, i requires 0 <= i < |keys| => Ascii(keys[i]))
  }

  /** The values of an object that has these keys in this order and no other. */
  function FieldsInOrder(j: Json, keys: seq<string>): (r: Option<seq<Json>>)
    ensures r.Some? ==> |r.value| == |keys|
  {
    if j.Obj? && KeyOrder(j.members) == AsciiAll(keys) then Values(j.members, keys) else None
  }

  // ---- A printed object has the fields it was printed from ----

  ghost predicate Apart(keys: seq<string>) {
    forall i, j :: 0 <= i < j < |keys| ==> Ascii(keys[i]) != Ascii(keys[j])
  }

  predicate Plain(key: string) {
    forall k :: 0 <= k < |key| ==> key[k] as int < 0x1_0000
  }

  lemma AsciiInjective(a: string, b: string)
    requires Plain(a) && Plain(b) && Ascii(a) == Ascii(b)
    ensures a == b
  {
    assert |a| == |b|;
    forall k | 0 <= k < |a|
      ensures a[k] == b[k]
    {
      assert Ascii(a)[k] == Ascii(b)[k];
    }
  }

  lemma KeysApart(keys: seq<string>)
    requires forall i, j :: 0 <= i < j < |keys| ==> keys[i] != keys[j]
    requires forall i, k :: 0 <= i < |keys| && 0 <= k < |keys[i]| ==> keys[i][k] as int < 0x1_0000
    ensures Apart(keys)
  {
    forall i, j | 0 <= i < j < |keys|
      ensures Ascii(keys[i]) != Ascii(keys[j])
    {
      if Ascii(keys[i]) == Ascii(keys[j]) {
        AsciiInjective(keys[i], keys[j]);
      }
    }
  }

  lemma {:induction false} ValueOfOnly(members: seq<Member>, i: nat)
    requires i < |members| && forall k :: i < k < |members| ==> members[k].key != members[i].key
    ensures ValueOf(members, members[i].key) == Some(members[i].value)
  {
    if i < |members| - 1 {
      assert members[|members| - 1].key != members[i].key;
      ValueOfOnly(members[..|members| - 1], i);
    }
  }

  lemma {:induction false} ValuesOfPrinted(keys: seq<string>, values: seq<Json>, n: nat)
    requires |keys| == |values| && Apart(keys) && n <= |keys|
    ensures Values(Object(keys, values).members, keys[..n]) == Some(values[..n])
  {
    if n > 0 {
      var members := Object(keys, values).members;
      ValuesOfPrinted(keys, values, n - 1);
      assert keys[..n][..n - 1] == keys[..n - 1];
      assert members[n - 1] == Member(Ascii(keys[n - 1]), values[n - 1]);
      ValueOfOnly(members, n - 1);
      assert values[..n] == values[..n - 1] + [values[n - 1]];
    }
  }

  lemma FieldsOfPrinted(keys: seq<string>, values: seq<Json>)
    requires |keys| == |values| && Apart(keys)
    ensures Fields(Object(keys, values), keys) == Some(values)
  {
    ValuesOfPrinted(keys, values, |keys|);
    assert keys[..|keys|] == keys && values[..|values|] == values;
    forall i | 0 <= i < |keys|
      ensures Names(keys, Object(keys, values).members[i].key)
    {
      assert Ascii(keys[i]) == Object(keys, values).members[i].key;
    }
  }

  lemma {:induction false} KeyOrderOfPrinted(keys: seq<string>, values: seq<Json>, n: nat)
    requires |keys| == |values| && Apart(keys) && n <= |keys|
    ensures KeyOrder(Object(keys, values).members[..n]) == AsciiAll(keys)[..n]
  {
    if n > 0 {
      var members := Object(keys, values).members;
      KeyOrderOfPrinted(keys, values, n - 1);
      assert members[..n][..n - 1] == members[..n - 1];
      assert AsciiAll(keys)[..n] == AsciiAll(keys)[..n - 1] + [Ascii(keys[n - 1])];
    }
  }

  lemma FieldsInOrderOfPrinted(keys: seq<string>, values: seq<Json>)
    requires |keys| == |values| && Apart(keys)
    ensures FieldsInOrder(Object(keys, values), keys) == Some(values)
  {
    var members := Object(keys, values).members;
    KeyOrderOfPrinted(keys, values, |keys|);
    assert members[..|keys|] == members && AsciiAll(keys)[..|keys|] == AsciiAll(keys);
    ValuesOfPrinted(keys, values, |keys|);
    assert keys[..|keys|] == keys && values[..|values|] == values;
  }

  // ---- Lists of strings ----

  /** An array of strings. */
  function Texts(j: Json): Option<seq<Text>> {
    if j.Arr? && forall i :: 0 <= i < |j.items| ==> j.items[i].Str?
    then Some(seq(|j.items|, i requires 0 <= i < |j.items| => j.items[i].s)) else None
  }

  lemma TextsOfPrinted(texts: seq<Text>)
    ensures Texts(Strings(texts)) == Some(texts)
  {
    assert Texts(Strings(texts)).value == texts;
  }

  predicate AllStrings(v: seq<Json>, from: nat) {
    forall i :: from <= i < |v| ==> v[i].Str?
  }

  // ---- Subjects ----

  function SubjectKeys(): seq<string> {
    ["registrationId", "ipId", "wallet", "artifactHash", "declaredParentIpIds"]
  }

  function SubjectValues(s: Subject): seq<Json> {
    [Str(s.registrationId), Str(s.ipId), Str(s.wallet), Str(s.artifactHash), Strings(s.declaredParentIpIds)]
  }

  function SubjectJson(s: Subject): Json { Object(SubjectKeys(), SubjectValues(s)) }

  function ReadSubject(j: Json): Option<Subject> {
    match Fields(j, SubjectKeys())
    case None => None
    case Some(v) =>
      if v[0].Str? && v[1].Str? && v[2].Str? && v[3].Str? && Texts(v[4]).Some?
      then Some(Subject(v[0].s, v[1].s, v[2].s, v[3].s, Texts(v[4]).value)) else None
  }

  lemma SubjectKeysApart()
    ensures Apart(SubjectKeys())
  {
    KeysApart(SubjectKeys());
  }

  lemma ReadsSubject(s: Subject)
    ensures ReadSubject(SubjectJson(s)) == Some(s)
  {
    SubjectKeysApart();
    FieldsOfPrinted(SubjectKeys(), SubjectValues(s));
    TextsOfPrinted(s.declaredParentIpIds);
  }

  // ---- Repository challenges ----

  function ChallengeKeys(): seq<string> {
    ["schemaVersion", "subject", "repositoryUrl", "artifactCommitSha", "artifactPath", "challengePath", "nonce",
     "issuedAt", "expiresAt"]
  }

  function ChallengeValues(c: Challenge): seq<Json> {
    [Num(1), SubjectJson(c.subject), Str(c.repositoryUrl), Str(c.artifactCommitSha), Str(c.artifactPath),
     Str(c.challengePath), Str(c.nonce), Str(c.issuedAt), Str(c.expiresAt)]
  }

  function ChallengeJson(c: Challenge): Json { Object(ChallengeKeys(), ChallengeValues(c)) }

  function ReadChallenge(j: Json): Option<Challenge> {
    match Fields(j, ChallengeKeys())
    case None => None
    case Some(v) =>
      if v[0] == Num(1) && ReadSubject(v[1]).Some? && AllStrings(v, 2)
      then Some(Challenge(ReadSubject(v[1]).value, v[2].s, v[3].s, v[4].s, v[5].s, v[6].s, v[7].s, v[8].s))
      else None
  }

  lemma ChallengeKeysApart()
    ensures Apart(ChallengeKeys())
  {
    KeysApart(ChallengeKeys());
  }

  lemma ReadsChallenge(c: Challenge)
    ensures ReadChallenge(ChallengeJson(c)) == Some(c)
  {
    ChallengeKeysApart();
    FieldsOfPrinted(ChallengeKeys(), ChallengeValues(c));
    ReadsSubject(c.subject);
  }

  // ---- Forge observations ----

  function ObservationKeys(): seq<string> {
    ["schemaVersion", "repositoryId", "repositoryUrl", "trustedRef", "proofCommitSha", "challengeNonce", "observedAt",
     "forgeSignerId", "signature"]
  }

  function ObservationValues(o: ForgeObservation): seq<Json> {
    [Num(1), Str(o.repositoryId), Str(o.repositoryUrl), Str(o.trustedRef), Str(o.proofCommitSha),
     Str(o.challengeNonce), Str(o.observedAt), Str(o.forgeSignerId), Str(o.signature)]
  }

  function ObservationJson(o: ForgeObservation): Json { Object(ObservationKeys(), ObservationValues(o)) }

  function ReadObservation(j: Json): Option<ForgeObservation> {
    match Fields(j, ObservationKeys())
    case None => None
    case Some(v) =>
      if v[0] == Num(1) && AllStrings(v, 1)
      then Some(ForgeObservation(v[1].s, v[2].s, v[3].s, v[4].s, v[5].s, v[6].s, v[7].s, v[8].s)) else None
  }

  lemma ObservationKeysApart()
    ensures Apart(ObservationKeys())
  {
    KeysApart(ObservationKeys());
  }

  lemma ReadsObservation(o: ForgeObservation)
    ensures ReadObservation(ObservationJson(o)) == Some(o)
  {
    ObservationKeysApart();
    FieldsOfPrinted(ObservationKeys(), ObservationValues(o));
  }

  // ---- Organization approvals ----

  function ApprovalKeys(): seq<string> {
    ["schemaVersion", "subject", "organizationId", "approverWallet", "role", "approvedAt", "statementHash",
     "signature"]
  }

  function ApprovalValues(a: Approval): seq<Json> {
    [Num(1), SubjectJson(a.subject), Str(a.organizationId), Str(a.approverWallet), Str(RoleText(a.role)),
     Str(a.approvedAt), Str(a.statementHash), Str(a.signature)]
  }

  function ApprovalJson(a: Approval): Json { Object(ApprovalKeys(), ApprovalValues(a)) }

  function ReadRole(t: Text): Option<Role> {
    if t == RoleText(IpAdmin) then Some(IpAdmin)
    else if t == RoleText(EngineeringExecutive) then Some(EngineeringExecutive)
    else None
  }

  function ReadApproval(j: Json): Option<Approval> {
    match Fields(j, ApprovalKeys())
    case None => None
    case Some(v) =>
      if v[0] == Num(1) && ReadSubject(v[1]).Some? && AllStrings(v, 2) && ReadRole(v[4].s).Some?
      then Some(Approval(ReadSubject(v[1]).value, v[2].s, v[3].s, ReadRole(v[4].s).value, v[5].s, v[6].s, v[7].s))
      else None
  }

  lemma ApprovalKeysApart()
    ensures Apart(ApprovalKeys())
  {
    KeysApart(ApprovalKeys());
  }

  lemma ReadsRole(role: Role)
    ensures ReadRole(RoleText(role)) == Some(role)
  {
    RoleInjective(IpAdmin, EngineeringExecutive);
  }

  lemma ReadsApproval(a: Approval)
    ensures ReadApproval(ApprovalJson(a)) == Some(a)
  {
    ApprovalKeysApart();
    FieldsOfPrinted(ApprovalKeys(), ApprovalValues(a));
    ReadsSubject(a.subject);
    ReadsRole(a.role);
  }
}
