/**
 The durable manifest of phase0/src/registrations.ts and what its parser accepts. The constant schema version
 and network are not repeated.
 */
module Registrations {
  import opened Wrappers
  import opened Utf16

  // ---- Text shapes ----

  function LowerUnit(u: Unit): Unit { if 0x41 <= u <= 0x5a then u + 0x20 else u }

  /** toLowerCase of ASCII text. */
  function Lower(t: Text): (r: Text)
    ensures |r| == |t|
  {
    seq(|t|, i requires 0 <= i < |t| => LowerUnit(t[i]))
  }

  predicate SameHex(a: Text, b: Text) { Lower(a) == Lower(b) }

  predicate IsAnyHexDigit(u: Unit) { HexValue(LowerUnit(u)) >= 0 }

  /** 0x and that many hexadecimal digits of either case. */
  predicate IsAnyHex(t: Text, digits: nat) {
    && |t| == digits + 2 && t[0] == 0x30 && t[1] == 0x78
    && forall i :: 2 <= i < |t| ==> IsAnyHexDigit(t[i])
  }

  predicate IsAddress(t: Text) { IsAnyHex(t, 40) }

  predicate IsAnyHash(t: Text) { IsAnyHex(t, 64) }

  /** A hash in lower case, as the journal wants it. */
  predicate IsLowerHash(t: Text) { IsAnyHash(t) && Lower(t) == t }

  predicate IsMarkdown(t: Text) { t == Ascii("text/markdown") }

  // ---- Records ----

  datatype DemoStage = Root | Child | Grandchild

  datatype MetadataProof = MetadataProof(
    ipUri: Text, ipHash: Text,
    nftUri: Text, nftHash: Text,
    artifactPath: Text, mediaHash: Text, mediaType: Text)

  datatype Kind = Skill | Derivative

  datatype Proof = Proof(
    stage: DemoStage,
    kind: Kind,
    name: Text,
    ipId: Text,
    tokenId: Text,
    txHash: Text,
    licenseTermsId: Text,
    licenseTemplate: Text,
    parentIpIds: seq<Text>,
    defaultMintingFee: Option<Text>,
    maxMintingFee: Option<Text>,
    metadata: MetadataProof)

  datatype Status = NotRun | Partial | Complete

  datatype Manifest = Manifest(
    status: Status,
    wallet: Option<Text>,
    spgNftContract: Option<Text>,
    collectionTxHash: Option<Text>,
    root: Option<Proof>,
    child: Option<Proof>,
    grandchild: Option<Proof>)
  {
    function Registered(stage: DemoStage): Option<Proof> {
      match stage
      case Root => root
      case Child => child
      case Grandchild => grandchild
    }
  }

  const EMPTY_MANIFEST := Manifest(NotRun, None, None, None, None, None, None)

  // ---- parseRegistrationManifest ----

  datatype ManifestError =
    | MalformedField
    | MalformedProof(stage: DemoStage)
    | CollectionTorn
    | WrongParent(stage: DemoStage)
    | WrongTerms(stage: DemoStage)
    | WrongTemplate(stage: DemoStage)
    | WrongStatus

  predicate OptionalAddress(t: Option<Text>) { t.Some? ==> IsAddress(t.value) }

  predicate OptionalHash(t: Option<Text>) { t.Some? ==> IsAnyHash(t.value) }

  predicate OptionalDecimal(t: Option<Text>) { t.Some? && IsDecimal(t.value) }

  predicate MetadataAccepted(isHttps: Text -> bool, m: MetadataProof) {
    && isHttps(m.ipUri) && IsAnyHash(m.ipHash)
    && isHttps(m.nftUri) && IsAnyHash(m.nftHash)
    && m.artifactPath != [] && IsAnyHash(m.mediaHash) && IsMarkdown(m.mediaType)
  }

  predicate FeesAccepted(stage: DemoStage, p: Proof) {
    if stage == Root then
      p.parentIpIds == [] && OptionalDecimal(p.defaultMintingFee) && p.maxMintingFee.None?
    else
      |p.parentIpIds| == 1 && p.defaultMintingFee.None? && OptionalDecimal(p.maxMintingFee)
  }

  /** What validateProof accepts. */
  predicate ProofAccepted(isHttps: Text -> bool, stage: DemoStage, p: Proof) {
    && p.stage == stage
    && p.kind == (if stage == Root then Skill else Derivative)
    && p.name != []
    && IsAddress(p.ipId)
    && IsDecimal(p.tokenId)
    && IsAnyHash(p.txHash)
    && IsDecimal(p.licenseTermsId)
    && IsAddress(p.licenseTemplate)
    && (forall i :: 0 <= i < |p.parentIpIds| ==> IsAddress(p.parentIpIds[i]))
    && FeesAccepted(stage, p)
    && MetadataAccepted(isHttps, p.metadata)
  }

  predicate OptionalProof(isHttps: Text -> bool, stage: DemoStage, p: Option<Proof>) {
    p.Some? ==> ProofAccepted(isHttps, stage, p.value)
  }

  predicate ParentLinked(parent: Option<Proof>, child: Option<Proof>) {
    child.Some? ==>
      parent.Some? && |child.value.parentIpIds| > 0 && SameHex(child.value.parentIpIds[0], parent.value.ipId)
  }

  predicate TermsInherited(parent: Option<Proof>, child: Option<Proof>) {
    child.Some? && parent.Some? ==> child.value.licenseTermsId == parent.value.licenseTermsId
  }

  predicate TemplateInherited(parent: Option<Proof>, child: Option<Proof>) {
    child.Some? && parent.Some? ==> SameHex(child.value.licenseTemplate, parent.value.licenseTemplate)
  }

  predicate StatusAccepted(m: Manifest) {
    match m.status
    case NotRun =>
      && m.wallet.None? && m.spgNftContract.None? && m.collectionTxHash.None?
      && m.root.None? && m.child.None? && m.grandchild.None?
    case Partial =>
      && m.wallet.Some? && m.spgNftContract.Some? && m.collectionTxHash.Some?
      && !(m.root.Some? && m.child.Some? && m.grandchild.Some?)
    case Complete =>
      && m.wallet.Some? && m.spgNftContract.Some? && m.collectionTxHash.Some?
      && m.root.Some? && m.child.Some? && m.grandchild.Some?
  }

  /** The first check that fails, in the order of the source. */
  function CheckManifest(isHttps: Text -> bool, m: Manifest): Option<ManifestError> {
    if !OptionalAddress(m.wallet) || !OptionalAddress(m.spgNftContract) || !OptionalHash(m.collectionTxHash) then
      Some(MalformedField)
    else if !OptionalProof(isHttps, Root, m.root) then Some(MalformedProof(Root))
    else if !OptionalProof(isHttps, Child, m.child) then Some(MalformedProof(Child))
    else if !OptionalProof(isHttps, Grandchild, m.grandchild) then Some(MalformedProof(Grandchild))
    else if m.spgNftContract.None? != m.collectionTxHash.None? then Some(CollectionTorn)
    else if !ParentLinked(m.root, m.child) then Some(WrongParent(Child))
    else if !ParentLinked(m.child, m.grandchild) then Some(WrongParent(Grandchild))
    else if !TermsInherited(m.root, m.child) then Some(WrongTerms(Child))
    else if !TermsInherited(m.child, m.grandchild) then Some(WrongTerms(Grandchild))
    else if !TemplateInherited(m.root, m.child) then Some(WrongTemplate(Child))
    else if !TemplateInherited(m.child, m.grandchild) then Some(WrongTemplate(Grandchild))
    else if !StatusAccepted(m) then Some(WrongStatus)
    else None
  }

  /** What the parser accepts. */
  predicate Accepts(isHttps: Text -> bool, m: Manifest) { CheckManifest(isHttps, m).None? }

  // ---- Progress ----

  /** updateStatus of phase0/src/demo.ts. */
  function UpdateStatus(m: Manifest): Manifest {
    m.(status := if m.spgNftContract.None? then NotRun
                 else if m.root.Some? && m.child.Some? && m.grandchild.Some? then Complete
                 else Partial)
  }

  /** How many of the four operations the manifest confirms. */
  function Confirmed(m: Manifest): (k: nat)
    ensures k <= 4
  {
    (if m.spgNftContract.Some? then 1 else 0) + (if m.root.Some? then 1 else 0)
    + (if m.child.Some? then 1 else 0) + (if m.grandchild.Some? then 1 else 0)
  }

  /** missingOperationStages is empty. */
  predicate NothingMissing(m: Manifest) {
    m.spgNftContract.Some? && m.root.Some? && m.child.Some? && m.grandchild.Some?
  }

  /** Nothing later is confirmed without everything earlier, and the status says how far it got. */
  predicate InOrder(m: Manifest) {
    && (m.spgNftContract.Some? <==> Confirmed(m) >= 1)
    && (m.root.Some? <==> Confirmed(m) >= 2)
    && (m.child.Some? <==> Confirmed(m) >= 3)
    && (m.grandchild.Some? <==> Confirmed(m) >= 4)
    && (m.collectionTxHash.Some? <==> m.spgNftContract.Some?)
    && (m.wallet.Some? <==> m.spgNftContract.Some?)
    && m.status == (if Confirmed(m) == 0 then NotRun else if Confirmed(m) < 4 then Partial else Complete)
  }

  lemma AcceptedInOrder(isHttps: Text -> bool, m: Manifest)
    requires Accepts(isHttps, m)
    ensures InOrder(m)
  {
  }
}
