/**
 What phase0/src/story.ts makes of the chain's answers: whether a broadcast counts as sent, and what a receipt
 confirms. Receipts arrive with their event logs already decoded.
 */
module Story {
  import opened Wrappers
  import opened Utf16
  import opened Registrations

  datatype Lookup = Found(hash: Text) | NotFound | LookupFailed

  datatype SendAnswer =
    | Observed(hash: Text)
    /** The RPC refused; `known` when its message says that the transaction or its nonce is already used. */
    | Refused(known: bool, transaction: Lookup, receipt: Lookup)

  predicate Finds(lookup: Lookup, hash: Text) { lookup.Found? && SameHex(lookup.hash, hash) }

  /** broadcastPrepared returns, rather than throws. */
  predicate BroadcastReturns(answer: SendAnswer, hash: Text) {
    match answer
    case Observed(observed) => SameHex(observed, hash)
    case Refused(known, transaction, receipt) =>
      && known && !transaction.LookupFailed? && !receipt.LookupFailed?
      && (Finds(transaction, hash) || Finds(receipt, hash))
  }

  datatype Log =
    | CollectionCreated(spgNftContract: Text)
    | IpRegistered(ipId: Text, chainId: int, tokenContract: Text, tokenId: nat)
    | LicenseTermsAttached(licensedIpId: Text, attachedTemplate: Text, attachedTermsId: nat)
    | DerivativeRegistered(childIpId: Text, parentIpIds: seq<Text>, licenseTermsIds: seq<nat>, licenseTemplate: Text)
    | OtherLog

  datatype Receipt = Receipt(transactionHash: Text, success: bool, logs: seq<Log>)

  datatype Confirmation = Confirmation(
    ipId: Text, tokenId: nat, txHash: Text, licenseTermsId: nat, licenseTemplate: Text)

  function Filter(logs: seq<Log>, keep: Log -> bool): (r: seq<Log>)
    ensures forall i :: 0 <= i < |r| ==> r[i] in logs && keep(r[i])
  {
    if logs == [] then []
    else (if keep(logs[0]) then [logs[0]] else []) + Filter(logs[1..], keep)
  }

  /** exactlyOne of the matching logs. */
  function Only(logs: seq<Log>, keep: Log -> bool): (r: Option<Log>)
    ensures r.Some? ==> r.value in logs && keep(r.value)
  {
    var matches := Filter(logs, keep);
    if |matches| == 1 then Some(matches[0]) else None
  }

  /** The log at one position matches, and none at any other. */
  predicate Unique(logs: seq<Log>, keep: Log -> bool, i: nat) {
    i < |logs| && keep(logs[i]) && forall j :: 0 <= j < |logs| && keep(logs[j]) ==> j == i
  }

  lemma {:induction false} FilterNothing(logs: seq<Log>, keep: Log -> bool)
    ensures Filter(logs, keep) == [] <==> forall i :: 0 <= i < |logs| ==> !keep(logs[i])
  {
    if logs != [] {
      FilterNothing(logs[1..], keep);
      assert forall i :: 0 < i < |logs| ==> logs[i] == logs[1..][i - 1];
      assert forall i :: 0 <= i < |logs| - 1 ==> logs[1..][i] == logs[i + 1];
    }
  }

  lemma {:induction false} OnlyUnique(logs: seq<Log>, keep: Log -> bool, i: nat)
    requires Unique(logs, keep, i)
    ensures Filter(logs, keep) == [logs[i]]
  {
    var tail := logs[1..];
    assert forall j :: 0 <= j < |tail| ==> tail[j] == logs[j + 1];
    if i == 0 {
      FilterNothing(tail, keep);
    } else {
      OnlyUnique(tail, keep, i - 1);
    }
  }

  lemma {:induction false} OneMatch(logs: seq<Log>, keep: Log -> bool) returns (i: nat)
    requires |Filter(logs, keep)| == 1
    ensures Unique(logs, keep, i)
  {
    var tail := logs[1..];
    assert forall j :: 0 < j < |logs| ==> logs[j] == tail[j - 1];
    if keep(logs[0]) {
      assert Filter(tail, keep) == [];
      FilterNothing(tail, keep);
      i := 0;
    } else {
      assert Filter(logs, keep) == Filter(tail, keep);
      var k := OneMatch(tail, keep);
      i := k + 1;
    }
  }

  /** exactlyOne answers a log exactly when it is the only match. */
  lemma OnlyExact(logs: seq<Log>, keep: Log -> bool, log: Log)
    ensures Only(logs, keep) == Some(log) <==> exists i: nat :: Unique(logs, keep, i) && logs[i] == log
  {
    if Only(logs, keep) == Some(log) {
      var i := OneMatch(logs, keep);
      OnlyUnique(logs, keep, i);
    }
    if i: nat :| Unique(logs, keep, i) && logs[i] == log {
      OnlyUnique(logs, keep, i);
    }
  }

  // ---- Confirmations ----

  /** successfulReceipt. */
  predicate Successful(receipt: Option<Receipt>, hash: Text) {
    receipt.Some? && SameHex(receipt.value.transactionHash, hash) && receipt.value.success
  }

  predicate RegisteredOn(log: Log, collection: Text) {
    log.IpRegistered? && log.chainId == 1315 && SameHex(log.tokenContract, collection)
  }

  function Creations(): Log -> bool { (log: Log) => log.CollectionCreated? }

  function RegistrationsOn(collection: Text): Log -> bool { (log: Log) => RegisteredOn(log, collection) }

  function LicensesOf(ipId: Text): Log -> bool {
    (log: Log) => log.LicenseTermsAttached? && SameHex(log.licensedIpId, ipId)
  }

  function Derivatives(): Log -> bool { (log: Log) => log.DerivativeRegistered? }

  function ConfirmCollection(receipt: Option<Receipt>, hash: Text): Option<Text> {
    if !Successful(receipt, hash) then None
    else
      match Only(receipt.value.logs, Creations())
      case None => None
      case Some(log) => Some(log.spgNftContract)
  }

  /** A collection is confirmed exactly by the one creation event of its transaction's successful receipt. */
  lemma ConfirmCollectionExact(receipt: Option<Receipt>, hash: Text, spg: Text)
    ensures ConfirmCollection(receipt, hash) == Some(spg) <==>
              && Successful(receipt, hash)
              && exists i: nat :: Unique(receipt.value.logs, Creations(), i)
                                  && receipt.value.logs[i] == CollectionCreated(spg)
  {
    if Successful(receipt, hash) {
      OnlyExact(receipt.value.logs, Creations(), CollectionCreated(spg));
    }
  }

  function ConfirmSkill(receipt: Option<Receipt>, hash: Text, collection: Text): Option<Confirmation> {
    if !Successful(receipt, hash) then None
    else
      match Only(receipt.value.logs, RegistrationsOn(collection))
      case None => None
      case Some(registration) =>
        match Only(receipt.value.logs, LicensesOf(registration.ipId))
        case None => None
        case Some(license) =>
          Some(Confirmation(registration.ipId, registration.tokenId, hash, license.attachedTermsId,
                            license.attachedTemplate))
  }

  /** The registration at i and the license at j are the only ones, and the confirmation says what they say. */
  predicate SkillEvents(logs: seq<Log>, collection: Text, i: nat, j: nat, hash: Text, c: Confirmation) {
    && Unique(logs, RegistrationsOn(collection), i) && Unique(logs, LicensesOf(logs[i].ipId), j)
    && c == Confirmation(logs[i].ipId, logs[i].tokenId, hash, logs[j].attachedTermsId, logs[j].attachedTemplate)
  }

  /** A Skill is confirmed exactly by its one registration on the collection and the one license attached to it. */
  lemma ConfirmSkillExact(receipt: Option<Receipt>, hash: Text, collection: Text, c: Confirmation)
    ensures ConfirmSkill(receipt, hash, collection) == Some(c) <==>
              && Successful(receipt, hash)
              && exists i: nat, j: nat :: SkillEvents(receipt.value.logs, collection, i, j, hash, c)
  {
    if Successful(receipt, hash) {
      var logs := receipt.value.logs;
      if ConfirmSkill(receipt, hash, collection) == Some(c) {
        var i := OneMatch(logs, RegistrationsOn(collection));
        OnlyUnique(logs, RegistrationsOn(collection), i);
        var j := OneMatch(logs, LicensesOf(logs[i].ipId));
        OnlyUnique(logs, LicensesOf(logs[i].ipId), j);
        assert SkillEvents(logs, collection, i, j, hash, c);
      }
      if i: nat, j: nat :| SkillEvents(logs, collection, i, j, hash, c) {
        OnlyUnique(logs, RegistrationsOn(collection), i);
        OnlyUnique(logs, LicensesOf(logs[i].ipId), j);
      }
    }
  }

  /** A confirmed derivative descends from the parent it was journaled with, and inherits its license. */
  function ConfirmDerivative(
    receipt: Option<Receipt>, hash: Text, collection: Text, parent: Text, terms: nat, template: Text)
    : Option<Confirmation>
  {
    if !Successful(receipt, hash) then None
    else
      match Only(receipt.value.logs, RegistrationsOn(collection))
      case None => None
      case Some(registration) =>
        match Only(receipt.value.logs, Derivatives())
        case None => None
        case Some(derivative) =>
          if || !SameHex(derivative.childIpId, registration.ipId)
             || |derivative.parentIpIds| != 1 || !SameHex(derivative.parentIpIds[0], parent)
             || |derivative.licenseTermsIds| != 1 || derivative.licenseTermsIds[0] != terms
             || !SameHex(derivative.licenseTemplate, template) then None
          else
            Some(Confirmation(registration.ipId, registration.tokenId, hash, derivative.licenseTermsIds[0],
                              derivative.licenseTemplate))
  }

  /**
   The registration at i and the derivative event at j are the only ones; the event is of that registration and of
   the one parent, with the one license the parent has; and the confirmation says what they say.
   */
  predicate DerivativeEvents(
    logs: seq<Log>, collection: Text, parent: Text, terms: nat, template: Text, i: nat, j: nat, hash: Text,
    c: Confirmation)
  {
    && Unique(logs, RegistrationsOn(collection), i) && Unique(logs, Derivatives(), j)
    && SameHex(logs[j].childIpId, logs[i].ipId)
    && |logs[j].parentIpIds| == 1 && SameHex(logs[j].parentIpIds[0], parent)
    && logs[j].licenseTermsIds == [terms]
    && SameHex(logs[j].licenseTemplate, template)
    && c == Confirmation(logs[i].ipId, logs[i].tokenId, hash, terms, logs[j].licenseTemplate)
  }

  /** A derivative is confirmed exactly by such a pair of events. */
  lemma ConfirmDerivativeExact(
    receipt: Option<Receipt>, hash: Text, collection: Text, parent: Text, terms: nat, template: Text, c: Confirmation)
    ensures ConfirmDerivative(receipt, hash, collection, parent, terms, template) == Some(c) <==>
              && Successful(receipt, hash)
              && exists i: nat, j: nat ::
                   DerivativeEvents(receipt.value.logs, collection, parent, terms, template, i, j, hash, c)
  {
    if Successful(receipt, hash) {
      var logs := receipt.value.logs;
      if ConfirmDerivative(receipt, hash, collection, parent, terms, template) == Some(c) {
        var i := OneMatch(logs, RegistrationsOn(collection));
        OnlyUnique(logs, RegistrationsOn(collection), i);
        var j := OneMatch(logs, Derivatives());
        OnlyUnique(logs, Derivatives(), j);
        assert DerivativeEvents(logs, collection, parent, terms, template, i, j, hash, c);
      }
      if i: nat, j: nat :| DerivativeEvents(logs, collection, parent, terms, template, i, j, hash, c) {
        OnlyUnique(logs, RegistrationsOn(collection), i);
        OnlyUnique(logs, Derivatives(), j);
      }
    }
  }

  /** Every address in the logs is an address: the decoder's promise. */
  predicate WellFormedLog(log: Log) {
    match log
    case CollectionCreated(spg) => IsAddress(spg)
    case IpRegistered(ipId, _, tokenContract, _) => IsAddress(ipId) && IsAddress(tokenContract)
    case LicenseTermsAttached(ipId, template, _) => IsAddress(ipId) && IsAddress(template)
    case DerivativeRegistered(childIpId, parents, _, template) =>
      IsAddress(childIpId) && IsAddress(template) && forall i :: 0 <= i < |parents| ==> IsAddress(parents[i])
    case OtherLog => true
  }

  predicate WellFormedReceipt(receipt: Option<Receipt>) {
    receipt.Some? ==> forall log :: log in receipt.value.logs ==> WellFormedLog(log)
  }
}
