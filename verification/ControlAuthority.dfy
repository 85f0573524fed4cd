/**
 The account-control state as the service keeps it: fields that an accepted command replaces, built from copies
 that a refused command throws away.
 */
module ControlAuthority {
  import opened Bytes
  import opened ControlRecords
  import opened ControlLedger
  import opened ControlHistory

  /** Scans the grants for the credential, then inserts. */
  method InsertGrantInto(c: Crypto, grants: map<string, AcceptedGrant>, g: Grant)
    returns (r: Option<map<string, AcceptedGrant>>)
    ensures r == InsertGrant(c, grants, g)
  {
    hide GrantDigest;
    var reference := GrantDigest(c, g);
    if reference.None? || reference.value in grants {
      return None;
    }
    var left := grants.Keys;
    while left != {}
      invariant left <= grants.Keys
      invariant forall k :: k in grants && k !in left ==>
        grants[k].grant.credential.credentialID != g.credential.credentialID
    {
      var k :| k in left;
      if grants[k].grant.credential.credentialID == g.credential.credentialID {
        return None;
      }
      left := left - {k};
    }
    return Some(grants[reference.value := AcceptedGrant(g, reference.value, Active, None)]);
  }

  /** Scans the consents for a clash, then inserts. */
  method InsertConsentInto(c: Crypto, consents: map<string, AcceptedConsent>, s: Consent)
    returns (r: Option<map<string, AcceptedConsent>>)
    ensures r == InsertConsent(c, consents, s)
  {
    hide ConsentDigest;
    var reference := ConsentDigest(c, s);
    if reference.None? {
      return None;
    }
    var left := consents.Keys;
    while left != {}
      invariant left <= consents.Keys
      invariant forall k :: k in consents && k !in left ==> !Clashes(consents[k], reference.value, s)
    {
      var k :| k in left;
      var prior := consents[k];
      if prior.referenceDigest == reference.value || prior.consent.bindingID == s.bindingID
         || prior.consent.linkID == s.linkID || prior.consent.linkIntentDigest == s.linkIntentDigest {
        return None;
      }
      left := left - {k};
    }
    return Some(consents[reference.value := AcceptedConsent(s, reference.value, false)]);
  }

  method TargetSetExists(targets: map<UUID, UUID>, backupSetID: UUID) returns (found: bool)
    ensures found == (backupSetID in targets.Values)
  {
    var left := targets.Keys;
    while left != {}
      invariant left <= targets.Keys
      invariant forall t :: t in targets && t !in left ==> targets[t] != backupSetID
    {
      var t :| t in left;
      if targets[t] == backupSetID {
        return true;
      }
      left := left - {t};
    }
    return false;
  }

  class CredentialAuthorityState {
    const crypto: Crypto
    var pinnedInitialAnchor: Anchor
    var currentAnchor: Anchor
    var head: Head
    var targets: map<UUID, UUID>
    var grants: map<string, AcceptedGrant>
    var consents: map<string, AcceptedConsent>
    var records: seq<Command>

    ghost function View(): State
      reads this
    {
      State(pinnedInitialAnchor, currentAnchor, head, Books(targets, grants, consents), records)
    }

    constructor (crypto: Crypto, pinned: Anchor, reference: string)
      ensures this.crypto == crypto
      ensures AnchorDigest(crypto, pinned) == Some(reference) && pinned.unsigned.controlGeneration == 1 ==>
        Begin(crypto, pinned) == Some(View())
    {
      this.crypto := crypto;
      pinnedInitialAnchor, currentAnchor, records := pinned, pinned, [];
      head := Head(pinned.unsigned.accountID, 0, pinned.unsigned.controlGeneration, pinned.unsigned.controlKeyID,
        reference);
      targets, grants, consents := map[], map[], map[];
    }

    /** Starts a history from an anchor the caller has pinned. */
    static method Open(crypto: Crypto, pinned: Anchor) returns (r: CredentialAuthorityState?)
      ensures r != null <==> Begin(crypto, pinned).Some?
      ensures r != null ==> fresh(r) && r.crypto == crypto && Begin(crypto, pinned) == Some(r.View())
    {
      if !VerifyPossession(crypto, pinned) || pinned.unsigned.controlGeneration != 1 {
        return null;
      }
      var reference := AnchorDigest(crypto, pinned);
      if reference.None? {
        return null;
      }
      r := new CredentialAuthorityState(crypto, pinned, reference.value);
    }

    /** The scan of the accepted log: none of it may be undecodable or carry the candidate's command ID. */
    method ScanLog(p: Payload) returns (ok: bool, keyIDs: set<UUID>)
      ensures ok <==> forall i :: 0 <= i < |records| ==>
        DecodedPayload(crypto, records[i]).Some? && DecodedPayload(crypto, records[i]).value.commandID != p.commandID
      ensures ok ==> keyIDs == set id | id in KeyIDs(crypto, pinnedInitialAnchor, records)
    {
      hide DecodedPayload, KeyIDs;
      keyIDs := {pinnedInitialAnchor.unsigned.controlKeyID};
      FirstKey(crypto, pinnedInitialAnchor);
      var i := 0;
      while i < |records|
        invariant 0 <= i <= |records|
        invariant forall j :: 0 <= j < i ==>
          DecodedPayload(crypto, records[j]).Some? && DecodedPayload(crypto, records[j]).value.commandID != p.commandID
        invariant keyIDs == set id | id in KeyIDs(crypto, pinnedInitialAnchor, records[..i])
      {
        var accepted := DecodedPayload(crypto, records[i]);
        if accepted.None? || accepted.value.commandID == p.commandID {
          return false, {};
        }
        if accepted.value.effect.controlAnchor.Some? {
          keyIDs := keyIDs + {accepted.value.effect.controlAnchor.value.unsigned.controlKeyID};
        }
        KeyIDsStep(crypto, pinnedInitialAnchor, records[..i], records[i]);
        assert records[..i + 1] == records[..i] + [records[i]];
        i := i + 1;
      }
      assert records[..i] == records;
      return true, keyIDs;
    }

    /** The effect on copies of the books; nothing is stored yet. */
    method TryEffect(e: Effect, keyIDs: set<UUID>) returns (b: Option<Books>)
      requires EffectValid(crypto, e)
      ensures b == if e.kind.RotateControlKey? && e.controlAnchor.value.unsigned.controlKeyID in keyIDs then None
                   else Record(crypto, View().books, e)
    {
      hide GrantValid, ConsentValid, VerifyPossession, InsertGrant, InsertConsent, GrantDigest;
      match e.kind {
        case CreateTargetWithInitialGrant =>
          var taken := TargetSetExists(targets, e.backupSetID.value);
          var inserted := InsertGrantInto(crypto, grants, e.grant.value);
          if e.targetID.value in targets || taken || inserted.None? {
            return None;
          }
          return Some(Books(targets[e.targetID.value := e.backupSetID.value], inserted.value, consents));
        case GrantCredential =>
          var credential := e.grant.value.credential;
          var inserted := InsertGrantInto(crypto, grants, e.grant.value);
          if BackupSetOf(targets, credential.targetID) != credential.backupSetID || inserted.None? {
            return None;
          }
          return Some(Books(targets, inserted.value, consents));
        case SupersedeCredential =>
          var prior, credential := e.priorGrant.value, e.grant.value.credential;
          var inserted := InsertGrantInto(crypto, grants, e.grant.value);
          if prior !in grants || !grants[prior].status.Active? ||
             BackupSetOf(targets, credential.targetID) != credential.backupSetID
             || grants[prior].grant.credential.targetID != credential.targetID
             || grants[prior].grant.credential.backupSetID != credential.backupSetID || inserted.None? {
            return None;
          }
          var existing := grants[prior].(status := Superseded, replacement := GrantDigest(crypto, e.grant.value));
          return Some(Books(targets, inserted.value[prior := existing], consents));
        case RevokeCredential =>
          var prior := e.priorGrant.value;
          if prior !in grants || !grants[prior].status.Active? {
            return None;
          }
          return Some(Books(targets, grants[prior := grants[prior].(status := Revoked, replacement := None)],
            consents));
        case RotateControlKey =>
          if e.controlAnchor.value.unsigned.controlKeyID in keyIDs {
            return None;
          }
          return Some(Books(targets, grants, consents));
        case ConsentObjectScope =>
          var inserted := InsertConsentInto(crypto, consents, e.consent.value);
          if BackupSetOf(targets, e.consent.value.targetID) != e.consent.value.backupSetID || inserted.None? {
            return None;
          }
          return Some(Books(targets, grants, inserted.value));
        case RevokeObjectScopeConsent =>
          var reference := e.priorConsent.value;
          if reference !in consents || consents[reference].revoked {
            return None;
          }
          return Some(Books(targets, grants, consents[reference := consents[reference].(revoked := true)]));
        case Unknown(_) =>
          return None;
      }
    }

    /** Accepting is one step of the reducer; refusing leaves every field as it was. */
    method Apply(record: Command) returns (ok: bool)
      modifies this
      ensures ok <==> Step(crypto, old(View()), record).Some?
      ensures View() == if ok then Step(crypto, old(View()), record).value else old(View())
    {
      hide Verify, VerifyPossession, Record, DecodedPayload, KeyIDs, CommandDigest, EffectValid, CanonicalCommand;
      if !VerifyPossession(crypto, currentAnchor) {
        return false;
      }
      if |records| > 0 {
        var last, candidate := CanonicalCommand(crypto, records[|records| - 1]), CanonicalCommand(crypto, record);
        if last.Some? && |last.value| > 0 && last == candidate {
          return true;
        }
      }
      var verified := Verify(crypto, record, currentAnchor);
      if verified.None? || verified.value.accountID != head.accountID || head.sequence == MAX_UINT64
         || verified.value.sequence != head.sequence + 1
         || verified.value.predecessorReferenceDigest != head.referenceDigest {
        return false;
      }
      var payload := verified.value;
      var unused, keyIDs := ScanLog(payload);
      if !unused {
        return false;
      }
      OnlyRotationsCarryKeys(crypto, payload.effect);
      var books := TryEffect(payload.effect, keyIDs);
      var reference := CommandDigest(crypto, record);
      if books.None? || reference.None? {
        return false;
      }
      targets, grants, consents := books.value.targets, books.value.grants, books.value.consents;
      if payload.effect.kind.RotateControlKey? {
        currentAnchor := payload.effect.controlAnchor.value;
      }
      head := Head(payload.accountID, payload.sequence, currentAnchor.unsigned.controlGeneration,
                   currentAnchor.unsigned.controlKeyID, reference.value);
      records := records + [record];
      return true;
    }

    /** Applies records in order and stops at the first refusal; what was accepted before stays. */
    method ApplyAll(list: seq<Command>) returns (ok: bool, ghost applied: nat)
      modifies this
      ensures applied <= |list| && (ok <==> applied == |list|)
      ensures View() == Run(crypto, old(View()), list[..applied])
      ensures !ok ==> Step(crypto, View(), list[applied]).None?
    {
      hide Step;
      for i := 0 to |list|
        invariant View() == Run(crypto, old(View()), list[..i])
      {
        var accepted := Apply(list[i]);
        if !accepted {
          return false, i;
        }
        assert list[..i + 1][..i] == list[..i];
      }
      return true, |list|;
    }

    /** An active grant of the credential, if any. In every reachable state credential IDs are unique, so the answer
        does not depend on the order in which the books are searched. */
    method ActiveGrant(credentialID: UUID) returns (r: Option<AcceptedGrant>)
      ensures r.Some? ==> exists k :: k in grants && grants[k] == r.value && IsActiveGrant(r.value, credentialID)
      ensures r.None? ==> forall k :: k in grants ==> !IsActiveGrant(grants[k], credentialID)
      ensures CredentialsDistinct(grants) ==>
        forall k :: k in grants && IsActiveGrant(grants[k], credentialID) ==> r == Some(grants[k])
    {
      var left := grants.Keys;
      while left != {}
        invariant left <= grants.Keys
        invariant forall k :: k in grants && k !in left ==>
          !IsActiveGrant(grants[k], credentialID)
      {
        var k :| k in left;
        if grants[k].grant.credential.credentialID == credentialID && grants[k].status.Active? {
          return Some(grants[k]);
        }
        left := left - {k};
      }
      return None;
    }
  }

  predicate IsActiveGrant(a: AcceptedGrant, credentialID: UUID) {
    a.grant.credential.credentialID == credentialID && a.status.Active?
  }

  lemma FirstKey(c: Crypto, pinned: Anchor)
    ensures KeyIDs(c, pinned, []) == [pinned.unsigned.controlKeyID]
  {
  }
}
