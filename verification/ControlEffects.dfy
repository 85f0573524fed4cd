/**
 What an accepted account-control command does and when it is refused, said on the books and the state before and after;
 and what follows for credentials over every run.
 */
module ControlEffects {
  import opened Bytes
  import opened ControlRecords
  import opened ControlLedger
  import opened ControlHistory

  // ---- the books before and after ----

  /** The maps differ at most at these keys. */
  ghost predicate OnlyAt<K(!new), V>(before: map<K, V>, after: map<K, V>, keys: set<K>) {
    forall k :: k !in keys ==> (k in before <==> k in after) && (k in before ==> after[k] == before[k])
  }

  ghost predicate IsActive(b: Books, k: string) {
    k in b.grants && b.grants[k].status == Active
  }

  ghost predicate HasTarget(b: Books, targetID: UUID, backupSetID: UUID) {
    targetID in b.targets && b.targets[targetID] == backupSetID
  }

  /** Neither the grant nor its credential is on the books. */
  ghost predicate IsNewGrant(c: Crypto, b: Books, g: Grant) {
    && GrantDigest(c, g).Some? && GrantDigest(c, g).value !in b.grants
    && forall k :: k in b.grants ==> b.grants[k].grant.credential.credentialID != g.credential.credentialID
  }

  /** No consent on the books has its reference, binding, link or link intent. */
  ghost predicate IsNewConsent(c: Crypto, b: Books, s: Consent) {
    && ConsentDigest(c, s).Some?
    && forall k :: k in b.consents ==>
      && b.consents[k].referenceDigest != ConsentDigest(c, s).value && b.consents[k].consent.bindingID != s.bindingID
      && b.consents[k].consent.linkID != s.linkID && b.consents[k].consent.linkIntentDigest != s.linkIntentDigest
  }

  /** When the effect may be recorded. */
  ghost predicate Allowed(c: Crypto, b: Books, e: Effect)
    requires EffectValid(c, e)
  {
    match e.kind
    case CreateTargetWithInitialGrant =>
      && e.targetID.value !in b.targets && (forall t :: t in b.targets ==> b.targets[t] != e.backupSetID.value)
      && IsNewGrant(c, b, e.grant.value)
    case GrantCredential =>
      && HasTarget(b, e.grant.value.credential.targetID, e.grant.value.credential.backupSetID)
      && IsNewGrant(c, b, e.grant.value)
    case SupersedeCredential =>
      && IsActive(b, e.priorGrant.value) && IsNewGrant(c, b, e.grant.value)
      && HasTarget(b, e.grant.value.credential.targetID, e.grant.value.credential.backupSetID)
      && b.grants[e.priorGrant.value].grant.credential.targetID == e.grant.value.credential.targetID
      && b.grants[e.priorGrant.value].grant.credential.backupSetID == e.grant.value.credential.backupSetID
    case RevokeCredential => IsActive(b, e.priorGrant.value)
    case RotateControlKey => true
    case ConsentObjectScope =>
      HasTarget(b, e.consent.value.targetID, e.consent.value.backupSetID) && IsNewConsent(c, b, e.consent.value)
    case RevokeObjectScopeConsent => e.priorConsent.value in b.consents && !b.consents[e.priorConsent.value].revoked
    case Unknown(_) => false
  }

  /** The grant is on the books under its digest and active. */
  ghost predicate Enters(c: Crypto, d: Books, g: Grant) {
    && GrantDigest(c, g).Some? && GrantDigest(c, g).value in d.grants
    && d.grants[GrantDigest(c, g).value] == AcceptedGrant(g, GrantDigest(c, g).value, Active, None)
  }

  /** The grant was active and has ended this way, its content as before. */
  ghost predicate Ends(b: Books, d: Books, k: string, status: Status, replacement: Option<string>) {
    && IsActive(b, k) && k in d.grants
    && d.grants[k] == AcceptedGrant(b.grants[k].grant, b.grants[k].referenceDigest, status, replacement)
  }

  /** What the effect does; whatever is not named stays as it is. */
  ghost predicate Does(c: Crypto, b: Books, e: Effect, d: Books)
    requires EffectValid(c, e)
  {
    match e.kind
    case CreateTargetWithInitialGrant =>
      && HasTarget(d, e.targetID.value, e.backupSetID.value) && OnlyAt(b.targets, d.targets, {e.targetID.value})
      && Enters(c, d, e.grant.value) && OnlyAt(b.grants, d.grants, {GrantDigest(c, e.grant.value).value})
      && d.consents == b.consents
    case GrantCredential =>
      && Enters(c, d, e.grant.value) && OnlyAt(b.grants, d.grants, {GrantDigest(c, e.grant.value).value})
      && d.targets == b.targets && d.consents == b.consents
    case SupersedeCredential =>
      && Enters(c, d, e.grant.value) && Ends(b, d, e.priorGrant.value, Superseded, GrantDigest(c, e.grant.value))
      && OnlyAt(b.grants, d.grants, {e.priorGrant.value, GrantDigest(c, e.grant.value).value})
      && d.targets == b.targets && d.consents == b.consents
    case RevokeCredential =>
      && Ends(b, d, e.priorGrant.value, Revoked, None) && OnlyAt(b.grants, d.grants, {e.priorGrant.value})
      && d.targets == b.targets && d.consents == b.consents
    case RotateControlKey => d == b
    case ConsentObjectScope =>
      && ConsentDigest(c, e.consent.value).Some? && ConsentDigest(c, e.consent.value).value in d.consents
      && var reference := ConsentDigest(c, e.consent.value).value;
      && d.consents[reference] == AcceptedConsent(e.consent.value, reference, false)
      && OnlyAt(b.consents, d.consents, {reference}) && d.targets == b.targets && d.grants == b.grants
    case RevokeObjectScopeConsent =>
      && e.priorConsent.value in b.consents && e.priorConsent.value in d.consents
      && var before := b.consents[e.priorConsent.value];
      && d.consents[e.priorConsent.value] == AcceptedConsent(before.consent, before.referenceDigest, true)
      && OnlyAt(b.consents, d.consents, {e.priorConsent.value}) && d.targets == b.targets && d.grants == b.grants
    case Unknown(_) => false
  }

  lemma OneEntry<K(!new), V>(before: map<K, V>, after: map<K, V>, k: K, v: V)
    ensures OnlyAt(before, after, {k}) && k in after && after[k] == v <==> after == before[k := v]
  {
    if OnlyAt(before, after, {k}) && k in after && after[k] == v {
      assert after.Keys == before[k := v].Keys;
    }
  }

  lemma TwoEntries<K(!new), V>(before: map<K, V>, after: map<K, V>, k: K, v: V, l: K, w: V)
    requires k != l
    ensures OnlyAt(before, after, {k, l}) && k in after && after[k] == v && l in after && after[l] == w
       <==> after == before[l := w][k := v]
  {
    if OnlyAt(before, after, {k, l}) && k in after && after[k] == v && l in after && after[l] == w {
      assert after.Keys == before[l := w][k := v].Keys;
    }
  }

  lemma CreateExact(c: Crypto, b: Books, e: Effect, d: Books)
    requires EffectValid(c, e) && e.kind.CreateTargetWithInitialGrant?
    ensures Record(c, b, e) == Some(d) <==> Allowed(c, b, e) && Does(c, b, e, d)
  {
    hide GrantValid, ConsentValid, VerifyPossession, GrantDigest, OnlyAt;
    OneEntry(b.targets, d.targets, e.targetID.value, e.backupSetID.value);
    if reference :| GrantDigest(c, e.grant.value) == Some(reference) {
      OneEntry(b.grants, d.grants, reference, AcceptedGrant(e.grant.value, reference, Active, None));
    }
  }

  lemma GrantExact(c: Crypto, b: Books, e: Effect, d: Books)
    requires EffectValid(c, e) && e.kind.GrantCredential? && e.grant.value.credential.backupSetID != NIL
    ensures Record(c, b, e) == Some(d) <==> Allowed(c, b, e) && Does(c, b, e, d)
  {
    hide GrantValid, ConsentValid, VerifyPossession, GrantDigest, OnlyAt;
    if reference :| GrantDigest(c, e.grant.value) == Some(reference) {
      OneEntry(b.grants, d.grants, reference, AcceptedGrant(e.grant.value, reference, Active, None));
    }
  }

  lemma SupersedeExact(c: Crypto, b: Books, e: Effect, d: Books)
    requires EffectValid(c, e) && e.kind.SupersedeCredential? && e.grant.value.credential.backupSetID != NIL
    ensures Record(c, b, e) == Some(d) <==> Allowed(c, b, e) && Does(c, b, e, d)
  {
    hide GrantValid, ConsentValid, VerifyPossession, GrantDigest, OnlyAt;
    var prior := e.priorGrant.value;
    if reference :| GrantDigest(c, e.grant.value) == Some(reference) {
      if prior in b.grants && prior != reference {
        TwoEntries(b.grants, d.grants, prior, b.grants[prior].(status := Superseded, replacement := Some(reference)),
          reference, AcceptedGrant(e.grant.value, reference, Active, None));
      }
    }
  }

  lemma RevokeExact(c: Crypto, b: Books, e: Effect, d: Books)
    requires EffectValid(c, e) && e.kind.RevokeCredential?
    ensures Record(c, b, e) == Some(d) <==> Allowed(c, b, e) && Does(c, b, e, d)
  {
    hide OnlyAt;
    var prior := e.priorGrant.value;
    if prior in b.grants {
      OneEntry(b.grants, d.grants, prior, b.grants[prior].(status := Revoked, replacement := None));
    }
  }

  lemma ConsentExact(c: Crypto, b: Books, e: Effect, d: Books)
    requires EffectValid(c, e) && e.kind.ConsentObjectScope? && e.consent.value.backupSetID != NIL
    ensures Record(c, b, e) == Some(d) <==> Allowed(c, b, e) && Does(c, b, e, d)
  {
    hide GrantValid, ConsentValid, VerifyPossession, ConsentDigest, OnlyAt;
    if reference :| ConsentDigest(c, e.consent.value) == Some(reference) {
      OneEntry(b.consents, d.consents, reference, AcceptedConsent(e.consent.value, reference, false));
    }
  }

  lemma RevokeConsentExact(c: Crypto, b: Books, e: Effect, d: Books)
    requires EffectValid(c, e) && e.kind.RevokeObjectScopeConsent?
    ensures Record(c, b, e) == Some(d) <==> Allowed(c, b, e) && Does(c, b, e, d)
  {
    hide OnlyAt;
    var reference := e.priorConsent.value;
    if reference in b.consents {
      OneEntry(b.consents, d.consents, reference, b.consents[reference].(revoked := true));
    }
  }

  lemma RealBackupSets(c: Crypto, e: Effect)
    requires EffectValid(c, e)
    ensures e.grant.Some? ==> e.grant.value.credential.backupSetID != NIL
    ensures e.consent.Some? ==> e.consent.value.backupSetID != NIL
  {
  }

  /** An effect is recorded exactly when it is allowed, and then does exactly what it says. */
  lemma EffectExact(c: Crypto, b: Books, e: Effect, d: Books)
    requires EffectValid(c, e)
    ensures Record(c, b, e) == Some(d) <==> Allowed(c, b, e) && Does(c, b, e, d)
  {
    RealBackupSets(c, e);
    hide Record, Allowed, Does, GrantValid, ConsentValid, VerifyPossession;
    match e.kind {
      case CreateTargetWithInitialGrant => CreateExact(c, b, e, d);
      case GrantCredential => GrantExact(c, b, e, d);
      case SupersedeCredential => SupersedeExact(c, b, e, d);
      case RevokeCredential => RevokeExact(c, b, e, d);
      case RotateControlKey => RotateExact(c, b, e, d);
      case ConsentObjectScope => ConsentExact(c, b, e, d);
      case RevokeObjectScopeConsent => RevokeConsentExact(c, b, e, d);
      case _ =>
    }
  }

  lemma RotateExact(c: Crypto, b: Books, e: Effect, d: Books)
    requires EffectValid(c, e) && e.kind.RotateControlKey?
    ensures Record(c, b, e) == Some(d) <==> Allowed(c, b, e) && Does(c, b, e, d)
  {
  }

  // ---- the start ----

  /** A history starts exactly from a first-generation anchor of bounded size whose holder has proved possession, with
      empty books and a head that points at the anchor. */
  lemma BeginExact(c: Crypto, pinned: Anchor, s: State)
    ensures Begin(c, pinned) == Some(s) <==>
      && VerifyPossession(c, pinned) && pinned.unsigned.controlGeneration == 1
      && |c.encodeAnchor(pinned)| <= MAXIMUM_RECORD_BYTES && s.pinned == s.current == pinned && s.records == []
      && s.books.targets == map[] && s.books.grants == map[] && s.books.consents == map[]
      && s.head.accountID == pinned.unsigned.accountID && s.head.sequence == 0 && s.head.controlGeneration == 1
      && s.head.controlKeyID == pinned.unsigned.controlKeyID
      && s.head.referenceDigest == c.digest(AnchorReference, c.encodeAnchor(pinned))
  {
    hide VerifyPossession;
  }

  // ---- one command ----

  /** The payload was signed under the current key, directly extends the head and has a command ID of its own. */
  ghost predicate Extends(c: Crypto, s: State, r: Command, p: Payload) {
    && DecodedPayload(c, r) == Some(p) && SignedUnder(c, r, p, s.current) && p.accountID == s.head.accountID
    && p.sequence == s.head.sequence + 1 && s.head.sequence != MAX_UINT64
    && p.predecessorReferenceDigest == s.head.referenceDigest
    && (forall i :: 0 <= i < |s.records| ==>
         && DecodedPayload(c, s.records[i]).Some? && DecodedPayload(c, s.records[i]).value.commandID != p.commandID)
  }

  /** A rotation brings a key that was never current; anything else keeps the key. */
  ghost predicate KeyAfter(c: Crypto, s: State, p: Payload, t: State)
    requires EffectValid(c, p.effect)
  {
    if p.effect.kind == RotateControlKey then
      && t.current == p.effect.controlAnchor.value
      && t.current.unsigned.controlKeyID !in KeyIDs(c, s.pinned, s.records)
    else t.current == s.current
  }

  /** The command becomes the newest record, its effect is on the books and the head describes it. */
  ghost predicate Appends(c: Crypto, s: State, r: Command, p: Payload, t: State)
    requires EffectValid(c, p.effect)
  {
    && Extends(c, s, r, p) && Allowed(c, s.books, p.effect) && Does(c, s.books, p.effect, t.books)
    && KeyAfter(c, s, p, t) && t.records == s.records + [r] && t.pinned == s.pinned
    && CommandDigest(c, r) == Some(t.head.referenceDigest) && t.head.accountID == p.accountID
    && t.head.sequence == p.sequence && t.head.controlGeneration == t.current.unsigned.controlGeneration
    && t.head.controlKeyID == t.current.unsigned.controlKeyID
  }

  lemma AdmitExact(c: Crypto, s: State, r: Command, p: Payload)
    ensures Admit(c, s, r) == Some(p) <==> Extends(c, s, r, p)
  {
    hide DecodedPayload, SignedUnder;
  }

  lemma CommitExact(c: Crypto, s: State, r: Command, p: Payload, t: State)
    requires EffectValid(c, p.effect) && Extends(c, s, r, p)
    ensures Commit(c, s, r, p) == Some(t) <==> Appends(c, s, r, p, t)
  {
    EffectExact(c, s.books, p.effect, t.books);
    OnlyRotationsCarryKeys(c, p.effect);
    hide Record, Allowed, Does, Extends, CommandDigest, KeyIDs, EffectValid;
  }

  /** A command is accepted exactly when it repeats the newest record, which changes nothing, or when it can be appended,
      and then that is what happens. */
  lemma StepExact(c: Crypto, s: State, r: Command, t: State)
    requires VerifyPossession(c, s.current)
    ensures Repeats(c, s, r) ==> (Step(c, s, r) == Some(t) <==> t == s)
    ensures !Repeats(c, s, r) && DecodedPayload(c, r).None? ==> Step(c, s, r).None?
    ensures !Repeats(c, s, r) && DecodedPayload(c, r).Some? ==>
      (Step(c, s, r) == Some(t) <==> Appends(c, s, r, DecodedPayload(c, r).value, t))
  {
    hide Repeats, Admit, Commit, Appends, EffectValid, VerifyPossession, DecodedPayload;
    if p :| DecodedPayload(c, r) == Some(p) {
      AdmitExact(c, s, r, p);
      if Extends(c, s, r, p) { CommitExact(c, s, r, p, t); }
      AppendsExtends(c, s, r, p, t);
    }
  }

  lemma AppendsExtends(c: Crypto, s: State, r: Command, p: Payload, t: State)
    requires EffectValid(c, p.effect)
    ensures Appends(c, s, r, p, t) ==> Extends(c, s, r, p)
  {
    hide Extends, Does, Allowed;
  }

  // ---- ended credentials ----

  ghost predicate CredentialActive(b: Books, credentialID: UUID) {
    exists k :: IsActive(b, k) && b.grants[k].grant.credential.credentialID == credentialID
  }

  /** The command is a new one that revokes or supersedes the grant. */
  ghost predicate EndsGrant(c: Crypto, s: State, r: Command, k: string) {
    && !Repeats(c, s, r) && DecodedPayload(c, r).Some?
    && var e := DecodedPayload(c, r).value.effect;
    (e.kind == RevokeCredential || e.kind == SupersedeCredential) && e.priorGrant == Some(k)
  }

  /** An accepted revocation or supersession ends the credential for good: it was active, and no later state of any run
      has it active again. */
  lemma EndedForGood(c: Crypto, s: State, r: Command, k: string, attempts: seq<Command>)
    requires Inv(c, s) && Step(c, s, r).Some? && EndsGrant(c, s, r, k)
    ensures IsActive(s.books, k)
    ensures var credentialID := s.books.grants[k].grant.credential.credentialID;
      !CredentialActive(Run(c, Step(c, s, r).value, attempts).books, credentialID)
  {
    hide Run, Replay, LogSound, KeysSound, Step;
    var t := Step(c, s, r).value;
    GrantEnds(c, s, r, k);
    StepInv(c, s, r);
    RunInv(c, t, attempts);
    hide Inv;
    StaysEnded(c, t, Run(c, t, attempts), k);
  }

  lemma GrantEnds(c: Crypto, s: State, r: Command, k: string)
    requires Inv(c, s) && Step(c, s, r).Some? && EndsGrant(c, s, r, k)
    ensures IsActive(s.books, k)
    ensures var d := Step(c, s, r).value.books;
      k in d.grants && d.grants[k].grant == s.books.grants[k].grant && d.grants[k].status != Active
  {
    hide Replay, LogSound, Step, Sound, DecodedPayload, Repeats, Extends, CommandDigest, KeyIDs;
    StepExact(c, s, r, Step(c, s, r).value);
  }

  lemma StaysEnded(c: Crypto, t: State, u: State, k: string)
    requires Inv(c, u) && Moves(t.books, u.books) && k in t.books.grants && t.books.grants[k].status != Active
    ensures !CredentialActive(u.books, t.books.grants[k].grant.credential.credentialID)
  {
    hide Replay, LogSound, KeysSound, HeadSound, ChainsEnd, GrantSound, ConsentSound, ConsentsDistinct;
    assert GrantMoves(t.books.grants[k], u.books.grants[k]);
  }
}
