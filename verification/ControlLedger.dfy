/**
 The account-control books: which targets, grants and scope consents the accepted commands have built up,
 and the invariant every command keeps on them.
 */
module ControlLedger {
  import opened Bytes
  import opened ControlRecords

  datatype Status = Active | Superseded | Revoked

  datatype AcceptedGrant = AcceptedGrant(grant: Grant, referenceDigest: string, status: Status,
    replacement: Option<string>)

  datatype AcceptedConsent = AcceptedConsent(consent: Consent, referenceDigest: string, revoked: bool)

  datatype Books = Books(targets: map<UUID, UUID>, grants: map<string, AcceptedGrant>,
    consents: map<string, AcceptedConsent>)

  const NO_BOOKS := Books(map[], map[], map[])

  /** A lookup of a missing target answers the nil UUID. */
  function BackupSetOf(targets: map<UUID, UUID>, targetID: UUID): UUID {
    if targetID in targets then targets[targetID] else NIL
  }

  // ---- the effect of each command ----

  function InsertGrant(c: Crypto, grants: map<string, AcceptedGrant>, g: Grant): Option<map<string, AcceptedGrant>> {
    var reference := GrantDigest(c, g);
    if reference.None? || reference.value in grants
       || (exists k :: k in grants && grants[k].grant.credential.credentialID == g.credential.credentialID)
    then None
    else Some(grants[reference.value := AcceptedGrant(g, reference.value, Active, None)])
  }

  predicate Clashes(a: AcceptedConsent, reference: string, s: Consent) {
    a.referenceDigest == reference || a.consent.bindingID == s.bindingID || a.consent.linkID == s.linkID
    || a.consent.linkIntentDigest == s.linkIntentDigest
  }

  function InsertConsent(c: Crypto, consents: map<string, AcceptedConsent>,
      s: Consent): Option<map<string, AcceptedConsent>> {
    var reference := ConsentDigest(c, s);
    if reference.None? || (exists k :: k in consents && Clashes(consents[k], reference.value, s))
    then None
    else Some(consents[reference.value := AcceptedConsent(s, reference.value, false)])
  }

  function CreateTarget(c: Crypto, b: Books, targetID: UUID, backupSetID: UUID, g: Grant): Option<Books> {
    var grants := InsertGrant(c, b.grants, g);
    if targetID in b.targets || backupSetID in b.targets.Values || grants.None? then None
    else Some(b.(targets := b.targets[targetID := backupSetID], grants := grants.value))
  }

  function AddGrant(c: Crypto, b: Books, g: Grant): Option<Books> {
    var grants := InsertGrant(c, b.grants, g);
    if BackupSetOf(b.targets, g.credential.targetID) != g.credential.backupSetID || grants.None? then None
    else Some(b.(grants := grants.value))
  }

  function Supersede(c: Crypto, b: Books, prior: string, g: Grant): Option<Books> {
    var grants := InsertGrant(c, b.grants, g);
    if prior !in b.grants || !b.grants[prior].status.Active?
       || BackupSetOf(b.targets, g.credential.targetID) != g.credential.backupSetID
       || b.grants[prior].grant.credential.targetID != g.credential.targetID
       || b.grants[prior].grant.credential.backupSetID != g.credential.backupSetID || grants.None? then None
    else Some(b.(grants := grants.value[
              prior := b.grants[prior].(status := Superseded, replacement := GrantDigest(c, g))]))
  }

  function Revoke(b: Books, prior: string): Option<Books> {
    if prior !in b.grants || !b.grants[prior].status.Active? then None
    else Some(b.(grants := b.grants[prior := b.grants[prior].(status := Revoked, replacement := None)]))
  }

  function AddConsent(c: Crypto, b: Books, s: Consent): Option<Books> {
    var consents := InsertConsent(c, b.consents, s);
    if BackupSetOf(b.targets, s.targetID) != s.backupSetID || consents.None? then None
    else Some(b.(consents := consents.value))
  }

  function RevokeConsent(b: Books, reference: string): Option<Books> {
    if reference !in b.consents || b.consents[reference].revoked then None
    else Some(b.(consents := b.consents[reference := b.consents[reference].(revoked := true)]))
  }

  /** What a valid command's effect does to the books; a key rotation leaves them alone. */
  function Record(c: Crypto, b: Books, e: Effect): Option<Books>
    requires EffectValid(c, e)
  {
    match e.kind
    case CreateTargetWithInitialGrant => CreateTarget(c, b, e.targetID.value, e.backupSetID.value, e.grant.value)
    case GrantCredential => AddGrant(c, b, e.grant.value)
    case SupersedeCredential => Supersede(c, b, e.priorGrant.value, e.grant.value)
    case RevokeCredential => Revoke(b, e.priorGrant.value)
    case RotateControlKey => Some(b)
    case ConsentObjectScope => AddConsent(c, b, e.consent.value)
    case RevokeObjectScopeConsent => RevokeConsent(b, e.priorConsent.value)
    case Unknown(_) => None
  }

  // ---- the invariant ----

  /** Targets are real and no backup set belongs to two of them. */
  ghost predicate TargetsSound(targets: map<UUID, UUID>) {
    && (forall t :: t in targets ==> t != NIL && targets[t] != NIL)
    && (forall t, u :: t in targets && u in targets && targets[t] == targets[u] ==> t == u)
  }

  /** A grant stands under its own digest, on a known target; a superseded one names its successor. */
  ghost predicate GrantSound(c: Crypto, b: Books, k: string)
    requires k in b.grants
  {
    var a := b.grants[k];
    && a.referenceDigest == k && GrantDigest(c, a.grant) == Some(k)
    && a.grant.credential.targetID in b.targets
    && b.targets[a.grant.credential.targetID] == a.grant.credential.backupSetID
    && (a.status.Superseded? <==> a.replacement.Some?)
    && (a.replacement.Some? ==> a.replacement.value in b.grants && SameTarget(a, b.grants[a.replacement.value]))
  }

  ghost predicate SameTarget(a: AcceptedGrant, b: AcceptedGrant) {
    a.grant.credential.targetID == b.grant.credential.targetID &&
    a.grant.credential.backupSetID == b.grant.credential.backupSetID
  }

  /** No credential ID appears in two grants. */
  ghost predicate CredentialsDistinct(grants: map<string, AcceptedGrant>) {
    forall k, l ::
      k in grants && l in grants && grants[k].grant.credential.credentialID == grants[l].grant.credential.credentialID ==>
      k == l
  }

  ghost predicate ConsentSound(c: Crypto, b: Books, k: string)
    requires k in b.consents
  {
    var a := b.consents[k];
    && a.referenceDigest == k && ConsentDigest(c, a.consent) == Some(k)
    && a.consent.targetID in b.targets && b.targets[a.consent.targetID] == a.consent.backupSetID
  }

  /** Bindings, links and link intents are consented to at most once. */
  ghost predicate ConsentsDistinct(consents: map<string, AcceptedConsent>) {
    forall k, l :: k in consents && l in consents && Clashes(consents[k], l, consents[l].consent) ==> k == l
  }

  ghost predicate Sound(c: Crypto, b: Books) {
    && TargetsSound(b.targets) && CredentialsDistinct(b.grants) && ConsentsDistinct(b.consents)
    && (forall k :: k in b.grants ==> GrantSound(c, b, k))
    && (forall k :: k in b.consents ==> ConsentSound(c, b, k))
  }

  /** Grants carry ranks below `bound` that rise along every supersession. */
  ghost predicate Ranked(grants: map<string, AcceptedGrant>, rank: map<string, nat>, bound: nat) {
    && (forall k :: k in grants ==> k in rank && rank[k] < bound)
    && (forall k :: k in grants && grants[k].replacement.Some? ==>
          grants[k].replacement.value in rank && rank[k] < rank[grants[k].replacement.value])
  }

  // ---- every effect keeps it ----

  lemma InsertGrantSound(c: Crypto, b: Books, g: Grant, d: Books)
    requires Sound(c, b) && InsertGrant(c, b.grants, g) == Some(d.grants)
    requires TargetsSound(d.targets) && d.consents == b.consents
    requires forall t :: t in b.targets ==> t in d.targets && d.targets[t] == b.targets[t]
    requires g.credential.targetID in d.targets && d.targets[g.credential.targetID] == g.credential.backupSetID
    ensures Sound(c, d)
  {
    hide GrantDigest, ConsentDigest, Clashes;
    forall k | k in d.grants ensures GrantSound(c, d, k) {
      assert k in b.grants ==> GrantSound(c, b, k);
    }
    forall k | k in d.consents ensures ConsentSound(c, d, k) {
      assert ConsentSound(c, b, k);
    }
  }

  function Mark(b: Books, prior: string, status: Status, replacement: Option<string>): Books
    requires prior in b.grants
  {
    b.(grants := b.grants[prior := b.grants[prior].(status := status, replacement := replacement)])
  }

  lemma MarkSound(c: Crypto, b: Books, prior: string, status: Status, replacement: Option<string>)
    requires Sound(c, b) && prior in b.grants && (status.Superseded? <==> replacement.Some?)
    requires replacement.Some? ==>
      replacement.value in b.grants && SameTarget(b.grants[prior], b.grants[replacement.value])
    ensures Sound(c, Mark(b, prior, status, replacement))
  {
    hide GrantDigest, ConsentDigest, Clashes;
    var d := Mark(b, prior, status, replacement);
    forall k | k in d.grants ensures GrantSound(c, d, k) {
      assert GrantSound(c, b, k);
    }
    forall k | k in d.consents ensures ConsentSound(c, d, k) {
      assert ConsentSound(c, b, k);
    }
  }

  lemma SupersedeSound(c: Crypto, b: Books, prior: string, g: Grant)
    requires Sound(c, b) && Supersede(c, b, prior, g).Some? && GrantValid(c, g)
    ensures Sound(c, Supersede(c, b, prior, g).value)
  {
    hide Sound, ConsentDigest, Clashes, GrantValid;
    var inserted := b.(grants := InsertGrant(c, b.grants, g).value);
    BackupSetKnown(c, g);
    TargetsOf(c, b);
    InsertGrantSound(c, b, g, inserted);
    MarkSound(c, inserted, prior, Superseded, GrantDigest(c, g));
  }

  lemma BackupSetKnown(c: Crypto, g: Grant)
    requires GrantValid(c, g)
    ensures g.credential.backupSetID != NIL
  {
  }

  lemma ConsentEffectSound(c: Crypto, b: Books, d: Books)
    requires Sound(c, b) && d.targets == b.targets && d.grants == b.grants
    requires ConsentsDistinct(d.consents) && forall k :: k in d.consents ==> ConsentSound(c, d, k)
    ensures Sound(c, d)
  {
    hide GrantDigest, ConsentDigest, Clashes;
    forall k | k in d.grants ensures GrantSound(c, d, k) {
      assert GrantSound(c, b, k);
    }
  }

  lemma AddConsentSound(c: Crypto, b: Books, s: Consent)
    requires Sound(c, b) && AddConsent(c, b, s).Some? && ConsentValid(c, s)
    ensures Sound(c, AddConsent(c, b, s).value)
  {
    var d := AddConsent(c, b, s).value;
    forall k | k in d.consents ensures ConsentSound(c, d, k) {
      assert k in b.consents ==> ConsentSound(c, b, k);
    }
    forall k, l | k in d.consents && l in d.consents && Clashes(d.consents[k], l, d.consents[l].consent)
      ensures k == l
    {
      assert k in b.consents ==> ConsentSound(c, b, k);
      assert l in b.consents ==> ConsentSound(c, b, l);
      var reference := ConsentDigest(c, s).value;
      assert reference !in b.consents by {
        if reference in b.consents {
          assert ConsentSound(c, b, reference);
          assert Clashes(b.consents[reference], reference, s);
        }
      }
      assert k in b.consents ==> !Clashes(b.consents[k], reference, s);
      assert l in b.consents ==> !Clashes(b.consents[l], reference, s);
    }
    ConsentEffectSound(c, b, d);
  }

  lemma RevokeConsentSound(c: Crypto, b: Books, reference: string)
    requires Sound(c, b) && RevokeConsent(b, reference).Some?
    ensures Sound(c, RevokeConsent(b, reference).value)
  {
    hide ConsentDigest;
    var d := RevokeConsent(b, reference).value;
    forall k | k in d.consents ensures ConsentSound(c, d, k) {
      assert ConsentSound(c, b, k);
    }
    forall k, l | k in d.consents && l in d.consents && Clashes(d.consents[k], l, d.consents[l].consent)
      ensures k == l
    {
      assert Clashes(b.consents[k], l, b.consents[l].consent);
    }
    ConsentEffectSound(c, b, d);
  }

  lemma CreateTargetSound(c: Crypto, b: Books, targetID: UUID, backupSetID: UUID, g: Grant)
    requires Sound(c, b) && CreateTarget(c, b, targetID, backupSetID, g).Some? && targetID != NIL && backupSetID != NIL
    requires g.credential.targetID == targetID && g.credential.backupSetID == backupSetID
    ensures Sound(c, CreateTarget(c, b, targetID, backupSetID, g).value)
  {
    hide InsertGrant, GrantDigest;
    var d := CreateTarget(c, b, targetID, backupSetID, g).value;
    assert TargetsSound(d.targets) by {
      forall t, u | t in d.targets && u in d.targets && d.targets[t] == d.targets[u] ensures t == u {
        assert forall v :: v in b.targets ==> b.targets[v] in b.targets.Values;
      }
    }
    InsertGrantSound(c, b, g, d);
  }

  /** Every effect of a valid command keeps the books sound. */
  lemma RecordSound(c: Crypto, b: Books, e: Effect)
    requires Sound(c, b) && EffectValid(c, e) && Record(c, b, e).Some?
    ensures Sound(c, Record(c, b, e).value)
  {
    hide Sound, CreateTarget, AddGrant, Supersede, AddConsent, RevokeConsent, GrantValid, ConsentValid,
      VerifyPossession;
    match e.kind {
      case CreateTargetWithInitialGrant =>
        CreateTargetSound(c, b, e.targetID.value, e.backupSetID.value, e.grant.value);
      case GrantCredential => AddGrantSound(c, b, e.grant.value);
      case SupersedeCredential => SupersedeSound(c, b, e.priorGrant.value, e.grant.value);
      case RevokeCredential => MarkSound(c, b, e.priorGrant.value, Revoked, None);
      case RotateControlKey =>
      case ConsentObjectScope => AddConsentSound(c, b, e.consent.value);
      case RevokeObjectScopeConsent => RevokeConsentSound(c, b, e.priorConsent.value);
      case _ =>
    }
  }

  lemma AddGrantSound(c: Crypto, b: Books, g: Grant)
    requires Sound(c, b) && AddGrant(c, b, g).Some? && GrantValid(c, g)
    ensures Sound(c, AddGrant(c, b, g).value)
  {
    hide Sound, InsertGrant, GrantValid;
    BackupSetKnown(c, g);
    TargetsOf(c, b);
    InsertGrantSound(c, b, g, AddGrant(c, b, g).value);
  }

  lemma TargetsOf(c: Crypto, b: Books)
    requires Sound(c, b)
    ensures TargetsSound(b.targets)
  {
  }

  lemma GrantIsSound(c: Crypto, b: Books, k: string)
    requires Sound(c, b) && k in b.grants
    ensures GrantSound(c, b, k)
  {
  }

  // ---- how the books move ----

  /** A grant keeps its content, and once it is no longer active nothing about it changes. */
  ghost predicate GrantMoves(a: AcceptedGrant, b: AcceptedGrant) {
    && b.grant == a.grant && b.referenceDigest == a.referenceDigest
    && (!a.status.Active? ==> b == a)
  }

  ghost predicate ConsentMoves(a: AcceptedConsent, b: AcceptedConsent) {
    b.consent == a.consent && b.referenceDigest == a.referenceDigest && (a.revoked ==> b.revoked)
  }

  /** Nothing recorded is forgotten, targets are fixed, and grants and consents only move forward. */
  ghost predicate Moves(b: Books, d: Books) {
    && (forall t :: t in b.targets ==> t in d.targets && d.targets[t] == b.targets[t])
    && (forall k :: k in b.grants ==> k in d.grants && GrantMoves(b.grants[k], d.grants[k]))
    && (forall k :: k in b.consents ==> k in d.consents && ConsentMoves(b.consents[k], d.consents[k]))
  }

  lemma RecordMoves(c: Crypto, b: Books, e: Effect)
    requires Sound(c, b) && EffectValid(c, e) && Record(c, b, e).Some?
    ensures Moves(b, Record(c, b, e).value)
  {
    hide Sound, Moves, CreateTarget, AddGrant, Supersede, Revoke, AddConsent, RevokeConsent, GrantValid, ConsentValid,
      VerifyPossession;
    match e.kind {
      case CreateTargetWithInitialGrant =>
        CreateTargetMoves(c, b, e.targetID.value, e.backupSetID.value, e.grant.value);
      case GrantCredential => AddGrantMoves(c, b, e.grant.value);
      case SupersedeCredential => SupersedeMoves(c, b, e.priorGrant.value, e.grant.value);
      case RevokeCredential => RevokeMoves(b, e.priorGrant.value);
      case RotateControlKey => MovesNowhere(b);
      case ConsentObjectScope => AddConsentMoves(c, b, e.consent.value);
      case RevokeObjectScopeConsent => RevokeConsentMoves(b, e.priorConsent.value);
      case _ =>
    }
  }

  lemma MovesNowhere(b: Books)
    ensures Moves(b, b)
  {
  }

  lemma CreateTargetMoves(c: Crypto, b: Books, targetID: UUID, backupSetID: UUID, g: Grant)
    requires CreateTarget(c, b, targetID, backupSetID, g).Some?
    ensures Moves(b, CreateTarget(c, b, targetID, backupSetID, g).value)
  {
    hide GrantDigest;
  }

  lemma AddGrantMoves(c: Crypto, b: Books, g: Grant)
    requires AddGrant(c, b, g).Some?
    ensures Moves(b, AddGrant(c, b, g).value)
  {
    hide GrantDigest;
  }

  lemma SupersedeMoves(c: Crypto, b: Books, prior: string, g: Grant)
    requires Supersede(c, b, prior, g).Some?
    ensures Moves(b, Supersede(c, b, prior, g).value)
  {
    hide GrantDigest;
  }

  lemma RevokeMoves(b: Books, prior: string)
    requires Revoke(b, prior).Some?
    ensures Moves(b, Revoke(b, prior).value)
  {
  }

  lemma RevokeConsentMoves(b: Books, reference: string)
    requires RevokeConsent(b, reference).Some?
    ensures Moves(b, RevokeConsent(b, reference).value)
  {
  }

  lemma AddConsentMoves(c: Crypto, b: Books, s: Consent)
    requires Sound(c, b) && AddConsent(c, b, s).Some?
    ensures Moves(b, AddConsent(c, b, s).value)
  {
    var reference := ConsentDigest(c, s).value;
    if reference in b.consents {
      assert ConsentSound(c, b, reference);
      assert Clashes(b.consents[reference], reference, s);
    }
  }

  lemma MovesOn(a: Books, b: Books, d: Books)
    requires Moves(a, b) && Moves(b, d)
    ensures Moves(a, d)
  {
    forall k | k in a.grants ensures k in d.grants && GrantMoves(a.grants[k], d.grants[k]) {
      assert GrantMoves(a.grants[k], b.grants[k]) && GrantMoves(b.grants[k], d.grants[k]);
    }
    forall k | k in a.consents ensures k in d.consents && ConsentMoves(a.consents[k], d.consents[k]) {
      assert ConsentMoves(a.consents[k], b.consents[k]) && ConsentMoves(b.consents[k], d.consents[k]);
    }
  }

  lemma NewcomerRanked(grants: map<string, AcceptedGrant>, rank: map<string, nat>, bound: nat, k: string,
      a: AcceptedGrant)
    requires Ranked(grants, rank, bound) && k !in grants && a.replacement.None?
    requires forall l :: l in grants && grants[l].replacement.Some? ==> grants[l].replacement.value in grants
    ensures Ranked(grants[k := a], rank[k := bound], bound + 1)
  {
    var all, next := grants[k := a], rank[k := bound];
    forall l | l in all && all[l].replacement.Some?
      ensures all[l].replacement.value in next && next[l] < next[all[l].replacement.value]
    {
      assert l in grants && grants[l].replacement.value in grants;
    }
  }

  lemma InsertGrantRanked(c: Crypto, b: Books, g: Grant, rank: map<string, nat>, bound: nat)
    returns (next: map<string, nat>)
    requires Sound(c, b) && InsertGrant(c, b.grants, g).Some? && Ranked(b.grants, rank, bound)
    ensures Ranked(InsertGrant(c, b.grants, g).value, next, bound + 1)
    ensures next == rank[GrantDigest(c, g).value := bound] && GrantDigest(c, g).value !in b.grants
  {
    hide GrantDigest, Sound, Ranked;
    var reference := GrantDigest(c, g).value;
    next := rank[reference := bound];
    forall k | k in b.grants && b.grants[k].replacement.Some?
      ensures b.grants[k].replacement.value in b.grants
    {
      GrantIsSound(c, b, k);
    }
    NewcomerRanked(b.grants, rank, bound, reference, AcceptedGrant(g, reference, Active, None));
  }

  lemma SupersedeRanked(c: Crypto, b: Books, prior: string, g: Grant, rank: map<string, nat>, bound: nat)
    returns (next: map<string, nat>)
    requires Sound(c, b) && Supersede(c, b, prior, g).Some? && Ranked(b.grants, rank, bound)
    ensures Ranked(Supersede(c, b, prior, g).value.grants, next, bound + 1)
  {
    next := InsertGrantRanked(c, b, g, rank, bound);
  }

  /** Ranks extend over every effect: a new grant gets the highest rank so far. */
  lemma RecordRanked(c: Crypto, b: Books, e: Effect, rank: map<string, nat>, bound: nat)
    returns (next: map<string, nat>)
    requires Sound(c, b) && EffectValid(c, e) && Record(c, b, e).Some? && Ranked(b.grants, rank, bound)
    ensures Ranked(Record(c, b, e).value.grants, next, bound + 1)
  {
    hide Sound, InsertGrant, Supersede, InsertConsent, GrantValid, ConsentValid, VerifyPossession;
    match e.kind {
      case CreateTargetWithInitialGrant => next := InsertGrantRanked(c, b, e.grant.value, rank, bound);
      case GrantCredential => next := InsertGrantRanked(c, b, e.grant.value, rank, bound);
      case SupersedeCredential => next := SupersedeRanked(c, b, e.priorGrant.value, e.grant.value, rank, bound);
      case _ => next := rank;
    }
  }

  /** A supersession chain: each grant is superseded by the next and the last one is not superseded. */
  ghost predicate Chain(grants: map<string, AcceptedGrant>, chain: seq<string>) {
    && chain != [] && (forall i :: 0 <= i < |chain| ==> chain[i] in grants)
    && (forall i :: 0 < i < |chain| ==> grants[chain[i - 1]].replacement == Some(chain[i]))
    && !grants[chain[|chain| - 1]].status.Superseded?
  }

  /** From every grant a finite chain of replacements leads, on one target, to an active or revoked grant. */
  lemma {:induction false} ChainEnds(c: Crypto, b: Books, rank: map<string, nat>, bound: nat, k: string)
    returns (chain: seq<string>)
    requires Sound(c, b) && Ranked(b.grants, rank, bound) && k in b.grants
    ensures Chain(b.grants, chain) && chain[0] == k
    ensures forall i :: 0 <= i < |chain| ==> SameTarget(b.grants[k], b.grants[chain[i]])
    ensures b.grants[chain[|chain| - 1]].status.Active? || b.grants[chain[|chain| - 1]].status.Revoked?
    decreases bound - rank[k]
  {
    hide Sound, GrantDigest;
    GrantIsSound(c, b, k);
    if b.grants[k].replacement.None? {
      chain := [k];
    } else {
      var next := b.grants[k].replacement.value;
      var rest := ChainEnds(c, b, rank, bound, next);
      chain := [k] + rest;
      forall i | 0 < i < |chain| ensures b.grants[chain[i - 1]].replacement == Some(chain[i]) {
        assert i > 1 ==> chain[i - 1] == rest[i - 2];
      }
    }
  }
}
