/**
 The portable account-control records: possession anchors, credential grants, object scope consents and the
 signed commands that carry them, with their validation and reference digests.
 */
module ControlRecords {
  import opened Bytes

  type UUID = nat

  const NIL: UUID := 0
  const AUTHORITY_VERSION := 1
  const MAXIMUM_RECORD_BYTES := 80 * 1024
  const MAX_UINT64: nat := 0xFFFF_FFFF_FFFF_FFFF

  /** What a digest or a signature covers is tagged by its use. */
  datatype Domain = AnchorPossession | AnchorReference | CommandAuthority | CommandNewPossession | CommandReference
                  | GrantReference | ConsentReference

  datatype UnsignedAnchor = UnsignedAnchor(accountID: UUID, algorithm: string, controlGeneration: nat,
    controlKeyID: UUID, publicSigningKey: string, signingKeyFingerprint: string, version: int)

  datatype Anchor = Anchor(possessionSignature: string, unsigned: UnsignedAnchor)

  datatype Capability = Publish | Read | RetentionProof | Other(name: string)

  datatype Credential = Credential(accountID: UUID, backupSetID: UUID, capabilities: seq<Capability>,
    credentialID: UUID, expiresAtMilliseconds: int, requestNonce: string, targetID: UUID, version: int)

  datatype Grant = Grant(authorizationDigest: string, credential: Credential, version: int)

  datatype Consent = Consent(accountID: UUID, backupSetID: UUID, bindingID: UUID, contentEpoch: nat,
    contentScopeID: UUID, ledgerID: UUID, linkID: UUID, linkIntentDigest: string, poolID: UUID, targetID: UUID,
    version: int)

  datatype Kind = CreateTargetWithInitialGrant | GrantCredential | SupersedeCredential | RevokeCredential
                | RotateControlKey | ConsentObjectScope | RevokeObjectScopeConsent | Unknown(name: string)

  datatype Effect = Effect(kind: Kind, backupSetID: Option<UUID>, controlAnchor: Option<Anchor>, grant: Option<Grant>,
    consent: Option<Consent>, priorGrant: Option<string>, priorConsent: Option<string>, targetID: Option<UUID>)

  datatype Payload = Payload(accountID: UUID, commandID: UUID, controlGeneration: nat, controlKeyID: UUID,
    effect: Effect, predecessorReferenceDigest: string, sequence: nat, version: int)

  datatype Command = Command(authoritySignature: string, newPossessionSignature: Option<string>, payload: seq<byte>)

  /** The foreign parts: JSON, base64 and hexadecimal forms, SHA-256 and Ed25519. Nothing is assumed of them except
      where `CollisionFree` is required. */
  datatype Crypto = Crypto(
    hexShape: string -> bool,
    nonceShape: string -> bool,
    keyShape: string -> bool,
    signatureShape: string -> bool,
    fingerprint: string -> string,
    keyID: string -> UUID,
    digest: (Domain, seq<byte>) -> string,
    verifies: (string, Domain, seq<byte>, string) -> bool,
    encodeUnsignedAnchor: UnsignedAnchor -> seq<byte>,
    encodeAnchor: Anchor -> seq<byte>,
    encodeGrant: Grant -> seq<byte>,
    encodeConsent: Consent -> seq<byte>,
    encodeCommand: Command -> seq<byte>,
    decodePayload: seq<byte> -> Option<Payload>)

  /** No two tagged byte strings share a digest, and encodings determine what they encode. */
  ghost predicate CollisionFree(c: Crypto) {
    && (forall d: Domain, e: Domain, x: seq<byte>, y: seq<byte> ::
         c.digest(d, x) == c.digest(e, y) ==> d == e && x == y)
    && (forall a, b :: c.encodeAnchor(a) == c.encodeAnchor(b) ==> a == b)
    && (forall a, b :: c.encodeCommand(a) == c.encodeCommand(b) ==> a == b)
  }

  // ---- anchors ----

  predicate UnsignedAnchorValid(c: Crypto, a: UnsignedAnchor) {
    && a.version == AUTHORITY_VERSION && a.accountID != NIL && a.algorithm == "Ed25519" && a.controlGeneration != 0
    && a.controlKeyID != NIL && c.keyShape(a.publicSigningKey) && c.hexShape(a.signingKeyFingerprint)
    && a.signingKeyFingerprint == c.fingerprint(a.publicSigningKey) && a.controlKeyID == c.keyID(a.publicSigningKey)
  }

  predicate VerifyPossession(c: Crypto, a: Anchor) {
    && UnsignedAnchorValid(c, a.unsigned) && c.signatureShape(a.possessionSignature)
    && c.verifies(a.unsigned.publicSigningKey, AnchorPossession, c.encodeUnsignedAnchor(a.unsigned),
      a.possessionSignature)
  }

  function AnchorDigest(c: Crypto, a: Anchor): Option<string> {
    if VerifyPossession(c, a) && |c.encodeAnchor(a)| <= MAXIMUM_RECORD_BYTES
    then Some(c.digest(AnchorReference, c.encodeAnchor(a))) else None
  }

  // ---- grants and consents ----

  function Rank(capability: Capability): nat {
    match capability case Publish => 0 case Read => 1 case RetentionProof => 2 case Other(_) => 3
  }

  predicate CredentialValid(c: Crypto, r: Credential) {
    && r.version == 1 && r.accountID != NIL && r.backupSetID != NIL && r.targetID != NIL && r.credentialID != NIL
    && r.expiresAtMilliseconds >= 0 && c.nonceShape(r.requestNonce) && r.capabilities != []
    && (forall i :: 0 <= i < |r.capabilities| ==> !r.capabilities[i].Other?)
    && (forall i :: 0 < i < |r.capabilities| ==> Rank(r.capabilities[i - 1]) < Rank(r.capabilities[i]))
  }

  predicate GrantValid(c: Crypto, g: Grant) {
    g.version == AUTHORITY_VERSION && CredentialValid(c, g.credential) && c.hexShape(g.authorizationDigest)
  }

  function GrantDigest(c: Crypto, g: Grant): Option<string> {
    if GrantValid(c, g) then Some(c.digest(GrantReference, c.encodeGrant(g))) else None
  }

  predicate ConsentValid(c: Crypto, s: Consent) {
    && s.version == 1 && s.accountID != NIL && s.backupSetID != NIL && s.bindingID != NIL && s.contentEpoch != 0
    && s.contentScopeID != NIL && s.ledgerID != NIL && s.linkID != NIL && c.hexShape(s.linkIntentDigest)
    && s.poolID != NIL && s.targetID != NIL
  }

  function ConsentDigest(c: Crypto, s: Consent): Option<string> {
    if ConsentValid(c, s) then Some(c.digest(ConsentReference, c.encodeConsent(s))) else None
  }

  // ---- commands ----

  predicate EffectValid(c: Crypto, e: Effect) {
    if e.kind.ConsentObjectScope? || e.kind.RevokeObjectScopeConsent? then
      && e.backupSetID.None? && e.controlAnchor.None? && e.grant.None? && e.priorGrant.None? && e.targetID.None?
      && (if e.kind.ConsentObjectScope?
          then e.consent.Some? && ConsentValid(c, e.consent.value) && e.priorConsent.None?
          else e.consent.None? && e.priorConsent.Some? && c.hexShape(e.priorConsent.value))
    else
      && e.consent.None? && e.priorConsent.None?
      && match e.kind
         case CreateTargetWithInitialGrant =>
           && e.targetID.Some? && e.targetID.value != NIL && e.backupSetID.Some? && e.backupSetID.value != NIL
           && e.grant.Some? && GrantValid(c, e.grant.value) && e.grant.value.credential.targetID == e.targetID.value
           && e.grant.value.credential.backupSetID == e.backupSetID.value && e.priorGrant.None? && e.controlAnchor.None?
         case GrantCredential =>
           && e.grant.Some? && GrantValid(c, e.grant.value) && e.targetID.None? && e.backupSetID.None?
           && e.priorGrant.None? && e.controlAnchor.None?
         case SupersedeCredential =>
           && e.grant.Some? && GrantValid(c, e.grant.value) && e.priorGrant.Some? && c.hexShape(e.priorGrant.value)
           && e.targetID.None? && e.backupSetID.None? && e.controlAnchor.None?
         case RevokeCredential =>
           && e.priorGrant.Some? && c.hexShape(e.priorGrant.value) && e.grant.None? && e.targetID.None?
           && e.backupSetID.None? && e.controlAnchor.None?
         case RotateControlKey =>
           && e.controlAnchor.Some? && VerifyPossession(c, e.controlAnchor.value) && e.grant.None? && e.targetID.None?
           && e.backupSetID.None? && e.priorGrant.None?
         case _ => false
  }

  predicate PayloadValid(c: Crypto, p: Payload) {
    && p.version == AUTHORITY_VERSION && p.accountID != NIL && p.commandID != NIL && p.controlGeneration != 0
    && p.controlKeyID != NIL && p.sequence != 0 && c.hexShape(p.predecessorReferenceDigest) && EffectValid(c, p.effect)
    && (p.effect.grant.Some? ==> p.effect.grant.value.credential.accountID == p.accountID)
    && (p.effect.consent.Some? ==> p.effect.consent.value.accountID == p.accountID)
  }

  /** Both signatures have the right form, and the second is there exactly for a rotation. */
  predicate SignaturesFormed(c: Crypto, r: Command, p: Payload) {
    && c.signatureShape(r.authoritySignature) && (p.effect.kind.RotateControlKey? <==> r.newPossessionSignature.Some?)
    && (r.newPossessionSignature.Some? ==> c.signatureShape(r.newPossessionSignature.value))
  }

  function DecodedPayload(c: Crypto, r: Command): (d: Option<Payload>)
    ensures d.Some? ==> d == c.decodePayload(r.payload) && PayloadValid(c, d.value) && SignaturesFormed(c, r, d.value)
    ensures d.None? ==>
      forall p :: c.decodePayload(r.payload) == Some(p) && PayloadValid(c, p) ==> !SignaturesFormed(c, r, p)
  {
    var p := c.decodePayload(r.payload);
    if p.Some? && PayloadValid(c, p.value) && c.signatureShape(r.authoritySignature)
       && (r.newPossessionSignature.Some? ==> c.signatureShape(r.newPossessionSignature.value))
       && (p.value.effect.kind.RotateControlKey? <==> r.newPossessionSignature.Some?)
    then p else None
  }

  function CanonicalCommand(c: Crypto, r: Command): Option<seq<byte>> {
    if DecodedPayload(c, r).Some? && |c.encodeCommand(r)| <= MAXIMUM_RECORD_BYTES then Some(c.encodeCommand(r))
    else None
  }

  function CommandDigest(c: Crypto, r: Command): Option<string> {
    var encoded := CanonicalCommand(c, r);
    if encoded.Some? then Some(c.digest(CommandReference, encoded.value)) else None
  }

  /** The successor key proves possession and directly follows the current generation. */
  predicate RotationValid(c: Crypto, r: Command, p: Payload, current: Anchor) {
    && p.effect.controlAnchor.Some? && current.unsigned.controlGeneration != MAX_UINT64
    && var next := p.effect.controlAnchor.value;
    && next.unsigned.accountID == p.accountID
    && next.unsigned.controlGeneration == current.unsigned.controlGeneration + 1
    && next.unsigned.controlKeyID != current.unsigned.controlKeyID && VerifyPossession(c, next)
    && r.newPossessionSignature.Some?
    && c.verifies(next.unsigned.publicSigningKey, CommandNewPossession, r.payload, r.newPossessionSignature.value)
  }

  /** The command is the current key's own: its account, generation and key, signed by it over the exact payload bytes,
      and for a rotation signed by the successor too. */
  predicate SignedUnder(c: Crypto, r: Command, p: Payload, current: Anchor) {
    && VerifyPossession(c, current) && p.accountID == current.unsigned.accountID
    && p.controlGeneration == current.unsigned.controlGeneration && p.controlKeyID == current.unsigned.controlKeyID
    && c.verifies(current.unsigned.publicSigningKey, CommandAuthority, r.payload, r.authoritySignature)
    && (p.effect.kind.RotateControlKey? ==> RotationValid(c, r, p, current))
  }

  function Verify(c: Crypto, r: Command, current: Anchor): (v: Option<Payload>)
    ensures v.Some? ==> v == DecodedPayload(c, r) && SignedUnder(c, r, v.value, current)
    ensures v.None? ==> forall p :: DecodedPayload(c, r) == Some(p) ==> !SignedUnder(c, r, p, current)
  {
    var p := DecodedPayload(c, r);
    if p.Some? && VerifyPossession(c, current) && p.value.accountID == current.unsigned.accountID
       && p.value.controlGeneration == current.unsigned.controlGeneration
       && p.value.controlKeyID == current.unsigned.controlKeyID
       && c.verifies(current.unsigned.publicSigningKey, CommandAuthority, r.payload, r.authoritySignature)
       && (p.value.effect.kind.RotateControlKey? ==> RotationValid(c, r, p.value, current))
    then p else None
  }
}
