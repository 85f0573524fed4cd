/**
 Activating a successor of a space protection policy: at once when it is nowhere more permissive, otherwise only when
 every active participant has acknowledged that exact policy with the pinned key.
 */
module PolicyActivation {
  import opened Bytes

  datatype Control = Allowed | ConsentRequired | Prohibited

  datatype PrivacyClass = Public | Personal | Confidential | Restricted

  const CLASSES := [Public, Personal, Confidential, Restricted]

  datatype Rule = Rule(privacyClass: PrivacyClass, publicSharing: Control, externalProcessing: Control,
    exportCopy: Control, rememberedConsentAllowed: bool)

  datatype Commitments = Commitments(sharing: Control, computation: Control, externalAgents: Control, localLLM: Control,
    privateInfrastructureLLM: Control, externalProviderLLM: Control, exportCopy: Control, disclosureOverrides: Control,
    sharedBrowserHistoryEnabled: bool, privateUserConfigurationsByDefault: bool)

  datatype Policy = Policy(version: int, policyID: nat, spaceID: nat, security: Option<string>, revision: nat,
    predecessorDigest: Option<string>, rules: seq<Rule>, commitments: Commitments, createdAt: int)

  datatype Signed = Signed(policy: Policy, signerID: nat, fingerprint: string, signature: string)

  datatype Participant = Participant(participantID: nat, fingerprint: string)

  datatype Acknowledgement = Acknowledgement(acknowledgementID: nat, spaceID: nat, policyID: nat, policyRevision: nat,
    policyDigest: string, participantID: nat, fingerprint: string, signature: string)

  datatype Authority = Authority(signerID: nat, fingerprint: string)

  /** Foreign checks: signatures, the shape of a digest or profile, and the policy digest. */
  datatype Env = Env(signatureValid: Signed -> bool, acknowledgementValid: Acknowledgement -> bool,
    digest: Policy -> string, digestShape: string -> bool, profileValid: string -> bool)

  datatype Evaluation = Immediate(policy: Policy) | Acknowledged(policy: Policy)
                      | Waiting(current: Policy, pending: Policy, missing: seq<nat>)

  function Authoritative(e: Evaluation): Policy {
    match e case Immediate(p) => p case Acknowledged(p) => p case Waiting(c, _, _) => c
  }

  // ---- policies ----

  predicate RuleValid(r: Rule) {
    r.rememberedConsentAllowed ==> r.privacyClass in {Public, Personal}
  }

  predicate PolicyValid(env: Env, p: Policy) {
    && p.version == 1 && p.policyID != 0 && p.spaceID != 0 && p.revision != 0
    && (p.security.Some? ==> env.profileValid(p.security.value))
    && (p.revision == 1 <==> p.predecessorDigest.None?)
    && (p.predecessorDigest.Some? ==> env.digestShape(p.predecessorDigest.value))
    && |p.rules| == |CLASSES| && p.createdAt >= 0
    && (forall i :: 0 <= i < |p.rules| ==> RuleValid(p.rules[i]) && p.rules[i].privacyClass == CLASSES[i])
    && !(p.security.Some? && p.commitments.sharedBrowserHistoryEnabled)
  }

  predicate SignedValid(env: Env, a: Authority, s: Signed) {
    PolicyValid(env, s.policy) && env.signatureValid(s) && s.signerID == a.signerID && s.fingerprint == a.fingerprint
  }

  // ---- what it means not to be more permissive ----

  /** The first control lets through nothing that the second one would stop. */
  predicate Within(a: Control, b: Control) {
    a == Prohibited || b == Allowed || (a == ConsentRequired && b == ConsentRequired)
  }

  predicate RuleWithin(a: Rule, b: Rule) {
    && Within(a.publicSharing, b.publicSharing) && Within(a.externalProcessing, b.externalProcessing)
    && Within(a.exportCopy, b.exportCopy)
    && (a.rememberedConsentAllowed ==> b.rememberedConsentAllowed)
  }

  predicate CommitmentsWithin(a: Commitments, b: Commitments) {
    && Within(a.sharing, b.sharing) && Within(a.computation, b.computation)
    && Within(a.externalAgents, b.externalAgents)
    && Within(a.localLLM, b.localLLM) && Within(a.privateInfrastructureLLM, b.privateInfrastructureLLM)
    && Within(a.externalProviderLLM, b.externalProviderLLM) && Within(a.exportCopy, b.exportCopy)
    && Within(a.disclosureOverrides, b.disclosureOverrides)
    && (a.sharedBrowserHistoryEnabled ==> b.sharedBrowserHistoryEnabled)
    && (b.privateUserConfigurationsByDefault ==> a.privateUserConfigurationsByDefault)
  }

  /** No control, flag or rule of `a` is more permissive than in `b`. */
  ghost predicate PolicyWithin(a: Policy, b: Policy) {
    && CommitmentsWithin(a.commitments, b.commitments) && |a.rules| == |b.rules|
    && forall i :: 0 <= i < |a.rules| ==> RuleWithin(a.rules[i], b.rules[i])
  }

  lemma WithinItself(p: Policy)
    ensures PolicyWithin(p, p)
  {
  }

  lemma WithinWithin(a: Policy, b: Policy, c: Policy)
    requires PolicyWithin(a, b) && PolicyWithin(b, c)
    ensures PolicyWithin(a, c)
  {
    hide CommitmentsWithin;
    assert CommitmentsWithin(a.commitments,
      c.commitments) by { CommitmentsChain(a.commitments, b.commitments, c.commitments); }
    forall i | 0 <= i < |a.rules| ensures RuleWithin(a.rules[i], c.rules[i]) {
      assert RuleWithin(a.rules[i], b.rules[i]) && RuleWithin(b.rules[i], c.rules[i]);
    }
  }

  lemma CommitmentsChain(a: Commitments, b: Commitments, c: Commitments)
    requires CommitmentsWithin(a, b) && CommitmentsWithin(b, c)
    ensures CommitmentsWithin(a, c)
  {
  }

  // ---- the evaluator ----

  function Permissiveness(c: Control): nat {
    match c case Prohibited => 0 case ConsentRequired => 1 case Allowed => 2
  }

  function Controls(c: Commitments): seq<Control> {
    [c.sharing, c.computation, c.externalAgents, c.localLLM, c.privateInfrastructureLLM,
     c.externalProviderLLM, c.exportCopy, c.disclosureOverrides]
  }

  /** Comparing degrees control by control finds exactly the policies that are more permissive somewhere. */
  method PolicyIsWeakening(current: Policy, proposed: Policy) returns (weakening: bool)
    requires |current.rules| == |proposed.rules|
    ensures weakening <==> !PolicyWithin(proposed, current)
  {
    var before, after := Controls(current.commitments), Controls(proposed.commitments);
    for index := 0 to |before|
      invariant forall i :: 0 <= i < index ==> Within(after[i], before[i])
    {
      if Permissiveness(after[index]) > Permissiveness(before[index]) {
        SomeControlWider(current.commitments, proposed.commitments, index);
        return true;
      }
    }
    if (!current.commitments.sharedBrowserHistoryEnabled && proposed.commitments.sharedBrowserHistoryEnabled)
       || (current.commitments.privateUserConfigurationsByDefault
           && !proposed.commitments.privateUserConfigurationsByDefault) {
      return true;
    }
    AllControlsWithin(current.commitments, proposed.commitments);
    hide CommitmentsWithin, Controls;
    for index := 0 to |current.rules|
      invariant forall i :: 0 <= i < index ==> RuleWithin(proposed.rules[i], current.rules[i])
    {
      var old0, new0 := current.rules[index], proposed.rules[index];
      var oldControls, newControls := [old0.publicSharing, old0.externalProcessing, old0.exportCopy],
        [new0.publicSharing, new0.externalProcessing, new0.exportCopy];
      for control := 0 to 3
        invariant forall i :: 0 <= i < control ==> Within(newControls[i], oldControls[i])
      {
        if Permissiveness(newControls[control]) > Permissiveness(oldControls[control]) {
          RuleWider(old0, new0, control);
          return true;
        }
      }
      if !old0.rememberedConsentAllowed && new0.rememberedConsentAllowed {
        return true;
      }
      assert Within(newControls[0], oldControls[0]) && Within(newControls[1], oldControls[1]) &&
        Within(newControls[2], oldControls[2]);
    }
    return false;
  }

  lemma SomeControlWider(before: Commitments, after: Commitments, i: nat)
    requires i < 8 && Permissiveness(Controls(after)[i]) > Permissiveness(Controls(before)[i])
    ensures !CommitmentsWithin(after, before)
  {
  }

  lemma AllControlsWithin(before: Commitments, after: Commitments)
    requires forall i :: 0 <= i < 8 ==> Within(Controls(after)[i], Controls(before)[i])
    requires after.sharedBrowserHistoryEnabled ==> before.sharedBrowserHistoryEnabled
    requires before.privateUserConfigurationsByDefault ==> after.privateUserConfigurationsByDefault
    ensures CommitmentsWithin(after, before)
  {
    var a, b := Controls(after), Controls(before);
    assert Within(a[0], b[0]) && Within(a[1], b[1]) && Within(a[2], b[2]) && Within(a[3], b[3]);
    assert Within(a[4], b[4]) && Within(a[5], b[5]) && Within(a[6], b[6]) && Within(a[7], b[7]);
  }

  lemma RuleWider(before: Rule, after: Rule, i: nat)
    requires i < 3
    requires Permissiveness([after.publicSharing, after.externalProcessing, after.exportCopy][i])
           > Permissiveness([before.publicSharing, before.externalProcessing, before.exportCopy][i])
    ensures !RuleWithin(after, before)
  {
  }

  /** This participant has acknowledged this exact policy with the key pinned for them. */
  predicate AcknowledgesWith(env: Env, p: Policy, a: Acknowledgement, participantID: nat, fingerprint: string) {
    && env.acknowledgementValid(a) && a.spaceID == p.spaceID && a.policyID == p.policyID
    && a.policyRevision == p.revision
    && a.policyDigest == env.digest(p) && a.participantID == participantID && a.fingerprint == fingerprint
  }

  ghost predicate HasAcknowledged(env: Env, p: Policy, acks: seq<Acknowledgement>, who: Participant) {
    exists a :: a in acks && AcknowledgesWith(env, p, a, who.participantID, who.fingerprint)
  }

  ghost predicate ParticipantsSound(env: Env, ps: seq<Participant>) {
    && ps != [] && (forall i :: 0 <= i < |ps| ==> ps[i].participantID != 0 && env.digestShape(ps[i].fingerprint))
    && (forall i, j :: 0 <= i < j < |ps| ==> ps[i].participantID < ps[j].participantID)
  }

  ghost predicate ProposalSound(env: Env, a: Authority, current: Signed, proposed: Signed, ps: seq<Participant>) {
    && SignedValid(env, a, current) && SignedValid(env, a, proposed) && ParticipantsSound(env, ps)
    && current.policy.policyID == proposed.policy.policyID && current.policy.spaceID == proposed.policy.spaceID
    && current.policy.security == proposed.policy.security && proposed.policy.revision == current.policy.revision + 1
    && proposed.policy.predecessorDigest == Some(env.digest(current.policy))
  }

  /** The pinned keys by participant; IDs must be strictly ascending. */
  method PinParticipants(env: Env, ps: seq<Participant>) returns (keys: Option<map<nat, string>>)
    ensures keys.Some? <==> ParticipantsSound(env, ps)
    ensures keys.Some? ==>
      forall i :: 0 <= i < |ps| ==>
        ps[i].participantID in keys.value && keys.value[ps[i].participantID] == ps[i].fingerprint
  {
    if |ps| == 0 {
      return None;
    }
    var pinned: map<nat, string> := map[];
    for index := 0 to |ps|
      invariant forall i :: 0 <= i < index ==> ps[i].participantID != 0 && env.digestShape(ps[i].fingerprint)
      invariant forall i, j :: 0 <= i < j < index ==> ps[i].participantID < ps[j].participantID
      invariant forall i :: 0 <= i < index ==>
        ps[i].participantID in pinned && pinned[ps[i].participantID] == ps[i].fingerprint
    {
      if ps[index].participantID == 0 || !env.digestShape(ps[index].fingerprint) {
        return None;
      }
      if index > 0 && ps[index].participantID <= ps[index - 1].participantID {
        return None;
      }
      pinned := pinned[ps[index].participantID := ps[index].fingerprint];
    }
    return Some(pinned);
  }

  /** Who has not acknowledged, in participant order. */
  ghost function Missing(env: Env, p: Policy, acks: seq<Acknowledgement>, ps: seq<Participant>): seq<nat> {
    if ps == [] then []
    else
      var last := ps[|ps| - 1];
      Missing(env, p, acks, ps[..|ps| - 1]) + (if HasAcknowledged(env, p, acks, last) then [] else [last.participantID])
  }

  lemma {:induction false} NoneMissing(env: Env, p: Policy, acks: seq<Acknowledgement>, ps: seq<Participant>)
    ensures Missing(env, p, acks, ps) == [] <==> forall i :: 0 <= i < |ps| ==> HasAcknowledged(env, p, acks, ps[i])
    decreases |ps|
  {
    hide HasAcknowledged;
    if ps != [] {
      var n := |ps| - 1;
      NoneMissing(env, p, acks, ps[..n]);
      if forall i :: 0 <= i < |ps[..n]| ==> HasAcknowledged(env, p, acks, ps[..n][i]) {
        assert forall i :: 0 <= i < n ==> ps[..n][i] == ps[i];
      }
    }
  }

  ghost predicate Ascending(ids: seq<nat>) {
    forall i, j :: 0 <= i < j < |ids| ==> ids[i] < ids[j]
  }

  ghost predicate InOrder(ps: seq<Participant>) {
    forall i, j :: 0 <= i < j < |ps| ==> ps[i].participantID < ps[j].participantID
  }

  /** The list names exactly the participants who have not acknowledged. */
  lemma {:induction false} MissingExact(env: Env, p: Policy, acks: seq<Acknowledgement>, ps: seq<Participant>, id: nat)
    ensures id in Missing(env, p, acks, ps) <==>
      exists who :: who in ps && who.participantID == id && !HasAcknowledged(env, p, acks, who)
    decreases |ps|
  {
    hide HasAcknowledged;
    if ps != [] {
      var n := |ps| - 1;
      MissingExact(env, p, acks, ps[..n], id);
      assert ps == ps[..n] + [ps[n]];
    }
  }

  /** It names them in the order they stand in, each once. */
  lemma {:induction false} MissingAscends(env: Env, p: Policy, acks: seq<Acknowledgement>, ps: seq<Participant>)
    requires InOrder(ps)
    ensures Ascending(Missing(env, p, acks, ps))
    decreases |ps|
  {
    hide HasAcknowledged;
    if ps != [] {
      var n := |ps| - 1;
      MissingAscends(env, p, acks, ps[..n]);
      forall id | id in Missing(env, p, acks, ps[..n]) ensures id < ps[n].participantID {
        MissingExact(env, p, acks, ps[..n], id);
        var who :| who in ps[..n] && who.participantID == id;
      }
      AscendingOn(Missing(env, p, acks, ps[..n]), ps[n].participantID);
    }
  }

  lemma AscendingOn(ids: seq<nat>, id: nat)
    requires Ascending(ids) && forall other :: other in ids ==> other < id
    ensures Ascending(ids + [id])
  {
    var all := ids + [id];
    forall i, j | 0 <= i < j < |all| ensures all[i] < all[j] {
      assert all[i] == ids[i] && ids[i] in ids;
    }
  }

  /** What is missing while waiting: exactly who has not acknowledged, in order. */
  ghost predicate StillMissing(env: Env, p: Policy, acks: seq<Acknowledgement>, ps: seq<Participant>,
      missing: seq<nat>) {
    && Ascending(missing)
    && forall id :: id in missing <==>
      exists who :: who in ps && who.participantID == id && !HasAcknowledged(env, p, acks, who)
  }

  lemma MissingIsMissing(env: Env, p: Policy, acks: seq<Acknowledgement>, ps: seq<Participant>)
    requires ParticipantsSound(env, ps)
    ensures StillMissing(env, p, acks, ps, Missing(env, p, acks, ps))
  {
    hide HasAcknowledged, Missing, Ascending;
    MissingAscends(env, p, acks, ps);
    forall id ensures id in Missing(env, p, acks, ps) <==>
      exists who :: who in ps && who.participantID == id && !HasAcknowledged(env, p, acks, who)
    {
      MissingExact(env, p, acks, ps, id);
    }
  }

  method FindMissing(env: Env, p: Policy, acks: seq<Acknowledgement>, ps: seq<Participant>, keys: map<nat, string>)
    returns (missing: seq<nat>)
    requires forall i :: 0 <= i < |ps| ==> ps[i].participantID in keys && keys[ps[i].participantID] == ps[i].fingerprint
    ensures missing == Missing(env, p, acks, ps)
  {
    var accepted: set<nat> := {};
    for k := 0 to |acks|
      invariant forall i :: 0 <= i < |ps| ==>
        (ps[i].participantID in accepted <==> HasAcknowledged(env, p, acks[..k], ps[i]))
    {
      var a := acks[k];
      assert acks[..k + 1] == acks[..k] + [a];
      if a.participantID in keys && AcknowledgesWith(env, p, a, a.participantID, keys[a.participantID]) {
        accepted := accepted + {a.participantID};
      }
      forall i | 0 <= i < |ps| ensures HasAcknowledged(env, p, acks[..k + 1], ps[i]) <==>
        HasAcknowledged(env, p, acks[..k], ps[i]) || AcknowledgesWith(env, p, a, ps[i].participantID, ps[i].fingerprint)
      {
        OneMore(env, p, acks[..k], a, ps[i]);
      }
    }
    assert acks[..|acks|] == acks;
    hide HasAcknowledged;
    missing := [];
    for i := 0 to |ps|
      invariant missing == Missing(env, p, acks, ps[..i])
    {
      assert ps[..i + 1][..i] == ps[..i];
      if ps[i].participantID !in accepted {
        missing := missing + [ps[i].participantID];
      }
    }
    assert ps[..|ps|] == ps;
  }

  lemma OneMore(env: Env, p: Policy, acks: seq<Acknowledgement>, a: Acknowledgement, who: Participant)
    ensures HasAcknowledged(env, p, acks + [a], who) <==>
      HasAcknowledged(env, p, acks, who) || AcknowledgesWith(env, p, a, who.participantID, who.fingerprint)
  {
    if HasAcknowledged(env, p, acks, who) {
      var b :| b in acks && AcknowledgesWith(env, p, b, who.participantID, who.fingerprint);
      assert b in acks + [a];
    }
    assert a in acks + [a];
  }

  ghost predicate Unanimous(env: Env, p: Policy, acks: seq<Acknowledgement>, ps: seq<Participant>) {
    forall i :: 0 <= i < |ps| ==> HasAcknowledged(env, p, acks, ps[i])
  }

  /** Both policies carry the authority's valid signature, and the proposed one directly succeeds the current one. */
  ghost predicate Succeeds(env: Env, a: Authority, current: Signed, proposed: Signed) {
    && env.signatureValid(current) && current.signerID == a.signerID && current.fingerprint == a.fingerprint
    && env.signatureValid(proposed) && proposed.signerID == a.signerID && proposed.fingerprint == a.fingerprint
    && proposed.policy.policyID == current.policy.policyID && proposed.policy.spaceID == current.policy.spaceID
    && proposed.policy.security == current.policy.security && proposed.policy.revision == current.policy.revision + 1
    && proposed.policy.predecessorDigest == Some(env.digest(current.policy))
  }

  /** What the evaluation of a sound proposal must be. */
  ghost function Verdict(env: Env, current: Policy, proposed: Policy, acks: seq<Acknowledgement>,
      ps: seq<Participant>): Evaluation {
    if PolicyWithin(proposed, current) then Immediate(proposed)
    else if Unanimous(env, proposed, acks, ps) then Acknowledged(proposed)
    else Waiting(current, proposed, Missing(env, proposed, acks, ps))
  }

  method EvaluatePolicyActivation(env: Env, a: Authority, current: Signed, proposed: Signed, ps: seq<Participant>,
      acks: seq<Acknowledgement>)
    returns (r: Option<Evaluation>)
    ensures r.Some? <==> ProposalSound(env, a, current, proposed, ps)
    ensures r.Some? ==> r.value == Verdict(env, current.policy, proposed.policy, acks, ps)
    ensures r.Some? ==> Succeeds(env, a, current, proposed)
    ensures r.Some? ==> (r.value.Immediate? <==> PolicyWithin(proposed.policy, current.policy))
    ensures r.Some? && !r.value.Immediate? ==>
      (r.value.Acknowledged? <==> forall who :: who in ps ==> HasAcknowledged(env, proposed.policy, acks, who))
    ensures r.Some? ==> Authoritative(r.value) == if r.value.Waiting? then current.policy else proposed.policy
    ensures r.Some? && r.value.Waiting? ==>
      r.value.pending == proposed.policy && StillMissing(env, proposed.policy, acks, ps, r.value.missing)
  {
    hide PolicyValid, ParticipantsSound, PolicyWithin, Missing, HasAcknowledged, StillMissing;
    var keys := PinParticipants(env, ps);
    if keys.None? || !SignedValid(env, a, current) || !SignedValid(env, a, proposed)
       || current.policy.policyID != proposed.policy.policyID || current.policy.spaceID != proposed.policy.spaceID
       || current.policy.security != proposed.policy.security || proposed.policy.revision != current.policy.revision + 1
       || proposed.policy.predecessorDigest.None? {
      return None;
    }
    if proposed.policy.predecessorDigest.value != env.digest(current.policy) {
      return None;
    }
    FourRules(env, current.policy);
    FourRules(env, proposed.policy);
    var weakening := PolicyIsWeakening(current.policy, proposed.policy);
    if !weakening {
      return Some(Immediate(proposed.policy));
    }
    var missing := FindMissing(env, proposed.policy, acks, ps, keys.value);
    NoneMissing(env, proposed.policy, acks, ps);
    MissingIsMissing(env, proposed.policy, acks, ps);
    if |missing| == 0 {
      return Some(Acknowledged(proposed.policy));
    }
    return Some(Waiting(current.policy, proposed.policy, missing));
  }

  lemma FourRules(env: Env, p: Policy)
    requires PolicyValid(env, p)
    ensures |p.rules| == 4
  {
  }

  // ---- chains of activations ----

  datatype Step = Step(current: Signed, proposed: Signed, participants: seq<Participant>,
    acknowledgements: seq<Acknowledgement>)

  /** Each step proposes a successor of the policy that is authoritative then. */
  ghost predicate History(env: Env, a: Authority, first: Policy, steps: seq<Step>, last: Policy)
    decreases |steps|
  {
    if steps == [] then last == first
    else
      var s := steps[|steps| - 1];
      && ProposalSound(env, a, s.current, s.proposed, s.participants)
      && History(env, a, first, steps[..|steps| - 1], s.current.policy)
      && last == Authoritative(Verdict(env, s.current.policy, s.proposed.policy, s.acknowledgements, s.participants))
  }

  /** The step let something through because every active participant had acknowledged that exact policy. */
  ghost predicate AgreedTo(env: Env, s: Step) {
    !PolicyWithin(s.proposed.policy, s.current.policy) &&
    Unanimous(env, s.proposed.policy, s.acknowledgements, s.participants)
  }

  /** What agreement takes: from each participant a valid acknowledgement of this very policy, by digest and revision, under
      the key pinned for that participant. */
  lemma AgreementIsExplicit(env: Env, s: Step, i: nat) returns (k: Acknowledgement)
    requires AgreedTo(env, s) && i < |s.participants|
    ensures k in s.acknowledgements && env.acknowledgementValid(k)
    ensures k.policyDigest == env.digest(s.proposed.policy) && k.policyRevision == s.proposed.policy.revision
    ensures k.policyID == s.proposed.policy.policyID && k.spaceID == s.proposed.policy.spaceID
    ensures k.participantID == s.participants[i].participantID && k.fingerprint == s.participants[i].fingerprint
  {
    var who := s.participants[i];
    assert HasAcknowledged(env, s.proposed.policy, s.acknowledgements, who);
    k :| k in s.acknowledgements && AcknowledgesWith(env, s.proposed.policy, k, who.participantID, who.fingerprint);
  }

  /** Along any chain of activations nothing becomes more permissive than at the start unless some step was agreed to by
      every participant active then. */
  lemma {:induction false} NothingWeakensUnnoticed(env: Env, a: Authority, first: Policy, steps: seq<Step>,
      last: Policy)
    requires History(env, a, first, steps, last) && forall i :: 0 <= i < |steps| ==> !AgreedTo(env, steps[i])
    ensures PolicyWithin(last, first)
    decreases |steps|
  {
    hide PolicyWithin, ProposalSound, Unanimous;
    if steps == [] {
      WithinItself(first);
    } else {
      var n := |steps| - 1;
      var s := steps[n];
      forall i | 0 <= i < |steps[..n]| ensures !AgreedTo(env, steps[..n][i]) {
        assert steps[..n][i] == steps[i];
      }
      NothingWeakensUnnoticed(env, a, first, steps[..n], s.current.policy);
      assert !AgreedTo(env, s);
      if last != s.current.policy {
        WithinWithin(last, s.current.policy, first);
      }
    }
  }
}
