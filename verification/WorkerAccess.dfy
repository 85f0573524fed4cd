/**
 Worker access requests and grants: one participant asks to use another's worker, the owner confirms with the code the
 requester was shown, and may revoke the grant later.
 */
module WorkerAccess {
  import opened Bytes
  import opened BoxRegistry

  const REQUEST_LIFETIME := 10 * 60 * 1000
  const GRANT_LIFETIME := 180 * 24 * 60 * 60 * 1000
  const MAXIMUM_CODE_FAILURES := 5

  datatype Decision = Pending | Approved | Rejected | Expired | Revoked

  /** What was asked. */
  datatype Ask = Ask(version: int, requestID: nat, boxID: nat, workerID: nat, requesterParticipantID: nat,
    requesterDeviceID: nat, capabilitiesDigest: string, requestedAt: int, expiresAt: int, connectionGrantID: nat,
    codeDigest: string)

  datatype Request = Request(ask: Ask, failedAttempts: nat, decision: Decision, decidedAt: int, grantID: nat)

  datatype Grant = Grant(version: int, grantID: nat, requestID: nat, boxID: nat, workerID: nat, ownerParticipantID: nat,
    ownerDeviceID: nat, granteeParticipantID: nat, capabilitiesDigest: string, codeDigest: string, revision: nat,
    grantedAt: int, expiresAt: int, revokedAt: int)

  datatype Tables = Tables(requests: map<nat, Request>, grants: map<nat, Grant>)

  datatype Outcome = Done | Invalid | WrongCode | Locked | CodeCollision

  predicate RequestValid(r: Request, now: int) {
    var a := r.ask;
    && a.version == 1 && a.requestID != NIL && a.boxID != NIL && a.workerID != NIL && a.requesterParticipantID != NIL
    && a.requesterDeviceID != NIL && a.connectionGrantID != NIL && DigestShape(a.capabilitiesDigest)
    && 0 < a.requestedAt <= now < a.expiresAt && a.expiresAt - a.requestedAt <= REQUEST_LIFETIME
    && r == Request(a, 0, Pending, 0, NIL)
  }

  predicate GrantValid(g: Grant, now: int) {
    && g.version == 1 && g.grantID != NIL && g.requestID != NIL && g.boxID != NIL && g.workerID != NIL
    && g.ownerParticipantID != NIL && g.ownerDeviceID != NIL && g.granteeParticipantID != NIL
    && g.ownerParticipantID != g.granteeParticipantID && DigestShape(g.capabilitiesDigest) && DigestShape(g.codeDigest)
    && 0 < g.revision <= MAX_INT64 && 0 < g.grantedAt <= now < g.expiresAt
    && g.expiresAt - g.grantedAt <= GRANT_LIFETIME
    && g.revokedAt == 0
  }

  // ---- the operations on the tables ----

  predicate MayAsk(g: Registry, a: Ask, now: int) {
    && a.workerID in g.workers && g.claimedBox == Some(a.boxID)
    && var w := g.workers[a.workerID];
    && w.boxID == a.boxID && now < w.expiresAt && w.capabilitiesDigest == a.capabilitiesDigest
    && Enrolled(g, a.requesterParticipantID, a.requesterDeviceID, now)
    && w.ownerParticipantID != a.requesterParticipantID
  }

  /** A request still open at this time uses the code. */
  predicate UsesCode(r: Request, codeDigest: string, now: int) {
    r.decision == Pending && now < r.ask.expiresAt && r.ask.codeDigest == codeDigest
  }

  function Create(g: Registry, t: Tables, r: Request, now: int): (Tables, Outcome) {
    if !RequestValid(r, now) || !MayAsk(g, r.ask, now) || r.ask.requestID in t.requests then (t, Invalid)
    else if exists k :: k in t.requests && UsesCode(t.requests[k], r.ask.codeDigest, now) then (t, CodeCollision)
    else (t.(requests := t.requests[r.ask.requestID := r]), Done)
  }

  predicate Overdue(r: Request, now: int) {
    r.decision == Pending && r.ask.expiresAt <= now
  }

  /** Looking at an overdue request expires it. */
  function Look(t: Tables, requestID: nat, connectionGrantID: nat, now: int): (Tables, Outcome) {
    if requestID !in t.requests || t.requests[requestID].ask.connectionGrantID != connectionGrantID then (t, Invalid)
    else
      var r := t.requests[requestID];
      var seen := if r.decision == Pending && r.ask.expiresAt <= now then r.(decision := Expired, decidedAt := now)
                  else r;
      (t.(requests := t.requests[requestID := seen]),
       if seen.grantID != NIL && seen.grantID !in t.grants then Invalid else Done)
  }

  /** The grant is what the worker's owner may give for this request. */
  predicate MayConfirm(g: Registry, t: Tables, grant: Grant, codeDigest: string, now: int) {
    && grant.requestID in t.requests && grant.workerID in g.workers
    && var r, w := t.requests[grant.requestID], g.workers[grant.workerID];
    && r.decision == Pending && now < r.ask.expiresAt && now < w.expiresAt && w.boxID == grant.boxID
    && w.ownerParticipantID == grant.ownerParticipantID && w.ownerDeviceID == grant.ownerDeviceID
    && w.capabilitiesDigest == grant.capabilitiesDigest && r.ask.boxID == grant.boxID
    && r.ask.workerID == grant.workerID
    && r.ask.requesterParticipantID == grant.granteeParticipantID
    && r.ask.capabilitiesDigest == grant.capabilitiesDigest
    && Enrolled(g, grant.ownerParticipantID, grant.ownerDeviceID, now)
    && Enrolled(g, grant.granteeParticipantID, r.ask.requesterDeviceID, now) && codeDigest == grant.codeDigest
  }

  function Miss(r: Request, now: int): Request {
    var failed := r.(failedAttempts := r.failedAttempts + 1);
    if failed.failedAttempts >= MAXIMUM_CODE_FAILURES then failed.(decision := Rejected, decidedAt := now) else failed
  }

  function Approve(t: Tables, grant: Grant, now: int): Tables
    requires grant.requestID in t.requests
  {
    var approved := t.requests[grant.requestID].(decision := Approved, decidedAt := now, grantID := grant.grantID);
    Tables(t.requests[grant.requestID := approved], t.grants[grant.grantID := grant])
  }

  function Confirm(g: Registry, t: Tables, grant: Grant, codeDigest: string, now: int): (Tables, Outcome) {
    if !GrantValid(grant, now) || !MayConfirm(g, t, grant, codeDigest, now) then (t, Invalid)
    else
      var r := t.requests[grant.requestID];
      if r.ask.codeDigest != codeDigest then
        var missed := Miss(r, now);
        (t.(requests := t.requests[grant.requestID := missed]),
         if missed.decision == Rejected then Locked else WrongCode)
      else if grant.grantID in t.grants || (exists k :: k in t.grants && t.grants[k].requestID == grant.requestID) then
        (t, Invalid)
      else (Approve(t, grant, now), Done)
  }

  predicate MayRevoke(t: Tables, boxID: nat, grantID: nat, ownerParticipantID: nat, revision: nat, now: int) {
    && boxID != NIL && grantID != NIL && ownerParticipantID != NIL && revision != 0 && now > 0 && grantID in t.grants
    && var g := t.grants[grantID];
    && g.boxID == boxID && g.ownerParticipantID == ownerParticipantID && g.revokedAt == 0 && revision > g.revision
    && g.requestID in t.requests
  }

  function Revoke(t: Tables, boxID: nat, grantID: nat, ownerParticipantID: nat, revision: nat, now: int)
    : (Tables, Outcome)
  {
    if !MayRevoke(t, boxID, grantID, ownerParticipantID, revision, now) then (t, Invalid)
    else
      var g := t.grants[grantID].(revision := revision, revokedAt := now);
      var r := t.requests[g.requestID].(decision := Revoked, decidedAt := now);
      (Tables(t.requests[g.requestID := r], t.grants[grantID := g]), Done)
  }

  // ---- what every run keeps ----

  /** A request and its grant: approved with an unrevoked grant, revoked with a revoked one, otherwise none. */
  ghost predicate RequestSound(t: Tables, k: nat)
    requires k in t.requests
  {
    var r := t.requests[k];
    && r.ask.requestID == k && k != NIL
    && (r.decision in {Approved, Revoked} <==> r.grantID != NIL)
    && (r.grantID != NIL ==> r.grantID in t.grants && t.grants[r.grantID].requestID == k)
    && (r.decision == Approved ==> t.grants[r.grantID].revokedAt == 0)
    && (r.decision == Revoked ==> t.grants[r.grantID].revokedAt != 0)
    && (r.decision == Pending ==> r.failedAttempts < MAXIMUM_CODE_FAILURES)
    && r.failedAttempts <= MAXIMUM_CODE_FAILURES
    && (r.decision == Rejected <==> r.failedAttempts == MAXIMUM_CODE_FAILURES)
  }

  /** Every grant belongs to the request that names it. */
  ghost predicate GrantSound(t: Tables, k: nat)
    requires k in t.grants
  {
    var g := t.grants[k];
    g.grantID == k && k != NIL && g.requestID in t.requests && t.requests[g.requestID].grantID == k
  }

  ghost predicate Sound(t: Tables) {
    (forall k :: k in t.requests ==> RequestSound(t, k)) && (forall k :: k in t.grants ==> GrantSound(t, k))
  }

  /** What may happen to a request: it is open until decided, and only an approval may still change, to revoked. */
  ghost predicate RequestMoves(a: Request, b: Request) {
    && b.ask == a.ask && a.failedAttempts <= b.failedAttempts
    && (a.decision != Pending ==> b.failedAttempts == a.failedAttempts && b.grantID == a.grantID)
    && (a.decision != Pending && b.decision != a.decision ==> a.decision == Approved && b.decision == Revoked)
    && (a.decision != Pending && b.decision == a.decision ==> b == a)
  }

  /** What may happen to a grant: nothing, or one revocation that raises its revision. */
  ghost predicate GrantMoves(a: Grant, b: Grant) {
    b == a ||
    (a.revokedAt == 0 && b.revokedAt != 0 && b.revision > a.revision
     && b == a.(revision := b.revision, revokedAt := b.revokedAt))
  }

  ghost predicate Moves(s: Tables, t: Tables) {
    && (forall k :: k in s.requests ==> k in t.requests && RequestMoves(s.requests[k], t.requests[k]))
    && (forall k :: k in s.grants ==> k in t.grants && GrantMoves(s.grants[k], t.grants[k]))
  }

  lemma CreateKeeps(g: Registry, t: Tables, r: Request, now: int)
    requires Sound(t)
    ensures Sound(Create(g, t, r, now).0) && Moves(t, Create(g, t, r, now).0)
  {
    hide MayAsk, UsesCode;
    var u := Create(g, t, r, now).0;
    forall k | k in u.requests ensures RequestSound(u, k) {
      assert k in t.requests ==> RequestSound(t, k);
    }
    forall k | k in u.grants ensures GrantSound(u, k) {
      assert GrantSound(t, k);
    }
  }

  lemma LookKeeps(t: Tables, requestID: nat, connectionGrantID: nat, now: int)
    requires Sound(t)
    ensures Sound(Look(t, requestID, connectionGrantID, now).0) &&
      Moves(t, Look(t, requestID, connectionGrantID, now).0)
  {
    var u := Look(t, requestID, connectionGrantID, now).0;
    forall k | k in u.requests ensures RequestSound(u, k) {
      assert RequestSound(t, k);
    }
    forall k | k in u.grants ensures GrantSound(u, k) {
      assert GrantSound(t, k);
    }
  }

  lemma MissKeeps(t: Tables, k: nat, now: int)
    requires Sound(t) && k in t.requests && t.requests[k].decision == Pending
    ensures Sound(t.(requests := t.requests[k := Miss(t.requests[k], now)]))
    ensures Moves(t, t.(requests := t.requests[k := Miss(t.requests[k], now)]))
  {
    var u := t.(requests := t.requests[k := Miss(t.requests[k], now)]);
    forall l | l in u.requests ensures RequestSound(u, l) {
      assert RequestSound(t, l);
    }
    forall l | l in u.grants ensures GrantSound(u, l) {
      assert GrantSound(t, l);
    }
  }

  lemma ApproveKeeps(t: Tables, grant: Grant, now: int)
    requires Sound(t) && grant.requestID in t.requests && t.requests[grant.requestID].decision == Pending
    requires grant.grantID !in t.grants && grant.grantID != NIL && grant.revokedAt == 0
    ensures Sound(Approve(t, grant, now)) && Moves(t, Approve(t, grant, now))
  {
    var u := Approve(t, grant, now);
    forall k | k in u.requests ensures RequestSound(u, k) {
      assert RequestSound(t, k);
    }
    forall k | k in u.grants ensures GrantSound(u, k) {
      assert k in t.grants ==> GrantSound(t, k) && RequestSound(t, t.grants[k].requestID);
    }
  }

  lemma NothingMoves(t: Tables)
    ensures Moves(t, t)
  {
  }

  lemma ConfirmKeeps(g: Registry, t: Tables, grant: Grant, codeDigest: string, now: int)
    requires Sound(t)
    ensures Sound(Confirm(g, t, grant, codeDigest, now).0) && Moves(t, Confirm(g, t, grant, codeDigest, now).0)
  {
    hide Enrolled, Sound, Moves;
    NothingMoves(t);
    if GrantValid(grant, now) && MayConfirm(g, t, grant, codeDigest, now) {
      MissKeeps(t, grant.requestID, now);
      if grant.grantID !in t.grants {
        ApproveKeeps(t, grant, now);
      }
    }
  }

  lemma RevokeKeeps(t: Tables, boxID: nat, grantID: nat, ownerParticipantID: nat, revision: nat, now: int)
    requires Sound(t)
    ensures Sound(Revoke(t, boxID, grantID, ownerParticipantID, revision, now).0)
    ensures Moves(t, Revoke(t, boxID, grantID, ownerParticipantID, revision, now).0)
  {
    var u := Revoke(t, boxID, grantID, ownerParticipantID, revision, now).0;
    assert grantID in t.grants ==> GrantSound(t, grantID) && RequestSound(t, t.grants[grantID].requestID);
    forall k | k in u.requests ensures RequestSound(u, k) {
      assert RequestSound(t, k);
    }
    forall k | k in u.grants ensures GrantSound(u, k) {
      assert GrantSound(t, k);
    }
  }

  // ---- runs ----

  datatype Call = CreateCall(registry: Registry, request: Request, now: int)
                | LookCall(requestID: nat, connectionGrantID: nat, now: int)
                | ConfirmCall(registry: Registry, grant: Grant, codeDigest: string, now: int)
                | RevokeCall(boxID: nat, grantID: nat, ownerParticipantID: nat, revision: nat, now: int)

  function Step(t: Tables, c: Call): Tables {
    match c
    case CreateCall(g, r, now) => Create(g, t, r, now).0
    case LookCall(requestID, connectionGrantID, now) => Look(t, requestID, connectionGrantID, now).0
    case ConfirmCall(g, grant, codeDigest, now) => Confirm(g, t, grant, codeDigest, now).0
    case RevokeCall(boxID, grantID, owner, revision, now) => Revoke(t, boxID, grantID, owner, revision, now).0
  }

  function Run(t: Tables, calls: seq<Call>): Tables {
    if calls == [] then t else Step(Run(t, calls[..|calls| - 1]), calls[|calls| - 1])
  }

  lemma StepKeeps(t: Tables, c: Call)
    requires Sound(t)
    ensures Sound(Step(t, c)) && Moves(t, Step(t, c))
  {
    hide Sound, Moves, Create, Look, Confirm, Revoke;
    match c
    case CreateCall(g, r, now) => CreateKeeps(g, t, r, now);
    case LookCall(requestID, connectionGrantID, now) => LookKeeps(t, requestID, connectionGrantID, now);
    case ConfirmCall(g, grant, codeDigest, now) => ConfirmKeeps(g, t, grant, codeDigest, now);
    case RevokeCall(boxID, grantID, owner, revision, now) => RevokeKeeps(t, boxID, grantID, owner, revision, now);
  }

  lemma MovesOn(s: Tables, t: Tables, u: Tables)
    requires Moves(s, t) && Moves(t, u)
    ensures Moves(s, u)
  {
    forall k | k in s.requests ensures k in u.requests && RequestMoves(s.requests[k], u.requests[k]) {
      assert RequestMoves(s.requests[k], t.requests[k]) && RequestMoves(t.requests[k], u.requests[k]);
    }
    forall k | k in s.grants ensures k in u.grants && GrantMoves(s.grants[k], u.grants[k]) {
      assert GrantMoves(s.grants[k], t.grants[k]) && GrantMoves(t.grants[k], u.grants[k]);
    }
  }

  /** Every run keeps the tables sound and only moves requests and grants forward. */
  lemma {:induction false} RunKeeps(t: Tables, calls: seq<Call>)
    requires Sound(t)
    ensures Sound(Run(t, calls)) && Moves(t, Run(t, calls))
    decreases |calls|
  {
    hide Sound, Moves, Step;
    if calls == [] {
      NothingMoves(t);
    } else {
      var before := Run(t, calls[..|calls| - 1]);
      RunKeeps(t, calls[..|calls| - 1]);
      StepKeeps(before, calls[|calls| - 1]);
      MovesOn(t, before, Run(t, calls));
    }
  }

  const EMPTY := Tables(map[], map[])

  ghost predicate Names(t: Tables, k: nat, requestID: nat) {
    k in t.grants && t.grants[k].requestID == requestID
  }

  /** After any run from empty tables: a request is approved exactly when exactly one grant names it and that grant is not
      revoked, and revoked exactly when its one grant is; a request that is neither has no grant. */
  lemma GrantsDecide(calls: seq<Call>, k: nat)
    requires k in Run(EMPTY, calls).requests
    ensures var t := Run(EMPTY, calls); var r := t.requests[k];
      && (r.decision == Approved <==> exists g :: Names(t, g, k) && t.grants[g].revokedAt == 0)
      && (r.decision == Revoked <==> exists g :: Names(t, g, k) && t.grants[g].revokedAt != 0)
      && (forall g, h :: Names(t, g, k) && Names(t, h, k) ==> g == h)
      && (r.decision == Pending ==> r.failedAttempts < MAXIMUM_CODE_FAILURES)
  {
    RunKeeps(EMPTY, calls);
    hide Run;
    var t := Run(EMPTY, calls);
    assert RequestSound(t, k);
    forall g | Names(t, g, k) ensures g == t.requests[k].grantID && g != NIL {
      assert GrantSound(t, g);
    }
    if t.requests[k].grantID != NIL {
      assert Names(t, t.requests[k].grantID, k);
    }
  }

  ghost predicate RevokedSince(t: Tables, u: Tables, k: nat)
    requires k in t.requests && k in u.requests
  {
    var g := t.requests[k].grantID;
    && t.requests[k].decision == Approved && u.requests[k].decision == Revoked && u.requests[k].grantID == g
    && g in t.grants && g in u.grants && u.grants[g].revision > t.grants[g].revision
  }

  /** A fifth wrong code rejects for ever; once decided, only an approval changes, to revoked with a higher revision. */
  lemma DecidedStays(t: Tables, calls: seq<Call>, k: nat)
    requires Sound(t) && k in t.requests && t.requests[k].decision != Pending
    ensures k in Run(t, calls).requests &&
      (Run(t, calls).requests[k] == t.requests[k] || RevokedSince(t, Run(t, calls), k))
  {
    RunKeeps(t, calls);
    hide Run;
    var u := Run(t, calls);
    assert RequestMoves(t.requests[k], u.requests[k]);
    assert RequestSound(t, k) && RequestSound(u, k);
    if u.requests[k] != t.requests[k] {
      assert GrantMoves(t.grants[t.requests[k].grantID], u.grants[t.requests[k].grantID]);
    }
  }

  // ---- wrong codes ----

  /** The owner of the worker may confirm the open request now, but names another code than the requester was shown. */
  predicate Guesses(g: Registry, t: Tables, grant: Grant, codeDigest: string, now: int) {
    && GrantValid(grant, now) && MayConfirm(g, t, grant, codeDigest, now)
    && t.requests[grant.requestID].ask.codeDigest != codeDigest
  }

  /** So many guesses came before. */
  predicate GuessedBefore(t: Tables, k: nat, n: nat) {
    k in t.requests && t.requests[k].failedAttempts == n
  }

  /** The call is a confirmation of the request with a wrong code. */
  predicate IsMiss(t: Tables, c: Call, k: nat) {
    c.ConfirmCall? && c.grant.requestID == k && Guesses(c.registry, t, c.grant, c.codeDigest, c.now)
  }

  /** The owner names the right code, and there is no grant of this ID or for this request yet. */
  ghost predicate Settles(g: Registry, t: Tables, grant: Grant, codeDigest: string, now: int) {
    && GrantValid(grant, now) && MayConfirm(g, t, grant, codeDigest, now)
    && t.requests[grant.requestID].ask.codeDigest == codeDigest && grant.grantID !in t.grants
    && forall k :: k in t.grants ==> t.grants[k].requestID != grant.requestID
  }

  /** When a confirmation is answered how: a wrong code locks exactly when four came before. */
  lemma ConfirmExact(g: Registry, t: Tables, grant: Grant, codeDigest: string, now: int)
    requires Sound(t)
    ensures var o, guess, last := Confirm(g, t, grant, codeDigest, now).1, Guesses(g, t, grant, codeDigest, now),
                GuessedBefore(t, grant.requestID, MAXIMUM_CODE_FAILURES - 1);
      && (o == WrongCode <==> guess && !last) && (o == Locked <==> guess && last)
      && (o == Done <==> Settles(g, t, grant, codeDigest, now))
      && (o == Invalid <==> !guess && !Settles(g, t, grant, codeDigest, now))
  {
    hide GrantValid, Enrolled;
    assert grant.requestID in t.requests ==> RequestSound(t, grant.requestID);
    hide Sound;
  }

  function Misses(t: Tables, calls: seq<Call>, k: nat): nat {
    if calls == [] then 0
    else
      var front := calls[..|calls| - 1];
      Misses(t, front, k) + if IsMiss(Run(t, front), calls[|calls| - 1], k) then 1 else 0
  }

  function Failures(t: Tables, k: nat): nat {
    if k in t.requests then t.requests[k].failedAttempts else 0
  }

  lemma StepCounts(t: Tables, c: Call, k: nat)
    requires Sound(t)
    ensures Failures(Step(t, c), k) == Failures(t, k) + if IsMiss(t, c, k) then 1 else 0
  {
    hide Enrolled, MayAsk, GrantValid, UsesCode;
    assert k in t.requests ==> RequestSound(t, k);
    assert c.RevokeCall? && c.grantID in t.grants ==> GrantSound(t, c.grantID);
  }

  /** The counter of a request is the number of its confirmations with a wrong code while it was open, and there are never
      more than five. */
  lemma {:induction false} FailuresAreMisses(calls: seq<Call>, k: nat)
    ensures Failures(Run(EMPTY, calls), k) == Misses(EMPTY, calls, k) <= MAXIMUM_CODE_FAILURES
    decreases |calls|
  {
    hide Step, IsMiss;
    RunKeeps(EMPTY, calls);
    assert k in Run(EMPTY, calls).requests ==> RequestSound(Run(EMPTY, calls), k);
    hide Sound;
    if calls != [] {
      var front := calls[..|calls| - 1];
      FailuresAreMisses(front, k);
      RunKeeps(EMPTY, front);
      StepCounts(Run(EMPTY, front), calls[|calls| - 1], k);
    }
  }

  /** What a confirmation changes, by its answer, and that it touches no other request or grant. */
  ghost predicate ConfirmSays(t: Tables, u: Tables, grant: Grant, codeDigest: string, now: int, o: Outcome) {
    && u.requests.Keys == t.requests.Keys
    && (forall k :: k in t.requests && k != grant.requestID ==> u.requests[k] == t.requests[k])
    && match o
       case Done =>
         && u.grants == t.grants[grant.grantID := grant] && grant.grantID !in t.grants && grant.requestID in u.requests
         && var before, r := t.requests[grant.requestID], u.requests[grant.requestID];
         && before.decision == Pending && r.ask == before.ask && r.ask.codeDigest == codeDigest
         && r.failedAttempts == before.failedAttempts && r.decision == Approved && r.decidedAt == now
         && r.grantID == grant.grantID
       case Invalid => u == t
       case WrongCode =>
         && u.grants == t.grants && grant.requestID in t.requests
         && Missed(t, u, grant.requestID, Pending, t.requests[grant.requestID].decidedAt)
       case Locked => u.grants == t.grants && Missed(t, u, grant.requestID, Rejected, now)
       case CodeCollision => false
  }

  /** One more wrong code is counted and the request decided so; what was asked stays. */
  ghost predicate Missed(t: Tables, u: Tables, k: nat, decision: Decision, decidedAt: int) {
    && k in t.requests && k in u.requests && t.requests[k].decision == Pending
    && u.requests[k].failedAttempts == t.requests[k].failedAttempts + 1
    && u.requests[k].ask == t.requests[k].ask && u.requests[k].grantID == t.requests[k].grantID
    && u.requests[k].decision == decision && u.requests[k].decidedAt == decidedAt
  }

  /** The approval is the worker's owner's, given to whoever asked, for what was asked, while the request is open and for a
      limited time. */
  ghost predicate Proper(g: Registry, t: Tables, grant: Grant, now: int) {
    && grant.requestID in t.requests && grant.workerID in g.workers
    && var r, w := t.requests[grant.requestID], g.workers[grant.workerID];
    && r.decision == Pending && now < r.ask.expiresAt && now < w.expiresAt
    && grant.ownerParticipantID == w.ownerParticipantID && grant.ownerDeviceID == w.ownerDeviceID
    && grant.granteeParticipantID == r.ask.requesterParticipantID != grant.ownerParticipantID
    && grant.workerID == r.ask.workerID && grant.boxID == r.ask.boxID == w.boxID
    && grant.capabilitiesDigest == r.ask.capabilitiesDigest == w.capabilitiesDigest && grant.revokedAt == 0
    && grant.grantedAt <= now < grant.expiresAt && grant.expiresAt - grant.grantedAt <= GRANT_LIFETIME
  }

  lemma MayConfirmIsProper(g: Registry, t: Tables, grant: Grant, codeDigest: string, now: int)
    requires GrantValid(grant, now) && MayConfirm(g, t, grant, codeDigest, now)
    ensures Proper(g, t, grant, now)
  {
    hide Enrolled, DigestShape;
  }

  lemma ConfirmMeans(g: Registry, t: Tables, grant: Grant, codeDigest: string, now: int)
    ensures var (u, o) := Confirm(g, t, grant, codeDigest, now); ConfirmSays(t, u, grant, codeDigest, now, o)
  {
    hide GrantValid, Enrolled;
  }

  // ---- shared codes ----

  /** No two requests that are open at this time use one code. */
  ghost predicate CodesDistinct(t: Tables, now: int) {
    forall k, l, code ::
      k in t.requests && l in t.requests && UsesCode(t.requests[k], code, now) && UsesCode(t.requests[l], code, now) ==>
        k == l
  }

  /** The call creates a request that is open at this time while another open one uses its code already. */
  ghost predicate Clashes(t: Tables, c: Call, now: int) {
    && c.CreateCall? && Create(c.registry, t, c.request, c.now).1 == Done && now < c.request.ask.expiresAt
    && exists k :: k in t.requests && UsesCode(t.requests[k], c.request.ask.codeDigest, now)
  }

  /** A clash takes a clock set back: the creation saw the other request overdue, at a later time than this. */
  lemma ClashIsLater(t: Tables, c: Call, now: int)
    requires Clashes(t, c, now)
    ensures c.CreateCall? && now < c.now
  {
    hide RequestValid, MayAsk;
    var k :| k in t.requests && UsesCode(t.requests[k], c.request.ask.codeDigest, now);
    assert !UsesCode(t.requests[k], c.request.ask.codeDigest, c.now);
  }

  /** No call opens a request except a creation. */
  lemma OnlyCreationOpens(t: Tables, c: Call, k: nat, code: string, now: int)
    requires Sound(t) && k in Step(t, c).requests && UsesCode(Step(t, c).requests[k], code, now)
    ensures k in t.requests ==> UsesCode(t.requests[k], code, now)
    ensures k !in t.requests ==>
      c.CreateCall? && Create(c.registry, t, c.request, c.now).1 == Done && Step(t, c).requests[k] == c.request
  {
    StepKeeps(t, c);
    hide Sound, MayAsk, GrantValid, MayConfirm, MayRevoke, RequestValid;
  }

  /** Codes of open requests stay distinct over a call exactly when the call is not such a clash. */
  lemma CodesStayDistinct(t: Tables, c: Call, now: int)
    requires Sound(t) && CodesDistinct(t, now)
    ensures CodesDistinct(Step(t, c), now) <==> !Clashes(t, c, now)
  {
    hide Sound, Step, Create, UsesCode;
    var u := Step(t, c);
    if Clashes(t, c, now) {
      ClashShares(t, c, now);
    } else {
      forall k, l, code | k in u.requests && l in u.requests && UsesCode(u.requests[k], code, now)
                          && UsesCode(u.requests[l], code, now)
        ensures k == l
      {
        OnlyCreationOpens(t, c, k, code, now);
        OnlyCreationOpens(t, c, l, code, now);
        NewcomerCode(t, c, k, code, now);
        NewcomerCode(t, c, l, code, now);
      }
    }
  }

  lemma ClashShares(t: Tables, c: Call, now: int)
    requires Clashes(t, c, now)
    ensures !CodesDistinct(Step(t, c), now)
  {
    hide MayAsk;
    var k :| k in t.requests && UsesCode(t.requests[k], c.request.ask.codeDigest, now);
    var u, id := Step(t, c), c.request.ask.requestID;
    assert u.requests == t.requests[id := c.request];
    assert UsesCode(u.requests[k], c.request.ask.codeDigest, now) &&
      UsesCode(u.requests[id], c.request.ask.codeDigest, now);
  }

  /** A request that was just created without a clash shares its code with no request that was open before. */
  lemma NewcomerCode(t: Tables, c: Call, k: nat, code: string, now: int)
    requires k in Step(t, c).requests && UsesCode(Step(t, c).requests[k], code, now) && !Clashes(t, c, now)
    requires k !in t.requests ==>
      c.CreateCall? && Create(c.registry, t, c.request, c.now).1 == Done && Step(t, c).requests[k] == c.request
    ensures k !in t.requests ==>
      k == c.request.ask.requestID && forall l :: l in t.requests ==> !UsesCode(t.requests[l], code, now)
  {
    hide RequestValid, MayAsk;
  }

  /** Whatever the clock did, open requests have distinct codes at every time no earlier than the latest creation. */
  lemma {:induction false} OpenCodesDistinct(calls: seq<Call>, now: int)
    requires forall i :: 0 <= i < |calls| && calls[i].CreateCall? ==> calls[i].now <= now
    ensures CodesDistinct(Run(EMPTY, calls), now)
    decreases |calls|
  {
    if calls != [] {
      hide Step, Sound, Clashes, CodesDistinct;
      var front, last := calls[..|calls| - 1], calls[|calls| - 1];
      assert forall i :: 0 <= i < |front| ==> front[i] == calls[i];
      OpenCodesDistinct(front, now);
      SoundEmpty();
      RunKeeps(EMPTY, front);
      CodesStayDistinct(Run(EMPTY, front), last, now);
      if Clashes(Run(EMPTY, front), last, now) {
        ClashIsLater(Run(EMPTY, front), last, now);
      }
    }
  }

  lemma SoundEmpty()
    ensures Sound(EMPTY)
  {
  }

  /** With a clock set back they can: a code is free again once its request is overdue, and both requests are open at any
      earlier time. */
  lemma SharedCodeAfterRollback(g: Registry, r: Request, earlier: int, s: Request, later: int, now: int)
    requires RequestValid(r, earlier) && MayAsk(g, r.ask, earlier) && RequestValid(s, later) && MayAsk(g, s.ask, later)
    requires r.ask.requestID != s.ask.requestID && r.ask.codeDigest == s.ask.codeDigest &&
      now < r.ask.expiresAt <= later
    ensures !CodesDistinct(Run(EMPTY, [CreateCall(g, r, earlier), CreateCall(g, s, later)]), now)
  {
    hide MayAsk;
    var first, second := CreateCall(g, r, earlier), CreateCall(g, s, later);
    assert [first, second][..1] == [first] && [first][..0] == [];
    assert Run(EMPTY, [first]).requests == map[r.ask.requestID := r];
    var t := Run(EMPTY, [first, second]);
    assert t.requests == map[r.ask.requestID := r][s.ask.requestID := s];
    assert UsesCode(t.requests[r.ask.requestID], r.ask.codeDigest, now) &&
      UsesCode(t.requests[s.ask.requestID], r.ask.codeDigest, now);
  }

  // ---- the store ----

  /** The request is open, untried and not for long, made by a participant for someone else's current worker. */
  ghost predicate Open(g: Registry, r: Request, now: int) {
    && r.decision == Pending && r.failedAttempts == 0 && r.grantID == NIL && r.ask.requestedAt <= now < r.ask.expiresAt
    && r.ask.expiresAt - r.ask.requestedAt <= REQUEST_LIFETIME && r.ask.workerID in g.workers
    && var w := g.workers[r.ask.workerID];
    && now < w.expiresAt && w.boxID == r.ask.boxID && w.ownerParticipantID != r.ask.requesterParticipantID
    && w.capabilitiesDigest == r.ask.capabilitiesDigest
  }

  lemma AskedIsOpen(g: Registry, r: Request, now: int)
    requires RequestValid(r, now) && MayAsk(g, r.ask, now)
    ensures Open(g, r, now)
  {
  }

  /** The request is revoked now; everything else about it and every other request stays. */
  ghost predicate RevokesOnly(before: map<nat, Request>, after: map<nat, Request>, k: nat, now: int) {
    k in before && after == before[k := before[k].(decision := Revoked, decidedAt := now)]
  }


  class AccessStore {
    var requests: map<nat, Request>
    var grants: map<nat, Grant>

    ghost function View(): Tables
      reads this
    {
      Tables(requests, grants)
    }

    constructor ()
      ensures View() == EMPTY && Sound(View())
    {
      requests, grants := map[], map[];
    }

    method CreateRequest(g: Registry, r: Request, now: int) returns (o: Outcome)
      requires Sound(View())
      modifies this
      ensures (View(), o) == Create(g, old(View()), r, now)
      ensures o == Done ==>
        r.ask.requestID !in old(requests) && requests == old(requests)[r.ask.requestID := r] && grants == old(grants)
      ensures o != Done ==> View() == old(View())
      ensures o in {Done, CodeCollision} <==>
        RequestValid(r, now) && MayAsk(g, r.ask, now) && r.ask.requestID !in old(requests)
      ensures o == CodeCollision ==> exists k :: k in requests && UsesCode(requests[k], r.ask.codeDigest, now)
      ensures o == Done ==> forall k :: k in old(requests) ==> !UsesCode(old(requests)[k], r.ask.codeDigest, now)
      ensures o in {Done, CodeCollision, Invalid}
      ensures o == Done ==> Open(g, r, now)
      ensures Sound(View())
    {
      CreateKeeps(g, View(), r, now);
      hide Sound, RequestValid, MayAsk, UsesCode;
      if !RequestValid(r, now) || !MayAsk(g, r.ask, now) || r.ask.requestID in requests {
        return Invalid;
      }
      var left := requests.Keys;
      while left != {}
        invariant left <= requests.Keys && forall k :: k in requests && k !in left ==>
          !UsesCode(requests[k], r.ask.codeDigest, now)
      {
        var k :| k in left;
        if UsesCode(requests[k], r.ask.codeDigest, now) {
          return CodeCollision;
        }
        left := left - {k};
      }
      AskedIsOpen(g, r, now);
      requests := requests[r.ask.requestID := r];
      return Done;
    }

    method RequestStatus(requestID: nat, connectionGrantID: nat, now: int)
      returns (o: Outcome, decision: Decision, grant: Option<Grant>)
      requires Sound(View())
      modifies this
      ensures (View(), o) == Look(old(View()), requestID, connectionGrantID, now)
      ensures grants == old(grants) && requests.Keys == old(requests).Keys
      ensures forall k :: k in requests && k != requestID ==> requests[k] == old(requests)[k]
      ensures o == Done <==>
        requestID in old(requests) && old(requests)[requestID].ask.connectionGrantID == connectionGrantID
      ensures o != Done ==> o == Invalid && View() == old(View())
      ensures o == Done && Overdue(old(requests)[requestID], now) ==>
        requests[requestID] == old(requests)[requestID].(decision := Expired, decidedAt := now)
      ensures o == Done && !Overdue(old(requests)[requestID], now) ==> requests[requestID] == old(requests)[requestID]
      ensures o == Done ==> requestID in requests && decision == requests[requestID].decision
      ensures o == Done ==> (grant.Some? <==> decision in {Approved, Revoked})
      ensures o == Done && grant.Some? ==> exists k :: Names(View(), k, requestID) && grants[k] == grant.value
      ensures Sound(View())
    {
      LookKeeps(View(), requestID, connectionGrantID, now);
      if requestID !in requests || requests[requestID].ask.connectionGrantID != connectionGrantID {
        return Invalid, Pending, None;
      }
      assert RequestSound(View(), requestID);
      hide Sound;
      var r := requests[requestID];
      if r.decision == Pending && r.ask.expiresAt <= now {
        r := r.(decision := Expired, decidedAt := now);
      }
      requests := requests[requestID := r];
      if r.grantID == NIL {
        return Done, r.decision, None;
      }
      return Done, r.decision, Some(grants[r.grantID]);
    }

    method ConfirmRequest(g: Registry, grant: Grant, codeDigest: string, now: int) returns (o: Outcome)
      requires Sound(View())
      modifies this
      ensures (View(), o) == Confirm(g, old(View()), grant, codeDigest, now)
      ensures ConfirmSays(old(View()), View(), grant, codeDigest, now, o)
      ensures o in {WrongCode, Locked} <==> Guesses(g, old(View()), grant, codeDigest, now)
      ensures o == Locked ==> GuessedBefore(old(View()), grant.requestID, MAXIMUM_CODE_FAILURES - 1)
      ensures o == WrongCode ==> !GuessedBefore(old(View()), grant.requestID, MAXIMUM_CODE_FAILURES - 1)
      ensures o == Done <==> Settles(g, old(View()), grant, codeDigest, now)
      ensures o != Invalid ==> Proper(g, old(View()), grant, now)
      ensures Sound(View())
    {
      ConfirmKeeps(g, View(), grant, codeDigest, now);
      ConfirmMeans(g, View(), grant, codeDigest, now);
      ConfirmExact(g, View(), grant, codeDigest, now);
      hide Sound, GrantValid, ConfirmSays, Settles, Guesses, Proper;
      if !GrantValid(grant, now) || !MayConfirm(g, Tables(requests, grants), grant, codeDigest, now) {
        return Invalid;
      }
      MayConfirmIsProper(g, View(), grant, codeDigest, now);
      hide MayConfirm;
      var r := requests[grant.requestID];
      if r.ask.codeDigest != codeDigest {
        r := r.(failedAttempts := r.failedAttempts + 1);
        if r.failedAttempts >= MAXIMUM_CODE_FAILURES {
          requests := requests[grant.requestID := r.(decision := Rejected, decidedAt := now)];
          return Locked;
        }
        requests := requests[grant.requestID := r];
        return WrongCode;
      }
      if grant.grantID in grants {
        return Invalid;
      }
      var left := grants.Keys;
      while left != {}
        invariant left <= grants.Keys && forall k :: k in grants && k !in left ==>
          grants[k].requestID != grant.requestID
      {
        var k :| k in left;
        if grants[k].requestID == grant.requestID {
          return Invalid;
        }
        left := left - {k};
      }
      requests := requests[grant.requestID := r.(decision := Approved, decidedAt := now, grantID := grant.grantID)];
      grants := grants[grant.grantID := grant];
      return Done;
    }

    method RevokeGrant(boxID: nat, grantID: nat, ownerParticipantID: nat, revision: nat, now: int) returns (o: Outcome)
      requires Sound(View())
      modifies this
      ensures (View(), o) == Revoke(old(View()), boxID, grantID, ownerParticipantID, revision, now)
      ensures o == Done <==>
        && boxID != NIL && grantID != NIL && ownerParticipantID != NIL && now > 0 && grantID in old(grants)
        && old(grants)[grantID].boxID == boxID && old(grants)[grantID].ownerParticipantID == ownerParticipantID
        && old(grants)[grantID].revokedAt == 0 && old(grants)[grantID].revision < revision
      ensures o == Done || o == Invalid
      ensures o == Done ==>
        grants == old(grants)[grantID := old(grants)[grantID].(revision := revision, revokedAt := now)]
      ensures o == Done ==> RevokesOnly(old(requests), requests, old(grants)[grantID].requestID, now)
      ensures o != Done ==> View() == old(View())
      ensures Sound(View())
    {
      RevokeKeeps(View(), boxID, grantID, ownerParticipantID, revision, now);
      if boxID == NIL || grantID == NIL || ownerParticipantID == NIL || revision == 0
         || now <= 0 || grantID !in grants {
        return Invalid;
      }
      assert GrantSound(View(), grantID);
      hide Sound;
      var grant := grants[grantID];
      if grant.boxID != boxID || grant.ownerParticipantID != ownerParticipantID
         || grant.revokedAt != 0 || revision <= grant.revision {
        return Invalid;
      }
      grants := grants[grantID := grant.(revision := revision, revokedAt := now)];
      requests := requests[grant.requestID := requests[grant.requestID].(decision := Revoked, decidedAt := now)];
      return Done;
    }
  }
}
