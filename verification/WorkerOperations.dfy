/**
 Operations queued for a shared worker: enqueued by a requester, claimed by the worker's owner for a short time,
 answered once, or expired.
 */
module WorkerOperations {
  import opened Bytes
  import opened BoxRegistry
  import WorkerAccess

  const MAXIMUM_BYTES := 2 * 1024 * 1024
  const OPERATION_LIFETIME := 15 * 60 * 1000
  const CLAIM_LIFETIME := 30 * 1000

  datatype State = Queued | Claimed | ResponseReady | Expired

  /** What was asked. */
  datatype Ask = Ask(version: int, operationID: nat, boxID: nat, workerID: nat, accessGrantID: nat,
    requesterParticipantID: nat, requesterDeviceID: nat, jobID: nat, runID: nat, attempt: nat,
    capabilitiesDigest: string, requestDigest: string, requestBytes: seq<byte>, requestedAt: int, expiresAt: int,
    connectionGrantID: nat)

  datatype Response = Response(version: int, operationID: nat, claimID: nat, boxID: nat, workerID: nat,
    ownerParticipantID: nat, ownerDeviceID: nat, responseDigest: string, responseBytes: seq<byte>, respondedAt: int)

  datatype Operation = Operation(ask: Ask, state: State, claimID: nat, claimedAt: int, claimExpiresAt: int,
    response: Option<Response>)

  datatype Claim = Claim(version: int, claimID: nat, boxID: nat, workerID: nat, ownerParticipantID: nat,
    ownerDeviceID: nat, requestedAt: int, expiresAt: int)

  type Table = map<nat, Operation>

  type Grants = map<nat, WorkerAccess.Grant>

  datatype Outcome = Done | Invalid | NoWork | Collision

  predicate OperationValid(g: Registry, o: Operation, now: int) {
    var a := o.ask;
    && a.version == 1 && a.operationID != NIL && a.boxID != NIL && a.workerID != NIL && a.accessGrantID != NIL
    && a.requesterParticipantID != NIL && a.requesterDeviceID != NIL && a.jobID != NIL && a.runID != NIL
    && 0 < a.attempt <= MAX_INT64 && DigestShape(a.capabilitiesDigest) && DigestShape(a.requestDigest)
    && 0 < |a.requestBytes| <= MAXIMUM_BYTES && a.requestDigest == g.digest(a.requestBytes)
    && 0 < a.requestedAt <= now < a.expiresAt && a.expiresAt - a.requestedAt <= OPERATION_LIFETIME
    && a.connectionGrantID != NIL
    && o == Operation(a, Queued, NIL, 0, 0, None)
  }

  predicate ClaimValid(c: Claim, now: int) {
    && c.version == 1 && c.claimID != NIL && c.boxID != NIL && c.workerID != NIL && c.ownerParticipantID != NIL
    && c.ownerDeviceID != NIL && 0 < c.requestedAt <= now < c.expiresAt && c.expiresAt - c.requestedAt <= CLAIM_LIFETIME
  }

  predicate ResponseValid(g: Registry, r: Response, now: int) {
    && r.version == 1 && r.operationID != NIL && r.claimID != NIL && r.boxID != NIL && r.workerID != NIL
    && r.ownerParticipantID != NIL && r.ownerDeviceID != NIL && DigestShape(r.responseDigest)
    && 0 < |r.responseBytes| <= MAXIMUM_BYTES && r.responseDigest == g.digest(r.responseBytes)
    && 0 < r.respondedAt <= now
  }

  // ---- the sweep ----

  function Cleared(o: Operation, state: State): Operation {
    o.(state := state, claimID := NIL, claimedAt := 0, claimExpiresAt := 0)
  }

  /** The database's order: first everything overdue expires, then the lapsed claims return to the queue. */
  function Expire(o: Operation, now: int): Operation {
    if o.state in {Queued, Claimed} && o.ask.expiresAt <= now then Cleared(o, Expired) else o
  }

  function Requeue(o: Operation, now: int): Operation {
    if o.state == Claimed && o.claimExpiresAt <= now < o.ask.expiresAt then Cleared(o, Queued) else o
  }

  function Swept(t: Table, now: int): Table {
    map k | k in t :: Requeue(Expire(t[k], now), now)
  }

  /** The memory store's order, in one pass: a lapsed claim returns to the queue first, then whatever is overdue expires. */
  function OnePass(o: Operation, now: int): Operation {
    var requeued := if o.state == Claimed && o.claimExpiresAt <= now && o.response.None? then Cleared(o, Queued) else o;
    if requeued.state in {Queued, Claimed} && requeued.ask.expiresAt <= now then Cleared(requeued, Expired)
    else requeued
  }

  predicate Overdue(o: Operation, now: int) {
    (o.state == Queued || o.state == Claimed) && o.ask.expiresAt <= now
  }

  /** The claim ran out while the operation itself is not overdue. */
  predicate Lapsed(o: Operation, now: int) {
    o.state == Claimed && o.claimExpiresAt <= now < o.ask.expiresAt
  }

  /** The operation without a claim, in another state. */
  ghost predicate Unclaimed(before: Operation, after: Operation, state: State) {
    && after.ask == before.ask && after.response == before.response && after.state == state
    && after.claimID == NIL && after.claimedAt == 0 && after.claimExpiresAt == 0
  }

  /** What a sweep does: whatever is overdue expires, lapsed claims return to the queue, and all else stays. */
  lemma SweepExact(t: Table, now: int, k: nat)
    requires k in t
    ensures Swept(t, now).Keys == t.Keys
    ensures Overdue(t[k], now) ==> Unclaimed(t[k], Swept(t, now)[k], Expired)
    ensures Lapsed(t[k], now) ==> Unclaimed(t[k], Swept(t, now)[k], Queued)
    ensures !Overdue(t[k], now) && !Lapsed(t[k], now) ==> Swept(t, now)[k] == t[k]
  {
  }

  /** Both orders come to the same, for every operation the table can hold. */
  lemma SweepsAgree(k: nat, o: Operation, now: int)
    requires OperationSound(k, o)
    ensures OnePass(o, now) == Requeue(Expire(o, now), now)
  {
  }

  // ---- eligibility ----

  predicate OwnsWorker(g: Registry, workerID: nat, boxID: nat, participantID: nat, deviceID: nat, now: int) {
    && workerID in g.workers && g.workers[workerID].boxID == boxID
    && g.workers[workerID].ownerParticipantID == participantID
    && g.workers[workerID].ownerDeviceID == deviceID && now < g.workers[workerID].expiresAt
    && Enrolled(g, participantID, deviceID, now)
  }

  predicate Eligible(g: Registry, grants: Grants, o: Operation, c: Claim, now: int) {
    && o.ask.workerID == c.workerID && o.state == Queued && now < o.ask.expiresAt && o.ask.accessGrantID in grants
    && WorkerAccess.GrantValid(grants[o.ask.accessGrantID], now)
    && grants[o.ask.accessGrantID].ownerParticipantID == c.ownerParticipantID
  }

  /** Earlier request first, smaller ID first among equals. */
  predicate Precedes(a: Ask, b: Ask) {
    a.requestedAt < b.requestedAt || (a.requestedAt == b.requestedAt && a.operationID < b.operationID)
  }

  /** The operation is the least eligible one. */
  ghost predicate Least(g: Registry, grants: Grants, t: Table, k: nat, c: Claim, now: int) {
    k in t && Eligible(g, grants, t[k], c, now) &&
    forall l :: l in t && l != k && Eligible(g, grants, t[l], c, now) ==> Precedes(t[k].ask, t[l].ask)
  }

  function Held(o: Operation, c: Claim, now: int): Operation {
    o.(state := Claimed, claimID := c.claimID, claimedAt := now, claimExpiresAt := c.expiresAt)
  }

  /** What the worker's owner gets to see: not the requester's connection. */
  function Shown(o: Operation): Operation {
    o.(ask := o.ask.(connectionGrantID := NIL))
  }

  predicate MayEnqueue(g: Registry, grants: Grants, requests: map<nat, WorkerAccess.Request>, a: Ask, now: int) {
    && g.claimedBox == Some(a.boxID) && a.workerID in g.workers && a.accessGrantID in grants
    && var w, grant := g.workers[a.workerID], grants[a.accessGrantID];
    && w.boxID == a.boxID && now < w.expiresAt && WorkerAccess.GrantValid(grant, now) && grant.boxID == a.boxID
    && grant.workerID == a.workerID && grant.granteeParticipantID == a.requesterParticipantID
    && grant.capabilitiesDigest == a.capabilitiesDigest && grant.ownerParticipantID == w.ownerParticipantID
    && grant.ownerDeviceID == w.ownerDeviceID && Enrolled(g, a.requesterParticipantID, a.requesterDeviceID, now)
    && grant.requestID in requests && requests[grant.requestID].ask.connectionGrantID == a.connectionGrantID
  }

  /** The response answers the claim that is held now, before both deadlines. */
  predicate MayAnswer(g: Registry, grants: Grants, o: Operation, r: Response, now: int) {
    && o.state == Claimed && o.claimID == r.claimID && now < o.claimExpiresAt && now < o.ask.expiresAt
    && o.ask.boxID == r.boxID && o.ask.workerID == r.workerID && r.workerID in g.workers
    && g.workers[r.workerID].ownerParticipantID == r.ownerParticipantID
    && g.workers[r.workerID].ownerDeviceID == r.ownerDeviceID
    && now < g.workers[r.workerID].expiresAt && Enrolled(g, r.ownerParticipantID, r.ownerDeviceID, now)
    && o.ask.accessGrantID in grants
    && var grant := grants[o.ask.accessGrantID];
    && WorkerAccess.GrantValid(grant, now) && grant.boxID == o.ask.boxID && grant.workerID == o.ask.workerID
    && grant.capabilitiesDigest == o.ask.capabilitiesDigest && grant.ownerParticipantID == r.ownerParticipantID
    && grant.ownerDeviceID == r.ownerDeviceID
  }

  // ---- what every run keeps ----

  /** The table's own constraints: a claim exactly while claimed or answered, a response exactly when answered. */
  ghost predicate OperationSound(k: nat, o: Operation) {
    && o.ask.operationID == k && k != NIL && 0 < o.ask.attempt && 0 < |o.ask.requestBytes| <= MAXIMUM_BYTES
    && 0 < o.ask.requestedAt < o.ask.expiresAt && o.ask.expiresAt - o.ask.requestedAt <= OPERATION_LIFETIME
    && (o.state in {Claimed, ResponseReady} <==> o.claimID != NIL) && o.claimedAt >= 0 && o.claimExpiresAt >= 0
    && (o.state == ResponseReady <==> o.response.Some?)
    && (o.response.Some? ==> ResponseSound(o, o.response.value))
  }

  ghost predicate ResponseSound(o: Operation, r: Response) {
    && 0 < |r.responseBytes| <= MAXIMUM_BYTES && r.responseDigest != "" && r.ownerParticipantID != NIL
    && r.ownerDeviceID != NIL
    && r.respondedAt >= 0 && r.claimID == o.claimID && r.operationID == o.ask.operationID
  }

  ghost predicate Sound(t: Table) {
    forall k :: k in t ==> OperationSound(k, t[k])
  }

  /** An operation keeps what was asked, and once answered or expired never changes again. */
  ghost predicate OperationMoves(a: Operation, b: Operation) {
    b.ask == a.ask && (a.state in {ResponseReady, Expired} ==> b == a)
  }

  ghost predicate Moves(s: Table, t: Table) {
    forall k :: k in s ==> k in t && OperationMoves(s[k], t[k])
  }

  lemma SweepKeeps(t: Table, now: int)
    requires Sound(t)
    ensures Sound(Swept(t, now)) && Moves(t, Swept(t, now))
  {
  }

  /** One operation changes while the rest of the table stays. */
  lemma UpdateKeeps(t: Table, k: nat, o: Operation)
    requires Sound(t) && OperationSound(k, o) && (k in t ==> OperationMoves(t[k], o))
    ensures Sound(t[k := o]) && Moves(t, t[k := o])
  {
    hide OperationSound;
  }

  lemma MovesOn(s: Table, t: Table, u: Table)
    requires Moves(s, t) && Moves(t, u)
    ensures Moves(s, u)
  {
    forall k | k in s ensures k in u && OperationMoves(s[k], u[k]) {
      assert OperationMoves(s[k], t[k]) && OperationMoves(t[k], u[k]);
    }
  }

  // ---- runs ----

  lemma LeastIsUnique(g: Registry, grants: Grants, t: Table, k: nat, l: nat, c: Claim, now: int)
    requires Least(g, grants, t, k, c, now) && Least(g, grants, t, l, c, now)
    ensures k == l
  {
    hide Eligible;
  }

  function Enqueue(g: Registry, grants: Grants, requests: map<nat, WorkerAccess.Request>, t: Table, o: Operation,
      now: int): (Table, Outcome) {
    if !OperationValid(g, o, now) then (t, Invalid)
    else if o.ask.operationID in t then (t, if t[o.ask.operationID].ask == o.ask then Done else Collision)
    else if !MayEnqueue(g, grants, requests, o.ask, now) then (t, Invalid)
    else (t[o.ask.operationID := o], Done)
  }

  ghost function Take(g: Registry, grants: Grants, t: Table, c: Claim, now: int): (Table, Outcome) {
    if !ClaimValid(c, now) || !OwnsWorker(g, c.workerID, c.boxID, c.ownerParticipantID, c.ownerDeviceID, now) then
      (t, Invalid)
    else if k :| Least(g, grants, Swept(t, now), k, c, now) then
      (Swept(t, now)[k := Held(Swept(t, now)[k], c, now)], Done)
    else (Swept(t, now), NoWork)
  }

  function Complete(g: Registry, grants: Grants, t: Table, r: Response, now: int): (Table, Outcome) {
    if !ResponseValid(g, r, now) || r.operationID !in t then (t, Invalid)
    else
      var o := t[r.operationID];
      if o.state == ResponseReady && o.response.Some? then (t, if o.response.value == r then Done else Collision)
      else if !MayAnswer(g, grants, o, r, now) then (t, Invalid)
      else (t[r.operationID := o.(state := ResponseReady, response := Some(r))], Done)
  }

  function Look(g: Registry, t: Table, operationID: nat, connectionGrantID: nat, now: int): (Table, Outcome) {
    if operationID !in t || t[operationID].ask.connectionGrantID != connectionGrantID ||
       connectionGrantID !in g.connections
       || g.connections[connectionGrantID].revoked
       || g.connections[connectionGrantID].expiresAt <= now then (t, Invalid)
    else (t[operationID := Expire(t[operationID], now)], Done)
  }

  datatype Call = EnqueueCall(registry: Registry, grants: Grants, requests: map<nat, WorkerAccess.Request>,
    operation: Operation, now: int)
                | ClaimCall(registry: Registry, grants: Grants, claim: Claim, now: int)
                | CompleteCall(registry: Registry, grants: Grants, response: Response, now: int)
                | LookCall(registry: Registry, operationID: nat, connectionGrantID: nat, now: int)

  ghost function Step(t: Table, c: Call): Table {
    match c
    case EnqueueCall(g, grants, requests, o, now) => Enqueue(g, grants, requests, t, o, now).0
    case ClaimCall(g, grants, claim, now) => Take(g, grants, t, claim, now).0
    case CompleteCall(g, grants, r, now) => Complete(g, grants, t, r, now).0
    case LookCall(g, operationID, connectionGrantID, now) => Look(g, t, operationID, connectionGrantID, now).0
  }

  ghost function Run(t: Table, calls: seq<Call>): Table {
    if calls == [] then t else Step(Run(t, calls[..|calls| - 1]), calls[|calls| - 1])
  }

  lemma NothingMoves(t: Table)
    ensures Moves(t, t)
  {
  }

  lemma EnqueueKeeps(g: Registry, grants: Grants, requests: map<nat, WorkerAccess.Request>, t: Table, o: Operation,
      now: int)
    requires Sound(t)
    ensures Sound(Enqueue(g, grants, requests, t, o, now).0) && Moves(t, Enqueue(g, grants, requests, t, o, now).0)
  {
    hide Sound, Moves, MayEnqueue, DigestShape;
    NothingMoves(t);
    if OperationValid(g, o, now) && o.ask.operationID !in t {
      UpdateKeeps(t, o.ask.operationID, o);
    }
  }

  lemma TakeKeeps(g: Registry, grants: Grants, t: Table, c: Claim, now: int)
    requires Sound(t)
    ensures Sound(Take(g, grants, t, c, now).0) && Moves(t, Take(g, grants, t, c, now).0)
  {
    hide Sound, Moves, Swept, OwnsWorker;
    NothingMoves(t);
    SweepKeeps(t, now);
    var swept := Swept(t, now);
    forall k | Least(g, grants, swept, k, c, now) && ClaimValid(c, now)
      ensures Sound(swept[k := Held(swept[k], c, now)]) && Moves(t, swept[k := Held(swept[k], c, now)])
    {
      OperationIsSound(swept, k);
      UpdateKeeps(swept, k, Held(swept[k], c, now));
      MovesOn(t, swept, swept[k := Held(swept[k], c, now)]);
    }
  }

  lemma OperationIsSound(t: Table, k: nat)
    requires Sound(t) && k in t
    ensures OperationSound(k, t[k])
  {
    hide OperationSound;
  }

  lemma CompleteKeeps(g: Registry, grants: Grants, t: Table, r: Response, now: int)
    requires Sound(t)
    ensures Sound(Complete(g, grants, t, r, now).0) && Moves(t, Complete(g, grants, t, r, now).0)
  {
    hide Sound, Moves;
    NothingMoves(t);
    if r.operationID in t {
      OperationIsSound(t, r.operationID);
      if ResponseValid(g, r, now) && MayAnswer(g, grants, t[r.operationID], r, now) {
        UpdateKeeps(t, r.operationID, t[r.operationID].(state := ResponseReady, response := Some(r)));
      }
    }
  }

  lemma LookKeeps(g: Registry, t: Table, operationID: nat, connectionGrantID: nat, now: int)
    requires Sound(t)
    ensures Sound(Look(g, t, operationID, connectionGrantID, now).0) &&
      Moves(t, Look(g, t, operationID, connectionGrantID, now).0)
  {
    hide Sound, Moves;
    NothingMoves(t);
    if operationID in t {
      OperationIsSound(t, operationID);
      UpdateKeeps(t, operationID, Expire(t[operationID], now));
    }
  }

  lemma StepKeeps(t: Table, c: Call)
    requires Sound(t)
    ensures Sound(Step(t, c)) && Moves(t, Step(t, c))
  {
    hide Sound, Moves, Enqueue, Take, Complete, Look;
    match c
    case EnqueueCall(g, grants, requests, o, now) => EnqueueKeeps(g, grants, requests, t, o, now);
    case ClaimCall(g, grants, claim, now) => TakeKeeps(g, grants, t, claim, now);
    case CompleteCall(g, grants, r, now) => CompleteKeeps(g, grants, t, r, now);
    case LookCall(g, operationID, connectionGrantID, now) => LookKeeps(g, t, operationID, connectionGrantID, now);
  }

  /** Every run keeps the database's constraints, and answered or expired operations never change again. */
  lemma RunKeeps(t: Table, calls: seq<Call>, k: nat)
    requires Sound(t) && k in t
    ensures Sound(Run(t, calls)) && k in Run(t, calls) && Run(t, calls)[k].ask == t[k].ask
    ensures t[k].state in {ResponseReady, Expired} ==> Run(t, calls)[k] == t[k]
  {
    hide Run, Sound;
    RunMoves(t, calls);
  }

  lemma {:induction false} RunMoves(t: Table, calls: seq<Call>)
    requires Sound(t)
    ensures Sound(Run(t, calls)) && Moves(t, Run(t, calls))
    decreases |calls|
  {
    hide Sound, Moves, Step;
    if calls == [] {
      NothingMoves(t);
    } else {
      var before := Run(t, calls[..|calls| - 1]);
      RunMoves(t, calls[..|calls| - 1]);
      StepKeeps(before, calls[|calls| - 1]);
      MovesOn(t, before, Run(t, calls));
    }
  }

  /** The access grant is neither revoked nor expired. */
  predicate Current(grant: WorkerAccess.Grant, now: int) {
    grant.revokedAt == 0 && grant.grantedAt <= now < grant.expiresAt
  }

  /** A response appears only through a completion that holds the current claim before both deadlines. */
  lemma ResponseUnderClaim(t: Table, c: Call, k: nat)
    requires Sound(t) && k in Step(t, c) && Step(t, c)[k].response.Some? && (k in t ==> t[k].response.None?)
    ensures c.CompleteCall? && k in t && k == c.response.operationID && Step(t, c)[k].response == Some(c.response)
    ensures MayAnswer(c.registry, c.grants, t[k], c.response, c.now)
    ensures t[k].state == Claimed && t[k].claimID == c.response.claimID
    ensures c.now < t[k].claimExpiresAt && c.now < t[k].ask.expiresAt
    ensures t[k].ask.accessGrantID in c.grants && Current(c.grants[t[k].ask.accessGrantID], c.now)
    ensures c.response.ownerParticipantID == c.grants[t[k].ask.accessGrantID].ownerParticipantID
  {
    hide MayEnqueue, Eligible, OwnsWorker, DigestShape, Enrolled;
  }

  /** A successful claim takes the least eligible operation of the swept table. */
  lemma TakesLeast(g: Registry, grants: Grants, t: Table, c: Claim, now: int, k: nat)
    requires Take(g, grants, t, c, now).1 == Done && Least(g, grants, Swept(t, now), k, c, now)
    ensures Take(g, grants, t, c, now).0 == Swept(t, now)[k := Held(Swept(t, now)[k], c, now)]
  {
    hide Eligible, Swept, OwnsWorker, ClaimValid, Least;
    forall l | Least(g, grants, Swept(t, now), l, c, now) ensures l == k {
      LeastIsUnique(g, grants, Swept(t, now), k, l, c, now);
    }
  }

  // ---- the store ----

  /** The request is queued under a current grant of this worker to this requester, for what the grant allows, over the
      connection the access was asked for with, and not for too long. */
  ghost predicate Permitted(g: Registry, grants: Grants, requests: map<nat, WorkerAccess.Request>, o: Operation, now: int) {
    && o.state == Queued && o.response.None? && o.claimID == NIL && o.ask.requestedAt <= now < o.ask.expiresAt
    && o.ask.expiresAt - o.ask.requestedAt <= OPERATION_LIFETIME && o.ask.requestDigest == g.digest(o.ask.requestBytes)
    && o.ask.accessGrantID in grants
    && var grant := grants[o.ask.accessGrantID];
    && Current(grant, now) && grant.workerID == o.ask.workerID && grant.boxID == o.ask.boxID
    && grant.granteeParticipantID == o.ask.requesterParticipantID
    && grant.capabilitiesDigest == o.ask.capabilitiesDigest && grant.requestID in requests
    && requests[grant.requestID].ask.connectionGrantID == o.ask.connectionGrantID
  }

  lemma MayBeQueued(g: Registry, grants: Grants, requests: map<nat, WorkerAccess.Request>, o: Operation, now: int)
    requires OperationValid(g, o, now) && MayEnqueue(g, grants, requests, o.ask, now)
    ensures Permitted(g, grants, requests, o, now)
  {
    hide DigestShape, Enrolled;
  }

  /** Of the swept table, the eligible operation that was asked for first, the smaller ID first among equals, is held under
      the claim from now until the claim ends; the rest stays. The owner is shown it without the requester's connection. */
  ghost predicate Claims(g: Registry, grants: Grants, swept: Table, after: Table, c: Claim, now: int, k: nat,
      taken: Operation)
  {
    && k in swept && Eligible(g, grants, swept[k], c, now)
    && swept[k].state == Queued && swept[k].ask.workerID == c.workerID && now < swept[k].ask.expiresAt
    && swept[k].ask.accessGrantID in grants && Current(grants[swept[k].ask.accessGrantID], now)
    && grants[swept[k].ask.accessGrantID].ownerParticipantID == c.ownerParticipantID
    && (forall l :: l in swept && l != k && Eligible(g, grants, swept[l], c, now) ==>
          ComesFirst(swept[k].ask, swept[l].ask))
    && after == swept[k := Operation(swept[k].ask, Claimed, c.claimID, now, c.expiresAt, swept[k].response)]
    && taken == after[k].(ask := after[k].ask.(connectionGrantID := NIL))
  }

  lemma LeastIsClaimed(g: Registry, grants: Grants, swept: Table, k: nat, c: Claim, now: int)
    requires Least(g, grants, swept, k, c, now)
    ensures Claims(g, grants, swept, swept[k := Held(swept[k], c, now)], c, now, k, Shown(Held(swept[k], c, now)))
  {
    hide DigestShape;
  }

  predicate ComesFirst(a: Ask, b: Ask) {
    a.requestedAt <= b.requestedAt && (a.requestedAt == b.requestedAt ==> a.operationID < b.operationID)
  }

  /** The operation was answered with this response; its claim and what was asked stay. */
  ghost predicate Answers(before: Operation, after: Operation, r: Response) {
    && before.state == Claimed && after.state == ResponseReady && after.response == Some(r) && after.ask == before.ask
    && after.claimID == before.claimID == r.claimID && after.claimedAt == before.claimedAt
    && after.claimExpiresAt == before.claimExpiresAt
  }

  class OperationStore {
    var operations: Table

    constructor ()
      ensures operations == map[] && Sound(operations)
    {
      operations := map[];
    }

    method EnqueueOperation(g: Registry, grants: Grants, requests: map<nat, WorkerAccess.Request>, o: Operation,
        now: int)
      returns (r: Outcome)
      requires Sound(operations)
      modifies this
      ensures (operations, r) == Enqueue(g, grants, requests, old(operations), o, now)
      ensures r == Done <==>
        && OperationValid(g, o, now)
        && if o.ask.operationID in old(operations) then old(operations)[o.ask.operationID].ask == o.ask
           else MayEnqueue(g, grants, requests, o.ask, now)
      ensures r == Done ==> o.ask.operationID in operations && operations[o.ask.operationID].ask == o.ask
      ensures r == Collision <==>
        && OperationValid(g, o, now) && o.ask.operationID in old(operations)
        && old(operations)[o.ask.operationID].ask != o.ask
      ensures r == Done && o.ask.operationID !in old(operations) ==> Permitted(g, grants, requests, o, now)
      ensures r == Done || r == Collision || r == Invalid
      ensures r == Done && o.ask.operationID !in old(operations) ==>
        operations == old(operations)[o.ask.operationID := o]
      ensures r != Done || o.ask.operationID in old(operations) ==> operations == old(operations)
      ensures Sound(operations)
    {
      EnqueueKeeps(g, grants, requests, operations, o, now);
      hide Sound, OperationValid, MayEnqueue, Permitted;
      if !OperationValid(g, o, now) {
        return Invalid;
      }
      if o.ask.operationID in operations {
        return if operations[o.ask.operationID].ask == o.ask then Done else Collision;
      }
      if !MayEnqueue(g, grants, requests, o.ask, now) {
        return Invalid;
      }
      MayBeQueued(g, grants, requests, o, now);
      operations := operations[o.ask.operationID := o];
      return Done;
    }

    /** The one-pass sweep; it leaves the table as the database's two updates would. */
    method Sweep(now: int)
      requires Sound(operations)
      modifies this
      ensures operations == Swept(old(operations), now)
    {
      hide Sound;
      var left := operations.Keys;
      while left != {}
        invariant left <= operations.Keys == old(operations).Keys
        invariant forall k :: k in operations ==>
          operations[k] == if k in left then old(operations)[k] else Requeue(Expire(old(operations)[k], now), now)
      {
        var id :| id in left;
        var operation := operations[id];
        OperationIsSound(old(operations), id);
        SweepsAgree(id, operation, now);
        if operation.state == Claimed && operation.claimExpiresAt <= now && operation.response.None? {
          operation := operation.(state := Queued, claimID := NIL, claimedAt := 0, claimExpiresAt := 0);
        }
        if (operation.state == Queued || operation.state == Claimed) && operation.ask.expiresAt <= now {
          operation := operation.(state := Expired, claimID := NIL, claimedAt := 0, claimExpiresAt := 0);
        }
        operations := operations[id := operation];
        left := left - {id};
      }
    }

    /** The least of the eligible operations, if there is one. */
    method Select(g: Registry, grants: Grants, c: Claim, now: int) returns (selected: Option<nat>)
      requires Sound(operations)
      ensures selected.Some? ==> Least(g, grants, operations, selected.value, c, now)
      ensures selected.None? ==> forall k :: k in operations ==> !Eligible(g, grants, operations[k], c, now)
    {
      hide Eligible;
      selected := None;
      var left := operations.Keys;
      while left != {}
        invariant left <= operations.Keys
        invariant selected.None? ==>
          forall k :: k in operations && k !in left ==> !Eligible(g, grants, operations[k], c, now)
        invariant selected.Some? ==>
          selected.value in operations && selected.value !in left &&
          Eligible(g, grants, operations[selected.value], c, now)
        invariant selected.Some? ==>
          forall k ::
            k in operations && k !in left && k != selected.value && Eligible(g, grants, operations[k], c, now) ==>
          Precedes(operations[selected.value].ask, operations[k].ask)
      {
        var id :| id in left;
        if Eligible(g, grants, operations[id], c, now)
           && (selected.None? || Precedes(operations[id].ask, operations[selected.value].ask)) {
          selected := Some(id);
        }
        left := left - {id};
      }
    }

    method ClaimOperation(g: Registry, grants: Grants, c: Claim, now: int)
      returns (r: Outcome, taken: Option<Operation>)
      requires Sound(operations)
      modifies this
      ensures (operations, r) == Take(g, grants, old(operations), c, now)
      ensures r == Done <==> taken.Some?
      ensures r == Invalid ==> operations == old(operations)
      ensures r == NoWork ==> operations == Swept(old(operations), now)
      ensures r == NoWork ==> forall k :: k in operations ==> !Eligible(g, grants, operations[k], c, now)
      ensures r == Invalid <==>
        !(ClaimValid(c, now) && OwnsWorker(g, c.workerID, c.boxID, c.ownerParticipantID, c.ownerDeviceID, now))
      ensures r == Done || r == NoWork || r == Invalid
      ensures r == Done ==>
        exists k :: Claims(g, grants, Swept(old(operations), now), operations, c, now, k, taken.value)
      ensures Sound(operations)
    {
      TakeKeeps(g, grants, operations, c, now);
      SweepKeeps(operations, now);
      hide Sound, Eligible, OwnsWorker, Swept, ClaimValid, Claims;
      if !ClaimValid(c, now) || !OwnsWorker(g, c.workerID, c.boxID, c.ownerParticipantID, c.ownerDeviceID, now) {
        return Invalid, None;
      }
      Sweep(now);
      var selected := Select(g, grants, c, now);
      if selected.None? {
        return NoWork, None;
      }
      TakesLeast(g, grants, old(operations), c, now, selected.value);
      LeastIsClaimed(g, grants, operations, selected.value, c, now);
      var operation := operations[selected.value].(state := Claimed, claimID := c.claimID, claimedAt := now,
        claimExpiresAt := c.expiresAt);
      operations := operations[selected.value := operation];
      return Done, Some(Shown(operation));
    }

    method CompleteOperation(g: Registry, grants: Grants, response: Response, now: int) returns (r: Outcome)
      requires Sound(operations)
      modifies this
      ensures (operations, r) == Complete(g, grants, old(operations), response, now)
      ensures r == Done ==> response.operationID in old(operations) && response.operationID in operations
      ensures r == Done ==>
        if old(operations)[response.operationID].response == Some(response) then operations == old(operations)
        else Answers(old(operations)[response.operationID], operations[response.operationID], response)
      ensures ResponseValid(g, response, now) && response.operationID in old(operations) ==>
        (r == Done <==> old(operations)[response.operationID].response == Some(response) ||
                        MayAnswer(g, grants, old(operations)[response.operationID], response, now))
      ensures r == Collision ==> ResponseValid(g, response, now) && response.operationID in operations
      ensures ResponseValid(g, response, now) && response.operationID in operations ==>
        (r == Collision <==> operations[response.operationID].response !in {None, Some(response)})
      ensures !ResponseValid(g, response, now) || response.operationID !in old(operations) ==> r == Invalid
      ensures r == Done || r == Collision || r == Invalid
      ensures r != Done ==> operations == old(operations)
      ensures operations.Keys == old(operations).Keys
      ensures forall k :: k in operations && k != response.operationID ==> operations[k] == old(operations)[k]
      ensures Sound(operations)
    {
      CompleteKeeps(g, grants, operations, response, now);
      hide Sound, ResponseValid, MayAnswer;
      if !ResponseValid(g, response, now) || response.operationID !in operations {
        return Invalid;
      }
      var operation := operations[response.operationID];
      if operation.state == ResponseReady && operation.response.Some? {
        return if operation.response.value == response then Done else Collision;
      }
      if !MayAnswer(g, grants, operation, response, now) {
        return Invalid;
      }
      operations := operations[response.operationID := operation.(state := ResponseReady, response := Some(response))];
      return Done;
    }

    method OperationStatus(g: Registry, operationID: nat, connectionGrantID: nat, now: int)
      returns (r: Outcome, state: State, response: Option<Response>)
      requires Sound(operations)
      modifies this
      ensures (operations, r) == Look(g, old(operations), operationID, connectionGrantID, now)
      ensures operations.Keys == old(operations).Keys
      ensures forall k :: k in operations && k != operationID ==> operations[k] == old(operations)[k]
      ensures r != Done ==> operations == old(operations)
      ensures r == Done ==>
        operationID in operations && state == operations[operationID].state &&
        response == operations[operationID].response
      ensures r == Done <==>
        && operationID in old(operations) && old(operations)[operationID].ask.connectionGrantID == connectionGrantID
        && connectionGrantID in g.connections && !g.connections[connectionGrantID].revoked
        && now < g.connections[connectionGrantID].expiresAt
      ensures r == Done || r == Invalid
      ensures r == Done && Overdue(old(operations)[operationID], now) ==>
        Unclaimed(old(operations)[operationID], operations[operationID], Expired)
      ensures r == Done && !Overdue(old(operations)[operationID], now) ==> operations == old(operations)
      ensures r == Done ==> (response.Some? <==> state == ResponseReady)
      ensures Sound(operations)
    {
      LookKeeps(g, operations, operationID, connectionGrantID, now);
      if operationID !in operations || operations[operationID].ask.connectionGrantID != connectionGrantID
         || connectionGrantID !in g.connections || g.connections[connectionGrantID].revoked
         || g.connections[connectionGrantID].expiresAt <= now {
        return Invalid, Queued, None;
      }
      OperationIsSound(operations, operationID);
      hide Sound;
      var operation := operations[operationID];
      if (operation.state == Queued || operation.state == Claimed) && operation.ask.expiresAt <= now {
        operation := operation.(state := Expired, claimID := NIL, claimedAt := 0, claimExpiresAt := 0);
      }
      operations := operations[operationID := operation];
      return Done, operation.state, operation.response;
    }
  }
}
