/**
 What a sweep before a claim is worth when the claim then finds no work: the memory store keeps it, the database rolls it
 back. Both are the queue of operations here, with and without the rollback. While no call carries an earlier time than a
 claim before it, every answer is the same from both, except the status of an operation whose claim has lapsed.
 */
module WorkerSweeps {
  import opened Bytes
  import opened BoxRegistry
  import WorkerAccess
  import opened WorkerOperations

  /** One record is the other, or the other after a sweep it missed. */
  ghost predicate Trails(d: Operation, m: Operation, now: int) {
    || m == d
    || (d.state == Claimed && d.claimExpiresAt <= now && m == Cleared(d, Queued))
    || (Overdue(d, now) && m == Cleared(d, Expired))
  }

  /** The second table is the first one with some sweeps up to this time kept. */
  ghost predicate Behind(d: Table, m: Table, now: int) {
    d.Keys == m.Keys && forall k :: k in d ==> Trails(d[k], m[k], now)
  }

  lemma SweepIsAhead(t: Table, a: int, now: int)
    requires a <= now
    ensures Behind(t, Swept(t, a), now)
  {
  }

  lemma BehindLater(d: Table, m: Table, a: int, now: int)
    requires Behind(d, m, a) && a <= now
    ensures Behind(d, m, now)
  {
    forall k | k in d ensures Trails(d[k], m[k], now) {
      assert Trails(d[k], m[k], a);
    }
  }

  /** The next sweep makes up for the ones that were rolled back, and keeping it again leaves the table ahead. */
  lemma SweepCatchesUp(d: Table, m: Table, now: int)
    requires Behind(d, m, now)
    ensures Swept(m, now) == Swept(d, now) && Behind(d, Swept(m, now), now)
  {
    forall k | k in d ensures Swept(m, now)[k] == Swept(d, now)[k] {
      assert Trails(d[k], m[k], now);
    }
    SweepIsAhead(d, now, now);
  }

  lemma BehindUpdate(d: Table, m: Table, k: nat, o: Operation, p: Operation, now: int)
    requires Behind(d, m, now) && Trails(o, p, now)
    ensures Behind(d[k := o], m[k := p], now)
  {
    hide Trails;
  }

  // ---- what the callers are told ----

  ghost function Answer(t: Table, c: Call): Outcome {
    match c
    case EnqueueCall(g, grants, requests, o, now) => Enqueue(g, grants, requests, t, o, now).1
    case ClaimCall(g, grants, claim, now) => Take(g, grants, t, claim, now).1
    case CompleteCall(g, grants, r, now) => Complete(g, grants, t, r, now).1
    case LookCall(g, operationID, connectionGrantID, now) => Look(g, t, operationID, connectionGrantID, now).1
  }

  /** The step with the database's rollback: a claim that finds no work leaves the table as it was. */
  ghost function RollbackStep(t: Table, c: Call): Table {
    if Answer(t, c) == NoWork then t else Step(t, c)
  }

  ghost function RollbackRun(t: Table, calls: seq<Call>): Table {
    if calls == [] then t else RollbackStep(RollbackRun(t, calls[..|calls| - 1]), calls[|calls| - 1])
  }

  /** Both stores answer the call alike, a claim hands over the same operation, and the tables stay as close. */
  ghost predicate Matches(d: Table, m: Table, c: Call, a: int) {
    && Answer(d, c) == Answer(m, c) && Behind(RollbackStep(d, c), Step(m, c), if c.ClaimCall? then c.now else a)
    && (c.ClaimCall? && Answer(d, c) == Done ==> RollbackStep(d, c) == Step(m, c))
  }

  lemma RecordTrails(d: Table, m: Table, k: nat, now: int)
    requires Behind(d, m, now)
    ensures k in d <==> k in m
    ensures k in d ==> Trails(d[k], m[k], now)
  {
    hide Trails;
  }

  lemma EnqueueMatches(d: Table, m: Table, c: Call, a: int)
    requires c.EnqueueCall? && Behind(d, m, a) && a <= c.now
    ensures Matches(d, m, c, a)
  {
    hide OperationValid, MayEnqueue, Behind;
    RecordTrails(d, m, c.operation.ask.operationID, a);
    BehindUpdate(d, m, c.operation.ask.operationID, c.operation, c.operation, a);
  }

  lemma ClaimMatches(d: Table, m: Table, c: Call, a: int)
    requires c.ClaimCall? && Behind(d, m, a) && a <= c.now
    ensures Matches(d, m, c, a)
  {
    hide Behind, Swept, Least, ClaimValid, OwnsWorker;
    BehindLater(d, m, a, c.now);
    SweepCatchesUp(d, m, c.now);
    if k :| Least(c.registry, c.grants, Swept(d, c.now), k, c.claim, c.now) {
      if Take(c.registry, c.grants, d, c.claim, c.now).1 == Done {
        TakesLeast(c.registry, c.grants, d, c.claim, c.now, k);
        TakesLeast(c.registry, c.grants, m, c.claim, c.now, k);
        NoneMissed(Step(d, c), c.now);
      }
    }
  }

  lemma NoneMissed(t: Table, now: int)
    ensures Behind(t, t, now)
  {
  }

  /** A claim that is live, and a response, are the same in both tables. */
  lemma CompleteMatches(d: Table, m: Table, c: Call, a: int)
    requires c.CompleteCall? && Behind(d, m, a) && a <= c.now
    ensures Matches(d, m, c, a)
  {
    hide Behind, ResponseValid, Enrolled, WorkerAccess.GrantValid;
    var k := c.response.operationID;
    RecordTrails(d, m, k, a);
    if k in d {
      var answered := d[k].(state := ResponseReady, response := Some(c.response));
      BehindUpdate(d, m, k, answered, answered, a);
    }
  }

  lemma LookMatches(d: Table, m: Table, c: Call, a: int)
    requires c.LookCall? && Behind(d, m, a) && a <= c.now
    ensures Matches(d, m, c, a)
  {
    hide Behind;
    RecordTrails(d, m, c.operationID, a);
    if c.operationID in d {
      BehindUpdate(d, m, c.operationID, Expire(d[c.operationID], c.now), Expire(m[c.operationID], c.now), a);
    }
  }

  lemma StepMatches(d: Table, m: Table, c: Call, a: int)
    requires Behind(d, m, a) && a <= c.now
    ensures Matches(d, m, c, a)
  {
    hide Behind, Matches;
    match c
    case EnqueueCall(_, _, _, _, _) => EnqueueMatches(d, m, c, a);
    case ClaimCall(_, _, _, _) => ClaimMatches(d, m, c, a);
    case CompleteCall(_, _, _, _) => CompleteMatches(d, m, c, a);
    case LookCall(_, _, _, _) => LookMatches(d, m, c, a);
  }

  /** No claim among the calls came later than this. */
  ghost predicate ClaimsBefore(calls: seq<Call>, now: int) {
    forall i :: 0 <= i < |calls| && calls[i].ClaimCall? ==> calls[i].now <= now
  }

  /** No call comes earlier than a claim before it; other calls may carry any time. */
  ghost predicate InOrder(calls: seq<Call>) {
    forall j :: 0 <= j < |calls| ==> ClaimsBefore(calls[..j], calls[j].now)
  }

  lemma InOrderFront(calls: seq<Call>, c: Call)
    requires InOrder(calls + [c])
    ensures InOrder(calls) && ClaimsBefore(calls, c.now)
  {
    var all := calls + [c];
    hide ClaimsBefore;
    assert all[..|calls|] == calls && all[|calls|] == c;
    forall j | 0 <= j < |calls| ensures ClaimsBefore(calls[..j], calls[j].now) {
      assert all[..j] == calls[..j] && all[j] == calls[j];
    }
  }

  lemma {:induction false} RunsStayClose(t: Table, calls: seq<Call>, now: int)
    requires InOrder(calls) && ClaimsBefore(calls, now)
    ensures Behind(RollbackRun(t, calls), Run(t, calls), now)
    decreases |calls|
  {
    hide Behind, Step, RollbackStep, Answer;
    if calls == [] {
      NoneMissed(t, now);
    } else {
      var front, last := calls[..|calls| - 1], calls[|calls| - 1];
      assert calls == front + [last];
      InOrderFront(front, last);
      var a := if last.now < now then last.now else now;
      hide InOrder;
      assert forall i :: 0 <= i < |front| ==> front[i] == calls[i];
      RunsStayClose(t, front, a);
      StepMatches(RollbackRun(t, front), Run(t, front), last, a);
      BehindLater(RollbackRun(t, calls), Run(t, calls), if last.ClaimCall? then last.now else a, now);
    }
  }

  /** After the same calls, none earlier than a claim before it, both stores give the same answer to any next call, and a
      claim hands over the same operation. */
  lemma StoresAnswerAlike(t: Table, calls: seq<Call>, c: Call)
    requires InOrder(calls + [c])
    ensures Answer(RollbackRun(t, calls), c) == Answer(Run(t, calls), c)
    ensures c.ClaimCall? && Answer(Run(t, calls), c) == Done ==>
      RollbackStep(RollbackRun(t, calls), c) == Step(Run(t, calls), c)
  {
    InOrderFront(calls, c);
    hide Behind, Step, RollbackStep, Answer, Run, RollbackRun, InOrder, ClaimsBefore;
    RunsStayClose(t, calls, c.now);
    StepMatches(RollbackRun(t, calls), Run(t, calls), c, c.now);
  }

  /** The order matters: a claim at an earlier time can still be given work that the kept sweep of a claim at a later time
      has expired. */
  lemma EarlierClaimTells(t: Table, late: Call, early: Call)
    requires late.ClaimCall? && early.ClaimCall? && Answer(t, late) == NoWork && Answer(t, early) == Done
    requires forall l :: l in t ==> t[l].ask.expiresAt <= late.now
    ensures Answer(RollbackRun(t, [late]), early) == Done && Answer(Run(t, [late]), early) == NoWork
  {
    hide Answer, Step, ClaimValid, OwnsWorker;
    OneCall(t, late);
    NoWorkKeepsSweep(t, late);
    AllGone(t, late.now, early);
  }

  lemma OneCall(t: Table, c: Call)
    ensures Run(t, [c]) == Step(t, c) && RollbackRun(t, [c]) == RollbackStep(t, c)
  {
    hide Step, RollbackStep;
    assert [c][..0] == [] && Run(t, []) == t && RollbackRun(t, []) == t;
  }

  lemma NoWorkKeepsSweep(t: Table, c: Call)
    requires c.ClaimCall? && Answer(t, c) == NoWork
    ensures Step(t, c) == Swept(t, c.now)
  {
    hide Swept, ClaimValid, OwnsWorker, Least;
  }

  lemma AllGone(t: Table, a: int, c: Call)
    requires c.ClaimCall? && Answer(t, c) == Done && forall k :: k in t ==> t[k].ask.expiresAt <= a
    ensures Answer(Swept(t, a), c) == NoWork
  {
    hide ClaimValid, OwnsWorker;
    var swept := Swept(Swept(t, a), c.now);
    assert forall k :: k in swept ==> swept[k].state != Queued;
  }

  // ---- the one difference ----

  /** What the requester of an operation is shown. */
  ghost function Status(t: Table, c: Call): (State, Option<Response>)
    requires c.LookCall? && Answer(t, c) == Done
  {
    (Step(t, c)[c.operationID].state, Step(t, c)[c.operationID].response)
  }

  /** The stores show different states exactly for an operation that only one has put back in the queue: its claim has
      lapsed, it is not overdue, and the store that keeps its sweeps shows it queued where the other shows it claimed. */
  lemma StatusTells(t: Table, calls: seq<Call>, c: Call)
    requires InOrder(calls + [c]) && c.LookCall? && Answer(Run(t, calls), c) == Done
    ensures Answer(RollbackRun(t, calls), c) == Done && c.operationID in Run(t, calls) &&
      c.operationID in RollbackRun(t, calls)
    ensures var m, d := Run(t, calls)[c.operationID], RollbackRun(t, calls)[c.operationID];
      Status(Run(t, calls), c) != Status(RollbackRun(t, calls), c) <==> Lapsed(d, c.now) && m == Cleared(d, Queued)
  {
    StoresAnswerAlike(t, calls, c);
    InOrderFront(calls, c);
    hide Behind, Run, RollbackRun, InOrder, ClaimsBefore;
    RunsStayClose(t, calls, c.now);
    RecordTrails(RollbackRun(t, calls), Run(t, calls), c.operationID, c.now);
  }

  /** One sweep that is kept, against the same table without it: visible in the status exactly when it put back a claim
      that had lapsed by then of an operation that is still not overdue. */
  lemma KeptSweepShows(t: Table, a: int, c: Call)
    requires c.LookCall? && a <= c.now && Answer(t, c) == Done
    ensures Answer(Swept(t, a), c) == Done && c.operationID in t
    ensures Status(Swept(t, a), c) != Status(t, c) <==>
      Lapsed(t[c.operationID], a) && c.now < t[c.operationID].ask.expiresAt
    ensures Status(Swept(t, a), c) != Status(t, c) ==> Status(Swept(t, a), c).0 == Queued && Status(t, c).0 == Claimed
  {
  }

  /** Every other call meets the kept sweep without a difference. */
  lemma KeptSweepIsUnseen(t: Table, a: int, c: Call)
    requires a <= c.now
    ensures Answer(Swept(t, a), c) == Answer(t, c)
    ensures Answer(t, c) == Done && c.ClaimCall? ==> Step(Swept(t, a), c) == Step(t, c)
    ensures Swept(Swept(t, a), c.now) == Swept(t, c.now)
  {
    hide Behind, Swept, Step, Answer;
    SweepIsAhead(t, a, c.now);
    SweepCatchesUp(t, Swept(t, a), c.now);
    StepMatches(t, Swept(t, a), c, c.now);
  }
}
