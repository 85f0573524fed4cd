/**
 The whole lifecycle verdict: the exact condition under which a history with its receipts is accepted, the evaluator
 that decides it, and what follows for every accepted history.
 */
module JobHistory {
  import opened Bytes
  import opened JobLifecycle
  import opened JobReceipts

  // ---- the condition ----

  predicate ExecutionFits(env: Env, c: Terms, jobID: nat, e: Execution) {
    && e.jobID == jobID && env.executionAdmitted(e, c) && e.startedAt < c.leaseExpiresAt
    && e.finishedAt <= c.admissionExpiresAt && e.finishedAt <= c.authorizationExpiresAt
  }

  ghost predicate ApplicationFits(env: Env, jobID: nat, executions: set<Execution>, a: Application) {
    && a.jobID == jobID && env.applicationAuthorized(a)
    && exists e :: e in executions && e.receiptID == a.executionReceiptID && env.applicationOf(a, e)
  }

  /** Some execution with this digest had finished by then. */
  ghost predicate Executed(env: Env, executions: set<Execution>, digest: Option<string>, deadline: int) {
    exists e :: e in executions && Some(env.executionDigest(e)) == digest && e.finishedAt <= deadline
  }

  ghost predicate Applied(env: Env, applications: set<Application>, digest: Option<string>, deadline: int) {
    exists a :: a in applications && Some(env.applicationDigest(a)) == digest && a.appliedAt <= deadline
  }

  predicate FirstSound(c: Terms, t: Transition) {
    && t.sequence == 1 && t.predecessorDigest.None? && t.state == Authorized
    && t.evidenceDigest == Some(c.authorizationDigest)
    && c.authorizedAt <= t.occurredAt < c.authorizationExpiresAt
  }

  predicate NextSound(env: Env, p: Transition, t: Transition) {
    && t.sequence == p.sequence + 1 && t.predecessorDigest == Some(env.transitionDigest(p))
    && p.occurredAt <= t.occurredAt
    && Allowed(p.state, t.state)
  }

  /** The transition has the evidence and the timing that its state asks for. */
  ghost predicate EvidenceSound(env: Env, c: Terms, t: Transition, executions: set<Execution>,
      applications: set<Application>) {
    && (t.state == Admitted ==>
         t.evidenceDigest == Some(c.admissionDigest) && c.admittedAt <= t.occurredAt < c.admissionExpiresAt)
    && (t.state in {Leased, Executing} ==> t.occurredAt < c.leaseExpiresAt)
    && (t.state in {ResultStaged, ResultDelivered} ==> Executed(env, executions, t.evidenceDigest, t.occurredAt))
    && (t.state == ResultApplied ==> Applied(env, applications, t.evidenceDigest, t.occurredAt))
  }

  ghost predicate StepSound(env: Env, c: Terms, u: seq<Transition>, i: nat, executions: set<Execution>,
      applications: set<Application>)
    requires i < |u|
  {
    && u[i].jobID == u[0].jobID && (if i == 0 then FirstSound(c, u[0]) else NextSound(env, u[i - 1], u[i]))
    && EvidenceSound(env, c, u[i], executions, applications)
    && (u[i].state == Completed ==> i > 0 && u[i].evidenceDigest == u[i - 1].evidenceDigest)
  }

  ghost predicate HistorySound(env: Env, c: Terms, u: seq<Transition>, executions: set<Execution>,
      applications: set<Application>) {
    forall i :: 0 <= i < |u| ==> StepSound(env, c, u, i, executions, applications)
  }

  ghost predicate ExecutionsSound(env: Env, executions: set<Execution>) {
    ReceiptsSound(executions, env.executionValid, (e: Execution) => e.receiptID, (e: Execution) => (e.jobID, e.attempt))
  }

  ghost predicate ApplicationsSound(env: Env, applications: set<Application>) {
    ReceiptsSound(applications, env.applicationValid, (a: Application) => a.receiptID, (a: Application) => a.jobID)
  }

  ghost predicate Accepted(env: Env, c: Terms, ts: seq<Transition>, executions: set<Execution>,
      applications: set<Application>) {
    && ts != [] && InputSound(env, c, ts) && ExecutionsSound(env, executions) && ApplicationsSound(env, applications)
    && c.admissionJobID == ts[0].jobID && c.admissionPoolID == c.poolID && env.inputReleaseValid(c)
    && (forall e :: e in executions ==> ExecutionFits(env, c, ts[0].jobID, e))
    && (forall a :: a in applications ==> ApplicationFits(env, ts[0].jobID, executions, a))
    && HistorySound(env, c, Compress(ts), executions, applications)
  }

  ghost function Verdict(env: Env, c: Terms, ts: seq<Transition>, executions: seq<Execution>,
      applications: seq<Application>): Option<Evaluation> {
    if Accepted(env, c, ts, Distinct(executions), Distinct(applications)) then
      DistinctFewer(executions);
      DistinctFewer(applications);
      Some(Evaluation(ts[0].jobID, ts[|ts| - 1].state, |Compress(ts)|, |ts| - |Compress(ts)|,
                      |Distinct(executions)|, |executions| - |Distinct(executions)|,
                      |Distinct(applications)|, |applications| - |Distinct(applications)|))
    else None
  }

  lemma {:induction false} DistinctFewer<R>(rs: seq<R>)
    ensures |Distinct(rs)| <= |rs|
    decreases |rs|
  {
    if rs != [] {
      var n := |rs| - 1;
      assert rs[..n + 1] == rs;
      DistinctStep(rs, n);
      DistinctFewer(rs[..n]);
    }
  }

  lemma {:induction false} CompressHead(ts: seq<Transition>)
    requires ts != []
    ensures Compress(ts)[0] == ts[0]
    decreases |ts|
  {
    if |ts| > 1 { CompressHead(ts[..|ts| - 1]); }
  }

  // ---- the evaluator ----

  method CheckExecutions(env: Env, c: Terms, jobID: nat, byID: map<nat, Execution>, ghost executions: set<Execution>)
    returns (ok: bool)
    requires Files(byID, executions, (e: Execution) => e.receiptID)
    ensures ok <==> forall e :: e in executions ==> ExecutionFits(env, c, jobID, e)
  {
    hide ExecutionFits;
    var left := byID.Keys;
    while left != {}
      invariant left <= byID.Keys
      invariant forall k :: k in byID && k !in left ==> ExecutionFits(env, c, jobID, byID[k])
    {
      var k :| k in left;
      if !ExecutionFits(env, c, jobID, byID[k]) {
        return false;
      }
      left := left - {k};
    }
    return true;
  }

  method CheckApplications(env: Env, jobID: nat, byID: map<nat, Application>, executionByID: map<nat, Execution>,
                           ghost applications: set<Application>, ghost executions: set<Execution>) returns (ok: bool)
    requires Files(byID, applications, (a: Application) => a.receiptID) &&
      Files(executionByID, executions, (e: Execution) => e.receiptID)
    ensures ok <==> forall a :: a in applications ==> ApplicationFits(env, jobID, executions, a)
  {
    var left := byID.Keys;
    while left != {}
      invariant left <= byID.Keys
      invariant forall k :: k in byID && k !in left ==> ApplicationFits(env, jobID, executions, byID[k])
    {
      var k :| k in left;
      var receipt := byID[k];
      if receipt.jobID != jobID || receipt.executionReceiptID !in executionByID || !env.applicationAuthorized(receipt)
         || !env.applicationOf(receipt, executionByID[receipt.executionReceiptID]) {
        Unfit(env, jobID, executionByID, executions, receipt);
        return false;
      }
      left := left - {k};
    }
    return true;
  }

  lemma Unfit(env: Env, jobID: nat, executionByID: map<nat, Execution>, executions: set<Execution>, a: Application)
    requires Files(executionByID, executions, (e: Execution) => e.receiptID)
    requires a.jobID != jobID || a.executionReceiptID !in executionByID || !env.applicationAuthorized(a)
          || !env.applicationOf(a, executionByID[a.executionReceiptID])
    ensures !ApplicationFits(env, jobID, executions, a)
  {
    var id := (e: Execution) => e.receiptID;
    forall e | e in executions && e.receiptID == a.executionReceiptID
      ensures e.receiptID in executionByID && executionByID[e.receiptID] == e
    {
      assert id(e) in executionByID && executionByID[id(e)] == e;
    }
  }

  method ExecutionForDigest(env: Env, byID: map<nat, Execution>, digest: Option<string>,
      ghost executions: set<Execution>)
    returns (r: Option<Execution>)
    requires Files(byID, executions, (e: Execution) => e.receiptID)
    ensures r.Some? ==> r.value in executions && Some(env.executionDigest(r.value)) == digest
    ensures r.None? ==> forall e :: e in executions ==> Some(env.executionDigest(e)) != digest
  {
    if digest.None? {
      return None;
    }
    var left := byID.Keys;
    while left != {}
      invariant left <= byID.Keys
      invariant forall k :: k in byID && k !in left ==> env.executionDigest(byID[k]) != digest.value
    {
      var k :| k in left;
      if env.executionDigest(byID[k]) == digest.value {
        return Some(byID[k]);
      }
      left := left - {k};
    }
    return None;
  }

  method ApplicationForDigest(env: Env, byID: map<nat, Application>, digest: Option<string>,
      ghost applications: set<Application>)
    returns (r: Option<Application>)
    requires Files(byID, applications, (a: Application) => a.receiptID)
    ensures r.Some? ==> r.value in applications && Some(env.applicationDigest(r.value)) == digest
    ensures r.None? ==> forall a :: a in applications ==> Some(env.applicationDigest(a)) != digest
  {
    if digest.None? {
      return None;
    }
    var left := byID.Keys;
    while left != {}
      invariant left <= byID.Keys
      invariant forall k :: k in byID && k !in left ==> env.applicationDigest(byID[k]) != digest.value
    {
      var k :| k in left;
      if env.applicationDigest(byID[k]) == digest.value {
        return Some(byID[k]);
      }
      left := left - {k};
    }
    return None;
  }

  /** Digests identify receipts, so whichever one the search finds is the only one. */
  lemma OnlyExecution(env: Env, executions: set<Execution>, e: Execution, digest: Option<string>, deadline: int)
    requires CollisionFree(env) && e in executions && Some(env.executionDigest(e)) == digest
    ensures Executed(env, executions, digest, deadline) <==> e.finishedAt <= deadline
  {
  }

  lemma OnlyApplication(env: Env, applications: set<Application>, a: Application, digest: Option<string>, deadline: int)
    requires CollisionFree(env) && a in applications && Some(env.applicationDigest(a)) == digest
    ensures Applied(env, applications, digest, deadline) <==> a.appliedAt <= deadline
  {
  }

  /** The evidence of one transition. */
  method CheckEvidence(env: Env, c: Terms, t: Transition, executionByID: map<nat, Execution>,
      applicationByID: map<nat, Application>, ghost executions: set<Execution>, ghost applications: set<Application>)
    returns (ok: bool)
    requires CollisionFree(env) && Files(executionByID, executions, (e: Execution) => e.receiptID)
    requires Files(applicationByID, applications, (a: Application) => a.receiptID)
    ensures ok <==> EvidenceSound(env, c, t, executions, applications)
  {
    hide CollisionFree, Files;
    if t.state == Admitted && (t.evidenceDigest != Some(c.admissionDigest) || t.occurredAt < c.admittedAt
                               || t.occurredAt >= c.admissionExpiresAt) {
      return false;
    }
    if (t.state == Leased || t.state == Executing) && t.occurredAt >= c.leaseExpiresAt {
      return false;
    }
    if t.state == ResultStaged || t.state == ResultDelivered {
      var receipt := ExecutionForDigest(env, executionByID, t.evidenceDigest, executions);
      if receipt.None? {
        return false;
      }
      OnlyExecution(env, executions, receipt.value, t.evidenceDigest, t.occurredAt);
      return receipt.value.finishedAt <= t.occurredAt;
    }
    if t.state == ResultApplied {
      var receipt := ApplicationForDigest(env, applicationByID, t.evidenceDigest, applications);
      if receipt.None? {
        return false;
      }
      OnlyApplication(env, applications, receipt.value, t.evidenceDigest, t.occurredAt);
      return receipt.value.appliedAt <= t.occurredAt;
    }
    return true;
  }

  /** The pass over the unique transitions, with the digest of the last applied result carried along. */
  method CheckHistory(env: Env, c: Terms, u: seq<Transition>, executionByID: map<nat, Execution>,
      applicationByID: map<nat, Application>, ghost executions: set<Execution>, ghost applications: set<Application>)
    returns (ok: bool)
    requires CollisionFree(env) && Files(executionByID, executions, (e: Execution) => e.receiptID)
    requires Files(applicationByID, applications, (a: Application) => a.receiptID)
    ensures ok <==> HistorySound(env, c, u, executions, applications)
  {
    hide CollisionFree, Files, EvidenceSound, FirstSound;
    var sawResultApplied, appliedEvidence := false, "";
    for i := 0 to |u|
      invariant forall k :: 0 <= k < i ==> StepSound(env, c, u, k, executions, applications)
      invariant i > 0 && u[i - 1].state == ResultApplied ==>
        sawResultApplied && u[i - 1].evidenceDigest == Some(appliedEvidence)
    {
      var t := u[i];
      if t.jobID != u[0].jobID || (if i == 0 then !FirstSound(c, t) else !NextSound(env, u[i - 1], t)) {
        assert !StepSound(env, c, u, i, executions, applications);
        return false;
      }
      var evident := CheckEvidence(env, c, t, executionByID, applicationByID, executions, applications);
      if !evident {
        assert !StepSound(env, c, u, i, executions, applications);
        return false;
      }
      if t.state == ResultApplied {
        HasEvidence(env, c, t, executions, applications);
        sawResultApplied, appliedEvidence := true, t.evidenceDigest.value;
      }
      if t.state == Completed {
        FirstIsAuthorized(c, t);
        if !sawResultApplied || t.evidenceDigest != Some(appliedEvidence) {
          assert !StepSound(env, c, u, i, executions, applications);
          return false;
        }
      }
      assert StepSound(env, c, u, i, executions, applications);
    }
    return true;
  }

  lemma HasEvidence(env: Env, c: Terms, t: Transition, executions: set<Execution>, applications: set<Application>)
    requires EvidenceSound(env, c, t, executions, applications) && t.state == ResultApplied
    ensures t.evidenceDigest.Some?
  {
  }

  lemma FirstIsAuthorized(c: Terms, t: Transition)
    ensures FirstSound(c, t) ==> t.state == Authorized
  {
  }

  method EvaluateJobLifecycle(env: Env, c: Terms, ts: seq<Transition>, executions: seq<Execution>,
      applications: seq<Application>)
    returns (r: Option<Evaluation>)
    requires CollisionFree(env)
    ensures r == Verdict(env, c, ts, executions, applications)
  {
    hide InputSound, HistorySound, ExecutionFits, ApplicationFits, Compress, Distinct, ReceiptsSound;
    if |ts| == 0 {
      return None;
    }
    var unique := DedupeTransitions(env, c, ts);
    if unique.None? {
      return None;
    }
    var u := unique.value.0;
    CompressHead(ts);
    ghost var es, aps := Distinct(executions), Distinct(applications);
    var executionByID := Dedupe(executions, env.executionValid, env.executionDigest, (e: Execution) => e.receiptID,
      (e: Execution) => (e.jobID, e.attempt));
    if executionByID.None? {
      return None;
    }
    var applicationByID := Dedupe(applications, env.applicationValid, env.applicationDigest,
      (a: Application) => a.receiptID, (a: Application) => a.jobID);
    if applicationByID.None? {
      return None;
    }
    DistinctFewer(executions);
    DistinctFewer(applications);
    if c.admissionJobID != u[0].jobID || c.admissionPoolID != c.poolID || !env.inputReleaseValid(c) {
      return None;
    }
    var executionsFit := CheckExecutions(env, c, u[0].jobID, executionByID.value, es);
    if !executionsFit {
      return None;
    }
    var applicationsFit := CheckApplications(env, u[0].jobID, applicationByID.value, executionByID.value, aps, es);
    if !applicationsFit {
      return None;
    }
    var historyFits := CheckHistory(env, c, u, executionByID.value, applicationByID.value, es, aps);
    if !historyFits {
      return None;
    }
    return Some(Evaluation(u[0].jobID, u[|u| - 1].state, |u|, unique.value.1,
                           |executionByID.value|, |executions| - |executionByID.value|,
                           |applicationByID.value|, |applications| - |applicationByID.value|));
  }

  // ---- every accepted history ----

  /** Accepted transitions are numbered from one without gaps and in order of time. */
  lemma {:induction false} Numbered(env: Env, c: Terms, u: seq<Transition>, es: set<Execution>, aps: set<Application>,
      i: nat)
    requires HistorySound(env, c, u, es, aps) && i < |u|
    ensures u[i].sequence == i + 1 && u[i].jobID == u[0].jobID && (i > 0 ==> u[i - 1].occurredAt <= u[i].occurredAt)
  {
    hide EvidenceSound, Allowed;
    assert StepSound(env, c, u, i, es, aps);
    if i > 0 { Numbered(env, c, u, es, aps, i - 1); }
  }

  /** Every step but the first follows an allowed one. */
  lemma Follows(env: Env, c: Terms, u: seq<Transition>, es: set<Execution>, aps: set<Application>, i: nat)
    requires HistorySound(env, c, u, es, aps) && i < |u|
    ensures if i == 0 then u[0].state == Authorized else Allowed(u[i - 1].state, u[i].state)
  {
    hide EvidenceSound, Allowed;
    assert StepSound(env, c, u, i, es, aps);
  }

  /** A history that gets past authorization was admitted next, unless it was cancelled or expired. */
  lemma SecondIsAdmission(env: Env, c: Terms, u: seq<Transition>, es: set<Execution>, aps: set<Application>)
    requires HistorySound(env, c, u, es, aps) && |u| > 1
    ensures u[1].state in {Admitted, CancelRequested, Expired}
    ensures u[1].state == Admitted ==>
      u[1].evidenceDigest == Some(c.admissionDigest) && c.admittedAt <= u[1].occurredAt < c.admissionExpiresAt
  {
    Follows(env, c, u, es, aps, 0);
    Follows(env, c, u, es, aps, 1);
    assert StepSound(env, c, u, 1, es, aps);
  }

  const ENDING := [Leased, Executing, ResultStaged, ResultDelivered, ResultApplied, Completed]

  /** The only way to a late state of the ending is through the one before it. */
  lemma OneWayBack(from: State, k: nat)
    requires 0 < k < 6 && Allowed(from, ENDING[k])
    ensures from == ENDING[k - 1]
  {
  }

  /** Whatever stands at a late state of the ending was preceded by the earlier ones. */
  lemma {:induction false} EndingBack(env: Env, c: Terms, u: seq<Transition>, es: set<Execution>, aps: set<Application>,
      n: nat, k: nat)
    requires HistorySound(env, c, u, es, aps) && n < |u| && k < 6 && u[n].state == ENDING[k]
    ensures n >= k && forall j :: 0 <= j <= k ==> u[n - k + j].state == ENDING[j]
    decreases k
  {
    if k > 0 {
      Follows(env, c, u, es, aps, n);
      OneWayBack(u[n - 1].state, k);
      EndingBack(env, c, u, es, aps, n - 1, k - 1);
      forall j | 0 <= j <= k ensures u[n - k + j].state == ENDING[j] {
        if j < k { assert u[(n - 1) - (k - 1) + j].state == ENDING[j]; }
      }
    }
  }

  /** A completed history ends with leased, executing, result staged, delivered, applied, completed; the lease and the
      execution began before the lease expired, and the completion carries the evidence of the applied result. */
  lemma CompletedEnding(env: Env, c: Terms, u: seq<Transition>, es: set<Execution>, aps: set<Application>)
    requires HistorySound(env, c, u, es, aps) && u != [] && u[|u| - 1].state == Completed
    ensures |u| >= 8 && forall j :: 0 <= j < 6 ==> u[|u| - 6 + j].state == ENDING[j]
    ensures forall i :: 0 <= i < |u| && u[i].state in {Leased, Executing} ==> u[i].occurredAt < c.leaseExpiresAt
    ensures Applied(env, aps, u[|u| - 1].evidenceDigest, u[|u| - 2].occurredAt)
  {
    var n := |u| - 1;
    EndingBack(env, c, u, es, aps, n, 5);
    assert u[n - 5 + 0].state == ENDING[0];
    LeaseComesLater(env, c, u, es, aps, n - 5);
    forall i | 0 <= i < |u| && u[i].state in {Leased, Executing} ensures u[i].occurredAt < c.leaseExpiresAt {
      assert StepSound(env, c, u, i, es, aps);
    }
    assert StepSound(env, c, u, n, es, aps) && StepSound(env, c, u, n - 1, es, aps);
    assert u[n - 5 + 4].state == ENDING[4];
  }

  lemma LeaseComesLater(env: Env, c: Terms, u: seq<Transition>, es: set<Execution>, aps: set<Application>, i: nat)
    requires HistorySound(env, c, u, es, aps) && i < |u| && u[i].state == Leased
    ensures i >= 2
  {
    Follows(env, c, u, es, aps, 0);
    if i > 0 { Follows(env, c, u, es, aps, 1); }
  }

  predicate Terminal(s: State) {
    s in {Cancelled, Failed, Expired}
  }

  /** Once cancellation is requested, at most one more step follows, and it ends the job without completing it. */
  lemma CancelNeverCompletes(env: Env, c: Terms, u: seq<Transition>, es: set<Execution>, aps: set<Application>, i: nat)
    requires HistorySound(env, c, u, es, aps) && i < |u| && u[i].state == CancelRequested
    ensures |u| <= i + 2 && (|u| == i + 2 ==> Terminal(u[i + 1].state)) && u[|u| - 1].state != Completed
  {
    if i + 1 < |u| { Follows(env, c, u, es, aps, i + 1); }
    if i + 2 < |u| { Follows(env, c, u, es, aps, i + 2); }
  }

  /** What the evaluator accepts, with repeats reduced: numbered from one, admitted second unless cancelled or expired, in
      order of time and of one job. */
  lemma AcceptedStart(env: Env, c: Terms, ts: seq<Transition>, es: seq<Execution>, aps: seq<Application>)
    requires Verdict(env, c, ts, es, aps).Some?
    ensures var u, r := Compress(ts), Verdict(env, c, ts, es, aps).value;
      && |u| == r.acceptedTransitions > 0 && u[0].state == Authorized && u[|u| - 1].state == r.currentState
      && (forall i :: 0 <= i < |u| ==> u[i].sequence == i + 1 && u[i].jobID == r.jobID)
      && (forall i :: 0 < i < |u| ==> u[i - 1].occurredAt <= u[i].occurredAt && Allowed(u[i - 1].state, u[i].state))
      && (|u| > 1 ==> u[1].state in {Admitted, CancelRequested, Expired})
  {
    hide HistorySound, Allowed, InputSound, Compress;
    var u, executions, applications := Compress(ts), Distinct(es), Distinct(aps);
    CompressHead(ts);
    Follows(env, c, u, executions, applications, 0);
    forall i | 0 <= i < |u| ensures u[i].sequence == i + 1 && u[i].jobID == ts[0].jobID {
      Numbered(env, c, u, executions, applications, i);
    }
    forall i | 0 < i < |u| ensures u[i - 1].occurredAt <= u[i].occurredAt && Allowed(u[i - 1].state, u[i].state) {
      Numbered(env, c, u, executions, applications, i);
      Follows(env, c, u, executions, applications, i);
    }
    if |u| > 1 { SecondIsAdmission(env, c, u, executions, applications); }
  }

  /** An accepted history that is completed ends in the six states of the ending, with every lease and execution step before
      the lease expired and an applied result behind it; one that ever asks for cancellation is not completed. */
  lemma AcceptedEnd(env: Env, c: Terms, ts: seq<Transition>, es: seq<Execution>, aps: seq<Application>)
    requires Verdict(env, c, ts, es, aps).Some?
    ensures var u := Compress(ts); Verdict(env, c, ts, es, aps).value.currentState == Completed ==>
      && |u| >= 8 && (forall j :: 0 <= j < 6 ==> u[|u| - 6 + j].state == ENDING[j])
      && (forall i :: 0 <= i < |u| && u[i].state in {Leased, Executing} ==> u[i].occurredAt < c.leaseExpiresAt)
      && Applied(env, Distinct(aps), u[|u| - 1].evidenceDigest, u[|u| - 2].occurredAt)
    ensures (exists t :: t in ts && t.state == CancelRequested) ==>
      Verdict(env, c, ts, es, aps).value.currentState != Completed
  {
    hide HistorySound, Allowed, InputSound, Compress;
    var u, executions, applications := Compress(ts), Distinct(es), Distinct(aps);
    if u[|u| - 1].state == Completed {
      CompletedEnding(env, c, u, executions, applications);
    }
    if t :| t in ts && t.state == CancelRequested {
      CompressKeeps(ts, t);
      var i :| 0 <= i < |u| && u[i] == t;
      CancelNeverCompletes(env, c, u, executions, applications, i);
    }
  }

  /** What stands behind every accepted transition: the pool's own signature, the digest of the one before, and the
      evidence its state asks for. */
  lemma AcceptedEvidence(env: Env, c: Terms, ts: seq<Transition>, es: seq<Execution>, aps: seq<Application>, i: nat)
    requires Verdict(env, c, ts, es, aps).Some? && i < |Compress(ts)|
    ensures var u := Compress(ts); var t := u[i];
      && t in ts && env.transitionValid(t) && t.poolID == c.poolID && t.signerID == c.authorityID
      && t.fingerprint == c.fingerprint
      && t.predecessorDigest == (if i == 0 then None else Some(env.transitionDigest(u[i - 1])))
      && (t.state == Authorized ==>
           t.evidenceDigest == Some(c.authorizationDigest) && c.authorizedAt <= t.occurredAt < c.authorizationExpiresAt)
      && (t.state == Admitted ==>
           t.evidenceDigest == Some(c.admissionDigest) && c.admittedAt <= t.occurredAt < c.admissionExpiresAt)
      && (t.state in {ResultStaged, ResultDelivered} ==>
           exists e :: e in es && t.evidenceDigest == Some(env.executionDigest(e)) && e.finishedAt <= t.occurredAt)
      && (t.state == ResultApplied ==>
           exists a :: a in aps && t.evidenceDigest == Some(env.applicationDigest(a)) && a.appliedAt <= t.occurredAt)
  {
    var u, executions, applications := Compress(ts), Distinct(es), Distinct(aps);
    hide Compress;
    CompressFrom(ts, u[i]);
    assert StepSound(env, c, u, i, executions, applications);
    assert InputSound(env, c, ts);
    var k :| 0 <= k < |ts| && ts[k] == u[i];
    assert Ours(env, c, ts[k]);
  }

  /** What stands behind every accepted receipt: executions of this job within lease, admission and authorization, and
      applications of such an execution; copies are counted apart. */
  lemma AcceptedReceipts(env: Env, c: Terms, ts: seq<Transition>, es: seq<Execution>, aps: seq<Application>)
    requires Verdict(env, c, ts, es, aps).Some?
    ensures var r := Verdict(env, c, ts, es, aps).value;
      && r.acceptedExecutions == |set e | e in es| && r.acceptedApplications == |set a | a in aps|
      && c.admissionJobID == r.jobID && c.admissionPoolID == c.poolID && env.inputReleaseValid(c)
      && (forall e :: e in es ==>
           && env.executionValid(e) && e.jobID == r.jobID && env.executionAdmitted(e, c)
           && e.startedAt < c.leaseExpiresAt && e.finishedAt <= c.admissionExpiresAt
           && e.finishedAt <= c.authorizationExpiresAt)
      && (forall a :: a in aps ==>
           && env.applicationValid(a) && a.jobID == r.jobID && env.applicationAuthorized(a)
           && exists e :: e in es && e.receiptID == a.executionReceiptID && env.applicationOf(a, e))
  {
    hide InputSound, HistorySound, Compress;
    forall e | e in es ensures ExecutionFits(env, c, ts[0].jobID, e) && env.executionValid(e) {
      assert e in Distinct(es);
    }
    forall a | a in aps ensures ApplicationFits(env, ts[0].jobID, Distinct(es), a) && env.applicationValid(a) {
      assert a in Distinct(aps);
    }
  }

  lemma {:induction false} CompressFrom(ts: seq<Transition>, t: Transition)
    requires t in Compress(ts)
    ensures t in ts
    decreases |ts|
  {
    if t != ts[|ts| - 1] { CompressFrom(ts[..|ts| - 1], t); }
  }

  lemma {:induction false} CompressKeeps(ts: seq<Transition>, t: Transition)
    requires t in ts
    ensures t in Compress(ts)
    decreases |ts|
  {
    var n := |ts| - 1;
    if ts[n] != t {
      assert t in ts[..n];
      CompressKeeps(ts[..n], t);
    } else {
      assert Compress(ts)[|Compress(ts)| - 1] == t;
    }
  }

  // ---- order and copies do not matter ----

  lemma {:induction false} SameDistinct<R>(rs: seq<R>, qs: seq<R>)
    requires multiset(rs) == multiset(qs)
    ensures Distinct(rs) == Distinct(qs) && |rs| == |qs|
  {
    assert |multiset(rs)| == |rs| && |multiset(qs)| == |qs|;
    forall r ensures r in rs <==> r in qs {
      assert r in multiset(rs) <==> r in multiset(qs);
    }
  }

  /** Permuting execution or application receipts does not change the verdict. */
  lemma ReceiptOrderIrrelevant(env: Env, c: Terms, ts: seq<Transition>, es: seq<Execution>, fs: seq<Execution>,
      aps: seq<Application>, bps: seq<Application>)
    requires multiset(es) == multiset(fs) && multiset(aps) == multiset(bps)
    ensures Verdict(env, c, ts, es, aps) == Verdict(env, c, ts, fs, bps)
  {
    hide Accepted, Distinct;
    SameDistinct(es, fs);
    SameDistinct(aps, bps);
  }

  function WithCopy(ts: seq<Transition>, i: nat): seq<Transition>
    requires i < |ts|
  {
    ts[..i + 1] + ts[i..]
  }

  lemma {:induction false} CopyCompresses(ts: seq<Transition>, i: nat, n: nat)
    requires i < n <= |ts|
    ensures Compress(WithCopy(ts, i)[..n + 1]) == Compress(ts[..n])
    decreases n
  {
    hide Compress;
    var copied := WithCopy(ts, i);
    CompressStep(copied, n);
    if n == i + 1 {
      assert copied[..n] == ts[..n];
    } else {
      CopyCompresses(ts, i, n - 1);
      CompressStep(ts, n - 1);
      assert copied[n] == ts[n - 1] && copied[n - 1] == ts[n - 2];
    }
  }

  /** Where a position of the list with a copy comes from. */
  function Origin(i: nat, k: nat): nat {
    if k <= i then k else k - 1
  }

  lemma CopyInput(env: Env, c: Terms, ts: seq<Transition>, i: nat)
    requires i < |ts|
    ensures InputSound(env, c, WithCopy(ts, i)) <==> InputSound(env, c, ts)
  {
    hide Ours;
    var copied := WithCopy(ts, i);
    assert forall k :: 0 <= k < |copied| ==> copied[k] == ts[Origin(i, k)];
    if InputSound(env, c, ts) {
      forall j, k | 0 <= j < k < |copied| ensures copied[j].sequence <= copied[k].sequence {
        assert Origin(i, j) < Origin(i, k) ==> ts[Origin(i, j)].sequence <= ts[Origin(i, k)].sequence;
      }
      forall j, k | 0 <= j < k < |copied|
                    && (copied[j].transitionID == copied[k].transitionID || copied[j].sequence == copied[k].sequence)
        ensures copied[j] == copied[k]
      {
        assert Origin(i, j) < Origin(i, k) ==> ts[Origin(i, j)] == ts[Origin(i, k)];
      }
    }
    if InputSound(env, c, copied) {
      CopyInputBack(env, c, ts, i);
    }
  }

  lemma CopyInputBack(env: Env, c: Terms, ts: seq<Transition>, i: nat)
    requires i < |ts| && InputSound(env, c, WithCopy(ts, i))
    ensures InputSound(env, c, ts)
  {
    hide Ours;
    var copied := WithCopy(ts, i);
    forall k | 0 <= k < |ts| ensures Ours(env, c, ts[k]) {
      assert Ours(env, c, copied[if k <= i then k else k + 1]);
    }
    forall j, k | 0 <= j < k < |ts| ensures ts[j].sequence <= ts[k].sequence {
      assert copied[if j <= i then j else j + 1].sequence <= copied[if k <= i then k else k + 1].sequence;
    }
    forall j, k | 0 <= j < k < |ts| && (ts[j].transitionID == ts[k].transitionID || ts[j].sequence == ts[k].sequence)
      ensures ts[j] == ts[k]
    {
      assert copied[if j <= i then j else j + 1] == copied[if k <= i then k else k + 1];
    }
  }

  /** Inserting an exact copy of a transition next to it changes nothing but the duplicate count. */
  lemma CopyOnlyCounts(env: Env, c: Terms, ts: seq<Transition>, i: nat, es: seq<Execution>, aps: seq<Application>)
    requires i < |ts|
    ensures var r, s := Verdict(env, c, ts, es, aps), Verdict(env, c, WithCopy(ts, i), es, aps);
      if r.None? then s.None? else s == Some(r.value.(duplicateTransitions := r.value.duplicateTransitions + 1))
  {
    hide InputSound, HistorySound, ExecutionsSound, ApplicationsSound, ExecutionFits, ApplicationFits, Compress,
      Distinct;
    CopyInput(env, c, ts, i);
    CopyCompresses(ts, i, |ts|);
    assert ts[..|ts|] == ts && WithCopy(ts, i)[..|ts| + 1] == WithCopy(ts, i);
    assert WithCopy(ts, i)[|ts|] == ts[|ts| - 1];
  }

  /** Accepted and duplicate counts add up to what was listed; accepted executions have distinct attempts, and no job has
      two result applications. */
  lemma CountsAddUp(env: Env, c: Terms, ts: seq<Transition>, es: seq<Execution>, aps: seq<Application>)
    requires Verdict(env, c, ts, es, aps).Some?
    ensures var r := Verdict(env, c, ts, es, aps).value;
      && r.acceptedTransitions + r.duplicateTransitions == |ts| && r.acceptedExecutions + r.duplicateExecutions == |es|
      && r.acceptedApplications + r.duplicateApplications == |aps| && r.acceptedApplications <= 1
    ensures forall e, f :: e in es && f in es && e != f ==> e.attempt != f.attempt && e.receiptID != f.receiptID
  {
    hide InputSound, HistorySound, Compress, ApplicationFits;
    var applied := Distinct(aps);
    assert |applied| <= 1 by {
      assert forall a, b :: a in applied && b in applied ==> a == b by {
        OneApplication(env, c, ts, es, aps);
      }
      if applied != {} {
        var a :| a in applied;
        assert applied == {a};
      }
    }
    forall e, f | e in es && f in es && e != f ensures e.attempt != f.attempt && e.receiptID != f.receiptID {
      assert e in Distinct(es) && f in Distinct(es);
      assert ExecutionFits(env, c, ts[0].jobID, e) && ExecutionFits(env, c, ts[0].jobID, f);
    }
  }

  lemma OneApplication(env: Env, c: Terms, ts: seq<Transition>, es: seq<Execution>, aps: seq<Application>)
    requires Verdict(env, c, ts, es, aps).Some?
    ensures forall a, b :: a in Distinct(aps) && b in Distinct(aps) ==> a == b
  {
    hide InputSound, HistorySound, Compress;
    forall a, b | a in Distinct(aps) && b in Distinct(aps) ensures a == b {
      assert ApplicationFits(env, ts[0].jobID, Distinct(es), a) && ApplicationFits(env, ts[0].jobID, Distinct(es), b);
    }
  }
}
