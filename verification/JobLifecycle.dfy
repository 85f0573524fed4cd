/**
 The job lifecycle evaluator: which transition histories and receipts a pool job may have, and what every accepted
 history looks like.
 */
module JobLifecycle {
  import opened Bytes

  datatype State = Authorized | Admitted | Queued | Leased | Executing | RetryWait | ResultStaged | ResultDelivered
                 | ResultApplied | Completed | CancelRequested | Cancelled | Paused | Failed | Expired

  datatype Transition = Transition(transitionID: nat, jobID: nat, poolID: nat, sequence: nat,
    predecessorDigest: Option<string>, state: State, evidenceDigest: Option<string>, occurredAt: int, signerID: nat,
    fingerprint: string, signature: string)

  /** A worker's execution receipt; `body` is everything else it says. */
  datatype Execution = Execution(receiptID: nat, jobID: nat, attempt: nat, startedAt: int, finishedAt: int,
    body: string)

  datatype Application = Application(receiptID: nat, jobID: nat, executionReceiptID: nat, appliedAt: int, body: string)

  /** The admission, the authorization and the pool the history is judged against. */
  datatype Terms = Terms(poolID: nat, authorityID: nat, fingerprint: string, admissionJobID: nat, admissionPoolID: nat,
    authorizedAt: int, authorizationExpiresAt: int, admittedAt: int, admissionExpiresAt: int, leaseExpiresAt: int,
    authorizationDigest: string, admissionDigest: string)

  /** Foreign checks and digests: record validation with its signatures, authority checks between records. */
  datatype Env = Env(
    transitionValid: Transition -> bool, transitionDigest: Transition -> string,
    executionValid: Execution -> bool, executionDigest: Execution -> string,
    applicationValid: Application -> bool, applicationDigest: Application -> string,
    inputReleaseValid: Terms -> bool, executionAdmitted: (Execution, Terms) -> bool,
    applicationAuthorized: Application -> bool, applicationOf: (Application, Execution) -> bool)

  ghost predicate CollisionFree(env: Env) {
    && (forall a, b :: env.transitionDigest(a) == env.transitionDigest(b) ==> a == b)
    && (forall a, b :: env.executionDigest(a) == env.executionDigest(b) ==> a == b)
    && (forall a, b :: env.applicationDigest(a) == env.applicationDigest(b) ==> a == b)
  }

  datatype Evaluation = Evaluation(jobID: nat, currentState: State, acceptedTransitions: nat, duplicateTransitions: nat,
    acceptedExecutions: nat, duplicateExecutions: nat, acceptedApplications: nat, duplicateApplications: nat)

  predicate Allowed(from: State, to: State) {
    match from
    case Authorized => to in {Admitted, CancelRequested, Expired}
    case Admitted => to in {Queued, Leased, CancelRequested, Expired}
    case Queued => to in {Leased, Paused, CancelRequested, Failed, Expired}
    case Leased => to in {Executing, Queued, RetryWait, CancelRequested, Failed, Expired}
    case Executing => to in {ResultStaged, RetryWait, CancelRequested, Failed, Expired}
    case RetryWait => to in {Queued, Leased, Paused, CancelRequested, Failed, Expired}
    case ResultStaged => to in {ResultDelivered, CancelRequested, Failed}
    case ResultDelivered => to in {ResultApplied, CancelRequested, Failed}
    case ResultApplied => to == Completed
    case CancelRequested => to in {Cancelled, Failed, Expired}
    case Paused => to in {Queued, CancelRequested, Expired}
    case _ => false
  }

  predicate Ended(s: State) {
    s in {Completed, Cancelled, Failed, Expired}
  }

  /** The states a job can come from. */
  function Before(to: State): set<State> {
    match to
    case Authorized => {}
    case Admitted => {Authorized}
    case Queued => {Admitted, Leased, RetryWait, Paused}
    case Leased => {Admitted, Queued, RetryWait}
    case Executing => {Leased}
    case RetryWait => {Leased, Executing}
    case ResultStaged => {Executing}
    case ResultDelivered => {ResultStaged}
    case ResultApplied => {ResultDelivered}
    case Completed => {ResultApplied}
    case CancelRequested =>
      {Authorized, Admitted, Queued, Leased, Executing, RetryWait, ResultStaged, ResultDelivered, Paused}
    case Cancelled => {CancelRequested}
    case Paused => {Queued, RetryWait}
    case Failed => {Queued, Leased, Executing, RetryWait, ResultStaged, ResultDelivered, CancelRequested}
    case Expired => {Authorized, Admitted, Queued, Leased, Executing, RetryWait, CancelRequested, Paused}
  }

  /** Some order of allowed steps leads from one state to another. */
  ghost predicate Leads(path: seq<State>, from: State, to: State) {
    && path != [] && path[0] == from && path[|path| - 1] == to
    && forall i :: 0 < i < |path| ==> Allowed(path[i - 1], path[i])
  }

  /** The table read from its other side; the ended states are exactly those nothing follows. */
  lemma AllowedBackwards(from: State, to: State)
    ensures Allowed(from, to) <==> from in Before(to)
    ensures Ended(from) <==> forall s :: !Allowed(from, s)
  {
    if !Ended(from) {
      var next := match from case ResultApplied => Completed case CancelRequested => Failed case _ => CancelRequested;
      assert Allowed(from, next);
    }
  }

  /** How many steps a state is away from completion. */
  function Distance(s: State): nat {
    match s
    case Authorized => 7
    case Paused => 7
    case Admitted => 6
    case Queued => 6
    case RetryWait => 6
    case Leased => 5
    case Executing => 4
    case ResultStaged => 3
    case ResultDelivered => 2
    case ResultApplied => 1
    case _ => 0
  }

  lemma StepCloser(from: State) returns (next: State)
    requires !Ended(from) && from != CancelRequested && from != ResultApplied
    ensures Allowed(from, next) && !Ended(next) && next != CancelRequested && Distance(next) < Distance(from)
  {
    next := match from
      case Authorized => Admitted
      case Paused => Queued
      case Leased => Executing
      case Executing => ResultStaged
      case ResultStaged => ResultDelivered
      case ResultDelivered => ResultApplied
      case _ => Leased;
  }

  /** A job that has not ended can still be completed, unless cancellation was requested. */
  lemma {:induction false} CanStillComplete(from: State) returns (path: seq<State>)
    requires !Ended(from) && from != CancelRequested
    ensures Leads(path, from, Completed)
    decreases Distance(from)
  {
    if from == ResultApplied {
      path := [ResultApplied, Completed];
    } else {
      var next := StepCloser(from);
      var rest := CanStillComplete(next);
      path := [from] + rest;
      hide Allowed;
      forall i | 0 < i < |path| ensures Allowed(path[i - 1], path[i]) {
        assert path[i] == rest[i - 1] && (i > 1 ==> path[i - 1] == rest[i - 2]);
      }
    }
  }

  // ---- transitions without repeats ----

  predicate Ours(env: Env, c: Terms, t: Transition) {
    env.transitionValid(t) && t.poolID == c.poolID && t.signerID == c.authorityID && t.fingerprint == c.fingerprint
  }

  /** Alike transitions, by ID or by sequence number, are the same transition. */
  ghost predicate Consistent(ts: seq<Transition>) {
    forall i, j ::
      0 <= i < j < |ts| && (ts[i].transitionID == ts[j].transitionID || ts[i].sequence == ts[j].sequence) ==>
        ts[i] == ts[j]
  }

  ghost predicate Rising(ts: seq<Transition>) {
    forall i, j :: 0 <= i < j < |ts| ==> ts[i].sequence <= ts[j].sequence
  }

  /** The input lists the pool's own valid transitions in order, with exact repeats only. */
  ghost predicate InputSound(env: Env, c: Terms, ts: seq<Transition>) {
    (forall i :: 0 <= i < |ts| ==> Ours(env, c, ts[i])) && Rising(ts) && Consistent(ts)
  }

  /** The list with each run of equal transitions reduced to one. */
  function Compress(ts: seq<Transition>): (u: seq<Transition>)
    ensures |u| <= |ts| && (ts != [] ==> u != [] && u[|u| - 1] == ts[|ts| - 1])
  {
    if ts == [] then []
    else
      var front := Compress(ts[..|ts| - 1]);
      if |ts| > 1 && ts[|ts| - 1] == ts[|ts| - 2] then front else front + [ts[|ts| - 1]]
  }

  lemma CompressStep(ts: seq<Transition>, n: nat)
    requires n < |ts|
    ensures Compress(ts[..n + 1]) ==
      if n > 0 && ts[n] == ts[n - 1] then Compress(ts[..n]) else Compress(ts[..n]) + [ts[n]]
  {
    assert ts[..n + 1][..n] == ts[..n];
  }

  /** In a consistent rising list, a transition seen before is the one right before. */
  lemma RepeatsAreAdjacent(ts: seq<Transition>, j: nat, n: nat)
    requires j < n < |ts| && Rising(ts[..n]) && Consistent(ts[..n]) && ts[j] == ts[n] &&
      ts[n - 1].sequence <= ts[n].sequence
    ensures ts[n - 1] == ts[n]
  {
    if j < n - 1 {
      var front := ts[..n];
      assert front[j].sequence <= front[n - 1].sequence;
      assert front[j] == front[n - 1];
    }
  }

  lemma InputGrows(env: Env, c: Terms, ts: seq<Transition>, n: nat)
    requires n < |ts| && InputSound(env, c, ts[..n]) && Ours(env, c, ts[n])
    requires n > 0 ==> ts[n - 1].sequence <= ts[n].sequence
    requires forall j ::
      0 <= j < n && (ts[j].transitionID == ts[n].transitionID || ts[j].sequence == ts[n].sequence) ==> ts[j] == ts[n]
    ensures InputSound(env, c, ts[..n + 1])
  {
    var front, more := ts[..n], ts[..n + 1];
    forall i | 0 <= i < |more| ensures Ours(env, c, more[i]) {
      if i < n { assert front[i] == more[i]; }
    }
    forall i, j | 0 <= i < j < |more| ensures more[i].sequence <= more[j].sequence {
      if j < n {
        assert front[i].sequence <= front[j].sequence;
      } else if i < n - 1 {
        assert front[i].sequence <= front[n - 1].sequence;
      }
    }
    forall i, j | 0 <= i < j < |more| &&
                  (more[i].transitionID == more[j].transitionID || more[i].sequence == more[j].sequence)
      ensures more[i] == more[j]
    {
      if j < n { assert front[i] == front[j]; }
    }
  }

  lemma InputBroken(env: Env, c: Terms, ts: seq<Transition>, j: nat, n: nat)
    requires j < n < |ts| && ts[j] != ts[n]
    requires ts[j].transitionID == ts[n].transitionID || ts[j].sequence == ts[n].sequence ||
      ts[n].sequence < ts[j].sequence
    ensures !InputSound(env, c, ts)
  {
  }

  /** The maps of seen IDs and sequence numbers, with `at` telling where each was seen first. */
  ghost predicate RemembersIDs(env: Env, seen: map<nat, string>, at: map<nat, nat>, ts: seq<Transition>, n: nat) {
    && n <= |ts| && seen.Keys == at.Keys
    && (forall k :: k in at ==> at[k] < n && ts[at[k]].transitionID == k && seen[k] == env.transitionDigest(ts[at[k]]))
    && (forall j :: 0 <= j < n ==> ts[j].transitionID in seen)
  }

  ghost predicate RemembersSequences(env: Env, seen: map<nat, string>, at: map<nat, nat>, ts: seq<Transition>, n: nat) {
    && n <= |ts| && seen.Keys == at.Keys
    && (forall k :: k in at ==> at[k] < n && ts[at[k]].sequence == k && seen[k] == env.transitionDigest(ts[at[k]]))
    && (forall j :: 0 <= j < n ==> ts[j].sequence in seen)
  }

  lemma DigestsTell(env: Env, a: Transition, b: Transition)
    requires CollisionFree(env)
    ensures a == b <==> env.transitionDigest(a) == env.transitionDigest(b)
  {
  }

  lemma IDSeen(env: Env, seen: map<nat, string>, at: map<nat, nat>, ts: seq<Transition>, n: nat, t: Transition)
    returns (j: nat)
    requires CollisionFree(env) && RemembersIDs(env, seen, at, ts, n) && t.transitionID in seen
    ensures j < n <= |ts| && ts[j].transitionID == t.transitionID &&
      (ts[j] == t <==> seen[t.transitionID] == env.transitionDigest(t))
  {
    j := at[t.transitionID];
    DigestsTell(env, ts[j], t);
  }

  lemma SequenceSeen(env: Env, seen: map<nat, string>, at: map<nat, nat>, ts: seq<Transition>, n: nat, t: Transition)
    returns (j: nat)
    requires CollisionFree(env) && RemembersSequences(env, seen, at, ts, n) && t.sequence in seen
    ensures j < n <= |ts| && ts[j].sequence == t.sequence &&
      (ts[j] == t <==> seen[t.sequence] == env.transitionDigest(t))
  {
    j := at[t.sequence];
    DigestsTell(env, ts[j], t);
  }

  lemma IDAgain(env: Env, seen: map<nat, string>, at: map<nat, nat>, ts: seq<Transition>, n: nat)
    requires RemembersIDs(env, seen, at, ts, n) && n < |ts| && ts[n].transitionID in seen
    ensures RemembersIDs(env, seen, at, ts, n + 1)
  {
  }

  lemma SequenceAgain(env: Env, seen: map<nat, string>, at: map<nat, nat>, ts: seq<Transition>, n: nat)
    requires RemembersSequences(env, seen, at, ts, n) && n < |ts| && ts[n].sequence in seen
    ensures RemembersSequences(env, seen, at, ts, n + 1)
  {
  }

  lemma SeenAgain(env: Env, byID: map<nat, string>, idAt: map<nat, nat>, bySequence: map<nat, string>,
      sequenceAt: map<nat, nat>, ts: seq<Transition>, j: nat, n: nat)
    requires RemembersIDs(env, byID, idAt, ts, n) && RemembersSequences(env, bySequence, sequenceAt, ts, n)
    requires j < n < |ts| && ts[j] == ts[n]
    ensures RemembersIDs(env, byID, idAt, ts, n + 1) && RemembersSequences(env, bySequence, sequenceAt, ts, n + 1)
  {
    hide RemembersIDs, RemembersSequences;
    assert ts[j].transitionID in byID by { IDKnown(env, byID, idAt, ts, n, j); }
    assert ts[j].sequence in bySequence by { SequenceKnown(env, bySequence, sequenceAt, ts, n, j); }
    IDAgain(env, byID, idAt, ts, n);
    SequenceAgain(env, bySequence, sequenceAt, ts, n);
  }

  lemma IDKnown(env: Env, seen: map<nat, string>, at: map<nat, nat>, ts: seq<Transition>, n: nat, j: nat)
    requires RemembersIDs(env, seen, at, ts, n) && j < n
    ensures n <= |ts| && ts[j].transitionID in seen
  {
  }

  lemma SequenceKnown(env: Env, seen: map<nat, string>, at: map<nat, nat>, ts: seq<Transition>, n: nat, j: nat)
    requires RemembersSequences(env, seen, at, ts, n) && j < n
    ensures n <= |ts| && ts[j].sequence in seen
  {
  }

  lemma IDFirst(env: Env, seen: map<nat, string>, at: map<nat, nat>, ts: seq<Transition>, n: nat)
    requires RemembersIDs(env, seen, at, ts, n) && n < |ts| && ts[n].transitionID !in seen
    ensures RemembersIDs(env, seen[ts[n].transitionID := env.transitionDigest(ts[n])], at[ts[n].transitionID := n], ts,
      n + 1)
  {
  }

  lemma SequenceFirst(env: Env, seen: map<nat, string>, at: map<nat, nat>, ts: seq<Transition>, n: nat)
    requires RemembersSequences(env, seen, at, ts, n) && n < |ts| && ts[n].sequence !in seen
    ensures RemembersSequences(env, seen[ts[n].sequence := env.transitionDigest(ts[n])], at[ts[n].sequence := n], ts,
      n + 1)
  {
  }

  lemma SeenFirst(env: Env, c: Terms, byID: map<nat, string>, idAt: map<nat, nat>, bySequence: map<nat, string>,
      sequenceAt: map<nat, nat>, ts: seq<Transition>, n: nat)
    requires RemembersIDs(env, byID, idAt, ts, n) && RemembersSequences(env, bySequence, sequenceAt, ts, n)
    requires n < |ts| && ts[n].transitionID !in byID && ts[n].sequence !in bySequence
    requires InputSound(env, c, ts[..n]) && Ours(env, c, ts[n]) && (n > 0 ==> ts[n - 1].sequence <= ts[n].sequence)
    ensures InputSound(env, c, ts[..n + 1]) && Compress(ts[..n + 1]) == Compress(ts[..n]) + [ts[n]]
  {
    hide RemembersIDs, RemembersSequences, InputSound, Compress;
    forall j | 0 <= j < n ensures ts[j].transitionID != ts[n].transitionID && ts[j].sequence != ts[n].sequence {
      IDKnown(env, byID, idAt, ts, n, j);
      SequenceKnown(env, bySequence, sequenceAt, ts, n, j);
    }
    NewTransition(env, c, ts, n);
  }

  lemma NothingYet(env: Env, c: Terms, ts: seq<Transition>)
    ensures InputSound(env, c, ts[..0]) && Compress(ts[..0]) == []
    ensures RemembersIDs(env, map[], map[], ts, 0) && RemembersSequences(env, map[], map[], ts, 0)
  {
  }

  lemma NotOurs(env: Env, c: Terms, ts: seq<Transition>, n: nat)
    requires n < |ts| && (!Ours(env, c, ts[n]) || (n > 0 && ts[n].sequence < ts[n - 1].sequence))
    ensures !InputSound(env, c, ts)
  {
  }

  lemma Repeated(env: Env, c: Terms, ts: seq<Transition>, j: nat, n: nat)
    requires j < n < |ts| && InputSound(env, c, ts[..n]) && ts[j] == ts[n] && ts[n - 1].sequence <= ts[n].sequence
    ensures InputSound(env, c, ts[..n + 1]) && Compress(ts[..n + 1]) == Compress(ts[..n])
  {
    hide Compress;
    RepeatsAreAdjacent(ts, j, n);
    CompressStep(ts, n);
    var front := ts[..n];
    assert Ours(env, c, front[n - 1]);
    forall k | 0 <= k < n && (ts[k].transitionID == ts[n].transitionID || ts[k].sequence == ts[n].sequence)
      ensures ts[k] == ts[n]
    {
      if k < n - 1 { assert front[k] == front[n - 1]; }
    }
    InputGrows(env, c, ts, n);
  }

  lemma NewTransition(env: Env, c: Terms, ts: seq<Transition>, n: nat)
    requires n < |ts| && InputSound(env, c, ts[..n]) && Ours(env, c, ts[n]) &&
      (n > 0 ==> ts[n - 1].sequence <= ts[n].sequence)
    requires forall j :: 0 <= j < n ==> ts[j].transitionID != ts[n].transitionID && ts[j].sequence != ts[n].sequence
    ensures InputSound(env, c, ts[..n + 1]) && Compress(ts[..n + 1]) == Compress(ts[..n]) + [ts[n]]
  {
    hide Compress, InputSound;
    CompressStep(ts, n);
    InputGrows(env, c, ts, n);
  }

  /** Keeps the first of every run of repeats and refuses anything else that is alike. */
  method DedupeTransitions(env: Env, c: Terms, ts: seq<Transition>) returns (r: Option<(seq<Transition>, nat)>)
    requires CollisionFree(env)
    ensures r.Some? <==> InputSound(env, c, ts)
    ensures r.Some? ==> r.value.0 == Compress(ts) && r.value.1 == |ts| - |Compress(ts)|
  {
    hide InputSound, CollisionFree, Compress, RemembersIDs, RemembersSequences;
    var unique: seq<Transition>, duplicates := [], 0;
    var byID: map<nat, string>, bySequence: map<nat, string> := map[], map[];
    ghost var idAt: map<nat, nat>, sequenceAt: map<nat, nat> := map[], map[];
    var previous, i := 0, 0;
    NothingYet(env, c, ts);
    while i < |ts|
      invariant 0 <= i <= |ts| && InputSound(env, c, ts[..i])
      invariant unique == Compress(ts[..i]) && duplicates == i - |unique|
      invariant RemembersIDs(env, byID, idAt, ts, i) && RemembersSequences(env, bySequence, sequenceAt, ts, i)
      invariant previous == if i == 0 then 0 else ts[i - 1].sequence
    {
      var t := ts[i];
      if t.sequence < previous || !env.transitionValid(t) {
        NotOurs(env, c, ts, i);
        return None;
      }
      var digest := env.transitionDigest(t);
      if t.transitionID in byID {
        ghost var j := IDSeen(env, byID, idAt, ts, i, t);
        if byID[t.transitionID] != digest {
          InputBroken(env, c, ts, j, i);
          return None;
        }
        Repeated(env, c, ts, j, i);
        SeenAgain(env, byID, idAt, bySequence, sequenceAt, ts, j, i);
        duplicates := duplicates + 1;
      } else if t.sequence in bySequence {
        ghost var j := SequenceSeen(env, bySequence, sequenceAt, ts, i, t);
        if bySequence[t.sequence] != digest {
          InputBroken(env, c, ts, j, i);
          return None;
        }
        Repeated(env, c, ts, j, i);
        SeenAgain(env, byID, idAt, bySequence, sequenceAt, ts, j, i);
        duplicates := duplicates + 1;
      } else {
        if t.poolID != c.poolID || t.signerID != c.authorityID || t.fingerprint != c.fingerprint {
          NotOurs(env, c, ts, i);
          return None;
        }
        SeenFirst(env, c, byID, idAt, bySequence, sequenceAt, ts, i);
        IDFirst(env, byID, idAt, ts, i);
        SequenceFirst(env, bySequence, sequenceAt, ts, i);
        idAt, sequenceAt := idAt[t.transitionID := i], sequenceAt[t.sequence := i];
        byID, bySequence := byID[t.transitionID := digest], bySequence[t.sequence := digest];
        unique := unique + [t];
      }
      previous, i := t.sequence, i + 1;
    }
    assert ts[..i] == ts;
    return Some((unique, duplicates));
  }
}
