/**
 The lease history of a worker assignment: renewal receipts listed in any order are sorted by revision and folded
 from the initial lease to the current one.
 */
module LeaseHistory {
  import opened Bytes

  const MAX_UINT64: nat := 0xFFFF_FFFF_FFFF_FFFF

  datatype Lease = Lease(id: string, revision: nat, issuedAt: int, expiresAt: int, maximumExpiresAt: int)

  datatype Receipt = Receipt(receiptID: nat, stage: string, leaseID: Option<string>, leaseRevision: Option<nat>,
    leaseExpiresAt: Option<int>, recordedAt: int, body: string)

  datatype Assignment = Assignment(sourceLocal: bool, initialLease: Option<Lease>, currentLease: Option<Lease>,
    receiptIDs: seq<nat>)

  /** Foreign checks: the shape of a lease ID, and whether a receipt belongs to the assignment, carries its initial
      cancellation fence and is signed by the expected signer. */
  datatype Env = Env(leaseIDValid: string -> bool, receiptSound: (Assignment, Receipt) -> bool)

  predicate LeaseValid(env: Env, l: Lease) {
    env.leaseIDValid(l.id) && l.revision > 0 && 0 <= l.issuedAt < l.expiresAt <= l.maximumExpiresAt
  }

  /** The renewal directly follows, starts before its predecessor ends and ends later. */
  predicate Renews(env: Env, l: Lease, previous: Lease) {
    && LeaseValid(env, l) && LeaseValid(env, previous) && l.id == previous.id
    && l.maximumExpiresAt == previous.maximumExpiresAt
    && previous.revision != MAX_UINT64 && l.revision == previous.revision + 1
    && previous.issuedAt <= l.issuedAt <= previous.expiresAt < l.expiresAt
  }

  /** The lease a renewal receipt grants after `previous`, if it fits. */
  function Renewed(env: Env, a: Assignment, r: Receipt, previous: Lease): Option<Lease> {
    if !env.receiptSound(a, r) || r.leaseID != Some(previous.id) || r.leaseRevision.None? || r.leaseExpiresAt.None?
       || r.recordedAt > previous.expiresAt then None
    else
      var l := Lease(previous.id, r.leaseRevision.value, r.recordedAt, r.leaseExpiresAt.value,
        previous.maximumExpiresAt);
      if Renews(env, l, previous) then Some(l) else None
  }

  /** The leases one list of renewals leads through, starting with the given one; none if some renewal does not fit. */
  function Chain(env: Env, a: Assignment, first: Lease, renewals: seq<Receipt>): (c: Option<seq<Lease>>)
    ensures c.Some? ==> |c.value| == |renewals| + 1 && c.value[0] == first
  {
    if renewals == [] then Some([first])
    else
      var front := Chain(env, a, first, renewals[..|renewals| - 1]);
      if front.None? then None
      else
        var next := Renewed(env, a, renewals[|renewals| - 1], front.value[|front.value| - 1]);
        if next.None? then None else Some(front.value + [next.value])
  }

  function RevisionOf(r: Receipt): nat {
    if r.leaseRevision.Some? then r.leaseRevision.value else 0
  }

  // ---- what a chain of leases is ----

  lemma {:induction false} ChainLinks(env: Env, a: Assignment, first: Lease, renewals: seq<Receipt>, i: nat)
    requires Chain(env, a, first, renewals).Some? && i < |renewals|
    ensures var c := Chain(env, a, first, renewals).value;
      Renews(env, c[i + 1], c[i]) && renewals[i].leaseRevision == Some(c[i + 1].revision)
    decreases |renewals|
  {
    hide Renews;
    if i + 1 < |renewals| { ChainLinks(env, a, first, renewals[..|renewals| - 1], i); }
  }

  /** The receipt grants this lease after the previous one: it is sound, names the same lease before that expires, and
      carries the new revision, expiry and time of issue. */
  ghost predicate Grants(env: Env, a: Assignment, r: Receipt, l: Lease, previous: Lease) {
    && env.receiptSound(a, r) && r.leaseID == Some(previous.id) && r.leaseRevision == Some(l.revision)
    && r.leaseExpiresAt == Some(l.expiresAt) && r.recordedAt == l.issuedAt && Renews(env, l, previous)
  }

  lemma RenewedExact(env: Env, a: Assignment, r: Receipt, l: Lease, previous: Lease)
    ensures Renewed(env, a, r, previous) == Some(l) <==> Grants(env, a, r, l, previous)
  {
  }

  /** Each receipt grants the next lease. */
  ghost predicate GrantedInTurn(env: Env, a: Assignment, renewals: seq<Receipt>, c: seq<Lease>) {
    |c| == |renewals| + 1 && forall i :: 0 <= i < |renewals| ==> GrantsAt(env, a, renewals, c, i)
  }

  ghost predicate GrantsAt(env: Env, a: Assignment, renewals: seq<Receipt>, c: seq<Lease>, i: nat)
    requires i < |renewals| && |c| == |renewals| + 1
  {
    Grants(env, a, renewals[i], c[i + 1], c[i])
  }

  lemma GrantedStep(env: Env, a: Assignment, renewals: seq<Receipt>, c: seq<Lease>)
    requires renewals != [] && |c| == |renewals| + 1
    ensures var n := |renewals| - 1; GrantedInTurn(env, a, renewals, c) <==>
      GrantedInTurn(env, a, renewals[..n], c[..n + 1]) && Grants(env, a, renewals[n], c[n + 1], c[n])
  {
    hide Grants;
    var n := |renewals| - 1;
    var front, less := renewals[..n], c[..n + 1];
    if GrantedInTurn(env, a, renewals, c) {
      assert GrantsAt(env, a, renewals, c, n);
      forall i | 0 <= i < n ensures GrantsAt(env, a, front, less, i) {
        assert GrantsAt(env, a, renewals, c, i);
      }
    }
    if GrantedInTurn(env, a, front, less) && Grants(env, a, renewals[n], c[n + 1], c[n]) {
      forall i | 0 <= i < |renewals| ensures GrantsAt(env, a, renewals, c, i) {
        assert i < n ==> GrantsAt(env, a, front, less, i);
      }
    }
  }

  /** The leases a list of renewals leads through are exactly those that start with the first and are granted one after
      the other. */
  lemma {:induction false} ChainExact(env: Env, a: Assignment, first: Lease, renewals: seq<Receipt>, c: seq<Lease>)
    ensures Chain(env, a, first, renewals) == Some(c) <==> GrantedInTurn(env, a, renewals, c) && c[0] == first
    decreases |renewals|
  {
    if renewals == [] {
      assert |c| == 1 && c[0] == first ==> c == [first];
    } else if |c| == |renewals| + 1 {
      hide Grants, Renewed, GrantedInTurn;
      var n := |renewals| - 1;
      ChainExact(env, a, first, renewals[..n], c[..n + 1]);
      GrantedStep(env, a, renewals, c);
      RenewedExact(env, a, renewals[n], c[n + 1], c[n]);
      assert c == c[..n + 1] + [c[n + 1]];
      if Chain(env, a, first, renewals) == Some(c) {
        assert Chain(env, a, first, renewals[..n]).value == c[..n + 1];
      }
    }
  }

  /** Revisions are consecutive from the first lease on, and expiries rise by at least one under the fixed maximum. */
  lemma {:induction false} ChainRises(env: Env, a: Assignment, first: Lease, renewals: seq<Receipt>, i: nat)
    requires Chain(env, a, first, renewals).Some? && i <= |renewals|
    ensures var c := Chain(env, a, first, renewals).value;
      && c[i].revision == first.revision + i && c[i].id == first.id && c[i].maximumExpiresAt == first.maximumExpiresAt
      && first.expiresAt + i <= c[i].expiresAt
      && (i > 0 ==> c[i - 1].expiresAt < c[i].expiresAt <= first.maximumExpiresAt)
    decreases i
  {
    hide Chain;
    if i > 0 {
      ChainRises(env, a, first, renewals, i - 1);
      ChainLinks(env, a, first, renewals, i - 1);
    }
  }

  /** There are never more renewals than the milliseconds between the first expiry and the maximum. */
  lemma RenewalsAreBounded(env: Env, a: Assignment, first: Lease, renewals: seq<Receipt>)
    requires Chain(env, a, first, renewals).Some? && first.expiresAt <= first.maximumExpiresAt
    ensures |renewals| <= first.maximumExpiresAt - first.expiresAt
  {
    hide Chain;
    ChainRises(env, a, first, renewals, |renewals|);
  }

  /** No instant between the first issue and the last expiry is without a lease. */
  lemma {:induction false} NoGap(env: Env, a: Assignment, first: Lease, renewals: seq<Receipt>, n: nat, instant: int)
    returns (k: nat)
    requires Chain(env, a, first, renewals).Some? && n <= |renewals|
    requires first.issuedAt <= instant < Chain(env, a, first, renewals).value[n].expiresAt
    ensures k <= n &&
      Chain(env, a, first, renewals).value[k].issuedAt <= instant < Chain(env, a, first, renewals).value[k].expiresAt
    decreases n
  {
    hide Chain;
    var c := Chain(env, a, first, renewals).value;
    if n == 0 || c[n].issuedAt <= instant {
      k := n;
    } else {
      ChainLinks(env, a, first, renewals, n - 1);
      k := NoGap(env, a, first, renewals, n - 1, instant);
    }
  }

  // ---- the order of listing does not matter ----

  ghost predicate Sorted(rs: seq<Receipt>) {
    forall i, j :: 0 <= i < j < |rs| ==> RevisionOf(rs[i]) <= RevisionOf(rs[j])
  }

  ghost predicate StrictlySorted(rs: seq<Receipt>) {
    forall i, j :: 0 <= i < j < |rs| ==> RevisionOf(rs[i]) < RevisionOf(rs[j])
  }

  lemma ChainIsSorted(env: Env, a: Assignment, first: Lease, renewals: seq<Receipt>)
    requires Chain(env, a, first, renewals).Some?
    ensures StrictlySorted(renewals)
  {
    hide Chain;
    forall i, j | 0 <= i < j < |renewals| ensures RevisionOf(renewals[i]) < RevisionOf(renewals[j]) {
      ChainLinks(env, a, first, renewals, i);
      ChainLinks(env, a, first, renewals, j);
      ChainRises(env, a, first, renewals, i + 1);
      ChainRises(env, a, first, renewals, j + 1);
    }
  }

  lemma DropLast(s: seq<Receipt>)
    requires s != []
    ensures multiset(s[..|s| - 1]) == multiset(s) - multiset{s[|s| - 1]} && |multiset(s)| == |s|
  {
    assert s == s[..|s| - 1] + [s[|s| - 1]];
  }

  lemma FrontSorted(strict: seq<Receipt>, sorted: seq<Receipt>)
    requires StrictlySorted(strict) && Sorted(sorted) && |strict| == |sorted| > 0
    ensures StrictlySorted(strict[..|strict| - 1]) && Sorted(sorted[..|sorted| - 1])
  {
  }

  /** A strictly sorted list is the only sorted arrangement of its elements. */
  lemma {:induction false} SortedOnce(strict: seq<Receipt>, sorted: seq<Receipt>)
    requires StrictlySorted(strict) && Sorted(sorted) && multiset(strict) == multiset(sorted)
    ensures strict == sorted
    decreases |strict|
  {
    hide Sorted, StrictlySorted;
    assert |strict| == |sorted| by {
      assert |multiset(strict)| == |strict| && |multiset(sorted)| == |sorted|;
    }
    if strict != [] {
      LastAgree(strict, sorted);
      DropLast(strict);
      DropLast(sorted);
      FrontSorted(strict, sorted);
      var n := |strict| - 1;
      SortedOnce(strict[..n], sorted[..n]);
      assert strict == strict[..n] + [strict[n]] && sorted == sorted[..n] + [sorted[n]];
    }
  }

  lemma LastAgree(strict: seq<Receipt>, sorted: seq<Receipt>)
    requires StrictlySorted(strict) && Sorted(sorted) && multiset(strict) == multiset(sorted) &&
      |strict| == |sorted| > 0
    ensures strict[|strict| - 1] == sorted[|sorted| - 1]
  {
    hide RevisionOf;
    var n := |strict| - 1;
    assert strict[n] in multiset(strict) && sorted[n] in multiset(sorted);
    assert strict[n] in sorted && sorted[n] in strict;
    var i :| 0 <= i < |sorted| && sorted[i] == strict[n];
    var j :| 0 <= j < |strict| && strict[j] == sorted[n];
    assert RevisionOf(sorted[i]) <= RevisionOf(sorted[n]);
    assert j < n ==> RevisionOf(strict[j]) < RevisionOf(strict[n]);
  }

  /** Some order of the listed renewals leads from the initial lease to the current one. */
  ghost predicate HistorySound(env: Env, a: Assignment, renewals: seq<Receipt>) {
    a.initialLease.Some? && a.currentLease.Some? &&
    exists order: seq<Receipt> :: multiset(order) == multiset(renewals) && LeadsToCurrent(env, a, order)
  }

  ghost predicate LeadsToCurrent(env: Env, a: Assignment, order: seq<Receipt>)
    requires a.initialLease.Some? && a.currentLease.Some?
  {
    var c := Chain(env, a, a.initialLease.value, order);
    c.Some? && c.value[|order|] == a.currentLease.value
  }

  lemma SortedDecides(env: Env, a: Assignment, renewals: seq<Receipt>, sorted: seq<Receipt>)
    requires a.initialLease.Some? && a.currentLease.Some? && Sorted(sorted) && multiset(sorted) == multiset(renewals)
    ensures HistorySound(env, a, renewals) <==> LeadsToCurrent(env, a, sorted)
  {
    hide Chain, Sorted, StrictlySorted;
    if HistorySound(env, a, renewals) {
      var order :| multiset(order) == multiset(renewals) && LeadsToCurrent(env, a, order);
      ChainIsSorted(env, a, a.initialLease.value, order);
      SortedOnce(order, sorted);
    }
  }

  /** A further fitting renewal extends an accepted history by one lease. */
  lemma RenewalExtends(env: Env, a: Assignment, renewals: seq<Receipt>, r: Receipt, b: Assignment)
    requires HistorySound(env, a, renewals) && b == a.(currentLease := b.currentLease, receiptIDs := b.receiptIDs)
    requires forall q :: env.receiptSound(b, q) <==> env.receiptSound(a, q)
    requires b.currentLease.Some? && Renewed(env, a, r, a.currentLease.value) == b.currentLease
    ensures HistorySound(env, b, renewals + [r])
  {
    hide Chain, Renewed;
    var order :| multiset(order) == multiset(renewals) && LeadsToCurrent(env, a, order);
    var longer := order + [r];
    assert longer[..|order|] == order && longer[..|longer|] == longer;
    SameChain(env, a, b, a.initialLease.value, longer);
    ChainStep(env, a, a.initialLease.value, longer, |order|);
    assert LeadsToCurrent(env, b, longer);
  }

  lemma {:induction false} SameChain(env: Env, a: Assignment, b: Assignment, first: Lease, renewals: seq<Receipt>)
    requires forall q :: env.receiptSound(b, q) <==> env.receiptSound(a, q)
    ensures Chain(env, a, first, renewals) == Chain(env, b, first, renewals)
    decreases |renewals|
  {
    if renewals != [] { SameChain(env, a, b, first, renewals[..|renewals| - 1]); }
  }

  // ---- the validator ----

  /** The renewal receipts among those the assignment lists, in listing order. */
  function Listed(index: map<nat, Receipt>, ids: seq<nat>): seq<Receipt> {
    if ids == [] then []
    else
      var last := ids[|ids| - 1];
      Listed(index, ids[..|ids| - 1]) +
      (if last in index && index[last].stage == "leaseRenewed" then [index[last]] else [])
  }

  /** At this place the assignment lists this receipt, and it is a renewal. */
  predicate RenewalAt(index: map<nat, Receipt>, ids: seq<nat>, i: nat, r: Receipt) {
    i < |ids| && ids[i] in index && index[ids[i]] == r && r.stage == "leaseRenewed"
  }

  ghost function Places(index: map<nat, Receipt>, ids: seq<nat>, r: Receipt): set<nat> {
    set i: nat | i < |ids| && RenewalAt(index, ids, i, r)
  }

  lemma PlacesStep(index: map<nat, Receipt>, ids: seq<nat>, r: Receipt)
    requires ids != []
    ensures var n := |ids| - 1;
      |Places(index, ids, r)| == |Places(index, ids[..n], r)| + if RenewalAt(index, ids, n, r) then 1 else 0
  {
    var n := |ids| - 1;
    assert Places(index, ids, r) == Places(index, ids[..n], r) + if RenewalAt(index, ids, n, r) then {n} else {};
  }

  lemma ListedStep(index: map<nat, Receipt>, ids: seq<nat>, r: Receipt)
    requires ids != []
    ensures var n := |ids| - 1;
      multiset(Listed(index, ids))[r] ==
      multiset(Listed(index, ids[..n]))[r] + if RenewalAt(index, ids, n, r) then 1 else 0
  {
    var n := |ids| - 1;
    var front := Listed(index, ids[..n]);
    if ids[n] in index && index[ids[n]].stage == "leaseRenewed" {
      assert Listed(index, ids) == front + [index[ids[n]]];
    } else {
      assert Listed(index, ids) == front;
    }
  }

  /** A receipt is collected as often as the assignment lists it as a renewal. */
  lemma {:induction false} ListedExact(index: map<nat, Receipt>, ids: seq<nat>, r: Receipt)
    ensures multiset(Listed(index, ids))[r] == |Places(index, ids, r)|
    decreases |ids|
  {
    if ids == [] {
      assert Places(index, ids, r) == {};
    } else {
      hide Listed, Places, RenewalAt;
      ListedExact(index, ids[..|ids| - 1], r);
      PlacesStep(index, ids, r);
      ListedStep(index, ids, r);
    }
  }

  method CollectRenewals(index: map<nat, Receipt>, ids: seq<nat>) returns (renewals: seq<Receipt>)
    ensures renewals == Listed(index, ids)
  {
    renewals := [];
    for i := 0 to |ids|
      invariant renewals == Listed(index, ids[..i])
    {
      assert ids[..i + 1][..i] == ids[..i];
      if ids[i] in index && index[ids[i]].stage == "leaseRenewed" {
        renewals := renewals + [index[ids[i]]];
      }
    }
    assert ids[..|ids|] == ids;
  }

  /** Some arrangement by revision; receipts of equal revision may come in any order. */
  method SortByRevision(rs: seq<Receipt>) returns (sorted: seq<Receipt>)
    ensures Sorted(sorted) && multiset(sorted) == multiset(rs)
  {
    sorted := [];
    for i := 0 to |rs|
      invariant Sorted(sorted) && multiset(sorted) == multiset(rs[..i])
    {
      var k := |sorted|;
      while k > 0 && RevisionOf(rs[i]) < RevisionOf(sorted[k - 1])
        invariant 0 <= k <= |sorted|
        invariant forall j :: k <= j < |sorted| ==> RevisionOf(rs[i]) < RevisionOf(sorted[j])
      {
        k := k - 1;
      }
      assert rs[..i + 1] == rs[..i] + [rs[i]];
      InsertKeeps(sorted, k, rs[i]);
      sorted := Inserted(sorted, k, rs[i]);
    }
    assert rs[..|rs|] == rs;
  }

  function Inserted(sorted: seq<Receipt>, k: nat, r: Receipt): (all: seq<Receipt>)
    requires k <= |sorted|
    ensures |all| == |sorted| + 1
  {
    sorted[..k] + [r] + sorted[k..]
  }

  lemma InsertedAt(sorted: seq<Receipt>, k: nat, r: Receipt, i: nat)
    requires k <= |sorted| && i <= |sorted|
    ensures Inserted(sorted, k, r)[i] == if i < k then sorted[i] else if i == k then r else sorted[i - 1]
  {
  }

  lemma SortedAt(sorted: seq<Receipt>, i: nat, j: nat)
    requires Sorted(sorted) && i <= j < |sorted|
    ensures RevisionOf(sorted[i]) <= RevisionOf(sorted[j])
  {
  }

  lemma InsertPair(sorted: seq<Receipt>, k: nat, r: Receipt, i: nat, j: nat)
    requires Sorted(sorted) && k <= |sorted| && i < j <= |sorted| &&
      (k > 0 ==> RevisionOf(sorted[k - 1]) <= RevisionOf(r))
    requires k < |sorted| ==> RevisionOf(r) < RevisionOf(sorted[k])
    ensures RevisionOf(Inserted(sorted, k, r)[i]) <= RevisionOf(Inserted(sorted, k, r)[j])
  {
    hide Sorted, Inserted, RevisionOf;
    InsertedAt(sorted, k, r, i);
    InsertedAt(sorted, k, r, j);
    if j < k {
      SortedAt(sorted, i, j);
    } else if j == k {
      SortedAt(sorted, i, k - 1);
    } else if i < k {
      SortedAt(sorted, i, j - 1);
    } else {
      SortedAt(sorted, if i == k then k else i - 1, j - 1);
    }
  }

  lemma InsertKeeps(sorted: seq<Receipt>, k: nat, r: Receipt)
    requires Sorted(sorted) && k <= |sorted| && (k > 0 ==> RevisionOf(sorted[k - 1]) <= RevisionOf(r))
    requires forall j :: k <= j < |sorted| ==> RevisionOf(r) < RevisionOf(sorted[j])
    ensures Sorted(Inserted(sorted, k, r)) && multiset(Inserted(sorted, k, r)) == multiset(sorted) + multiset{r}
  {
    hide RevisionOf;
    forall i, j | 0 <= i < j < |Inserted(sorted, k, r)|
      ensures RevisionOf(Inserted(sorted, k, r)[i]) <= RevisionOf(Inserted(sorted, k, r)[j])
    {
      InsertPair(sorted, k, r, i, j);
    }
    InsertCounts(sorted, k, r);
  }

  lemma InsertCounts(sorted: seq<Receipt>, k: nat, r: Receipt)
    requires k <= |sorted|
    ensures multiset(Inserted(sorted, k, r)) == multiset(sorted) + multiset{r}
  {
    assert sorted == sorted[..k] + sorted[k..];
  }

  /** The history holds exactly the leases of the chain, each under its revision. */
  ghost predicate FilesChain(history: map<nat, Lease>, c: seq<Lease>) {
    && c != [] && (forall k :: k in history <==> c[0].revision <= k < c[0].revision + |c|)
    && (forall i :: 0 <= i < |c| ==> history[c[0].revision + i] == c[i])
  }

  lemma ChainFiled(history: map<nat, Lease>, c: seq<Lease>, next: Lease)
    requires FilesChain(history, c) && next.revision == c[0].revision + |c|
    ensures next.revision !in history && FilesChain(history[next.revision := next], c + [next])
  {
  }

  /** Folds renewals in the given order, filing each lease under its revision. */
  method FoldRenewals(env: Env, a: Assignment, first: Lease, renewals: seq<Receipt>)
    returns (r: Option<(Lease, map<nat, Lease>)>)
    ensures r.Some? <==> Chain(env, a, first, renewals).Some?
    ensures r.Some? ==> r.value.0 == Chain(env, a, first, renewals).value[|renewals|]
    ensures r.Some? ==> FilesChain(r.value.1, Chain(env, a, first, renewals).value)
  {
    hide Chain, Renewed, FilesChain;
    var entries: map<nat, Lease>, previous := map[first.revision := first], first;
    NoRenewals(env, a, first, renewals);
    for i := 0 to |renewals|
      invariant Chain(env, a, first, renewals[..i]).Some? && Chain(env, a, first, renewals[..i]).value[i] == previous
      invariant previous.revision == first.revision + i
      invariant FilesChain(entries, Chain(env, a, first, renewals[..i]).value)
    {
      ChainStep(env, a, first, renewals, i);
      var next := Renewed(env, a, renewals[i], previous);
      if next.Some? {
        ChainFiled(entries, Chain(env, a, first, renewals[..i]).value, next.value);
      }
      if next.None? || next.value.revision in entries {
        Stuck(env, a, first, renewals, i + 1);
        return None;
      }
      entries := entries[next.value.revision := next.value];
      previous := next.value;
    }
    assert renewals[..|renewals|] == renewals;
    return Some((previous, entries));
  }

  /** Accepts exactly the assignments whose listed renewals, in some order, lead from the initial lease to the current
      one, and then files exactly the leases that order leads through; for a source-local executor there must be no
      leases at all. */
  method ValidatedLeaseHistory(env: Env, a: Assignment, index: map<nat, Receipt>)
    returns (history: Option<map<nat, Lease>>)
    ensures a.sourceLocal ==>
      (history.Some? <==> a.initialLease.None? && a.currentLease.None?) && (history.Some? ==> history.value == map[])
    ensures !a.sourceLocal ==> (history.Some? <==> HistorySound(env, a, Listed(index, a.receiptIDs)))
    ensures !a.sourceLocal && history.Some? ==>
      forall order :: multiset(order) == multiset(Listed(index, a.receiptIDs)) && LeadsToCurrent(env, a, order) ==>
        FilesChain(history.value, Chain(env, a, a.initialLease.value, order).value)
  {
    if a.sourceLocal {
      return if a.initialLease.Some? || a.currentLease.Some? then None else Some(map[]);
    }
    if a.initialLease.None? || a.currentLease.None? {
      return None;
    }
    hide Chain, HistorySound, Listed, Sorted, FilesChain;
    var listed := CollectRenewals(index, a.receiptIDs);
    var renewals := SortByRevision(listed);
    SortedDecides(env, a, listed, renewals);
    var folded := FoldRenewals(env, a, a.initialLease.value, renewals);
    if folded.None? || folded.value.0 != a.currentLease.value {
      return None;
    }
    forall order | multiset(order) == multiset(listed) && LeadsToCurrent(env, a, order)
      ensures FilesChain(folded.value.1, Chain(env, a, a.initialLease.value, order).value)
    {
      ChainIsSorted(env, a, a.initialLease.value, order);
      SortedOnce(order, renewals);
    }
    return Some(folded.value.1);
  }

  /** What the filed history says: revisions run from the initial to the current lease, each lease ends later than the one
      before under the fixed maximum, and every instant in between is covered by one of them. */
  lemma FiledLeases(env: Env, a: Assignment, history: map<nat, Lease>, order: seq<Receipt>, k: nat, instant: int)
    requires a.initialLease.Some? && a.currentLease.Some? && LeadsToCurrent(env, a, order)
    requires FilesChain(history, Chain(env, a, a.initialLease.value, order).value)
    ensures k in history <==> a.initialLease.value.revision <= k <= a.currentLease.value.revision
    ensures k in history ==> history[k].revision == k && history[k].id == a.initialLease.value.id
    ensures k in history && k + 1 in history ==>
      history[k].expiresAt < history[k + 1].expiresAt <= a.initialLease.value.maximumExpiresAt
    ensures k in history && k + 1 in history ==>
      exists r :: r in order && Grants(env, a, r, history[k + 1], history[k])
    ensures a.initialLease.value.issuedAt <= instant < a.currentLease.value.expiresAt ==>
      exists l :: l in history && history[l].issuedAt <= instant < history[l].expiresAt
  {
    hide Chain;
    var first, n := a.initialLease.value, |order|;
    var c := Chain(env, a, first, order).value;
    ChainRises(env, a, first, order, n);
    if k in history {
      ChainRises(env, a, first, order, k - first.revision);
      assert history[k] == c[k - first.revision];
    }
    if k in history && k + 1 in history {
      ChainRises(env, a, first, order, k + 1 - first.revision);
      assert history[k + 1] == c[k + 1 - first.revision];
      ChainExact(env, a, first, order, c);
      var r := order[k - first.revision];
      assert GrantsAt(env, a, order, c, k - first.revision);
      assert r in order && Grants(env, a, r, history[k + 1], history[k]);
    }
    if first.issuedAt <= instant < a.currentLease.value.expiresAt {
      var i := NoGap(env, a, first, order, n, instant);
      assert history[first.revision + i] == c[i];
    }
  }

  lemma NoRenewals(env: Env, a: Assignment, first: Lease, renewals: seq<Receipt>)
    ensures Chain(env, a, first, renewals[..0]) == Some([first]) && FilesChain(map[first.revision := first], [first])
  {
  }

  lemma ChainStep(env: Env, a: Assignment, first: Lease, renewals: seq<Receipt>, i: nat)
    requires i < |renewals| && Chain(env, a, first, renewals[..i]).Some?
    ensures var c := Chain(env, a, first, renewals[..i]).value; var next := Renewed(env, a, renewals[i], c[i]);
      && Chain(env, a, first, renewals[..i + 1]) == (if next.None? then None else Some(c + [next.value]))
      && (next.Some? ==> next.value.revision == c[i].revision + 1)
  {
    assert renewals[..i + 1][..i] == renewals[..i];
  }

  lemma {:induction false} Stuck(env: Env, a: Assignment, first: Lease, renewals: seq<Receipt>, i: nat)
    requires i <= |renewals| && Chain(env, a, first, renewals[..i]).None?
    ensures Chain(env, a, first, renewals).None?
    decreases |renewals| - i
  {
    if i == |renewals| {
      assert renewals[..i] == renewals;
    } else {
      assert renewals[..i + 1][..i] == renewals[..i];
      Stuck(env, a, first, renewals, i + 1);
    }
  }
}
