/**
 Reading a target's generations back in pages pinned to one head: what a valid page and a valid response are, and
 that following the pages reads the whole chain.
 */
module GenerationPages {
  import opened Bytes

  const VERSION := 1
  const MAXIMUM_PAGE_COUNT := 32
  const MAX_UINT64: nat := 0xFFFF_FFFF_FFFF_FFFF

  type Counter = n: nat | n <= MAX_UINT64

  datatype Record = Record(accountID: nat, targetID: nat, backupSetID: nat, generation: Counter, uploadID: nat,
    outerDigest: string, outerByteCount: nat, predecessorReference: Option<string>)

  /** The verified content of a custody receipt. */
  datatype Payload = Payload(committedKind: bool, record: Record)

  datatype Item = Item(receipt: seq<byte>, reference: string)

  datatype Page = Page(afterGeneration: Counter, afterReference: Option<string>, items: seq<Item>, requestID: nat,
    headReceipt: seq<byte>, headReference: string, version: int)

  datatype Request = Request(afterGeneration: Counter, afterReference: Option<string>, accountID: nat, targetID: nat,
    backupSetID: nat, admitted: bool, pageCount: int, requestID: nat, snapshotHead: Option<string>, version: int)

  /** Foreign parts: receipt verification, the reference digest of a valid record, the shape of a digest. */
  datatype Env = Env(verified: seq<byte> -> Option<Payload>, reference: Record -> Option<string>,
    hexShape: string -> bool)

  ghost predicate CollisionFree(env: Env) {
    forall a, b :: env.reference(a).Some? && env.reference(a) == env.reference(b) ==> a == b
  }

  // ---- pages ----

  predicate ItemValid(env: Env, item: Item) {
    var p := env.verified(item.receipt);
    p.Some? && p.value.committedKind && env.hexShape(item.reference) &&
    env.reference(p.value.record) == Some(item.reference)
  }

  function RecordOf(env: Env, item: Item): Record
    requires env.verified(item.receipt).Some?
  {
    env.verified(item.receipt).value.record
  }

  predicate ItemOfTarget(env: Env, item: Item, head: Record) {
    env.verified(item.receipt).Some? && SameTarget(RecordOf(env, item), head)
  }

  predicate SameTarget(a: Record, b: Record) {
    a.accountID == b.accountID && a.targetID == b.targetID && a.backupSetID == b.backupSetID
  }

  /** The item is the generation right after the one before it in the list, or after the start of the list. */
  ghost predicate ItemContinues(env: Env, items: seq<Item>, i: nat, start: nat, after: Option<string>)
    requires i < |items|
  {
    && ItemValid(env, items[i])
    && RecordOf(env, items[i]).generation == start + i + 1
    && RecordOf(env, items[i]).predecessorReference == (if i == 0 then after else Some(items[i - 1].reference))
  }

  /** The items continue the chain, one generation after the other, from the generation with reference `after`. */
  ghost predicate Continues(env: Env, items: seq<Item>, start: nat, after: Option<string>) {
    forall i :: 0 <= i < |items| ==> ItemContinues(env, items, i, start, after)
  }

  predicate FrameValid(env: Env, page: Page) {
    var head := env.verified(page.headReceipt);
    && head.Some? && env.reference(head.value.record) == Some(page.headReference) && page.version == VERSION
    && page.requestID != 0 && head.value.committedKind && env.hexShape(page.headReference)
    && 1 <= |page.items| <= MAXIMUM_PAGE_COUNT && page.afterGeneration < head.value.record.generation
    && (page.afterGeneration == 0 <==> page.afterReference.None?)
    && (page.afterReference.Some? ==> env.hexShape(page.afterReference.value))
  }

  /** A page is a stretch of its head's chain that ends in the head itself if it reaches the head's number. */
  ghost predicate PageSound(env: Env, page: Page) {
    && FrameValid(env, page)
    && var head := env.verified(page.headReceipt).value.record;
    && Continues(env, page.items, page.afterGeneration, page.afterReference)
    && (forall i :: 0 <= i < |page.items| ==> ItemOfTarget(env, page.items[i], head))
    && page.afterGeneration + |page.items| <= head.generation
    && (page.afterGeneration + |page.items| == head.generation ==>
         page.items[|page.items| - 1].reference == page.headReference)
  }

  /** Accepts exactly the sound pages. */
  method ValidatePage(env: Env, page: Page) returns (ok: bool)
    ensures ok <==> PageSound(env, page)
  {
    if !FrameValid(env, page) {
      return false;
    }
    var head := env.verified(page.headReceipt).value.record;
    var previous, previousReference := page.afterGeneration, page.afterReference;
    var i := 0;
    while i < |page.items|
      invariant 0 <= i <= |page.items| && previous == page.afterGeneration + i <= head.generation
      invariant previousReference == if i == 0 then page.afterReference else Some(page.items[i - 1].reference)
      invariant forall j :: 0 <= j < i ==> ItemContinues(env, page.items, j, page.afterGeneration, page.afterReference)
      invariant forall j :: 0 <= j < i ==> ItemOfTarget(env, page.items[j], head)
    {
      hide FrameValid;
      var item := page.items[i];
      if !ItemValid(env, item) || previous == MAX_UINT64 {
        assert !ItemContinues(env, page.items, i, page.afterGeneration, page.afterReference);
        return false;
      }
      var record := RecordOf(env, item);
      if !SameTarget(record, head) || record.generation != previous + 1 ||
         record.predecessorReference != previousReference
         || record.generation > head.generation {
        assert !ItemOfTarget(env, page.items[i], head) ||
          !ItemContinues(env, page.items, i, page.afterGeneration, page.afterReference)
            || page.afterGeneration + |page.items| > head.generation;
        return false;
      }
      previous, previousReference := record.generation, Some(item.reference);
      i := i + 1;
    }
    return previous != head.generation || previousReference == Some(page.headReference);
  }

  // ---- responses ----

  predicate RequestValid(env: Env, r: Request) {
    && r.version == VERSION && r.requestID != 0 && r.admitted
    && (r.afterGeneration == 0 <==> r.snapshotHead.None?) && (r.afterGeneration == 0 <==> r.afterReference.None?)
    && (r.afterReference.Some? ==> env.hexShape(r.afterReference.value))
    && (r.snapshotHead.Some? ==> env.hexShape(r.snapshotHead.value))
    && 0 < r.pageCount <= MAXIMUM_PAGE_COUNT
  }

  /** The page answers this very request, keeps the pinned head and is full unless it reaches it. */
  ghost predicate Answers(env: Env, page: Page, r: Request) {
    && PageSound(env, page) && RequestValid(env, r) && page.requestID == r.requestID
    && page.afterGeneration == r.afterGeneration && page.afterReference == r.afterReference
    && (r.snapshotHead.Some? ==> r.snapshotHead.value == page.headReference)
    && var head := env.verified(page.headReceipt).value.record;
    && head.accountID == r.accountID && head.targetID == r.targetID && head.backupSetID == r.backupSetID
    && (|page.items| == r.pageCount ||
        (|page.items| < r.pageCount && page.afterGeneration + |page.items| == head.generation))
  }

  /** Accepts exactly the answers. */
  method ValidateResponse(env: Env, page: Page, r: Request) returns (ok: bool)
    ensures ok <==> Answers(env, page, r)
  {
    var sound := ValidatePage(env, page);
    if !sound || !RequestValid(env, r) || page.requestID != r.requestID || page.afterGeneration != r.afterGeneration
       || page.afterReference != r.afterReference
       || (r.snapshotHead.Some? && r.snapshotHead.value != page.headReference) {
      return false;
    }
    var head := env.verified(page.headReceipt).value.record;
    if head.accountID != r.accountID || head.targetID != r.targetID || head.backupSetID != r.backupSetID {
      return false;
    }
    var remaining := head.generation - r.afterGeneration;
    var expectedCount := if r.pageCount > remaining then remaining else r.pageCount;
    return |page.items| == expectedCount;
  }

  // ---- following the pages ----

  datatype Exchange = Exchange(request: Request, page: Page)

  function Collected(log: seq<Exchange>): seq<Item> {
    if log == [] then [] else Collected(log[..|log| - 1]) + log[|log| - 1].page.items
  }

  /** A client starts at zero and always continues after the last item it got, pinned to the first page's head. */
  ghost predicate Listing(env: Env, log: seq<Exchange>) {
    forall k :: 0 <= k < |log| ==> Answers(env, log[k].page, log[k].request) && Asks(log, k)
  }

  ghost predicate Asks(log: seq<Exchange>, k: nat)
    requires k < |log|
  {
    var r, got := log[k].request, Collected(log[..k]);
    && r.afterGeneration == |got| && r.afterReference == (if got == [] then None else Some(got[|got| - 1].reference))
    && r.snapshotHead == (if k == 0 then None else Some(log[0].page.headReference))
  }

  lemma ListingAt(env: Env, log: seq<Exchange>, k: nat)
    requires Listing(env, log) && k < |log|
    ensures Answers(env, log[k].page, log[k].request) && Asks(log, k)
  {
    hide Answers, Asks;
  }

  lemma CollectedStep(log: seq<Exchange>, k: nat)
    requires k < |log|
    ensures Collected(log[..k + 1]) == Collected(log[..k]) + log[k].page.items
  {
    assert log[..k + 1][..k] == log[..k];
  }

  lemma ContinuesOn(env: Env, xs: seq<Item>, ys: seq<Item>, start: nat, after: Option<string>)
    requires Continues(env, xs, start, after)
    requires Continues(env, ys, start + |xs|, if xs == [] then after else Some(xs[|xs| - 1].reference))
    ensures Continues(env, xs + ys, start, after)
  {
    hide ItemValid;
    var all := xs + ys;
    forall i | 0 <= i < |all| ensures ItemContinues(env, all, i, start, after) {
      if i < |xs| {
        assert ItemContinues(env, xs, i, start, after);
      } else {
        assert ItemContinues(env, ys, i - |xs|, start + |xs|, if xs == [] then after else Some(xs[|xs| - 1].reference));
        assert all[i] == ys[i - |xs|];
      }
    }
  }

  lemma AnswerContinues(env: Env, page: Page, r: Request)
    requires Answers(env, page, r)
    ensures Continues(env, page.items, r.afterGeneration, r.afterReference) && page.items != []
  {
    hide Continues;
  }

  lemma ChainStep(env: Env, log: seq<Exchange>, k: nat)
    requires k < |log| && Answers(env, log[k].page, log[k].request) && Asks(log, k)
    requires Continues(env, Collected(log[..k]), 0, None)
    ensures Continues(env, Collected(log[..k + 1]), 0, None)
  {
    hide Answers, Continues, Collected;
    CollectedStep(log, k);
    AnswerContinues(env, log[k].page, log[k].request);
    ContinuesOn(env, Collected(log[..k]), log[k].page.items, 0, None);
  }

  /** What a client has collected is always an unbroken chain from the first generation on. */
  lemma {:induction false} CollectedIsChain(env: Env, log: seq<Exchange>, k: nat)
    requires Listing(env, log) && k <= |log|
    ensures Continues(env, Collected(log[..k]), 0, None)
    decreases k
  {
    if k > 0 {
      hide Answers, Continues, Collected, Listing, Asks;
      CollectedIsChain(env, log, k - 1);
      ListingAt(env, log, k - 1);
      ChainStep(env, log, k - 1);
    }
  }

  /** The item's record is of the account, target and backup set the request names. */
  predicate ForRequest(env: Env, item: Item, r: Request) {
    && env.verified(item.receipt).Some?
    && var record := RecordOf(env, item);
    record.accountID == r.accountID && record.targetID == r.targetID && record.backupSetID == r.backupSetID
  }

  lemma AnswerIsForRequest(env: Env, page: Page, r: Request)
    requires Answers(env, page, r)
    ensures forall i :: 0 <= i < |page.items| ==> ForRequest(env, page.items[i], r)
  {
    hide Continues;
    forall i | 0 <= i < |page.items| ensures ForRequest(env, page.items[i], r) {
      assert ItemOfTarget(env, page.items[i], env.verified(page.headReceipt).value.record);
    }
  }

  /** One pinned head means one account, target and backup set: a later request for another is never answered. */
  lemma SameTargetAsked(env: Env, log: seq<Exchange>, k: nat)
    requires CollisionFree(env) && Listing(env, log) && k < |log|
    ensures log[k].request.accountID == log[0].request.accountID && log[k].request.targetID == log[0].request.targetID
    ensures log[k].request.backupSetID == log[0].request.backupSetID
  {
    hide Continues, Collected;
    assert Answers(env, log[k].page, log[k].request) && Answers(env, log[0].page, log[0].request);
    assert Asks(log, k);
  }

  lemma {:induction false} CollectedForRequest(env: Env, log: seq<Exchange>, k: nat)
    requires CollisionFree(env) && Listing(env, log) && 0 < |log| && k <= |log|
    ensures forall i :: 0 <= i < |Collected(log[..k])| ==> ForRequest(env, Collected(log[..k])[i], log[0].request)
    decreases k
  {
    if k > 0 {
      hide Answers, Collected, Listing, Asks, CollisionFree;
      CollectedForRequest(env, log, k - 1);
      ListingAt(env, log, k - 1);
      SameTargetAsked(env, log, k - 1);
      AnswerIsForRequest(env, log[k - 1].page, log[k - 1].request);
      CollectedStep(log, k - 1);
      var before, items := Collected(log[..k - 1]), log[k - 1].page.items;
      forall i | 0 <= i < |before + items| ensures ForRequest(env, (before + items)[i], log[0].request) {
        assert i >= |before| ==> ForRequest(env, items[i - |before|], log[k - 1].request);
      }
    } else {
      assert log[..0] == [];
    }
  }

  ghost predicate Finished(env: Env, log: seq<Exchange>) {
    && Listing(env, log) && log != []
    && var last := log[|log| - 1].page;
    last.afterGeneration + |last.items| == env.verified(last.headReceipt).value.record.generation
  }

  /** A finished listing holds exactly the generations from one to the head, chained, all of the account, target and backup
      set asked for, and ends in the pinned head. */
  lemma FinishedIsComplete(env: Env, log: seq<Exchange>)
    requires Finished(env, log)
    ensures Continues(env, Collected(log), 0, None) && Collected(log) != []
    ensures Collected(log)[|Collected(log)| - 1].reference == log[0].page.headReference
    ensures CollisionFree(env) ==> |Collected(log)| == env.verified(log[0].page.headReceipt).value.record.generation
    ensures CollisionFree(env) ==>
      forall i :: 0 <= i < |Collected(log)| ==> ForRequest(env, Collected(log)[i], log[0].request)
  {
    var n := |log|;
    assert log[..n] == log;
    CollectedIsChain(env, log, n);
    if CollisionFree(env) { CollectedForRequest(env, log, n); }
    hide ForRequest;
    hide Continues, ItemValid;
    assert Answers(env, log[n - 1].page, log[n - 1].request) && Answers(env, log[0].page, log[0].request);
    assert Asks(log, n - 1);
    CollectedStep(log, n - 1);
  }

  /** While the head is not reached, every page is full, so nothing is left out silently. */
  lemma UnfinishedPagesAreFull(env: Env, log: seq<Exchange>, k: nat)
    requires CollisionFree(env) && Listing(env, log) && k < |log|
    ensures |log[k].page.items| == log[k].request.pageCount
         || |Collected(log[..k + 1])| == env.verified(log[0].page.headReceipt).value.record.generation
  {
    hide Continues;
    assert Answers(env, log[k].page, log[k].request) && Answers(env, log[0].page, log[0].request);
    assert Asks(log, k);
    CollectedStep(log, k);
  }

  lemma {:induction false} SameTailSameChain(env: Env, xs: seq<Item>, ys: seq<Item>, n: nat, m: nat)
    requires CollisionFree(env) && Continues(env, xs, 0, None) && Continues(env, ys, 0, None)
    requires 0 < n <= |xs| && 0 < m <= |ys| && xs[n - 1].reference == ys[m - 1].reference
    ensures n == m
    ensures forall i :: 0 <= i < n ==>
      ItemValid(env, xs[i]) && ItemValid(env, ys[i]) && RecordOf(env, xs[i]) == RecordOf(env, ys[i])
    decreases n
  {
    assert ItemContinues(env, xs, n - 1, 0, None) && ItemContinues(env, ys, m - 1, 0, None);
    assert RecordOf(env, xs[n - 1]) == RecordOf(env, ys[m - 1]);
    if n > 1 {
      SameTailSameChain(env, xs, ys, n - 1, m - 1);
    }
  }

  /** Two readers with the same head reference get the same records. */
  lemma SameHeadSameRecords(env: Env, a: seq<Exchange>, b: seq<Exchange>)
    requires CollisionFree(env) && Finished(env, a) && Finished(env, b) &&
      a[0].page.headReference == b[0].page.headReference
    ensures |Collected(a)| == |Collected(b)|
    ensures forall i :: 0 <= i < |Collected(a)| ==>
      ItemValid(env, Collected(a)[i]) && ItemValid(env, Collected(b)[i]) &&
      RecordOf(env, Collected(a)[i]) == RecordOf(env, Collected(b)[i])
  {
    hide Finished, Collected;
    FinishedIsComplete(env, a);
    FinishedIsComplete(env, b);
    SameTailSameChain(env, Collected(a), Collected(b), |Collected(a)|, |Collected(b)|);
  }
}
