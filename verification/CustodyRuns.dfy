/**
 Whole runs of the custody coordinator: any sequence of calls, each of which may stop anywhere, and what every state
 reached on the way guarantees about generations, objects and receipts.
 */
module CustodyRuns {
  import opened Bytes
  import opened CustodyFiles
  import opened CustodyLedger
  import opened CustodySteps
  import opened CustodyLateAppends
  import opened CustodyCoordinator
  import OuterWire
  import OuterWireStream

  datatype Call = Begin(request: Request, newID: nat)
                | Append(id: nat, credential: nat, offset: nat, chunk: seq<byte>, digest: string)
                | Finalize(id: nat, credential: nat, receiptID: nat, now: int)

  /** No two rows carry receipts of one ID. */
  ghost predicate ReceiptsDistinct(rows: seq<Stored>) {
    forall i, j :: 0 <= i < j < |rows| ==> rows[i].receipt.receiptID != rows[j].receipt.receiptID
  }

  /** The calls from `n` on bring receipt IDs of their own: new to the rows and different from each other. */
  ghost predicate BringsNewIDs(rows: seq<Stored>, calls: seq<Call>, n: nat) {
    && (forall i, k :: 0 <= i < |rows| && n <= k < |calls| && calls[k].Finalize? ==>
          rows[i].receipt.receiptID != calls[k].receiptID)
    && (forall k, l :: n <= k < l < |calls| && calls[k].Finalize? && calls[l].Finalize? ==>
          calls[k].receiptID != calls[l].receiptID)
  }

  /** What a call may do to the rows: nothing, or add one with the receipt ID of a finalization. */
  ghost predicate AddsOwnRow(rows: seq<Stored>, more: seq<Stored>, c: Call) {
    || more == rows
    || (c.Finalize? && |more| == |rows| + 1 && rows <= more && more[|rows|].receipt.receiptID == c.receiptID)
  }

  lemma RowsStayDistinct(rows: seq<Stored>, more: seq<Stored>, calls: seq<Call>, n: nat)
    requires n < |calls| && AddsOwnRow(rows, more, calls[n])
    requires ReceiptsDistinct(rows) && BringsNewIDs(rows, calls, n)
    ensures ReceiptsDistinct(more) && BringsNewIDs(more, calls, n + 1)
  {
  }

  /** Serves calls one after the other, admitting or refusing each as the environment decides. */
  method Serve(c: Coordinator, calls: seq<Call>)
    requires c.Valid()
    modifies c, c.content
    ensures old(c.generations) <= c.generations && Remembers(old(c.history), c.history)
    ensures ReceiptsDistinct(old(c.generations)) && BringsNewIDs(old(c.generations), calls, 0) ==>
      ReceiptsDistinct(c.generations)
    ensures DoomStays(c.env, old(c.content.View()), old(c.Db()), old(c.history), c.content.View(), c.Db(), c.history)
    ensures c.Valid()
  {
    hide Inv, Doomed, ReceiptsDistinct, BringsNewIDs;
    for i := 0 to |calls|
      invariant old(c.generations) <= c.generations && Remembers(old(c.history), c.history)
      invariant ReceiptsDistinct(old(c.generations)) && BringsNewIDs(old(c.generations), calls, 0) ==>
        ReceiptsDistinct(c.generations) && BringsNewIDs(c.generations, calls, i)
      invariant DoomStays(c.env, old(c.content.View()), old(c.Db()), old(c.history), c.content.View(), c.Db(),
        c.history)
      invariant c.Valid()
    {
      ghost var fs, db, h := c.content.View(), c.Db(), c.history;
      var admitted, recognized, roomy := *, *, *;
      match calls[i] {
        case Begin(request, newID) =>
          var _ := c.BeginUpload(request, newID, admitted, roomy);
        case Append(id, credential, offset, chunk, digest) =>
          var _ := c.AppendUploadChunk(id, credential, offset, chunk, digest, admitted, roomy);
        case Finalize(id, credential, receiptID, now) =>
          var _ := c.FinalizeUpload(id, credential, Verdicts(admitted, recognized, roomy), receiptID, now);
      }
      DoomStaysOn(c.env, old(c.content.View()), old(c.Db()), old(c.history), fs, db, h, c.content.View(), c.Db(),
        c.history);
      if ReceiptsDistinct(db.generations) && BringsNewIDs(db.generations, calls, i) {
        RowsStayDistinct(db.generations, c.generations, calls, i);
      }
    }
  }

  /** A doomed upload may not be finalized, whoever asks. */
  lemma DoomedMayNotFinalize(env: Env, fs: Files, db: Ledger, h: History, id: nat, credential: nat, v: Verdicts)
    requires Doomed(env, fs, db, h, id)
    requires Inv(env, fs, db, h)
    ensures !MayFinalize(env, fs, db, id, credential, v)
  {
    hide Inv, Finalizable;
    if Finalizable(env, fs, db, id) {
      NotDoomed(env, fs, db, h, id);
    }
  }

  /** No run saves a doomed upload: whatever is called in between, finalizing it does not succeed. */
  method FinalizeDoomed(c: Coordinator, id: nat, credential: nat, v: Verdicts, receiptID: nat, now: int,
      between: seq<Call>)
    returns (r: Reply<Receipt>)
    requires c.Valid()
    modifies c, c.content
    ensures old(Doomed(c.env, c.content.View(), c.Db(), c.history, id)) ==> !r.Ok? && !Finalized(c.generations, id)
    ensures c.Valid()
  {
    hide Inv, MayFinalize;
    Serve(c, between);
    if old(Doomed(c.env, c.content.View(), c.Db(), c.history, id)) {
      DoomedMayNotFinalize(c.env, c.content.View(), c.Db(), c.history, id, credential, v);
    }
    r := c.FinalizeUpload(id, credential, v, receiptID, now);
  }

  /** Whatever happens in between and whoever asks, two successful finalizations of one upload return the same receipt.
      Unless something fails on the way, the holder who got it once gets it again, even if the service would no longer
      admit the holder or has no room left. */
  method FinalizeTwice(c: Coordinator, id: nat, credential: nat, v: Verdicts, receiptID: nat, now: int,
      between: seq<Call>, laterCredential: nat, w: Verdicts, laterReceiptID: nat, later: int)
    returns (r: Reply<Receipt>, s: Reply<Receipt>)
    requires c.Valid()
    modifies c, c.content
    ensures r.Ok? && s.Ok? ==> r.value == s.value && laterCredential == credential
    ensures c.content.steady && r.Ok? && laterCredential == credential ==> (s == r <==> w.recognized)
    ensures c.Valid()
  {
    hide Inv, Finalizable;
    r := c.FinalizeUpload(id, credential, v, receiptID, now);
    ghost var rows := c.generations;
    Serve(c, between);
    ghost var before := c.generations;
    s := c.FinalizeUpload(id, laterCredential, w, laterReceiptID, later);
    if r.Ok? {
      ghost var i :| 0 <= i < |rows| && rows[i].record.uploadID == id && rows[i].receipt == r.value;
      assert before[i] == rows[i] && IsReceiptOf(before[i], id, credential);
      if s.Ok? {
        ghost var j :| 0 <= j < |c.generations| && c.generations[j].record.uploadID == id &&
          c.generations[j].receipt == s.value;
        UploadCommitsOnce(c.env, c.content.View(), c.Db(), c.history, i, j);
      }
    }
  }

  /** No upload has two generations. */
  lemma UploadCommitsOnce(env: Env, fs: Files, db: Ledger, h: History, i: nat, j: nat)
    requires i < |db.generations| && j < |db.generations| &&
      db.generations[i].record.uploadID == db.generations[j].record.uploadID
    requires Inv(env, fs, db, h)
    ensures i == j
  {
    hide FilesSound, UploadsSound, RequestsSound, ChainSound, RowSound;
  }

  lemma {:induction false} OwnPrefix(rows: seq<Stored>, n: nat, targetID: nat)
    requires n <= |rows|
    ensures OfTarget(rows[..n], targetID) <= OfTarget(rows, targetID)
    decreases |rows|
  {
    if n == |rows| {
      assert rows[..n] == rows;
    } else {
      var front := rows[..|rows| - 1];
      OwnPrefix(front, n, targetID);
      assert front[..n] == rows[..n];
    }
  }

  lemma RowIsOwn(rows: seq<Stored>, i: nat, targetID: nat)
    requires i < |rows| && rows[i].record.targetID == targetID
    ensures var k := |OfTarget(rows[..i], targetID)|;
      k < |OfTarget(rows, targetID)| && OfTarget(rows, targetID)[k] == rows[i]
  {
    assert rows[..i + 1] == rows[..i] + [rows[i]];
    OfTargetStep(rows[..i], rows[i], targetID);
    OwnPrefix(rows, i + 1, targetID);
  }

  /** A target's committed generations are numbered one after the other without gaps, each holding its predecessor's
      reference in the record and its predecessor's outer digest in the bytes themselves. */
  lemma GenerationsAreAChain(env: Env, fs: Files, db: Ledger, h: History, i: nat)
    requires i < |db.generations|
    requires Inv(env, fs, db, h)
    ensures var g := db.generations[i].record; var own := OfTarget(db.generations[..i], g.targetID);
      && g.generation == |own| + 1
      && g.predecessorReference == (if own == [] then None else Some(own[|own| - 1].reference))
      && BytesAt(fs, HomeOf(g)).Some?
      && Describes(env, g, BytesAt(fs, HomeOf(g)).value,
           if own == [] then None else Some(own[|own| - 1].record.outerDigest))
  {
    hide FilesSound, UploadsSound, RequestsSound, Describes, OfTarget, BytesAt;
    var rows, g := db.generations, db.generations[i].record;
    RowIsOwn(rows, i, g.targetID);
    OwnPrefix(rows, i, g.targetID);
    assert RowSound(db, rows[i]);
    assert ChainSound(env, fs, rows, g.targetID, db.targets[g.targetID]);
    assert GenerationSound(env, fs, OfTarget(rows, g.targetID), |OfTarget(rows[..i], g.targetID)|);
  }

  lemma {:induction false} OwnGrows(rows: seq<Stored>, i: nat, j: nat, targetID: nat)
    requires i < j <= |rows| && rows[i].record.targetID == targetID
    ensures |OfTarget(rows[..i], targetID)| < |OfTarget(rows[..j], targetID)|
  {
    RowIsOwn(rows[..j], i, targetID);
    assert rows[..j][..i] == rows[..i];
  }

  /** Two uploads of one generation never both commit. */
  lemma GenerationCommitsOnce(env: Env, fs: Files, db: Ledger, h: History, i: nat, j: nat)
    requires i < j < |db.generations| && db.generations[i].record.targetID == db.generations[j].record.targetID
    requires Inv(env, fs, db, h)
    ensures db.generations[i].record.generation < db.generations[j].record.generation
  {
    hide Inv, OfTarget, Describes;
    GenerationsAreAChain(env, fs, db, h, i);
    GenerationsAreAChain(env, fs, db, h, j);
    OwnGrows(db.generations, i, j, db.generations[i].record.targetID);
  }

  /** A committed generation has no staging name left, and its object holds exactly the committed chunks, of the
      recorded length and digest. */
  lemma CommittedObject(env: Env, fs: Files, db: Ledger, h: History, i: nat)
    requires i < |db.generations|
    requires Inv(env, fs, db, h)
    ensures var g := db.generations[i].record;
      && g.uploadID in h && Staging(g.uploadID) !in fs.names && BytesAt(fs, HomeOf(g)) == Some(Concat(h[g.uploadID]))
      && g.outerByteCount == |Concat(h[g.uploadID])| && g.outerDigest == env.codec.digest(Concat(h[g.uploadID]))
  {
    hide Inv, OfTarget, Describes, RowSound, UploadSound, BytesAt, Concat;
    var g := db.generations[i].record;
    var own := OfTarget(db.generations[..i], g.targetID);
    GenerationsAreAChain(env, fs, db, h, i);
    CommittedRow(env, fs, db, h, i);
    UploadIsSound(env, fs, db, h, g.uploadID);
    CommittedBytes(env, fs, g.uploadID, db.uploads[g.uploadID], h[g.uploadID]);
    DescribedBytes(env, g, Concat(h[g.uploadID]), if own == [] then None else Some(own[|own| - 1].record.outerDigest));
  }

  lemma CommittedRow(env: Env, fs: Files, db: Ledger, h: History, i: nat)
    requires i < |db.generations|
    requires Inv(env, fs, db, h)
    ensures var g := db.generations[i].record;
      g.uploadID in db.uploads && db.uploads[g.uploadID].committed &&
      HomeOf(g) == Home(g.uploadID, db.uploads[g.uploadID])
  {
    hide FilesSound, UploadsSound, RequestsSound, ChainSound;
    assert RowSound(db, db.generations[i]);
  }

  lemma CommittedBytes(env: Env, fs: Files, id: nat, u: Upload, chunks: seq<seq<byte>>)
    requires UploadSound(env, fs, id, u, chunks) && u.committed
    ensures Staging(id) !in fs.names && BytesAt(fs, Home(id, u)) == Some(Concat(chunks))
  {
    hide Concat, RowsDescribe, BytesAt, Holds;
  }

  lemma DescribedBytes(env: Env, g: Generation, bytes: seq<byte>, predecessorOuterDigest: Option<string>)
    requires Describes(env, g, bytes, predecessorOuterDigest)
    ensures g.outerByteCount == |bytes| && g.outerDigest == env.codec.digest(bytes)
  {
    hide OuterWireStream.StreamAccepts, OuterWire.Accepts;
  }

  /** In every state a run reaches, the staged or published bytes of an upload begin with exactly its committed chunks,
      run at most one chunk past them and stay within the generation limit. */
  lemma StagedBytes(env: Env, fs: Files, db: Ledger, h: History, id: nat)
    requires id in db.uploads
    requires Inv(env, fs, db, h)
    ensures id in h && db.uploads[id].committedBytes == |Concat(h[id])|
    ensures var bytes := FinalizationBytes(fs, Home(id, db.uploads[id]));
      if bytes.None? then db.uploads[id].committedBytes == 0
      else Concat(h[id]) <= bytes.value && |bytes.value| <= db.uploads[id].committedBytes + env.maximumChunk
           && |bytes.value| <= env.maximumGeneration
  {
    hide Inv, FilesSound, RowsDescribe, Concat, BytesAt;
    UploadIsSound(env, fs, db, h, id);
  }

  /** Once the committed chunks make up a complete wire, the bytes on disk are accepted exactly when nothing follows the
      committed bytes: a tail left by an interrupted late append blocks finalization. */
  lemma FinalizableExactly(env: Env, fs: Files, db: Ledger, h: History, id: nat)
    requires id in db.uploads && id in h &&
      OuterWireStream.StreamAccepts(Concat(h[id]), env.maximumGeneration, env.codec)
    requires Inv(env, fs, db, h)
    ensures var bytes := FinalizationBytes(fs, Home(id, db.uploads[id]));
      bytes.Some? &&
      (OuterWireStream.StreamAccepts(bytes.value, env.maximumGeneration, env.codec) <==>
       |bytes.value| == db.uploads[id].committedBytes)
  {
    hide Inv, Concat, BytesAt;
    StagedBytes(env, fs, db, h, id);
    var bytes, whole := FinalizationBytes(fs, Home(id, db.uploads[id])).value, Concat(h[id]);
    hide OuterWire.Accepts;
    assert bytes == whole + bytes[|whole|..];
    if |bytes| > |whole| {
      OuterWire.NoAcceptedExtension(whole, bytes[|whole|..], env.codec);
    } else {
      assert bytes == whole;
    }
  }
}
