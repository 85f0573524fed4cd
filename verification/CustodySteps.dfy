/**
 The steps of the custody protocol, each proved to keep the invariant: what an interrupted file operation can leave,
 and the database transactions.
 */
module CustodySteps {
  import opened Bytes
  import opened CustodyFiles
  import opened CustodyLedger

  // ---- files ----

  lemma UploadIsSound(env: Env, fs: Files, db: Ledger, h: History, id: nat)
    requires Inv(env, fs, db, h) && id in db.uploads
    ensures id in h && UploadSound(env, fs, id, db.uploads[id], h[id]) &&
      TargetKnown(db.targets, db.uploads[id].request)
    ensures FilesSound(fs, db.uploads)
  {
    hide UploadSound, FilesSound, RequestsSound, GenerationsSound;
  }

  lemma CreatedTouches(fs: Files, gs: Files, uploads: map<nat, Upload>, id: nat)
    requires FilesSound(fs, uploads) && Created(fs, gs, Staging(id)) && id in uploads
    ensures FilesSound(gs, uploads) && OnlyTouches(fs, gs, id)
  {
    var i: nat :| i !in fs.contents && gs == Files(fs.names[Staging(id) := i], fs.contents[i := []]);
  }

  lemma CreatedHolds(env: Env, fs: Files, gs: Files, id: nat, u: Upload, committed: seq<byte>)
    requires BytesSound(env, fs, id, u, committed) && !u.committed && Created(fs, gs, Staging(id)) &&
      Home(id, u) !in fs.names
    ensures BytesSound(env, gs, id, u, committed)
  {
  }

  lemma CreatedStep(env: Env, fs: Files, gs: Files, db: Ledger, h: History, id: nat)
    requires Inv(env, fs, db, h) && id in db.uploads && !db.uploads[id].committed
    requires Created(fs, gs, Staging(id)) && Home(id, db.uploads[id]) !in fs.names
    ensures Inv(env, gs, db, h)
  {
    hide Inv, Concat, RowsDescribe, FilesSound, OnlyTouches, BytesSound, Created;
    UploadIsSound(env, fs, db, h, id);
    CreatedTouches(fs, gs, db.uploads, id);
    CreatedHolds(env, fs, gs, id, db.uploads[id], Concat(h[id]));
    FileStep(env, fs, gs, db, h, id);
  }

  lemma RemovedTouches(fs: Files, uploads: map<nat, Upload>, id: nat)
    requires FilesSound(fs, uploads)
    ensures FilesSound(Removed(fs, Staging(id)), uploads) && OnlyTouches(fs, Removed(fs, Staging(id)), id)
  {
  }

  lemma RemovedHolds(env: Env, fs: Files, id: nat, u: Upload, committed: seq<byte>)
    requires BytesSound(env, fs, id, u, committed) && !u.committed && Home(id, u) in fs.names
    ensures BytesSound(env, Removed(fs, Staging(id)), id, u, committed)
  {
    hide Holds;
  }

  lemma RemovedStep(env: Env, fs: Files, db: Ledger, h: History, id: nat)
    requires Inv(env, fs, db, h) && id in db.uploads && !db.uploads[id].committed &&
      Home(id, db.uploads[id]) in fs.names
    ensures Inv(env, Removed(fs, Staging(id)), db, h)
  {
    hide Inv, Concat, RowsDescribe, FilesSound, OnlyTouches, BytesSound, Removed;
    UploadIsSound(env, fs, db, h, id);
    RemovedTouches(fs, db.uploads, id);
    RemovedHolds(env, fs, id, db.uploads[id], Concat(h[id]));
    FileStep(env, fs, Removed(fs, Staging(id)), db, h, id);
  }

  lemma WithObjectTouches(fs: Files, uploads: map<nat, Upload>, id: nat)
    requires FilesSound(fs, uploads) && id in uploads
    ensures FilesSound(WithObject(fs, Home(id, uploads[id])), uploads)
    ensures OnlyTouches(fs, WithObject(fs, Home(id, uploads[id])), id)
  {
  }

  lemma WithObjectHolds(env: Env, fs: Files, id: nat, u: Upload, committed: seq<byte>)
    requires BytesSound(env, fs, id, u, committed) && !u.committed
    ensures BytesSound(env, WithObject(fs, Home(id, u)), id, u, committed)
  {
    hide Holds;
  }

  lemma WithObjectStep(env: Env, fs: Files, db: Ledger, h: History, id: nat)
    requires Inv(env, fs, db, h) && id in db.uploads && !db.uploads[id].committed
    ensures Inv(env, WithObject(fs, Home(id, db.uploads[id])), db, h)
  {
    hide Inv, Concat, RowsDescribe, FilesSound, OnlyTouches, BytesSound, WithObject;
    UploadIsSound(env, fs, db, h, id);
    WithObjectTouches(fs, db.uploads, id);
    WithObjectHolds(env, fs, id, db.uploads[id], Concat(h[id]));
    FileStep(env, fs, WithObject(fs, Home(id, db.uploads[id])), db, h, id);
  }

  lemma RewrittenTouches(fs: Files, gs: Files, uploads: map<nat, Upload>, id: nat, offset: nat, limit: nat)
    requires FilesSound(fs, uploads) && Rewritten(fs, gs, Staging(id), offset, limit)
    ensures FilesSound(gs, uploads) && OnlyTouches(fs, gs, id) && gs.names == fs.names
  {
  }

  lemma RewrittenStep(env: Env, fs: Files, gs: Files, db: Ledger, h: History, id: nat, limit: nat)
    requires Inv(env, fs, db, h) && id in db.uploads && !db.uploads[id].committed
    requires Rewritten(fs, gs, Staging(id), db.uploads[id].committedBytes, limit)
    requires limit <= env.maximumChunk && db.uploads[id].committedBytes + limit <= env.maximumGeneration
    requires |db.uploads[id].rows| < env.maximumChunkCount
    ensures Inv(env, gs, db, h)
  {
    hide Inv, Concat, RowsDescribe, FilesSound, OnlyTouches, BytesSound, Rewritten;
    UploadIsSound(env, fs, db, h, id);
    LinkedFiles(fs, db.uploads);
    RewrittenTouches(fs, gs, db.uploads, id, db.uploads[id].committedBytes, limit);
    RewrittenHolds(env, fs, gs, id, db.uploads[id], Concat(h[id]), limit);
    FileStep(env, fs, gs, db, h, id);
  }

  lemma LinkedFiles(fs: Files, uploads: map<nat, Upload>)
    requires FilesSound(fs, uploads)
    ensures Linked(fs)
  {
  }

  lemma RewrittenHolds(env: Env, fs: Files, gs: Files, id: nat, u: Upload, committed: seq<byte>, limit: nat)
    requires BytesSound(env, fs, id, u, committed) && !u.committed && Linked(fs)
    requires Rewritten(fs, gs, Staging(id), u.committedBytes, limit)
    requires limit <= env.maximumChunk && u.committedBytes + limit <= env.maximumGeneration &&
      |u.rows| < env.maximumChunkCount
    ensures BytesSound(env, gs, id, u, committed)
  {
    var inode := fs.names[Staging(id)];
    var tail: seq<byte> :| |tail| <= limit &&
      gs == fs.(contents := fs.contents[inode := fs.contents[inode][..u.committedBytes] + tail]);
    assert fs.contents[inode][..u.committedBytes] == committed;
    assert gs.contents[inode] == committed + tail;
  }

  // ---- transactions ----

  function WithUpload(db: Ledger, id: nat, u: Upload): Ledger {
    db.(uploads := db.uploads[id := u])
  }

  lemma UploadsUpdate(env: Env, fs: Files, db: Ledger, h: History, id: nat, u: Upload, chunks: seq<seq<byte>>)
    requires UploadsSound(env, fs, db, h) && UploadSound(env, fs, id, u, chunks) && TargetKnown(db.targets, u.request)
    requires u.committed ==> Finalized(db.generations, id)
    ensures UploadsSound(env, fs, WithUpload(db, id, u), h[id := chunks])
  {
    hide RowsDescribe, BytesSound, Concat, Finalized;
  }

  lemma FilesUpdate(fs: Files, uploads: map<nat, Upload>, id: nat, u: Upload)
    requires FilesSound(fs, uploads) && (id in uploads ==> u.request == uploads[id].request)
    ensures FilesSound(fs, uploads[id := u])
  {
  }

  lemma GenerationsUpdate(env: Env, fs: Files, db: Ledger, id: nat, u: Upload)
    requires GenerationsSound(env, fs, db)
    requires id in db.uploads ==> u.request == db.uploads[id].request && (db.uploads[id].committed ==> u.committed)
    ensures GenerationsSound(env, fs, WithUpload(db, id, u))
  {
    hide ChainSound;
    forall i | 0 <= i < |db.generations| ensures RowSound(WithUpload(db, id, u), db.generations[i]) {
      assert RowSound(db, db.generations[i]);
    }
  }

  function Reserve(db: Ledger, id: nat, r: Request): Ledger {
    WithUpload(db, id, Upload(r, 0, false, [])).(requests := db.requests[r.requestID := id])
  }

  /** A fresh upload starts with no rows and no file. */
  lemma ReserveStep(env: Env, fs: Files, db: Ledger, h: History, id: nat, r: Request)
    requires Inv(env, fs, db, h) && id !in db.uploads && r.requestID !in db.requests && TargetKnown(db.targets, r)
    ensures Inv(env, fs, Reserve(db, id, r), h[id := []])
  {
    var u := Upload(r, 0, false, []);
    NewUpload(env, fs, db.uploads, id, u);
    hide UploadSound, GenerationSound, RowSound, Finalized;
    UploadsUpdate(env, fs, db, h, id, u, []);
    FilesUpdate(fs, db.uploads, id, u);
    GenerationsUpdate(env, fs, db, id, u);
    ReserveRequests(db, id, r);
    hide FilesSound, RequestsSound, UploadsSound, GenerationsSound;
    ReserveRest(env, fs, db, h, id, r);
  }

  lemma NewUpload(env: Env, fs: Files, uploads: map<nat, Upload>, id: nat, u: Upload)
    requires FilesSound(fs, uploads) && id !in uploads && u == Upload(u.request, 0, false, [])
    ensures UploadSound(env, fs, id, u, [])
  {
  }

  lemma ReserveRequests(db: Ledger, id: nat, r: Request)
    requires RequestsSound(db) && id !in db.uploads && r.requestID !in db.requests
    ensures RequestsSound(Reserve(db, id, r))
  {
  }

  /** The request table does not matter to the other parts of the invariant. */
  lemma ReserveRest(env: Env, fs: Files, db: Ledger, h: History, id: nat, r: Request)
    requires UploadsSound(env, fs, WithUpload(db, id, Upload(r, 0, false, [])), h[id := []])
    requires GenerationsSound(env, fs, WithUpload(db, id, Upload(r, 0, false, [])))
    ensures UploadsSound(env, fs, Reserve(db, id, r), h[id := []]) && GenerationsSound(env, fs, Reserve(db, id, r))
  {
    hide UploadSound, ChainSound, Finalized;
    var before, after := WithUpload(db, id, Upload(r, 0, false, [])), Reserve(db, id, r);
    forall i | 0 <= i < |after.generations| ensures RowSound(after, after.generations[i]) {
      assert RowSound(before, before.generations[i]);
    }
  }

  function CommitChunk(env: Env, db: Ledger, id: nat, chunk: seq<byte>): Ledger
    requires id in db.uploads
  {
    WithUpload(db, id, Longer(env, db.uploads[id], chunk))
  }

  function Longer(env: Env, u: Upload, chunk: seq<byte>): Upload {
    u.(committedBytes := u.committedBytes + |chunk|, rows := u.rows + [RowFor(env, u.committedBytes, chunk)])
  }

  lemma ConcatStep(chunks: seq<seq<byte>>, chunk: seq<byte>)
    ensures Concat(chunks + [chunk]) == Concat(chunks) + chunk
  {
    assert (chunks + [chunk])[..|chunks|] == chunks;
  }

  lemma RowsGrow(env: Env, rows: seq<ChunkRow>, chunks: seq<seq<byte>>, chunk: seq<byte>)
    requires RowsDescribe(env, rows, chunks) && chunk != []
    ensures RowsDescribe(env, rows + [RowFor(env, |Concat(chunks)|, chunk)], chunks + [chunk])
  {
    hide Concat;
    var more, grown := rows + [RowFor(env, |Concat(chunks)|, chunk)], chunks + [chunk];
    forall i | 0 <= i < |more| ensures grown[i] != [] && more[i] == RowFor(env, |Concat(grown[..i])|, grown[i]) {
      assert grown[..i] == chunks[..i];
      assert i == |rows| ==> chunks[..i] == chunks;
    }
  }

  lemma ChunkCommitted(env: Env, fs: Files, id: nat, u: Upload, chunks: seq<seq<byte>>, chunk: seq<byte>)
    requires UploadSound(env, fs, id, u, chunks) && !u.committed && chunk != []
    requires FinalizationBytes(fs, Home(id, u)) == Some(Concat(chunks) + chunk)
    ensures UploadSound(env, fs, id, Longer(env, u, chunk), chunks + [chunk])
  {
    hide Concat, RowsDescribe, BytesAt;
    RowsGrow(env, u.rows, chunks, chunk);
    ConcatStep(chunks, chunk);
  }

  lemma SameRequests(db: Ledger, id: nat, u: Upload)
    requires RequestsSound(db) && id in db.uploads && u.request == db.uploads[id].request
    ensures RequestsSound(WithUpload(db, id, u))
  {
  }

  /** Committing a chunk that is already on disk behind the committed bytes. */
  lemma CommitChunkStep(env: Env, fs: Files, db: Ledger, h: History, id: nat, chunk: seq<byte>)
    requires Inv(env, fs, db, h) && id in db.uploads && !db.uploads[id].committed && chunk != []
    requires FinalizationBytes(fs, Home(id, db.uploads[id])) == Some(Concat(h[id]) + chunk)
    ensures Inv(env, fs, CommitChunk(env, db, id, chunk), h[id := h[id] + [chunk]])
  {
    hide Concat, UploadSound, FilesSound, RequestsSound, UploadsSound, GenerationsSound;
    UploadIsSound(env, fs, db, h, id);
    var u := Longer(env, db.uploads[id], chunk);
    ChunkCommitted(env, fs, id, db.uploads[id], h[id], chunk);
    UploadsUpdate(env, fs, db, h, id, u, h[id] + [chunk]);
    FilesUpdate(fs, db.uploads, id, u);
    GenerationsUpdate(env, fs, db, id, u);
    SameRequests(db, id, u);
  }

  /** The record continues the target's chain and describes the bytes. */
  ghost predicate Continues(env: Env, t: Target, row: Stored, bytes: seq<byte>) {
    var g := row.record;
    && g.generation == (if t.head.None? then 1 else t.head.value.generation + 1) && g.backupSetID == t.backupSetID
    && g.predecessorReference == t.headReference && row.reference == env.reference(g)
    && Describes(env, g, bytes, if t.head.None? then None else Some(t.head.value.outerDigest))
  }

  function NewHead(t: Target, row: Stored): Target {
    t.(head := Some(row.record), headReference := Some(row.reference))
  }

  function CommitGeneration(db: Ledger, row: Stored): Ledger
    requires row.record.uploadID in db.uploads && row.record.targetID in db.targets
  {
    WithUpload(db, row.record.uploadID, db.uploads[row.record.uploadID].(committed := true))
      .(generations := db.generations + [row],
        targets := db.targets[row.record.targetID := NewHead(db.targets[row.record.targetID], row)])
  }

  lemma OfTargetStep(rows: seq<Stored>, row: Stored, targetID: nat)
    ensures OfTarget(rows + [row], targetID) ==
      OfTarget(rows, targetID) + (if row.record.targetID == targetID then [row] else [])
  {
    assert (rows + [row])[..|rows|] == rows;
  }

  lemma GenerationKept(env: Env, fs: Files, own: seq<Stored>, row: Stored, i: nat)
    requires i < |own| && GenerationSound(env, fs, own, i)
    ensures GenerationSound(env, fs, own + [row], i)
  {
    hide Describes, BytesAt;
  }

  /** The row that continues a target's chain is sound at its end. */
  lemma NewestSound(env: Env, fs: Files, own: seq<Stored>, t: Target, row: Stored)
    requires own != [] ==> GenerationSound(env, fs, own, |own| - 1)
    requires t.head == (if own == [] then None else Some(own[|own| - 1].record))
    requires t.headReference == (if own == [] then None else Some(own[|own| - 1].reference))
    requires BytesAt(fs, HomeOf(row.record)).Some? && Continues(env, t, row, BytesAt(fs, HomeOf(row.record)).value)
    ensures GenerationSound(env, fs, own + [row], |own|) && row.record.backupSetID == t.backupSetID
  {
    hide Describes, BytesAt;
  }

  lemma ChainGrows(env: Env, fs: Files, rows: seq<Stored>, t: Target, row: Stored)
    requires ChainSound(env, fs, rows, row.record.targetID, t)
    requires BytesAt(fs, HomeOf(row.record)).Some? && Continues(env, t, row, BytesAt(fs, HomeOf(row.record)).value)
    ensures ChainSound(env, fs, rows + [row], row.record.targetID, NewHead(t, row))
  {
    hide OfTarget, BytesAt, GenerationSound, Continues;
    var own := OfTarget(rows, row.record.targetID);
    OfTargetStep(rows, row, row.record.targetID);
    NewestSound(env, fs, own, t, row);
    forall i | 0 <= i < |own + [row]|
      ensures GenerationSound(env, fs, own + [row], i) && (own + [row])[i].record.backupSetID == t.backupSetID
    {
      if i < |own| {
        GenerationKept(env, fs, own, row, i);
      }
    }
  }

  lemma ChainElsewhere(env: Env, fs: Files, rows: seq<Stored>, targetID: nat, t: Target, row: Stored)
    requires ChainSound(env, fs, rows, targetID, t) && row.record.targetID != targetID
    ensures ChainSound(env, fs, rows + [row], targetID, t)
  {
    hide OfTarget, GenerationSound;
    OfTargetStep(rows, row, targetID);
    assert OfTarget(rows + [row], targetID) == OfTarget(rows, targetID);
  }

  lemma ChainsGrow(env: Env, fs: Files, db: Ledger, row: Stored)
    requires row.record.targetID in db.targets && row.record.uploadID in db.uploads
    requires forall t :: t in db.targets ==> ChainSound(env, fs, db.generations, t, db.targets[t])
    requires BytesAt(fs, HomeOf(row.record)).Some?
    requires Continues(env, db.targets[row.record.targetID], row, BytesAt(fs, HomeOf(row.record)).value)
    ensures forall t :: t in CommitGeneration(db, row).targets ==>
      ChainSound(env, fs, CommitGeneration(db, row).generations, t, CommitGeneration(db, row).targets[t])
  {
    hide ChainSound, Continues, BytesAt;
    forall t | t in db.targets
      ensures ChainSound(env, fs, db.generations + [row], t, CommitGeneration(db, row).targets[t])
    {
      if t == row.record.targetID {
        ChainGrows(env, fs, db.generations, db.targets[t], row);
      } else {
        ChainElsewhere(env, fs, db.generations, t, db.targets[t], row);
      }
    }
  }

  /** The row belongs to the upload it commits. */
  ghost predicate Belongs(u: Upload, id: nat, row: Stored) {
    && row.record.uploadID == id && HomeOf(row.record) == Home(id, u) && row.receipt.generation == row.record
    && row.receipt.credential == u.request.credential && row.receipt.requestID == u.request.requestID
  }

  lemma RowsExtend(env: Env, fs: Files, db: Ledger, row: Stored)
    requires GenerationsSound(env, fs, db) && row.record.uploadID in db.uploads && row.record.targetID in db.targets
    requires !db.uploads[row.record.uploadID].committed &&
      Belongs(db.uploads[row.record.uploadID], row.record.uploadID, row)
    ensures forall i :: 0 <= i < |CommitGeneration(db, row).generations| ==>
      RowSound(CommitGeneration(db, row), CommitGeneration(db, row).generations[i])
    ensures RowsDistinct(CommitGeneration(db, row).generations)
  {
    hide ChainSound;
    var after := CommitGeneration(db, row);
    forall i | 0 <= i < |after.generations| ensures RowSound(after, after.generations[i]) {
      if i < |db.generations| {
        assert RowSound(db, db.generations[i]);
      }
    }
    forall i, j | 0 <= i < j < |after.generations|
      ensures after.generations[i].record.uploadID != after.generations[j].record.uploadID
    {
      assert RowSound(db, db.generations[i]);
    }
  }

  lemma UploadsCommit(env: Env, fs: Files, db: Ledger, h: History, row: Stored)
    requires UploadsSound(env, fs, db, h) && row.record.uploadID in db.uploads && row.record.targetID in db.targets
    requires Staging(row.record.uploadID) !in fs.names
    requires FinalizationBytes(fs, Home(row.record.uploadID, db.uploads[row.record.uploadID])) ==
      Some(Concat(h[row.record.uploadID]))
    ensures UploadsSound(env, fs, CommitGeneration(db, row), h)
  {
    hide Concat, Holds, RowsDescribe, BytesAt;
    var id, after := row.record.uploadID, CommitGeneration(db, row);
    forall i | i in after.uploads ensures UploadSound(env, fs, i, after.uploads[i], h[i]) {
      assert UploadSound(env, fs, i, db.uploads[i], h[i]);
    }
    hide UploadSound;
    forall i | i in after.uploads && after.uploads[i].committed ensures Finalized(after.generations, i) {
      if i == id {
        assert after.generations[|db.generations|].record.uploadID == id;
      } else {
        assert Finalized(db.generations, i);
        var k :| 0 <= k < |db.generations| && db.generations[k].record.uploadID == i;
        assert after.generations[k].record.uploadID == i;
      }
    }
  }

  /** Committing the generation of a published upload that extends its target's head. */
  lemma CommitGenerationStep(env: Env, fs: Files, db: Ledger, h: History, row: Stored)
    requires Inv(env, fs, db, h)
    requires row.record.uploadID in db.uploads && row.record.targetID in db.targets
    requires !db.uploads[row.record.uploadID].committed &&
      Belongs(db.uploads[row.record.uploadID], row.record.uploadID, row)
    requires Staging(row.record.uploadID) !in fs.names
    requires FinalizationBytes(fs, Home(row.record.uploadID, db.uploads[row.record.uploadID])) ==
      Some(Concat(h[row.record.uploadID]))
    requires Continues(env, db.targets[row.record.targetID], row, Concat(h[row.record.uploadID]))
    ensures Inv(env, fs, CommitGeneration(db, row), h)
  {
    hide Inv, Concat, Continues, BytesAt, FilesSound, RequestsSound, UploadsSound, GenerationsSound;
    var id := row.record.uploadID;
    UploadIsSound(env, fs, db, h, id);
    InvParts(env, fs, db, h);
    GenerationsCommit(env, fs, db, row, Concat(h[id]));
    UploadsCommit(env, fs, db, h, row);
    FilesUpdate(fs, db.uploads, id, db.uploads[id].(committed := true));
    SameRequests(db, id, db.uploads[id].(committed := true));
    RequestsElsewhere(WithUpload(db, id, db.uploads[id].(committed := true)), CommitGeneration(db, row));
    PartsInv(env, fs, CommitGeneration(db, row), h);
  }

  lemma InvParts(env: Env, fs: Files, db: Ledger, h: History)
    requires Inv(env, fs, db, h)
    ensures FilesSound(fs, db.uploads) && RequestsSound(db) && UploadsSound(env, fs, db, h) &&
      GenerationsSound(env, fs, db)
  {
    hide FilesSound, RequestsSound, UploadsSound, GenerationsSound;
  }

  lemma PartsInv(env: Env, fs: Files, db: Ledger, h: History)
    requires FilesSound(fs, db.uploads) && RequestsSound(db) && UploadsSound(env, fs, db, h) &&
      GenerationsSound(env, fs, db)
    ensures Inv(env, fs, db, h)
  {
    hide FilesSound, RequestsSound, UploadsSound, GenerationsSound;
  }

  lemma GenerationsCommit(env: Env, fs: Files, db: Ledger, row: Stored, bytes: seq<byte>)
    requires GenerationsSound(env, fs, db) && row.record.uploadID in db.uploads && row.record.targetID in db.targets
    requires !db.uploads[row.record.uploadID].committed &&
      Belongs(db.uploads[row.record.uploadID], row.record.uploadID, row)
    requires Staging(row.record.uploadID) !in fs.names
    requires FinalizationBytes(fs, Home(row.record.uploadID, db.uploads[row.record.uploadID])) == Some(bytes)
    requires Continues(env, db.targets[row.record.targetID], row, bytes)
    ensures GenerationsSound(env, fs, CommitGeneration(db, row))
  {
    hide Continues, BytesAt, ChainSound, RowSound, RowsDistinct;
    RowsExtend(env, fs, db, row);
    ChainsGrow(env, fs, db, row);
  }

  lemma RequestsElsewhere(db: Ledger, after: Ledger)
    requires RequestsSound(db) && after.uploads == db.uploads && after.requests == db.requests
    ensures RequestsSound(after)
  {
  }

  /** After a complete append the file holds the committed bytes and the chunk. */
  lemma AppendedBytes(env: Env, fs: Files, id: nat, u: Upload, chunks: seq<seq<byte>>, chunk: seq<byte>)
    requires UploadSound(env, fs, id, u, chunks) &&
      AppendFits(fs, Staging(id), u.committedBytes, chunk, env.maximumChunk, env.maximumGeneration)
    ensures FinalizationBytes(Appended(fs, Staging(id), u.committedBytes, chunk), Home(id, u)) ==
      Some(Concat(chunks) + chunk)
  {
    hide Concat, RowsDescribe;
    assert BytesAt(fs, Staging(id)).value[..u.committedBytes] == Concat(chunks);
  }

  lemma OneFile(env: Env, fs: Files, id: nat, u: Upload, chunks: seq<seq<byte>>)
    requires UploadSound(env, fs, id, u, chunks)
    ensures Staging(id) in fs.names && Home(id, u) in fs.names ==> fs.names[Staging(id)] == fs.names[Home(id, u)]
  {
    hide Concat, RowsDescribe, BytesAt;
  }

  /** Bytes of the committed length are the committed bytes. */
  lemma WholeUpload(env: Env, fs: Files, id: nat, u: Upload, chunks: seq<seq<byte>>)
    requires UploadSound(env, fs, id, u, chunks)
    ensures FinalizationBytes(fs, Home(id, u)).Some? && |FinalizationBytes(fs, Home(id, u)).value| == u.committedBytes
      ==> FinalizationBytes(fs, Home(id, u)).value == Concat(chunks)
  {
    hide Concat, BytesAt;
  }
}
