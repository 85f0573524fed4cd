/**
 Chunks that arrive behind a complete wire. The staging name stays writable while the object is already linked, so a
 late append can reach the linked file. Here is when that blocks an upload for the moment and when for good.
 */
module CustodyLateAppends {
  import opened Bytes
  import opened CustodyFiles
  import opened CustodyLedger
  import opened CustodySteps
  import OuterWire

  /** A chunk was committed behind chunks that already made up a complete wire. */
  ghost predicate Late(env: Env, chunks: seq<seq<byte>>) {
    exists k: nat :: k < |chunks| && OuterWire.Accepts(Concat(chunks[..k]), env.codec)
  }

  /** The object carries more than the committed bytes and no staging name is left through which it could be cut. */
  ghost predicate Orphaned(fs: Files, id: nat, u: Upload) {
    Staging(id) !in fs.names && BytesAt(fs, Home(id, u)).Some? && |BytesAt(fs, Home(id, u)).value| > u.committedBytes
  }

  /** An upload without a generation that can never get one. */
  ghost predicate Doomed(env: Env, fs: Files, db: Ledger, h: History, id: nat) {
    id in db.uploads && id in h && !Finalized(db.generations, id) &&
    (Late(env, h[id]) || Orphaned(fs, id, db.uploads[id]))
  }

  ghost predicate DoomStays(env: Env, fs: Files, db: Ledger, h: History, gs: Files, eb: Ledger, k: History) {
    forall id :: Doomed(env, fs, db, h, id) ==> Doomed(env, gs, eb, k, id)
  }

  /** Committed chunks are never forgotten. */
  ghost predicate Remembers(h: History, k: History) {
    forall i :: i in h ==> i in k && h[i] <= k[i]
  }

  lemma DoomStaysOn(env: Env, fs: Files, db: Ledger, h: History, gs: Files, eb: Ledger, k: History, ls: Files,
      lb: Ledger, l: History)
    requires DoomStays(env, fs, db, h, gs, eb, k) && DoomStays(env, gs, eb, k, ls, lb, l)
    ensures DoomStays(env, fs, db, h, ls, lb, l)
  {
    hide Doomed;
  }

  // ---- doomed uploads are not accepted ----

  lemma {:induction false} ConcatTail(chunks: seq<seq<byte>>, more: seq<seq<byte>>)
    ensures Concat(chunks + more) == Concat(chunks) + Concat(more)
    ensures more != [] && more[0] != [] ==> Concat(more) != []
    decreases |more|
  {
    if more == [] {
      assert chunks + more == chunks;
    } else {
      var last := |more| - 1;
      assert chunks + more == (chunks + more[..last]) + [more[last]];
      ConcatStep(chunks + more[..last], more[last]);
      ConcatTail(chunks, more[..last]);
    }
  }

  /** Chunks behind a complete wire spoil the whole. */
  lemma LateIsRejected(env: Env, rows: seq<ChunkRow>, chunks: seq<seq<byte>>)
    requires RowsDescribe(env, rows, chunks) && Late(env, chunks)
    ensures !OuterWire.Accepts(Concat(chunks), env.codec)
  {
    hide OuterWire.Accepts, Concat;
    var k: nat :| k < |chunks| && OuterWire.Accepts(Concat(chunks[..k]), env.codec);
    assert chunks[k] != [];
    assert chunks == chunks[..k] + chunks[k..];
    ConcatTail(chunks[..k], chunks[k..]);
    OuterWire.NoAcceptedExtension(Concat(chunks[..k]), Concat(chunks[k..]), env.codec);
  }

  /** The bytes of a doomed upload are not an accepted wire of the committed length. */
  lemma DoomedIsRejected(env: Env, fs: Files, db: Ledger, h: History, id: nat)
    requires Doomed(env, fs, db, h, id)
    requires Inv(env, fs, db, h)
    ensures var bytes := FinalizationBytes(fs, Home(id, db.uploads[id]));
      bytes.Some? && |bytes.value| == db.uploads[id].committedBytes ==> !OuterWire.Accepts(bytes.value, env.codec)
  {
    hide Inv, OuterWire.Accepts, Concat, BytesAt;
    UploadIsSound(env, fs, db, h, id);
    WholeUpload(env, fs, id, db.uploads[id], h[id]);
    if Late(env, h[id]) {
      LateIsRejected(env, db.uploads[id].rows, h[id]);
    }
  }

  // ---- doom outlasts every step ----

  lemma DoomReserve(env: Env, fs: Files, db: Ledger, h: History, id: nat, r: Request)
    requires id !in db.uploads
    ensures DoomStays(env, fs, db, h, fs, Reserve(db, id, r), h[id := []])
  {
    hide Late, Finalized, BytesAt;
  }

  /** A change to the files of one upload that is not orphaned. */
  lemma DoomFile(env: Env, fs: Files, gs: Files, db: Ledger, h: History, id: nat)
    requires OnlyTouches(fs, gs, id) && (id in db.uploads ==> !Orphaned(fs, id, db.uploads[id]))
    ensures DoomStays(env, fs, db, h, gs, db, h)
  {
    hide Late, Finalized, BytesAt;
    forall i | Doomed(env, fs, db, h, i) ensures Doomed(env, gs, db, h, i) {
      if i != id {
        assert Staging(i).uploadID == i && Home(i, db.uploads[i]).uploadID == i;
      }
    }
  }

  lemma DoomChunk(env: Env, fs: Files, db: Ledger, h: History, id: nat, chunk: seq<byte>)
    requires id in db.uploads && id in h && Staging(id) in fs.names
    ensures DoomStays(env, fs, db, h, fs, CommitChunk(env, db, id, chunk), h[id := h[id] + [chunk]])
  {
    hide Finalized, BytesAt, OuterWire.Accepts, Concat;
    forall i | Doomed(env, fs, db, h, i)
      ensures Doomed(env, fs, CommitChunk(env, db, id, chunk), h[id := h[id] + [chunk]], i)
    {
      if i == id {
        StillLate(env, h[id], chunk);
      }
    }
  }

  lemma StillLate(env: Env, chunks: seq<seq<byte>>, chunk: seq<byte>)
    requires Late(env, chunks)
    ensures Late(env, chunks + [chunk])
  {
    hide OuterWire.Accepts, Concat;
    var k: nat :| k < |chunks| && OuterWire.Accepts(Concat(chunks[..k]), env.codec);
    assert (chunks + [chunk])[..k] == chunks[..k];
  }

  lemma DoomGeneration(env: Env, fs: Files, db: Ledger, h: History, row: Stored)
    requires row.record.uploadID in db.uploads && row.record.targetID in db.targets &&
      !Doomed(env, fs, db, h, row.record.uploadID)
    ensures DoomStays(env, fs, db, h, fs, CommitGeneration(db, row), h)
  {
    hide Late, BytesAt;
  }

  // ---- how an upload gets there, and how not ----

  /** A complete upload is blocked by any bytes a late append writes behind it, committed or not. */
  lemma LateTailBlocks(env: Env, fs: Files, db: Ledger, h: History, id: nat, chunk: seq<byte>)
    requires id in db.uploads && id in h && !db.uploads[id].committed && OuterWire.Accepts(Concat(h[id]), env.codec)
    requires AppendFits(fs, Staging(id), db.uploads[id].committedBytes, chunk, env.maximumChunk, env.maximumGeneration)
    requires |db.uploads[id].rows| < env.maximumChunkCount
    requires Inv(env, fs, db, h)
    ensures var gs := Appended(fs, Staging(id), db.uploads[id].committedBytes, chunk);
      && Inv(env, gs, db, h) && FinalizationBytes(gs, Home(id, db.uploads[id])) == Some(Concat(h[id]) + chunk)
      && !OuterWire.Accepts(Concat(h[id]) + chunk, env.codec)
  {
    hide Inv, OuterWire.Accepts, Concat;
    var u := db.uploads[id];
    UploadIsSound(env, fs, db, h, id);
    AppendedBytes(env, fs, id, u, h[id], chunk);
    OuterWire.NoAcceptedExtension(Concat(h[id]), chunk, env.codec);
    var gs := Appended(fs, Staging(id), u.committedBytes, chunk);
    RewrittenBy(fs, gs, Staging(id), u.committedBytes, |chunk|, chunk);
    RewrittenStep(env, fs, gs, db, h, id, |chunk|);
  }

  /** Committing such a chunk dooms the upload. */
  lemma LateChunkDooms(env: Env, fs: Files, db: Ledger, h: History, id: nat, chunk: seq<byte>)
    requires id in db.uploads && id in h && !db.uploads[id].committed && OuterWire.Accepts(Concat(h[id]), env.codec)
    requires AppendFits(fs, Staging(id), db.uploads[id].committedBytes, chunk, env.maximumChunk, env.maximumGeneration)
    requires |db.uploads[id].rows| < env.maximumChunkCount
    requires Inv(env, fs, db, h)
    ensures var gs, eb, k := Appended(fs, Staging(id), db.uploads[id].committedBytes, chunk),
      CommitChunk(env, db, id, chunk), h[id := h[id] + [chunk]];
      Inv(env, gs, eb, k) && Doomed(env, gs, eb, k, id)
  {
    hide Inv, OuterWire.Accepts, Concat, BytesAt;
    LateTailBlocks(env, fs, db, h, id, chunk);
    var gs := Appended(fs, Staging(id), db.uploads[id].committedBytes, chunk);
    CommitChunkStep(env, gs, db, h, id, chunk);
    NotFinalizedYet(env, fs, db, h, id);
    assert (h[id] + [chunk])[..|h[id]|] == h[id];
  }

  lemma NotFinalizedYet(env: Env, fs: Files, db: Ledger, h: History, id: nat)
    requires id in db.uploads && !db.uploads[id].committed
    requires Inv(env, fs, db, h)
    ensures !Finalized(db.generations, id)
  {
    hide FilesSound, RequestsSound, UploadsSound, ChainSound;
  }

  /** Resuming an upload whose object is linked removes its staging name; if the file carries a tail, that dooms it. */
  lemma ResumeCanDoom(env: Env, fs: Files, db: Ledger, h: History, id: nat)
    requires id in db.uploads && id in h && !db.uploads[id].committed && Home(id, db.uploads[id]) in fs.names
    requires FinalizationBytes(fs, Home(id, db.uploads[id])).Some?
    requires |FinalizationBytes(fs, Home(id, db.uploads[id])).value| > db.uploads[id].committedBytes
    requires Inv(env, fs, db, h)
    ensures Inv(env, Removed(fs, Staging(id)), db, h) && Doomed(env, Removed(fs, Staging(id)), db, h, id)
  {
    hide Inv, Late;
    UploadIsSound(env, fs, db, h, id);
    RemovedStep(env, fs, db, h, id);
    NotFinalizedYet(env, fs, db, h, id);
    OneFile(env, fs, id, db.uploads[id], h[id]);
    LinkedFiles(fs, db.uploads);
    hide UploadSound, FilesSound;
  }

  /** As long as an upload is not orphaned, an append that stops right after cutting the tail brings the committed bytes
      back, so a complete upload becomes finalizable again; there is room for that append, in bytes and in chunks. */
  lemma TailCanBeCut(env: Env, fs: Files, db: Ledger, h: History, id: nat) returns (gs: Files)
    requires EnvSound(env) && id in db.uploads && id in h && !db.uploads[id].committed
    requires Concat(h[id]) != [] && !Orphaned(fs, id, db.uploads[id])
    requires Inv(env, fs, db, h)
    ensures gs == fs || Rewritten(fs, gs, Staging(id), db.uploads[id].committedBytes, 0)
    ensures gs == fs || |db.uploads[id].rows| < env.maximumChunkCount
    ensures gs == fs ||
      AppendFits(fs, Staging(id), db.uploads[id].committedBytes, [0], env.maximumChunk, env.maximumGeneration)
    ensures Inv(env, gs, db, h) && FinalizationBytes(gs, Home(id, db.uploads[id])) == Some(Concat(h[id]))
  {
    hide Inv, Concat;
    var u := db.uploads[id];
    UploadIsSound(env, fs, db, h, id);
    LinkedFiles(fs, db.uploads);
    WholeUpload(env, fs, id, u, h[id]);
    if |FinalizationBytes(fs, Home(id, u)).value| == u.committedBytes {
      gs := fs;
    } else {
      var inode := fs.names[Staging(id)];
      assert fs.contents[inode][..u.committedBytes] == Concat(h[id]);
      gs := fs.(contents := fs.contents[inode := fs.contents[inode][..u.committedBytes]]);
      RewrittenBy(fs, gs, Staging(id), u.committedBytes, 0, []);
      RewrittenStep(env, fs, gs, db, h, id, 0);
    }
  }
}
