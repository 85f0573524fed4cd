/**
 The Backup custody coordinator of one account: begin, append and finalize, each a mix of database transactions and
 file operations that may stop anywhere. Calls of one account run one at a time.
 */
module CustodyCoordinator {
  import opened Bytes
  import opened CustodyFiles
  import opened CustodyLedger
  import opened CustodySteps
  import opened CustodyLateAppends
  import OuterWire
  import OuterWireStream

  datatype Why = BadRequest | Unauthorized | NotFound | Conflict | BytesMissing | BytesInvalid
               | StagingFailed | RangeFailed | PublishFailed

  /** What the rest of the service answers: the caller's authority is current, it was good when the stored receipt was
      issued, and the account has room for another generation. */
  datatype Verdicts = Verdicts(admitted: bool, recognized: bool, roomy: bool)

  /** A reply, a refusal, or nothing: the service stopped somewhere on the way. */
  datatype Reply<T> = Ok(value: T) | No(why: Why) | Lost

  /** The wire is what the client asked to publish and continues the target exactly where the client expected it: from the
      start, or from the current head, by number, reference and outer digest. */
  ghost predicate ExtendsHead(env: Env, id: nat, r: Request, t: Target, s: OuterWireStream.Summary) {
    && s.backupSetID == t.backupSetID && s.generation == r.generation <= OuterWire.MAX_INT64
    && r.expectedHead == t.headReference && (t.head.Some? <==> t.headReference.Some?)
    && r.generation == (if t.head.Some? then t.head.value.generation + 1 else 1)
    && s.predecessorOuterDigest == (if t.head.Some? then Some(t.head.value.outerDigest) else None)
    && (t.head.Some? ==> t.head.value.generation > 0)
    && r.targetID != 0 && t.backupSetID != 0 && id != 0 && s.outerByteCount != 0 && env.codec.digestShape(s.outerDigest)
    && (t.headReference.Some? ==> env.referenceShape(t.headReference.value))
  }

  /** The record of a validated upload, if it extends the target's current head as the client expected. */
  function GenerationFromSummary(env: Env, id: nat, r: Request, t: Target,
      s: OuterWireStream.Summary): (g: Option<Generation>)
    ensures g.Some? <==> ExtendsHead(env, id, r, t, s)
    ensures g.Some? ==> g.value.uploadID == id && HomeOf(g.value) == Object(r.targetID, r.generation, id)
    ensures g.Some? ==> g.value.backupSetID == s.backupSetID == t.backupSetID && g.value.generation == s.generation
    ensures g.Some? ==> g.value.outerDigest == s.outerDigest && g.value.outerByteCount == s.outerByteCount
    ensures g.Some? ==> (t.head.Some? <==> t.headReference.Some?) && g.value.predecessorReference == t.headReference
    ensures g.Some? ==> g.value.generation == if t.head.None? then 1 else t.head.value.generation + 1
    ensures g.Some? ==> s.predecessorOuterDigest == if t.head.None? then None else Some(t.head.value.outerDigest)
  {
    if r.generation > OuterWire.MAX_INT64 || s.generation > OuterWire.MAX_INT64
       || s.backupSetID != t.backupSetID || s.generation != r.generation then None
    else if r.generation == 1 && (t.head.Some? || t.headReference.Some?
                                  || r.expectedHead.Some? || s.predecessorOuterDigest.Some?) then None
    else if r.generation != 1 && (t.head.None? || t.headReference.None? || r.expectedHead != t.headReference
              || s.predecessorOuterDigest != Some(t.head.value.outerDigest)
              || r.generation != t.head.value.generation + 1) then None
    else
      var g := Generation(r.targetID, t.backupSetID, r.generation, id, s.outerDigest, s.outerByteCount,
        t.headReference);
      if RecordValid(env, g) then Some(g) else None
  }

  predicate RecordValid(env: Env, g: Generation) {
    && g.targetID != 0 && g.backupSetID != 0 && g.generation != 0 && g.uploadID != 0 && g.outerByteCount != 0
    && env.codec.digestShape(g.outerDigest) && (g.generation == 1 <==> g.predecessorReference.None?)
    && (g.predecessorReference.Some? ==> env.referenceShape(g.predecessorReference.value))
  }

  /** The request is for a known target and either repeats one exactly or can get a fresh upload. */
  ghost predicate MayReserve(db: Ledger, r: Request, newID: nat, roomy: bool) {
    && TargetKnown(db.targets, r)
    && if r.requestID in db.requests then
         db.requests[r.requestID] in db.uploads && db.uploads[db.requests[r.requestID]].request == r
       else roomy && newID !in db.uploads
  }

  /** The chunk repeats a committed one exactly, or fits at the committed offset of a staged file. */
  ghost predicate MayAppend(env: Env, fs: Files, u: Upload, chunks: seq<seq<byte>>, id: nat, offset: nat,
      chunk: seq<byte>, roomy: bool) {
    if offset < u.committedBytes then
      Kept(env, chunks, offset, chunk)
    else
      && offset == u.committedBytes && |u.rows| < env.maximumChunkCount && roomy
      && AppendFits(fs, Staging(id), offset, chunk, env.maximumChunk, env.maximumGeneration)
  }

  /** The bytes are an accepted wire of the committed length whose record extends the target's head. */
  ghost predicate Finalizable(env: Env, fs: Files, db: Ledger, id: nat) {
    && id in db.uploads && db.uploads[id].request.targetID in db.targets
    && var u, bytes := db.uploads[id], FinalizationBytes(fs, Home(id, db.uploads[id]));
    && bytes.Some? && |bytes.value| == u.committedBytes
    && OuterWireStream.StreamAccepts(bytes.value, env.maximumGeneration, env.codec)
    && GenerationFromSummary(env, id, u.request, db.targets[u.request.targetID], WireSummary(env, bytes.value)).Some?
  }

  /** Who may finalize: whoever holds the receipt's credential once committed, current or not, and before that the
      uploader, as long as the account has room for another generation. */
  ghost predicate MayFinalize(env: Env, fs: Files, db: Ledger, id: nat, credential: nat, v: Verdicts) {
    if Finalized(db.generations, id) then
      v.recognized && exists i :: 0 <= i < |db.generations| && IsReceiptOf(db.generations[i], id, credential)
    else
      && v.admitted && v.roomy && id in db.uploads && db.uploads[id].request.credential == credential
      && Finalizable(env, fs, db, id)
  }

  /** The row records the upload of the request and carries the receipt issued for it. */
  ghost predicate Issued(env: Env, row: Stored, id: nat, r: Request, receiptID: nat, now: int) {
    && row.record.uploadID == id && row.record.targetID == r.targetID && row.record.generation == r.generation
    && row.reference == env.reference(row.record) && row.receipt.receiptID == receiptID
    && row.receipt.requestID == r.requestID && row.receipt.credential == r.credential
    && row.receipt.generation == row.record && row.receipt.issuedAtMilliseconds == now
  }

  /** One row is added, the upload is marked and the row becomes its target's head; nothing else changes. */
  ghost predicate CommitsOne(env: Env, before: Ledger, after: Ledger, id: nat, receiptID: nat, now: int) {
    && id in before.uploads && before.generations < after.generations
    && var row, u := after.generations[|before.generations|], before.uploads[id];
    && after.generations == before.generations + [row] && Issued(env, row, id, u.request, receiptID, now)
    && after.uploads == before.uploads[id := u.(committed := true)] && after.requests == before.requests
    && u.request.targetID in before.targets
    && var head := before.targets[u.request.targetID].(head := Some(row.record), headReference := Some(row.reference));
    after.targets == before.targets[u.request.targetID := head]
  }

  predicate Owns(u: Upload, credential: nat) {
    u.request.credential == credential
  }

  /** No upload disappears, and none but this one appears or changes. */
  ghost predicate OnlyUpload(before: map<nat, Upload>, after: map<nat, Upload>, id: nat) {
    && (forall k :: k in before ==> k in after && (k != id ==> after[k] == before[k]))
    && (forall k :: k in after && k != id ==> k in before)
  }

  predicate IsReceiptOf(row: Stored, id: nat, credential: nat) {
    row.record.uploadID == id && row.receipt.credential == credential
  }

  /** The `i`-th committed chunk starts at `offset`. */
  ghost predicate ChunkAt(chunks: seq<seq<byte>>, i: nat, offset: nat) {
    i < |chunks| && |Concat(chunks[..i])| == offset
  }

  /** The committed chunks have one of this length and digest at `offset`. */
  ghost predicate Kept(env: Env, chunks: seq<seq<byte>>, offset: nat, chunk: seq<byte>) {
    exists i: nat :: ChunkAt(chunks, i, offset) && |chunks[i]| == |chunk| && env.sha(chunks[i]) == env.sha(chunk)
  }

  /** The committed chunk at an offset is where its row says, and rows have different offsets. */
  lemma {:induction false} ChunkIsThere(chunks: seq<seq<byte>>, i: nat)
    requires i < |chunks|
    ensures |Concat(chunks[..i])| + |chunks[i]| <= |Concat(chunks)|
    ensures Concat(chunks)[|Concat(chunks[..i])|..|Concat(chunks[..i])| + |chunks[i]|] == chunks[i]
    decreases |chunks|
  {
    var last := |chunks| - 1;
    if i < last {
      assert chunks[..last][..i] == chunks[..i];
      ChunkIsThere(chunks[..last], i);
    }
  }

  lemma OffsetsRise(env: Env, rows: seq<ChunkRow>, chunks: seq<seq<byte>>, i: nat, j: nat)
    requires RowsDescribe(env, rows, chunks) && i < j < |rows|
    ensures rows[i].offset < rows[j].offset
  {
    hide Concat;
    assert chunks[..j][..i] == chunks[..i];
    ChunkIsThere(chunks[..j], i);
  }

  method FindRow(rows: seq<ChunkRow>, offset: nat) returns (row: Option<ChunkRow>)
    ensures row.Some? ==> row.value in rows && row.value.offset == offset
    ensures row.None? ==> forall i :: 0 <= i < |rows| ==> rows[i].offset != offset
  {
    for i := 0 to |rows|
      invariant forall j :: 0 <= j < i ==> rows[j].offset != offset
    {
      if rows[i].offset == offset {
        return Some(rows[i]);
      }
    }
    return None;
  }

  class Coordinator {
    const env: Env
    const content: ContentStore
    var uploads: map<nat, Upload>
    var requests: map<nat, nat>
    var targets: map<nat, Target>
    var generations: seq<Stored>
    ghost var history: History

    ghost function Db(): Ledger
      reads this
    {
      Ledger(uploads, requests, targets, generations)
    }

    ghost predicate Valid()
      reads this, content
    {
      EnvSound(env) && Inv(env, content.View(), Db(), history)
    }

    /** An account with targets and nothing uploaded. */
    constructor (env: Env, backupSets: map<nat, nat>, steady: bool)
      requires EnvSound(env)
      ensures Valid() && this.env == env && generations == [] && fresh(content) && content.steady == steady
    {
      this.env := env;
      content := new ContentStore(steady);
      uploads, requests, generations, history := map[], map[], [], map[];
      targets := map t | t in backupSets :: Target(backupSets[t], None, None);
    }

    /** The reservation transaction: a repeated request gets its upload back, a new one gets a fresh upload. */
    method ReserveUpload(request: Request, newID: nat, roomy: bool) returns (r: Reply<nat>, created: bool)
      requires Valid()
      modifies this
      ensures generations == old(generations) && targets == old(targets)
      ensures r.Ok? ==> r.value in uploads && uploads[r.value].request == request
      ensures r.Ok? ==> (created <==> request.requestID !in old(requests))
      ensures r.Ok? && created ==> r.value == newID && uploads[newID] == Upload(request, 0, false, [])
      ensures r.Ok? ==> request.requestID in requests && requests[request.requestID] == r.value
      ensures Db() == old(Db()) || (newID !in old(uploads) && OnlyUpload(old(uploads), uploads, newID))
      ensures r.Ok? && created ==> Staging(newID) !in content.names && Home(newID, uploads[newID]) !in content.names
      ensures r.Ok? && !created ==> r.value == old(requests)[request.requestID] && Db() == old(Db())
      ensures r.Ok? ==> MayReserve(old(Db()), request, newID, roomy)
      ensures r.No? ==> !MayReserve(old(Db()), request, newID, roomy) && Db() == old(Db())
      ensures content.steady ==> !r.Lost?
      ensures Remembers(old(history), history) &&
        DoomStays(env, content.View(), old(Db()), old(history), content.View(), Db(), history)
      ensures r != No(StagingFailed) && Valid()
    {
      hide Inv, FilesSound, UploadsSound, GenerationsSound, RequestsSound, Doomed;
      created := false;
      InvParts(env, content.View(), Db(), history);
      if !TargetKnown(targets, request) {
        return No(Conflict), false;
      }
      if request.requestID in requests {
        var id := requests[request.requestID];
        RequestKnown(Db(), request.requestID);
        if uploads[id].request != request {
          return No(Conflict), false;
        }
        return Ok(id), false;
      }
      if !roomy || newID in uploads {
        return No(Conflict), false;
      }
      if * { if !content.steady { return Lost, false; } }
      NoFilesYet(content.View(), uploads, newID, request);
      ReserveStep(env, content.View(), Db(), history, newID, request);
      SameUploads(env, content.View(), Db(), history);
      DoomReserve(env, content.View(), Db(), history, newID, request);
      uploads, requests := uploads[newID := Upload(request, 0, false, [])], requests[request.requestID := newID];
      history := history[newID := []];
      if * { if !content.steady { return Lost, true; } }
      return Ok(newID), true;
    }

    /** Staging for a reserved upload, new or resumed. No state that a run can reach makes it refuse. */
    method StageUpload(id: nat, created: bool) returns (o: Outcome)
      requires id in uploads && !uploads[id].committed
      requires created ==> Staging(id) !in content.names && Home(id, uploads[id]) !in content.names
      requires Valid()
      modifies content
      ensures o == Done ==> FinalizationBytes(content.View(), Home(id, uploads[id])).Some?
      ensures content.steady ==> o == Done
      ensures DoomStays(env, old(content.View()), Db(), history, content.View(), Db(), history)
      ensures o != Refused && Valid()
    {
      hide Inv, FilesSound, UploadsSound, GenerationsSound, RequestsSound, UploadSound, StagingSound, BytesAt, Created,
        Doomed;
      InvParts(env, content.View(), Db(), history);
      LinkedFiles(content.View(), uploads);
      if created {
        o := content.PrepareUpload(id);
      } else {
        StagingAlwaysSound(env, content.View(), Db(), history, id);
        o := content.EnsureStaging(Home(id, uploads[id]), uploads[id].committedBytes, env.maximumChunk,
          env.maximumGeneration);
      }
      EnsuredStep(env, old(content.View()), content.View(), Db(), history, id);
      EnsuredDoom(env, old(content.View()), content.View(), Db(), history, id);
      if o == Done {
        if created { NamedBytes(content.View(), Staging(id)); }
        ReadyBytes(env, content.View(), Db(), history, id);
      }
    }

    /** Beginning again with the same request resumes the same upload, with its bytes in place. */
    method BeginUpload(request: Request, newID: nat, admitted: bool, roomy: bool) returns (r: Reply<nat>)
      requires Valid()
      modifies this, content
      ensures generations == old(generations) && targets == old(targets)
      ensures r.Ok? ==> r.value in uploads && uploads[r.value].request == request
      ensures r.Ok? ==> FinalizationBytes(content.View(), Home(r.value, uploads[r.value])).Some?
      ensures r.Ok? && request.requestID in old(requests) ==>
        r.value == old(requests)[request.requestID] && Db() == old(Db())
      ensures r.Ok? ==> request.requestID in requests && requests[request.requestID] == r.value
      ensures r.Ok? && request.requestID !in old(requests) ==>
        r.value == newID && uploads[newID] == Upload(request, 0, false, [])
      ensures Db() == old(Db()) || (newID !in old(uploads) && OnlyUpload(old(uploads), uploads, newID))
      ensures r.Ok? ==> admitted && MayReserve(old(Db()), request, newID, roomy)
      ensures r.No? ==> !(admitted && MayReserve(old(Db()), request, newID, roomy))
      ensures content.steady ==> !r.Lost?
      ensures Remembers(old(history), history) &&
        DoomStays(env, old(content.View()), old(Db()), old(history), content.View(), Db(), history)
      ensures r != No(StagingFailed) && Valid()
    {
      hide Inv, BytesAt, MayReserve, Doomed;
      if !admitted {
        return No(Unauthorized);
      }
      var created;
      r, created := ReserveUpload(request, newID, roomy);
      if !r.Ok? {
        return;
      }
      var id := r.value;
      if created || !uploads[id].committed {
        ghost var reserved := Db();
        var o := StageUpload(id, created);
        DoomStaysOn(env, old(content.View()), old(Db()), old(history), old(content.View()), reserved, history,
          content.View(), Db(), history);
        if o == Interrupted { return Lost; }
      } else {
        UploadIsSound(env, content.View(), Db(), history, id);
        CommittedBytesPresent(env, content.View(), id, uploads[id], history[id]);
      }
    }

    /** A chunk below the committed offset: accepted exactly when it is the one that was stored there. */
    method RetryChunk(id: nat, offset: nat, chunk: seq<byte>) returns (r: Reply<nat>)
      requires id in uploads && id in history && chunk != [] && offset < uploads[id].committedBytes
      requires Valid()
      ensures r == Ok(offset + |chunk|) || r == No(Conflict)
      ensures r.Ok? <==> Kept(env, history[id], offset, chunk)
    {
      hide Inv, FilesSound, UploadSound, BytesAt, Concat;
      UploadIsSound(env, content.View(), Db(), history, id);
      LinkedFiles(content.View(), uploads);
      var row := FindRow(uploads[id].rows, offset);
      StoredRow(env, content.View(), id, uploads[id], history[id], offset, chunk, row);
      if row.None? || row.value.digest != env.sha(chunk) || row.value.length != |chunk| ||
         row.value.next != offset + |chunk|
         || row.value.next > uploads[id].committedBytes {
        return No(Conflict);
      }
      var intact := content.VerifyUploadRange(Home(id, uploads[id]), offset, |chunk|, env.sha(chunk), env.sha);
      if !intact {
        return No(RangeFailed);
      }
      return Ok(row.value.next);
    }

    /** Appends at the committed offset: file first, then the row. A crash in between is repaired by the next append. */
    method AppendChunk(id: nat, chunk: seq<byte>) returns (r: Reply<nat>)
      requires id in uploads && id in history && chunk != [] && |uploads[id].rows| < env.maximumChunkCount
      requires Valid()
      modifies this, content
      ensures generations == old(generations) && targets == old(targets)
      ensures r == Ok(old(uploads)[id].committedBytes + |chunk|) || r == Lost ||
        (r == No(BytesMissing) && Db() == old(Db()))
      ensures OnlyUpload(old(uploads), uploads, id) && requests == old(requests)
      ensures uploads[id] == old(uploads)[id] || uploads[id] == Longer(env, old(uploads)[id], chunk)
      ensures history == old(history) || history == old(history)[id := old(history)[id] + [chunk]]
      ensures r.Ok? ==> history == old(history)[id := old(history)[id] + [chunk]]
      ensures r.Ok? ==>
        AppendFits(old(content.View()), Staging(id), old(uploads)[id].committedBytes, chunk, env.maximumChunk,
          env.maximumGeneration)
      ensures r.No? ==>
        !AppendFits(old(content.View()), Staging(id), old(uploads)[id].committedBytes, chunk, env.maximumChunk,
          env.maximumGeneration)
      ensures content.steady ==> !r.Lost?
      ensures DoomStays(env, old(content.View()), old(Db()), old(history), content.View(), Db(), history)
      ensures Valid()
    {
      hide Inv, FilesSound, UploadSound, BytesAt, Concat, Rewritten, Appended, AppendFits, Holds, Doomed, OnlyTouches;
      UploadIsSound(env, content.View(), Db(), history, id);
      LinkedFiles(content.View(), uploads);
      var committed := uploads[id].committedBytes;
      var o := content.ReconcileAndAppend(id, committed, chunk, env.maximumChunk, env.maximumGeneration);
      if o == Refused {
        return No(BytesMissing);
      }
      if content.View() != old(content.View()) {
        AppendOpensStaging(env, old(content.View()), id, uploads[id], history[id], chunk);
        RewrittenStep(env, old(content.View()), content.View(), Db(), history, id, |chunk|);
        RewrittenTouches(old(content.View()), content.View(), uploads, id, committed, |chunk|);
        DoomFile(env, old(content.View()), content.View(), Db(), history, id);
      }
      if o == Interrupted { return Lost; }
      AppendOpensStaging(env, old(content.View()), id, uploads[id], history[id], chunk);
      AppendedBytes(env, old(content.View()), id, uploads[id], history[id], chunk);
      if * { if !content.steady { return Lost; } }
      CommitChunkStep(env, content.View(), Db(), history, id, chunk);
      DoomChunk(env, content.View(), Db(), history, id, chunk);
      uploads := uploads[id := Longer(env, uploads[id], chunk)];
      history := history[id := history[id] + [chunk]];
      if * { if !content.steady { return Lost; } }
      return Ok(committed + |chunk|);
    }

    /** One chunk, new or repeated. Repeating a committed chunk answers the same next offset and changes nothing. */
    method AppendUploadChunk(id: nat, credential: nat, offset: nat, chunk: seq<byte>, digest: string, admitted: bool,
        roomy: bool)
      returns (r: Reply<nat>)
      requires Valid()
      modifies this, content
      ensures generations == old(generations) && targets == old(targets)
      ensures OnlyUpload(old(uploads), uploads, id) && requests == old(requests)
      ensures Db() == old(Db()) || (id in old(uploads) && uploads[id] == Longer(env, old(uploads)[id], chunk))
      ensures r.Ok? ==> id in history && r.value == offset + |chunk| && Kept(env, history[id], offset, chunk)
      ensures id in old(history) && Kept(env, old(history)[id], offset, chunk) &&
        RequestSound(old(uploads), id, credential, chunk, digest) && admitted
        ==> Db() == old(Db()) && content.View() == old(content.View()) && (r == Ok(offset + |chunk|) || r == Lost)
      ensures Remembers(old(history), history)
      ensures DoomStays(env, old(content.View()), old(Db()), old(history), content.View(), Db(), history)
      ensures r.Ok? ==> admitted && RequestSound(old(uploads), id, credential, chunk, digest)
      ensures r.Ok? ==>
        id in old(history) &&
        MayAppend(env, old(content.View()), old(uploads)[id], old(history)[id], id, offset, chunk, roomy)
      ensures r.No? && admitted && RequestSound(old(uploads), id, credential, chunk, digest) && id in old(history)
        ==> !MayAppend(env, old(content.View()), old(uploads)[id], old(history)[id], id, offset, chunk, roomy)
      ensures content.steady ==> !r.Lost?
      ensures r != No(RangeFailed) && Valid()
    {
      hide Inv, FilesSound, UploadSound, BytesAt, Concat, Kept, AppendFits, Doomed;
      if chunk == [] || env.sha(chunk) != digest {
        return No(BadRequest);
      }
      if !admitted {
        return No(Unauthorized);
      }
      if |chunk| > env.maximumChunk {
        return No(BadRequest);
      }
      if id !in uploads {
        return No(NotFound);
      }
      if uploads[id].request.credential != credential {
        return No(Unauthorized);
      }
      if * { if !content.steady { return Lost; } }
      UploadIsSound(env, content.View(), Db(), history, id);
      KeptBelow(env, content.View(), id, uploads[id], history[id], offset, chunk);
      if offset < uploads[id].committedBytes {
        r := RetryChunk(id, offset, chunk);
        if * { if !content.steady { return Lost; } }
        return;
      }
      if offset != uploads[id].committedBytes || |uploads[id].rows| >= env.maximumChunkCount || !roomy {
        return No(Conflict);
      }
      KeptAtEnd(env, history[id], chunk);
      UploadBytes(env, content.View(), id, uploads[id], history[id]);
      r := AppendChunk(id, chunk);
    }

    ghost predicate RequestSound(uploads: map<nat, Upload>, id: nat, credential: nat, chunk: seq<byte>,
        digest: string) {
      && id in uploads && uploads[id].request.credential == credential
      && 0 < |chunk| <= env.maximumChunk && env.sha(chunk) == digest
    }

    method LoadGenerationByUpload(id: nat) returns (row: Option<Stored>)
      ensures row.Some? ==> row.value in generations && row.value.record.uploadID == id
      ensures row.None? <==> !Finalized(generations, id)
    {
      for i := 0 to |generations|
        invariant forall j :: 0 <= j < i ==> generations[j].record.uploadID != id
      {
        if generations[i].record.uploadID == id {
          return Some(generations[i]);
        }
      }
      return None;
    }

    /** Validates the upload's bytes and works out the generation they would become. */
    method ExamineUpload(id: nat) returns (r: Reply<Generation>)
      requires id in uploads && id in history && !uploads[id].committed
      requires Valid()
      ensures r.Ok? ==> Examined(id, r.value)
      ensures r == No(BytesMissing) ==> uploads[id].committedBytes == 0
      ensures r.No? ==> r.why in {BytesMissing, BytesInvalid, Conflict}
      ensures !r.Lost? && (r.Ok? ==> Finalizable(env, content.View(), Db(), id))
      ensures content.steady && Finalizable(env, content.View(), Db(), id) ==> r.Ok?
    {
      hide Inv, FilesSound, UploadSound, BytesAt, Concat, OuterWireStream.StreamAccepts, OuterWire.Accepts;
      UploadIsSound(env, content.View(), Db(), history, id);
      LinkedFiles(content.View(), uploads);
      var bytes := content.OpenFinalizationBytes(Home(id, uploads[id]));
      if bytes.None? {
        NothingCommitted(env, content.View(), id, uploads[id], history[id]);
        return No(BytesMissing);
      }
      var source := new OuterWireStream.Source(bytes.value, content.steady);
      var summary := OuterWireStream.ValidateOuterStream(source, env.maximumGeneration, env.codec);
      if summary.None? || summary.value.outerByteCount != uploads[id].committedBytes {
        return No(BytesInvalid);
      }
      AcceptedOnStream(env, bytes.value);
      WholeUpload(env, content.View(), id, uploads[id], history[id]);
      var r0 := uploads[id].request;
      var g := GenerationFromSummary(env, id, r0, targets[r0.targetID], summary.value);
      if g.None? {
        return No(Conflict);
      }
      return Ok(g.value);
    }

    /** The record is the next link of its target's chain for exactly the bytes on disk. */
    ghost predicate Examined(id: nat, g: Generation)
      reads this, content
      requires id in uploads && id in history
    {
      && g.targetID in targets && g.uploadID == id && HomeOf(g) == Home(id, uploads[id])
      && FinalizationBytes(content.View(), Home(id, uploads[id])) == Some(Concat(history[id]))
      && g.outerByteCount == |Concat(history[id])| && g.outerDigest == env.codec.digest(Concat(history[id]))
      && (forall receipt ::
           Continues(env, targets[g.targetID], Stored(g, env.reference(g), receipt), Concat(history[id])))
    }

    /** Publishes examined bytes. Interrupted or not, the bytes stay where finalization finds them, and publishing the
        same record again goes on from there. */
    method PublishUpload(id: nat, g: Generation) returns (o: Outcome)
      requires id in uploads && id in history && !uploads[id].committed && Examined(id, g)
      requires Valid()
      modifies content
      ensures Examined(id, g)
      ensures o == Done ==> Staging(id) !in content.names
      ensures content.steady ==> o == Done
      ensures OnlyTouches(old(content.View()), content.View(), id)
      ensures o != Refused && Valid()
    {
      hide Inv, FilesSound, UploadSound, Concat, Continues, WithObject, Removed, Publishable, OnlyTouches;
      UploadIsSound(env, content.View(), Db(), history, id);
      LinkedFiles(content.View(), uploads);
      ExaminedIsPublishable(env, content.View(), id, uploads[id], history[id], g);
      o := content.Publish(Home(id, uploads[id]), g.outerByteCount, g.outerDigest, env.codec.digest);
      PublishedStep(env, old(content.View()), content.View(), Db(), history, id);
      PublishedTouches(old(content.View()), content.View(), uploads, id);
      if o == Done {
        RemovedIsGone(WithObject(old(content.View()), Home(id, uploads[id])), Staging(id));
      }
    }

    /** One upload becomes one generation, with one receipt however often it is finalized. */
    method FinalizeUpload(id: nat, credential: nat, v: Verdicts, receiptID: nat, now: int) returns (r: Reply<Receipt>)
      requires Valid()
      modifies this, content
      ensures old(generations) <= generations
      ensures history == old(history)
      ensures r.Ok? ==>
        exists i :: 0 <= i < |generations| && generations[i].record.uploadID == id && generations[i].receipt == r.value
      ensures r.Ok? ==> r.value.credential == credential
      ensures Db() == old(Db()) || CommitsOne(env, old(Db()), Db(), id, receiptID, now)
      ensures r.Ok? && !Finalized(old(generations), id) ==>
        CommitsOne(env, old(Db()), Db(), id, receiptID, now) && generations[|old(generations)|].receipt == r.value
      ensures r == No(BytesMissing) ==> id in uploads && uploads[id].committedBytes == 0
      ensures r == No(NotFound) <==> !Finalized(old(generations), id) && v.admitted && id !in old(uploads)
      ensures r == No(Unauthorized) <==>
        !Finalized(old(generations), id) && !(v.admitted && (id in old(uploads) ==> Owns(old(uploads)[id], credential)))
      ensures Finalized(old(generations), id) ==>
        generations == old(generations) && content.View() == old(content.View())
      ensures r.Ok? ==> MayFinalize(env, old(content.View()), old(Db()), id, credential, v)
      ensures content.steady ==> (r.Ok? <==> MayFinalize(env, old(content.View()), old(Db()), id, credential, v))
      ensures DoomStays(env, old(content.View()), old(Db()), old(history), content.View(), Db(), history)
      ensures r != No(PublishFailed) && Valid()
    {
      hide Inv, FilesSound, UploadSound, BytesAt, Concat, Continues, Finalizable, Doomed, OnlyTouches, Orphaned,
        CommitsOne;
      var existing := LoadGenerationByUpload(id);
      if existing.Some? {
        OneReceipt(env, content.View(), Db(), history, id, existing.value);
        if existing.value.receipt.credential != credential || !v.recognized {
          return No(Conflict);
        }
        return Ok(existing.value.receipt);
      }
      if !v.admitted {
        return No(Unauthorized);
      }
      if id !in uploads {
        return No(NotFound);
      }
      if uploads[id].request.credential != credential {
        return No(Unauthorized);
      }
      UploadIsSound(env, content.View(), Db(), history, id);
      UncommittedUpload(env, content.View(), Db(), history, id);
      var examined := ExamineUpload(id);
      if !examined.Ok? {
        return No(examined.why);
      }
      var g := examined.value;
      NotDoomed(env, content.View(), Db(), history, id);
      if * { if !content.steady { return Lost; } }
      var o := PublishUpload(id, g);
      if o == Refused {
        return No(PublishFailed);
      }
      DoomFile(env, old(content.View()), content.View(), Db(), history, id);
      if o == Interrupted { return Lost; }
      if !v.roomy {
        return No(Conflict);
      }
      var receipt := Receipt(receiptID, uploads[id].request.requestID, credential, g, now);
      var row := Stored(g, env.reference(g), receipt);
      if * { if !content.steady { return Lost; } }
      CommitGenerationStep(env, content.View(), Db(), history, row);
      NotDoomedNow(env, content.View(), Db(), history, row);
      DoomGeneration(env, content.View(), Db(), history, row);
      RowCommitted(env, Db(), id, row, receiptID, now);
      generations := generations + [row];
      targets := targets[g.targetID := NewHead(targets[g.targetID], row)];
      uploads := uploads[id := uploads[id].(committed := true)];
      assert generations[|generations| - 1] == row;
      if * { if !content.steady { return Lost; } }
      return Ok(receipt);
    }
  }

  lemma RowCommitted(env: Env, db: Ledger, id: nat, row: Stored, receiptID: nat, now: int)
    requires id in db.uploads && db.uploads[id].request.targetID in db.targets
    requires Issued(env, row, id, db.uploads[id].request, receiptID, now)
    ensures CommitsOne(env, db, CommitGeneration(db, row), id, receiptID, now)
  {
  }

  /** An upload's row is the only one, so it decides whose receipt it is. */
  lemma OneReceipt(env: Env, fs: Files, db: Ledger, h: History, id: nat, row: Stored)
    requires row in db.generations && row.record.uploadID == id
    requires Inv(env, fs, db, h)
    ensures forall i, credential :: 0 <= i < |db.generations| && IsReceiptOf(db.generations[i], id, credential) ==>
      row.receipt.credential == credential
  {
    hide FilesSound, UploadsSound, RequestsSound, ChainSound, RowSound;
  }

  lemma ExaminedIsPublishable(env: Env, fs: Files, id: nat, u: Upload, chunks: seq<seq<byte>>, g: Generation)
    requires UploadSound(env, fs, id, u, chunks) && FinalizationBytes(fs, Home(id, u)) == Some(Concat(chunks))
    requires g.outerByteCount == |Concat(chunks)| && g.outerDigest == env.codec.digest(Concat(chunks))
    ensures Publishable(fs, Home(id, u), g.outerByteCount, g.outerDigest, env.codec.digest)
  {
    hide Concat, RowsDescribe, BytesAt;
  }

  /** Whatever publishing leaves on disk, the invariant holds and the bytes to finalize are the same. */
  lemma PublishedStep(env: Env, fs: Files, gs: Files, db: Ledger, h: History, id: nat)
    requires Inv(env, fs, db, h) && id in db.uploads && !db.uploads[id].committed
    requires FinalizationBytes(fs, Home(id, db.uploads[id])).Some?
    requires gs == fs || gs == WithObject(fs, Home(id, db.uploads[id]))
          || gs == Removed(WithObject(fs, Home(id, db.uploads[id])), Staging(id))
    ensures Inv(env, gs, db, h) &&
      FinalizationBytes(gs, Home(id, db.uploads[id])) == FinalizationBytes(fs, Home(id, db.uploads[id]))
  {
    hide Inv, WithObject, Removed, UploadSound;
    UploadIsSound(env, fs, db, h, id);
    OneFile(env, fs, id, db.uploads[id], h[id]);
    WithObjectStep(env, fs, db, h, id);
    SameBytes(fs, Home(id, db.uploads[id]));
    RemovedStep(env, WithObject(fs, Home(id, db.uploads[id])), db, h, id);
  }

  lemma SameBytes(fs: Files, home: Name)
    requires home.Object? && FinalizationBytes(fs, home).Some?
    requires Staging(home.uploadID) in fs.names && home in fs.names ==>
      fs.names[Staging(home.uploadID)] == fs.names[home]
    ensures home in WithObject(fs, home).names
    ensures FinalizationBytes(WithObject(fs, home), home) == FinalizationBytes(fs, home)
    ensures FinalizationBytes(Removed(WithObject(fs, home), Staging(home.uploadID)), home) ==
      FinalizationBytes(fs, home)
  {
  }

  lemma PublishedTouches(fs: Files, gs: Files, uploads: map<nat, Upload>, id: nat)
    requires FilesSound(fs, uploads) && id in uploads
    requires gs == fs || gs == WithObject(fs, Home(id, uploads[id])) ||
      gs == Removed(WithObject(fs, Home(id, uploads[id])), Staging(id))
    ensures OnlyTouches(fs, gs, id)
  {
    hide FilesSound, WithObject, Removed;
    var linked := WithObject(fs, Home(id, uploads[id]));
    WithObjectTouches(fs, uploads, id);
    RemovedTouches(linked, uploads, id);
  }

  /** An upload that passes examination is not doomed. */
  lemma NotDoomed(env: Env, fs: Files, db: Ledger, h: History, id: nat)
    requires Finalizable(env, fs, db, id)
    requires Inv(env, fs, db, h)
    ensures !Doomed(env, fs, db, h, id) && !Orphaned(fs, id, db.uploads[id])
  {
    hide Inv, Doomed, OuterWire.Accepts;
    if Doomed(env, fs, db, h, id) {
      DoomedIsRejected(env, fs, db, h, id);
    }
  }

  lemma NotDoomedNow(env: Env, fs: Files, db: Ledger, h: History, row: Stored)
    requires row.record.uploadID in db.uploads && row.record.uploadID in h && row.record.targetID in db.targets
    requires FinalizationBytes(fs, Home(row.record.uploadID, db.uploads[row.record.uploadID])) ==
      Some(Concat(h[row.record.uploadID]))
    requires Continues(env, db.targets[row.record.targetID], row, Concat(h[row.record.uploadID]))
    requires Inv(env, fs, db, h)
    ensures !Doomed(env, fs, db, h, row.record.uploadID)
  {
    hide Inv, Doomed, OuterWire.Accepts, Concat, BytesAt, UploadSound;
    var id := row.record.uploadID;
    UploadIsSound(env, fs, db, h, id);
    UploadBytes(env, fs, id, db.uploads[id], h[id]);
    if Doomed(env, fs, db, h, id) {
      DoomedIsRejected(env, fs, db, h, id);
    }
  }

  /** Resuming an upload changes nothing about which uploads are doomed. */
  lemma EnsuredDoom(env: Env, fs: Files, gs: Files, db: Ledger, h: History, id: nat)
    requires id in db.uploads && FilesSound(fs, db.uploads)
    requires gs == fs || (Home(id, db.uploads[id]) !in fs.names && Created(fs, gs, Staging(id)))
          || (Home(id, db.uploads[id]) in fs.names && gs == Removed(fs, Staging(id)))
    ensures DoomStays(env, fs, db, h, gs, db, h)
  {
    if gs != fs {
      if Home(id, db.uploads[id]) !in fs.names {
        CreatedTouches(fs, gs, db.uploads, id);
      } else {
        RemovedTouches(fs, db.uploads, id);
        assert Staging(id) !in fs.names ==> gs.names == fs.names;
      }
      hide FilesSound, Doomed, OnlyTouches, Created;
      DoomFile(env, fs, gs, db, h, id);
    }
  }

  lemma SameUploads(env: Env, fs: Files, db: Ledger, h: History)
    requires Inv(env, fs, db, h)
    ensures h.Keys == db.uploads.Keys
  {
    hide FilesSound, RequestsSound, GenerationsSound, UploadSound, Finalized;
  }

  lemma RemovedIsGone(fs: Files, n: Name)
    ensures n !in Removed(fs, n).names
  {
  }

  /** The database never holds an upload that is committed without a generation. */
  lemma UncommittedUpload(env: Env, fs: Files, db: Ledger, h: History, id: nat)
    requires Inv(env, fs, db, h) && id in db.uploads && !Finalized(db.generations, id)
    ensures !db.uploads[id].committed
  {
    hide FilesSound, RequestsSound, GenerationsSound, UploadSound, Finalized;
  }

  lemma NothingCommitted(env: Env, fs: Files, id: nat, u: Upload, chunks: seq<seq<byte>>)
    requires UploadSound(env, fs, id, u, chunks) && FinalizationBytes(fs, Home(id, u)).None?
    ensures u.committedBytes == 0
  {
    hide Concat;
  }

  lemma AcceptedOnStream(env: Env, bytes: seq<byte>)
    requires OuterWireStream.StreamAccepts(bytes, env.maximumGeneration, env.codec)
    ensures OuterWire.Accepts(bytes, env.codec)
  {
    hide OuterWire.Accepts;
  }

  lemma UploadBytes(env: Env, fs: Files, id: nat, u: Upload, chunks: seq<seq<byte>>)
    requires UploadSound(env, fs, id, u, chunks)
    ensures u.committedBytes == |Concat(chunks)|
  {
  }

  /** Committed chunks lie below the committed offset. */
  lemma KeptBelow(env: Env, fs: Files, id: nat, u: Upload, chunks: seq<seq<byte>>, offset: nat, chunk: seq<byte>)
    requires UploadSound(env, fs, id, u, chunks) && chunk != []
    ensures Kept(env, chunks, offset, chunk) ==> offset < u.committedBytes
  {
    hide Concat, RowsDescribe, BytesAt;
    if i: nat :| ChunkAt(chunks, i, offset) && |chunks[i]| == |chunk| && env.sha(chunks[i]) == env.sha(chunk) {
      ChunkIsThere(chunks, i);
    }
  }

  lemma KeptAtEnd(env: Env, chunks: seq<seq<byte>>, chunk: seq<byte>)
    ensures Kept(env, chunks + [chunk], |Concat(chunks)|, chunk)
  {
    hide Concat;
    assert (chunks + [chunk])[..|chunks|] == chunks;
    assert ChunkAt(chunks + [chunk], |chunks|, |Concat(chunks)|);
  }

  /** An append only touches a staged file, so the upload is not committed yet. */
  lemma AppendOpensStaging(env: Env, fs: Files, id: nat, u: Upload, chunks: seq<seq<byte>>, chunk: seq<byte>)
    requires UploadSound(env, fs, id, u, chunks) &&
      AppendFits(fs, Staging(id), u.committedBytes, chunk, env.maximumChunk, env.maximumGeneration)
    ensures !u.committed && |chunk| <= env.maximumChunk && u.committedBytes + |chunk| <= env.maximumGeneration
    ensures Staging(id) in fs.names && !Orphaned(fs, id, u)
  {
    hide Concat, RowsDescribe;
  }

  /** The row found at an offset decides whether a chunk was kept there, and its bytes are still on disk. */
  lemma StoredRow(env: Env, fs: Files, id: nat, u: Upload, chunks: seq<seq<byte>>, offset: nat, chunk: seq<byte>,
      row: Option<ChunkRow>)
    requires UploadSound(env, fs, id, u, chunks) && chunk != []
    requires row.Some? ==> row.value in u.rows && row.value.offset == offset
    requires row.None? ==> forall i :: 0 <= i < |u.rows| ==> u.rows[i].offset != offset
    ensures Kept(env, chunks, offset, chunk) <==>
      row.Some? && row.value.digest == env.sha(chunk) && row.value.length == |chunk|
    ensures row.Some? ==> row.value.next == offset + row.value.length <= u.committedBytes
    ensures row.Some? ==>
      RangeHas(FinalizationBytes(fs, Home(id, u)), offset, row.value.length, row.value.digest, env.sha)
  {
    hide Concat, BytesAt;
    assert forall k: nat :: ChunkAt(chunks, k, offset) ==> u.rows[k].offset == offset;
    if row.Some? {
      var i :| 0 <= i < |u.rows| && u.rows[i] == row.value;
      ChunkIsThere(chunks, i);
      assert ChunkAt(chunks, i, offset);
      if k: nat :| ChunkAt(chunks, k, offset) && |chunks[k]| == |chunk| && env.sha(chunks[k]) == env.sha(chunk) {
        if i < k { OffsetsRise(env, u.rows, chunks, i, k); }
        if k < i { OffsetsRise(env, u.rows, chunks, k, i); }
      }
      StoredBytes(env, fs, id, u, chunks, i);
    }
  }

  lemma StoredBytes(env: Env, fs: Files, id: nat, u: Upload, chunks: seq<seq<byte>>, i: nat)
    requires UploadSound(env, fs, id, u, chunks) && i < |chunks|
    ensures RangeHas(FinalizationBytes(fs, Home(id, u)), |Concat(chunks[..i])|, |chunks[i]|, env.sha(chunks[i]),
      env.sha)
  {
    hide Concat, BytesAt, RowsDescribe;
    ChunkIsThere(chunks, i);
    RowsNonEmpty(env, u.rows, chunks, i);
    var bytes, whole := FinalizationBytes(fs, Home(id, u)).value, Concat(chunks);
    var from, to := |Concat(chunks[..i])|, |Concat(chunks[..i])| + |chunks[i]|;
    assert bytes[..|whole|] == whole;
    assert bytes[from..to] == bytes[..|whole|][from..to];
  }

  lemma RowsNonEmpty(env: Env, rows: seq<ChunkRow>, chunks: seq<seq<byte>>, i: nat)
    requires RowsDescribe(env, rows, chunks) && i < |chunks|
    ensures chunks[i] != []
  {
  }

  lemma NamedBytes(fs: Files, n: Name)
    requires BytesAt(fs, n).Some?
    ensures n in fs.names
  {
  }

  lemma RequestKnown(db: Ledger, requestID: nat)
    requires RequestsSound(db) && requestID in db.requests
    ensures db.requests[requestID] in db.uploads
  {
  }

  /** No reachable file is rejected when an upload is resumed. */
  lemma StagingAlwaysSound(env: Env, fs: Files, db: Ledger, h: History, id: nat)
    requires Inv(env, fs, db, h) && id in db.uploads && !db.uploads[id].committed
    ensures StagingSound(fs, Home(id, db.uploads[id]), db.uploads[id].committedBytes, env.maximumChunk,
      env.maximumGeneration)
  {
    hide Inv, Concat, RowsDescribe, FilesSound;
    UploadIsSound(env, fs, db, h, id);
    LinkedFiles(fs, db.uploads);
  }

  /** Whatever resuming an upload leaves on disk, the invariant holds. */
  lemma EnsuredStep(env: Env, fs: Files, gs: Files, db: Ledger, h: History, id: nat)
    requires Inv(env, fs, db, h) && id in db.uploads && !db.uploads[id].committed
    requires gs == fs || (Home(id, db.uploads[id]) !in fs.names && Created(fs, gs, Staging(id)))
          || (Home(id, db.uploads[id]) in fs.names && gs == Removed(fs, Staging(id)))
    ensures Inv(env, gs, db, h)
  {
    hide Inv, Created, Removed;
    if gs != fs {
      if Home(id, db.uploads[id]) in fs.names {
        RemovedStep(env, fs, db, h, id);
      } else {
        CreatedStep(env, fs, gs, db, h, id);
      }
    }
  }

  lemma ReadyBytes(env: Env, fs: Files, db: Ledger, h: History, id: nat)
    requires Inv(env, fs, db, h) && id in db.uploads &&
      (Staging(id) in fs.names || Home(id, db.uploads[id]) in fs.names)
    ensures FinalizationBytes(fs, Home(id, db.uploads[id])).Some?
  {
    hide Inv, FilesSound;
    InvParts(env, fs, db, h);
    LinkedFiles(fs, db.uploads);
  }

  lemma CommittedBytesPresent(env: Env, fs: Files, id: nat, u: Upload, chunks: seq<seq<byte>>)
    requires UploadSound(env, fs, id, u, chunks) && u.committed
    ensures FinalizationBytes(fs, Home(id, u)).Some?
  {
  }

  lemma NoFilesYet(fs: Files, uploads: map<nat, Upload>, id: nat, r: Request)
    requires FilesSound(fs, uploads) && id !in uploads
    ensures Staging(id) !in fs.names && Object(r.targetID, r.generation, id) !in fs.names
  {
  }
}
