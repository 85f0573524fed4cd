/**
 The Backup custody database of one account beside its files: uploads with their committed chunks, targets with
 their heads, and the committed generations. The invariant ties all of them to the bytes on disk.
 */
module CustodyLedger {
  import opened Bytes
  import opened CustodyFiles
  import OuterWire
  import OuterWireStream

  /** A publish request; the credential stands for the whole credential reference. */
  datatype Request = Request(requestID: nat, credential: nat, targetID: nat, backupSetID: nat, generation: nat,
    expectedHead: Option<string>)

  datatype ChunkRow = ChunkRow(offset: nat, length: nat, digest: string, next: nat)

  datatype Upload = Upload(request: Request, committedBytes: nat, committed: bool, rows: seq<ChunkRow>)

  datatype Generation = Generation(targetID: nat, backupSetID: nat, generation: nat, uploadID: nat, outerDigest: string,
    outerByteCount: nat, predecessorReference: Option<string>)

  datatype Receipt = Receipt(receiptID: nat, requestID: nat, credential: nat, generation: Generation,
    issuedAtMilliseconds: int)

  datatype Stored = Stored(record: Generation, reference: string, receipt: Receipt)

  datatype Target = Target(backupSetID: nat, head: Option<Generation>, headReference: Option<string>)

  datatype Ledger = Ledger(uploads: map<nat, Upload>, requests: map<nat, nat>, targets: map<nat, Target>,
    generations: seq<Stored>)

  /** Fixed service settings and foreign functions: the wire codec, the hexadecimal SHA-256 of a chunk, the reference
      digest of a generation record and the shape of digests. */
  datatype Env = Env(codec: OuterWire.Codec, sha: seq<byte> -> string, reference: Generation -> string,
    referenceShape: string -> bool, maximumChunk: nat, maximumGeneration: nat, maximumChunkCount: nat)

  ghost predicate EnvSound(env: Env) {
    0 < env.maximumChunk <= env.maximumGeneration <= OuterWire.MAX_INT64
  }

  /** The chunks each upload has committed, in order: history that the database keeps only as digests. */
  type History = map<nat, seq<seq<byte>>>

  function Concat(chunks: seq<seq<byte>>): seq<byte> {
    if chunks == [] then [] else Concat(chunks[..|chunks| - 1]) + chunks[|chunks| - 1]
  }

  function Home(uploadID: nat, u: Upload): (n: Name)
    ensures n.Object?
  {
    Object(u.request.targetID, u.request.generation, uploadID)
  }

  function HomeOf(g: Generation): (n: Name)
    ensures n.Object?
  {
    Object(g.targetID, g.generation, g.uploadID)
  }

  // ---- an upload and its bytes ----

  /** The committed bytes lead the file; what follows them is at most one chunk, and the whole fits the limit. */
  ghost predicate Holds(env: Env, bytes: seq<byte>, committed: seq<byte>) {
    committed <= bytes && |bytes| - |committed| <= env.maximumChunk && |bytes| <= env.maximumGeneration
  }

  /** The rows describe the chunks one after the other. */
  ghost predicate RowsDescribe(env: Env, rows: seq<ChunkRow>, chunks: seq<seq<byte>>) {
    && |rows| == |chunks|
    && (forall i :: 0 <= i < |rows| ==> chunks[i] != [] && rows[i] == RowFor(env, |Concat(chunks[..i])|, chunks[i]))
  }

  function RowFor(env: Env, offset: nat, chunk: seq<byte>): ChunkRow {
    ChunkRow(offset, |chunk|, env.sha(chunk), offset + |chunk|)
  }

  /** Before its generation commits, an upload's bytes are staged, published or both under one inode, unless there are
      none yet; bytes past the committed ones mean that one more chunk may come; afterwards only the object remains and it
      holds exactly the committed bytes. */
  ghost predicate BytesSound(env: Env, fs: Files, id: nat, u: Upload, committed: seq<byte>) {
    var bytes := FinalizationBytes(fs, Home(id, u));
    && u.committedBytes == |committed| <= env.maximumGeneration
    && (Staging(id) in fs.names && Home(id, u) in fs.names ==> fs.names[Staging(id)] == fs.names[Home(id, u)])
    && (bytes.Some? ==> Holds(env, bytes.value, committed))
    && (bytes.None? ==> committed == [])
    && (bytes.Some? && |bytes.value| > |committed| ==> |u.rows| < env.maximumChunkCount)
    && (u.committed ==> Staging(id) !in fs.names && bytes == Some(committed))
  }

  ghost predicate UploadSound(env: Env, fs: Files, id: nat, u: Upload, chunks: seq<seq<byte>>) {
    RowsDescribe(env, u.rows, chunks) && BytesSound(env, fs, id, u, Concat(chunks))
  }

  // ---- files belong to uploads ----

  /** Every file belongs to one upload, and only the upload's own names lead to it. */
  ghost predicate FilesSound(fs: Files, uploads: map<nat, Upload>) {
    && Linked(fs)
    && (forall n ::
         n in fs.names ==>
           n.uploadID in uploads && (n == Staging(n.uploadID) || n == Home(n.uploadID, uploads[n.uploadID])))
    && (forall n, m :: n in fs.names && m in fs.names && fs.names[n] == fs.names[m] ==> n.uploadID == m.uploadID)
  }

  /** Only names and bytes of one upload changed. */
  ghost predicate OnlyTouches(fs: Files, gs: Files, id: nat) {
    forall n: Name :: n.uploadID != id ==>
      (n in fs.names <==> n in gs.names) && (n in fs.names ==> gs.names[n] == fs.names[n]) &&
      BytesAt(gs, n) == BytesAt(fs, n)
  }

  // ---- generations ----

  function OfTarget(rows: seq<Stored>, targetID: nat): (own: seq<Stored>)
    ensures forall i :: 0 <= i < |own| ==> own[i].record.targetID == targetID
  {
    if rows == [] then []
    else
      var last := rows[|rows| - 1];
      OfTarget(rows[..|rows| - 1], targetID) + (if last.record.targetID == targetID then [last] else [])
  }

  /** The bytes are an accepted wire, and the record says exactly what the wire says of itself. */
  ghost predicate Describes(env: Env, g: Generation, bytes: seq<byte>, predecessorOuterDigest: Option<string>) {
    && OuterWireStream.StreamAccepts(bytes, env.maximumGeneration, env.codec)
    && WireSummary(env, bytes) ==
         OuterWireStream.Summary(g.backupSetID, g.generation, predecessorOuterDigest, g.outerDigest, g.outerByteCount)
  }

  ghost function WireSummary(env: Env, bytes: seq<byte>): OuterWireStream.Summary
    requires OuterWire.Accepts(bytes, env.codec)
  {
    OuterWireStream.Summarize(env.codec.decode(bytes[27..OuterWire.HeaderEnd(bytes)]).value, bytes, env.codec)
  }

  /** The `i`-th committed generation of a target: its number, its two links to the one before, and its object. */
  ghost predicate GenerationSound(env: Env, fs: Files, own: seq<Stored>, i: nat)
    requires i < |own|
  {
    var g := own[i].record;
    && g.generation == i + 1 && own[i].reference == env.reference(g)
    && g.predecessorReference == (if i == 0 then None else Some(own[i - 1].reference))
    && BytesAt(fs, HomeOf(g)).Some?
    && Describes(env, g, BytesAt(fs, HomeOf(g)).value, if i == 0 then None else Some(own[i - 1].record.outerDigest))
  }

  ghost predicate ChainSound(env: Env, fs: Files, rows: seq<Stored>, targetID: nat, t: Target) {
    var own := OfTarget(rows, targetID);
    && (forall i :: 0 <= i < |own| ==> GenerationSound(env, fs, own, i) && own[i].record.backupSetID == t.backupSetID)
    && t.head == (if own == [] then None else Some(own[|own| - 1].record))
    && t.headReference == (if own == [] then None else Some(own[|own| - 1].reference))
  }

  /** A committed generation belongs to a committed upload and its receipt names it. */
  ghost predicate RowSound(db: Ledger, row: Stored) {
    var g := row.record;
    && g.targetID in db.targets && g.uploadID in db.uploads && db.uploads[g.uploadID].committed
    && HomeOf(g) == Home(g.uploadID, db.uploads[g.uploadID])
    && row.receipt.generation == g && row.receipt.credential == db.uploads[g.uploadID].request.credential
    && row.receipt.requestID == db.uploads[g.uploadID].request.requestID
  }

  ghost predicate RowsDistinct(rows: seq<Stored>) {
    forall i, j :: 0 <= i < j < |rows| ==> rows[i].record.uploadID != rows[j].record.uploadID
  }

  ghost predicate Finalized(rows: seq<Stored>, id: nat) {
    exists i :: 0 <= i < |rows| && rows[i].record.uploadID == id
  }

  ghost predicate RequestsSound(db: Ledger) {
    && (forall r ::
         r in db.requests ==> db.requests[r] in db.uploads && db.uploads[db.requests[r]].request.requestID == r)
    && (forall id :: id in db.uploads ==>
          db.uploads[id].request.requestID in db.requests && db.requests[db.uploads[id].request.requestID] == id)
  }

  ghost predicate UploadsSound(env: Env, fs: Files, db: Ledger, h: History) {
    && h.Keys == db.uploads.Keys
    && (forall id :: id in db.uploads ==> UploadSound(env, fs, id, db.uploads[id], h[id]))
    && (forall id :: id in db.uploads ==> TargetKnown(db.targets, db.uploads[id].request))
    && (forall id :: id in db.uploads && db.uploads[id].committed ==> Finalized(db.generations, id))
  }

  predicate TargetKnown(targets: map<nat, Target>, r: Request) {
    r.targetID in targets && targets[r.targetID].backupSetID == r.backupSetID
  }

  ghost predicate GenerationsSound(env: Env, fs: Files, db: Ledger) {
    && (forall i :: 0 <= i < |db.generations| ==> RowSound(db, db.generations[i]))
    && RowsDistinct(db.generations)
    && (forall t :: t in db.targets ==> ChainSound(env, fs, db.generations, t, db.targets[t]))
  }

  ghost predicate Inv(env: Env, fs: Files, db: Ledger, h: History) {
    FilesSound(fs, db.uploads) && RequestsSound(db) && UploadsSound(env, fs, db, h) && GenerationsSound(env, fs, db)
  }

  // ---- file steps ----

  /** The objects of committed generations do not move while another upload's files change. */
  lemma ChainUntouched(env: Env, fs: Files, gs: Files, db: Ledger, id: nat)
    requires GenerationsSound(env, fs, db) && OnlyTouches(fs, gs, id)
    requires id in db.uploads ==> !db.uploads[id].committed
    ensures GenerationsSound(env, gs, db)
  {
    hide Describes;
    forall t | t in db.targets ensures ChainSound(env, gs, db.generations, t, db.targets[t]) {
      var own := OfTarget(db.generations, t);
      assert ChainSound(env, fs, db.generations, t, db.targets[t]);
      forall i | 0 <= i < |own| ensures GenerationSound(env, gs, own, i) {
        assert GenerationSound(env, fs, own, i);
        OwnIsRow(db.generations, t, i);
      }
    }
  }

  lemma {:induction false} OwnIsRow(rows: seq<Stored>, targetID: nat, i: nat)
    requires i < |OfTarget(rows, targetID)|
    ensures OfTarget(rows, targetID)[i] in rows
    decreases |rows|
  {
    var front := OfTarget(rows[..|rows| - 1], targetID);
    if i < |front| {
      OwnIsRow(rows[..|rows| - 1], targetID, i);
    }
  }

  lemma OtherUntouched(env: Env, fs: Files, gs: Files, id: nat, other: nat, u: Upload, committed: seq<byte>)
    requires OnlyTouches(fs, gs, id) && other != id && BytesSound(env, fs, other, u, committed)
    ensures BytesSound(env, gs, other, u, committed)
  {
    hide Holds, BytesAt;
  }

  /** A change confined to the files of one uncommitted upload that keeps that upload sound keeps everything. */
  lemma FileStep(env: Env, fs: Files, gs: Files, db: Ledger, h: History, id: nat)
    requires Inv(env, fs, db, h) && id in db.uploads && !db.uploads[id].committed
    requires OnlyTouches(fs, gs, id) && FilesSound(gs, db.uploads)
    requires BytesSound(env, gs, id, db.uploads[id], Concat(h[id]))
    ensures Inv(env, gs, db, h)
  {
    hide BytesSound, RowsDescribe, GenerationsSound, FilesSound, RequestsSound, Concat, OnlyTouches;
    ChainUntouched(env, fs, gs, db, id);
    forall i | i in db.uploads ensures UploadSound(env, gs, i, db.uploads[i], h[i]) {
      assert UploadSound(env, fs, i, db.uploads[i], h[i]);
      if i != id {
        OtherUntouched(env, fs, gs, id, i, db.uploads[i], Concat(h[i]));
      }
    }
  }
}
