/**
 The Backup content store: staged files and immutable objects as directory names for inodes. Every operation may
 be interrupted between any two of its steps, and its contract says what each interruption can leave behind.
 */
module CustodyFiles {
  import opened Bytes

  datatype Name = Staging(uploadID: nat) | Object(targetID: nat, generation: nat, uploadID: nat)

  datatype Files = Files(names: map<Name, nat>, contents: map<nat, seq<byte>>)

  datatype Outcome = Done | Refused | Interrupted

  /** Every name leads to an inode. */
  ghost predicate Linked(fs: Files) {
    forall n :: n in fs.names ==> fs.names[n] in fs.contents
  }

  function BytesAt(fs: Files, n: Name): Option<seq<byte>> {
    if n in fs.names && fs.names[n] in fs.contents then Some(fs.contents[fs.names[n]]) else None
  }

  /** The staged bytes, or those of the object once the staging name is gone. */
  function FinalizationBytes(fs: Files, objectName: Name): Option<seq<byte>>
    requires objectName.Object?
  {
    if Staging(objectName.uploadID) in fs.names then BytesAt(fs, Staging(objectName.uploadID))
    else BytesAt(fs, objectName)
  }

  predicate RangeHas(bytes: Option<seq<byte>>, offset: nat, length: nat, expected: string, sha: seq<byte> -> string) {
    bytes.Some? && offset + length <= |bytes.value| && sha(bytes.value[offset..offset + length]) == expected
  }

  // ---- what the operations do to the files ----

  /** An empty file appeared under a name that was free. */
  ghost predicate Created(fs: Files, gs: Files, n: Name) {
    n !in fs.names && exists i: nat :: i !in fs.contents && gs == Files(fs.names[n := i], fs.contents[i := []])
  }

  /** A name was removed. */
  function Removed(fs: Files, n: Name): Files {
    fs.(names := fs.names - {n})
  }

  /** The staged file was given its object name, unless the object was there already. */
  function WithObject(fs: Files, objectName: Name): Files
    requires objectName.Object?
  {
    var staging := Staging(objectName.uploadID);
    if staging in fs.names && objectName !in fs.names then fs.(names := fs.names[objectName := fs.names[staging]])
    else fs
  }

  /** The file under the name was cut at `offset` and then possibly got a tail of at most `limit` bytes. */
  ghost predicate Rewritten(fs: Files, gs: Files, n: Name, offset: nat, limit: nat) {
    n in fs.names && fs.names[n] in fs.contents && offset <= |fs.contents[fs.names[n]]| &&
    exists tail: seq<byte> :: |tail| <= limit
      && gs == fs.(contents := fs.contents[fs.names[n] := fs.contents[fs.names[n]][..offset] + tail])
  }

  predicate AppendFits(fs: Files, n: Name, offset: nat, chunk: seq<byte>, maximumChunk: nat, maximumGeneration: nat) {
    && 0 < |chunk| <= maximumChunk && offset + |chunk| <= maximumGeneration
    && BytesAt(fs, n).Some? && offset <= |BytesAt(fs, n).value|
  }

  function Appended(fs: Files, n: Name, offset: nat, chunk: seq<byte>): Files
    requires BytesAt(fs, n).Some? && offset <= |BytesAt(fs, n).value|
  {
    fs.(contents := fs.contents[fs.names[n] := fs.contents[fs.names[n]][..offset] + chunk])
  }

  /** What EnsureStaging accepts: an object whose staging name, if any, is the same file; or else a staged file of
      legal size; or else nothing at all, as long as nothing was committed. */
  ghost predicate StagingSound(fs: Files, objectName: Name, committedBytes: nat, maximumChunk: nat,
      maximumGeneration: nat)
    requires objectName.Object?
  {
    var staging := Staging(objectName.uploadID);
    if objectName in fs.names then staging in fs.names ==> fs.names[staging] == fs.names[objectName]
    else if staging in fs.names then
      var bytes := BytesAt(fs, staging);
      bytes.Some? && committedBytes <= |bytes.value| <= maximumGeneration &&
      |bytes.value| - committedBytes <= maximumChunk
    else committedBytes == 0
  }

  /** What Publish needs to succeed: bytes of the recorded length and digest under one file. */
  ghost predicate Publishable(fs: Files, objectName: Name, byteCount: nat, digest: string, hash: seq<byte> -> string)
    requires objectName.Object?
  {
    var staging := Staging(objectName.uploadID);
    && (staging in fs.names && objectName in fs.names ==> fs.names[staging] == fs.names[objectName])
    && var bytes := FinalizationBytes(fs, objectName);
    bytes.Some? && |bytes.value| == byteCount && hash(bytes.value) == digest
  }

  /** A steady store is never interrupted. */
  class ContentStore {
    const steady: bool
    var names: map<Name, nat>
    var contents: map<nat, seq<byte>>

    ghost function View(): Files
      reads this
    {
      Files(names, contents)
    }

    constructor (steady: bool)
      ensures View() == Files(map[], map[]) && this.steady == steady
    {
      this.steady := steady;
      names, contents := map[], map[];
    }

    /** Creates an empty staged file; an existing one must be empty. */
    method PrepareUpload(uploadID: nat) returns (o: Outcome)
      requires Linked(View())
      modifies this
      ensures steady ==> o != Interrupted
      ensures View() == old(View()) || Created(old(View()), View(), Staging(uploadID))
      ensures o == Done ==> BytesAt(View(), Staging(uploadID)) == Some([])
      ensures o == Refused ==> Staging(uploadID) in old(names) && BytesAt(old(View()), Staging(uploadID)) != Some([])
    {
      var path := Staging(uploadID);
      if path in names {
        return if contents[names[path]] == [] then Done else Refused;
      }
      if * { if !steady { return Interrupted; } }
      var inode := FreeInode();
      names, contents := names[path := inode], contents[inode := []];
      assert Created(old(View()), View(), path);
      if * { if !steady { return Interrupted; } }
      return Done;
    }

    method FreeInode() returns (inode: nat)
      ensures inode !in contents
    {
      inode := 0;
      var left := contents.Keys;
      while left != {}
        invariant left <= contents.Keys
        invariant forall i :: i in contents && i !in left ==> i < inode
      {
        var i :| i in left;
        if inode <= i { inode := i + 1; }
        left := left - {i};
      }
    }

    /** Re-establishes the staged file of an upload that is already known. */
    method EnsureStaging(objectName: Name, committedBytes: nat, maximumChunk: nat, maximumGeneration: nat)
      returns (o: Outcome)
      requires Linked(View()) && objectName.Object?
      modifies this
      ensures steady ==> o != Interrupted
      ensures View() == old(View())
           || (objectName !in old(names) && Created(old(View()), View(), Staging(objectName.uploadID)))
           || (objectName in old(names) && View() == Removed(old(View()), Staging(objectName.uploadID)))
      ensures o == Refused ==> !StagingSound(old(View()), objectName, committedBytes, maximumChunk, maximumGeneration)
      ensures o == Done ==> StagingSound(old(View()), objectName, committedBytes, maximumChunk, maximumGeneration)
      ensures o == Done ==> (Staging(objectName.uploadID) in names <==> objectName !in names)
    {
      var path := Staging(objectName.uploadID);
      if objectName in names {
        if path in names {
          if names[path] != names[objectName] {
            return Refused;
          }
          if * { if !steady { return Interrupted; } }
          names := names - {path};
          if * { if !steady { return Interrupted; } }
        }
        return Done;
      }
      if path in names {
        var size := |contents[names[path]]|;
        if size < committedBytes || size > maximumGeneration || size - committedBytes > maximumChunk {
          return Refused;
        }
        return Done;
      }
      if committedBytes != 0 {
        return Refused;
      }
      o := PrepareUpload(objectName.uploadID);
    }

    method OpenFinalizationBytes(objectName: Name) returns (bytes: Option<seq<byte>>)
      requires Linked(View()) && objectName.Object?
      ensures bytes == FinalizationBytes(View(), objectName)
    {
      var staging := Staging(objectName.uploadID);
      if staging in names {
        return Some(contents[names[staging]]);
      }
      if objectName in names {
        return Some(contents[names[objectName]]);
      }
      return None;
    }

    /** A stored range still has the digest it was accepted with. */
    method VerifyUploadRange(objectName: Name, offset: nat, length: nat, expected: string, sha: seq<byte> -> string)
      returns (ok: bool)
      requires Linked(View()) && objectName.Object?
      ensures ok <==> length > 0 && RangeHas(FinalizationBytes(View(), objectName), offset, length, expected, sha)
    {
      if length == 0 {
        return false;
      }
      var bytes := OpenFinalizationBytes(objectName);
      return bytes.Some? && offset + length <= |bytes.value| && sha(bytes.value[offset..offset + length]) == expected;
    }

    /** Cuts the staged file at the committed offset and appends the chunk. An interruption leaves the bytes before the
        offset alone and at most a chunk's length of anything after them. */
    method ReconcileAndAppend(uploadID: nat, offset: nat, chunk: seq<byte>, maximumChunk: nat, maximumGeneration: nat)
      returns (o: Outcome)
      requires Linked(View())
      modifies this
      ensures steady ==> o != Interrupted
      ensures View() == old(View()) || Rewritten(old(View()), View(), Staging(uploadID), offset, |chunk|)
      ensures View() != old(View()) || o == Done ==>
        AppendFits(old(View()), Staging(uploadID), offset, chunk, maximumChunk, maximumGeneration)
      ensures o == Done ==> View() == Appended(old(View()), Staging(uploadID), offset, chunk)
      ensures o == Refused ==> View() == old(View())
      ensures o == Refused ==>
        !AppendFits(old(View()), Staging(uploadID), offset, chunk, maximumChunk, maximumGeneration)
    {
      if |chunk| == 0 || |chunk| > maximumChunk || offset > maximumGeneration || |chunk| > maximumGeneration - offset {
        return Refused;
      }
      var path := Staging(uploadID);
      if path !in names {
        return Refused;
      }
      var inode := names[path];
      var held := contents[inode];
      if |held| < offset {
        return Refused;
      }
      if |held| > offset {
        if * { if !steady { return Interrupted; } }
        contents := contents[inode := held[..offset]];
        RewrittenBy(old(View()), View(), path, offset, |chunk|, []);
        if * { if !steady { return Interrupted; } }
      }
      var partial: seq<byte> := AnyBytes(|chunk|);
      if * {
        if !steady {
          contents := contents[inode := held[..offset] + partial];
          RewrittenBy(old(View()), View(), path, offset, |chunk|, partial);
          return Interrupted;
        }
      }
      contents := contents[inode := held[..offset] + chunk];
      RewrittenBy(old(View()), View(), path, offset, |chunk|, chunk);
      if * { if !steady { return Interrupted; } }
      return Done;
    }

    /** Whatever an interrupted write may have left. */
    method AnyBytes(limit: nat) returns (bytes: seq<byte>)
      ensures |bytes| <= limit
    {
      bytes := [];
      while |bytes| < limit
        invariant |bytes| <= limit
        decreases limit - |bytes|
      {
        if * { return; }
        var b: byte :| true;
        bytes := bytes + [b];
      }
    }

    /** The object has the recorded length and digest. */
    method VerifyObject(objectName: Name, byteCount: nat, digest: string, hash: seq<byte> -> string) returns (ok: bool)
      requires Linked(View())
      ensures ok <==>
        BytesAt(View(), objectName).Some? && |BytesAt(View(), objectName).value| == byteCount &&
        hash(BytesAt(View(), objectName).value) == digest
    {
      return objectName in names && |contents[names[objectName]]| == byteCount &&
        hash(contents[names[objectName]]) == digest;
    }

    /** Links the staged file to its object name, verifies it and removes the staging name. Contents never change, the
        bytes to finalize stay reachable whatever the interruption, and a publishable upload is never refused. */
    method Publish(objectName: Name, byteCount: nat, digest: string, hash: seq<byte> -> string) returns (o: Outcome)
      requires Linked(View()) && objectName.Object?
      modifies this
      ensures steady ==> o != Interrupted
      ensures View() == old(View()) || View() == WithObject(old(View()), objectName)
           || (Publishable(old(View()), objectName, byteCount, digest, hash)
               && View() == Removed(WithObject(old(View()), objectName), Staging(objectName.uploadID)))
      ensures o == Refused ==> !Publishable(old(View()), objectName, byteCount, digest, hash)
      ensures o == Done ==> Publishable(old(View()), objectName, byteCount, digest, hash) && objectName in names
      ensures o == Done ==> View() == Removed(WithObject(old(View()), objectName), Staging(objectName.uploadID))
    {
      var staging := Staging(objectName.uploadID);
      if staging in names && objectName !in names {
        if * { if !steady { return Interrupted; } }
        names := names[objectName := names[staging]];
      } else if objectName !in names {
        return Refused;
      }
      if * { if !steady { return Interrupted; } }
      var exact := VerifyObject(objectName, byteCount, digest, hash);
      if !exact {
        return Refused;
      }
      if * { if !steady { return Interrupted; } }
      if staging in names {
        if names[staging] != names[objectName] {
          return Refused;
        }
        if * { if !steady { return Interrupted; } }
        names := names - {staging};
      } else {
        assert names - {staging} == names;
      }
      if * { if !steady { return Interrupted; } }
      exact := VerifyObject(objectName, byteCount, digest, hash);
      return if exact then Done else Refused;
    }
  }

  lemma RewrittenBy(fs: Files, gs: Files, n: Name, offset: nat, limit: nat, tail: seq<byte>)
    requires n in fs.names && fs.names[n] in fs.contents && offset <= |fs.contents[fs.names[n]]| && |tail| <= limit
    requires gs == fs.(contents := fs.contents[fs.names[n] := fs.contents[fs.names[n]][..offset] + tail])
          || (tail == [] && gs == fs.(contents := fs.contents[fs.names[n] := fs.contents[fs.names[n]][..offset]]))
    ensures Rewritten(fs, gs, n, offset, limit)
  {
    assert fs.contents[fs.names[n]][..offset] + [] == fs.contents[fs.names[n]][..offset];
  }
}
