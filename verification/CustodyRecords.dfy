/**
 The generation record computed from bytes in memory, and its agreement with the record the coordinator derives from
 the stream.
 */
module CustodyRecords {
  import opened Bytes
  import opened CustodyLedger
  import opened CustodyCoordinator
  import OuterWire
  import OuterWireSlice
  import OuterWireStream

  predicate RequestValid(env: Env, r: Request) {
    && r.requestID != 0 && r.generation != 0 && (r.generation == 1 <==> r.expectedHead.None?)
    && (r.expectedHead.Some? ==> env.referenceShape(r.expectedHead.value))
  }

  /** The predecessor is a valid record of the target the request is for. */
  predicate PredecessorFits(env: Env, r: Request, p: Generation) {
    RecordValid(env, p) && p.targetID == r.targetID && p.backupSetID == r.backupSetID
  }

  /** The target as it stands when its head is the predecessor. */
  function HeadedBy(env: Env, r: Request, predecessor: Option<Generation>): Target {
    Target(r.backupSetID, predecessor, if predecessor.Some? then Some(env.reference(predecessor.value)) else None)
  }

  /** The wire says of itself what the request and the predecessor ask for, and the predecessor is what the client expects. */
  ghost predicate Computable(env: Env, r: Request, id: nat, bytes: seq<byte>, predecessor: Option<Generation>,
      g: Generation) {
    && RequestValid(env, r) && id != 0 && OuterWire.Accepts(bytes, env.codec) && RecordValid(env, g)
    && g.targetID == r.targetID && g.uploadID == id
    && (predecessor.Some? ==> PredecessorFits(env, r, predecessor.value))
    && g.generation == r.generation == (if predecessor.None? then 1 else predecessor.value.generation + 1)
    && g.predecessorReference == r.expectedHead ==
         (if predecessor.None? then None else Some(env.reference(predecessor.value)))
    && WireSummary(env, bytes) == OuterWireStream.Summary(r.backupSetID, r.generation,
         if predecessor.None? then None else Some(predecessor.value.outerDigest), g.outerDigest, g.outerByteCount)
    && g.backupSetID == r.backupSetID
  }

  /** Computes the one record that bytes, request and predecessor determine, or shows that there is none. For a wire the
      stream accepts too, it is the record the coordinator derives from the stream's summary against the predecessor as
      head: refused for the same requests and equal otherwise. */
  method ComputeGenerationRecord(env: Env, r: Request, id: nat, bytes: seq<byte>, predecessor: Option<Generation>)
    returns (g: Option<Generation>)
    ensures g.Some? ==> Computable(env, r, id, bytes, predecessor, g.value)
    ensures g.None? ==> forall candidate :: !Computable(env, r, id, bytes, predecessor, candidate)
    ensures OuterWireStream.StreamAccepts(bytes, env.maximumGeneration, env.codec) && RequestValid(env, r) && id != 0
      && (predecessor.Some? ==> PredecessorFits(env, r, predecessor.value))
      ==> g == GenerationFromSummary(env, id, r, HeadedBy(env, r, predecessor), WireSummary(env, bytes))
  {
    hide OuterWire.Accepts, RecordValid;
    if OuterWireStream.StreamAccepts(bytes, env.maximumGeneration, env.codec) {
      AcceptedOnStream(env, bytes);
    }
    if !RequestValid(env, r) || id == 0 || |bytes| == 0 {
      AcceptedIsNotEmpty(env, bytes);
      return None;
    }
    var reference: Option<string> := None;
    if r.generation == 1 {
      if predecessor.Some? || r.expectedHead.Some? {
        return None;
      }
    } else {
      if predecessor.None? || !PredecessorFits(env, r, predecessor.value)
         || r.generation != predecessor.value.generation + 1 {
        return None;
      }
      reference := Some(env.reference(predecessor.value));
      if r.expectedHead != reference {
        return None;
      }
    }
    var header := OuterWireSlice.ValidateOuterWire(bytes, env.codec);
    if header.None? || header.value.backupSetID != r.backupSetID || header.value.generation != r.generation {
      return None;
    }
    if header.value.predecessorOuterDigest
       != (if predecessor.None? then None else Some(predecessor.value.outerDigest)) {
      return None;
    }
    var record := Generation(r.targetID, r.backupSetID, r.generation, id, env.codec.digest(bytes), |bytes|, reference);
    return if RecordValid(env, record) then Some(record) else None;
  }

  lemma AcceptedIsNotEmpty(env: Env, bytes: seq<byte>)
    ensures OuterWire.Accepts(bytes, env.codec) ==> bytes != []
  {
  }
}
