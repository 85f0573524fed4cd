/**
 The resumable transfer driver against a receiver that keeps a contiguous durable prefix, may lose replies and may
 be interrupted at any point.
 */
module Carriage {
  import opened Bytes

  const MAXIMUM_PAYLOAD_BYTES := 8 * 1024 * 1024

  datatype Code = InvalidDescriptor | InvalidProgress | SourceChanged | TransportInterrupted | Canceled

  datatype Result = Sent(offset: nat) | Failed(offset: nat, code: Code)

  /** An immutable source. A read may be short; unless the source is steady it may also fail or come back empty. */
  class Source {
    const steady: bool
    const bytes: seq<byte>

    constructor (bytes: seq<byte>, steady: bool)
      ensures this.bytes == bytes && this.steady == steady
    {
      this.bytes, this.steady := bytes, steady;
    }

    method ReadAt(offset: nat, maximum: nat) returns (chunk: Option<seq<byte>>)
      ensures maximum < 1 || offset > |bytes| ==> chunk.None?
      ensures chunk.Some? ==>
        |chunk.value| <= maximum && offset + |chunk.value| <= |bytes| &&
        chunk.value == bytes[offset..offset + |chunk.value|]
      ensures steady && maximum > 0 && offset < |bytes| ==> chunk.Some? && chunk.value != []
    {
      if maximum < 1 || offset > |bytes| {
        return None;
      }
      if * { if !steady { return None; } }
      var count := if maximum > |bytes| - offset then |bytes| - offset else maximum;
      var short: nat :| short <= count && (steady && count > 0 ==> short > 0);
      return Some(bytes[offset..offset + short]);
    }
  }

  /** The bytes stand in the prefix from `offset` on, as far as it reaches. */
  predicate Fits(durable: seq<byte>, offset: nat, data: seq<byte>) {
    offset <= |durable| &&
    if |durable| <= offset + |data| then durable[offset..] == data[..|durable| - offset]
    else durable[offset..offset + |data|] == data
  }

  /** What an append can do to the prefix: nothing, or extend it by some of the data. */
  ghost predicate Extends(before: seq<byte>, after: seq<byte>, offset: nat, data: seq<byte>) {
    after == before ||
    (Fits(before, offset, data) && exists k: nat ::
      |before| <= offset + k <= offset + |data| && after == before[..offset] + data[..k])
  }

  /** One exchange with the receiver: what was asked and what came back, if anything. */
  datatype Exchange = Asked(reply: Option<nat>) | Appended(offset: nat, data: seq<byte>, reply: Option<nat>)
                    | CommitAsked(ok: bool)

  /** The receiver of one transfer of one object. An honest one reports only what it durably holds; a steady one takes
      whole chunks, answers every question for its offset and accepts a good commit, but may lose replies to appends. */
  class Sink {
    const honest: bool
    const steady: bool
    const byteCount: nat
    const digest: string
    const hash: seq<byte> -> string
    var durable: seq<byte>
    var committed: bool
    var prematureCommits: nat
    var log: seq<Exchange>

    constructor (honest: bool, steady: bool, byteCount: nat, digest: string, hash: seq<byte> -> string)
      ensures durable == [] && !committed && prematureCommits == 0 && log == []
      ensures this.honest == honest && this.steady == steady
      ensures this.byteCount == byteCount && this.digest == digest && this.hash == hash
    {
      this.honest, this.steady, this.byteCount, this.digest, this.hash := honest, steady, byteCount, digest, hash;
      durable, committed, prematureCommits, log := [], false, 0, [];
    }

    /** What the receiver says it holds. */
    method Report() returns (r: nat)
      ensures honest ==> r == |durable|
    {
      r := *;
      if honest { r := |durable|; }
    }

    /** The durable contiguous offset, unless the reply is lost. */
    method ConfirmedOffset() returns (r: Option<nat>)
      modifies this`log
      ensures log == old(log) + [Asked(r)]
      ensures r.Some? && honest ==> r.value == |durable|
      ensures steady ==> r.Some?
    {
      var reported := Report();
      r := Some(reported);
      if * { if !steady { r := None; } }
      log := log + [Asked(r)];
    }

    /** Takes some of the data, or none, and then confirms the new offset or loses the reply. */
    method Append(offset: nat, data: seq<byte>) returns (r: Option<nat>)
      modifies this`durable, this`log
      ensures log == old(log) + [Appended(offset, data, r)]
      ensures Extends(old(durable), durable, offset, data)
      ensures r.Some? && honest ==> r.value == |durable|
      ensures steady && Fits(old(durable), offset, data) ==> |durable| >= offset + |data|
    {
      r := None;
      var reached := *;
      if (steady || reached) && Fits(durable, offset, data) {
        var k: nat :| k <= |data| && (steady ==> k == |data|);
        if |durable| <= offset + k {
          durable := durable[..offset] + data[..k];
        }
        var lost := *;
        if !lost {
          var reported := Report();
          r := Some(reported);
        }
      }
      log := log + [Appended(offset, data, r)];
    }

    /** Verifies the whole digest before the object is accepted. */
    method Commit() returns (ok: bool)
      modifies this`committed, this`prematureCommits, this`log
      ensures log == old(log) + [CommitAsked(ok)]
      ensures ok ==> committed && |durable| == byteCount
      ensures committed ==> old(committed) || (|durable| == byteCount && hash(durable) == digest)
      ensures old(committed) ==> committed
      ensures prematureCommits == old(prematureCommits) + if |durable| < byteCount then 1 else 0
      ensures steady && |durable| == byteCount && hash(durable) == digest ==> ok
    {
      ok := false;
      if |durable| < byteCount {
        prematureCommits := prematureCommits + 1;
      } else if |durable| == byteCount && hash(durable) == digest {
        var stored, replied := *, *;
        if steady || stored {
          committed := true;
          ok := steady || replied;
        }
      }
      log := log + [CommitAsked(ok)];
    }
  }

  // ---- what the exchanges say ----

  /** The exchange confirms this offset. */
  predicate Confirms(e: Exchange, offset: nat) {
    !e.CommitAsked? && e.reply == Some(offset)
  }

  /** The question after a chunk whose reply was lost. */
  predicate Reconciles(log: seq<Exchange>, i: nat) {
    0 < i < |log| && log[i].Asked? && log[i - 1].Appended? && log[i - 1].reply.None?
  }

  /** The reply is beyond the object, or an append's reply falls short of its own chunk. */
  predicate OutOfRange(log: seq<Exchange>, i: nat, byteCount: nat)
    requires i < |log|
  {
    && !log[i].CommitAsked? && log[i].reply.Some?
    && (log[i].reply.value > byteCount || (log[i].Appended? && log[i].reply.value < log[i].offset + |log[i].data|))
  }

  /** The question was not answered, was answered below the end of the chunk in doubt, or the commit was refused. */
  predicate Unanswered(log: seq<Exchange>, i: nat)
    requires i < |log|
  {
    || log[i] == Asked(None) || log[i] == CommitAsked(false)
    || (Reconciles(log, i) && log[i].reply.Some? && log[i].reply.value < log[i - 1].offset + |log[i - 1].data|)
  }

  /** The exchange ends the transfer. */
  predicate Fatal(log: seq<Exchange>, i: nat, byteCount: nat)
    requires i < |log|
  {
    OutOfRange(log, i, byteCount) || Unanswered(log, i)
  }

  /** How a transfer talks to the receiver: it asks first; every chunk is the source's, comes at the offset the exchange
      before it confirmed, and is followed up when its reply is lost; nothing follows an exchange that ends it. */
  ghost predicate Orderly(log: seq<Exchange>, bytes: seq<byte>, chunkBytes: nat) {
    forall i :: 0 <= i < |log| ==> OrderlyAt(log, i, bytes, chunkBytes)
  }

  ghost predicate OrderlyAt(log: seq<Exchange>, i: nat, bytes: seq<byte>, chunkBytes: nat)
    requires i < |log|
  {
    && (log[i].Asked? <==> i == 0 || Reconciles(log, i))
    && (i > 0 ==> !Fatal(log, i - 1, |bytes|) && !log[i - 1].CommitAsked?)
    && (log[i].Appended? ==> i > 0 && Confirms(log[i - 1], log[i].offset) && log[i].offset < |bytes|)
    && (log[i].Appended? ==> 0 < |log[i].data| <= chunkBytes && At(bytes, log[i].offset, log[i].data))
    && (log[i].CommitAsked? ==> i > 0 && Confirms(log[i - 1], |bytes|))
  }

  /** One more exchange. */
  lemma OrderlyOn(log: seq<Exchange>, e: Exchange, bytes: seq<byte>, chunkBytes: nat)
    requires Orderly(log, bytes, chunkBytes) && OrderlyAt(log + [e], |log|, bytes, chunkBytes)
    ensures Orderly(log + [e], bytes, chunkBytes)
  {
    var more := log + [e];
    forall i | 0 <= i < |more| ensures OrderlyAt(more, i, bytes, chunkBytes) {
      if i < |log| { OrderlyPrefix(log, e, i, bytes, chunkBytes); }
    }
  }

  lemma OrderlyPrefix(log: seq<Exchange>, e: Exchange, i: nat, bytes: seq<byte>, chunkBytes: nat)
    requires i < |log|
    ensures OrderlyAt(log + [e], i, bytes, chunkBytes) <==> OrderlyAt(log, i, bytes, chunkBytes)
  {
    hide At;
    var more := log + [e];
    assert more[i] == log[i] && (i > 0 ==> more[i - 1] == log[i - 1]) && (i > 1 ==> more[i - 2] == log[i - 2]);
  }

  /** The result is the one the exchanges call for. A failure that they do not explain comes from the source or from being
      canceled. */
  ghost predicate Explains(log: seq<Exchange>, bytes: seq<byte>, r: Result, steady: bool, canceled: bool) {
    && log != []
    && var last := |log| - 1;
    && (r.Sent? <==> log[last] == CommitAsked(true))
    && (OutOfRange(log, last, |bytes|) ==> r.Failed? && r.code == InvalidProgress)
    && (!OutOfRange(log, last, |bytes|) && Unanswered(log, last) ==> r.Failed? && r.code == TransportInterrupted)
    && (r.Failed? && !Fatal(log, last, |bytes|) ==>
         (canceled && r.code == Canceled) || (!steady && r.code in {TransportInterrupted, SourceChanged}))
    && r.offset == Progress(log, |bytes|)
  }

  /** The exchange confirms an offset and does not end the transfer. */
  predicate Advances(log: seq<Exchange>, i: nat, byteCount: nat) {
    i < |log| && !Fatal(log, i, byteCount) && !log[i].CommitAsked? && log[i].reply.Some?
  }

  /** The offset that was confirmed last, before whatever ended the transfer. */
  function Progress(log: seq<Exchange>, byteCount: nat): nat {
    if log == [] then 0
    else if Advances(log, |log| - 1, byteCount) then log[|log| - 1].reply.value
    else Progress(log[..|log| - 1], byteCount)
  }

  /** A chunk of the source extends a prefix of the source to a prefix of the source. */
  lemma PrefixKept(whole: seq<byte>, before: seq<byte>, after: seq<byte>, offset: nat, data: seq<byte>)
    requires before <= whole && offset + |data| <= |whole| && data == whole[offset..offset + |data|]
    requires Extends(before, after, offset, data)
    ensures before <= after <= whole
  {
    if after != before {
      var k: nat :| |before| <= offset + k <= offset + |data| && after == before[..offset] + data[..k];
      assert before[..offset] == whole[..offset];
      assert after == whole[..offset + k];
    }
  }

  lemma ChunkKept(whole: seq<byte>, before: seq<byte>, after: seq<byte>, offset: nat, data: seq<byte>)
    requires before <= whole && At(whole, offset, data) && Extends(before, after, offset, data)
    ensures before <= after <= whole && (offset <= |before| ==> Fits(before, offset, data))
  {
    hide Extends, Fits;
    PrefixKept(whole, before, after, offset, data);
    if offset <= |before| { ChunkFits(whole, before, offset, data); }
  }

  lemma ChunkFits(whole: seq<byte>, before: seq<byte>, offset: nat, data: seq<byte>)
    requires before <= whole && offset <= |before| && offset + |data| <= |whole| &&
      data == whole[offset..offset + |data|]
    ensures Fits(before, offset, data)
  {
    if |before| <= offset + |data| {
      assert before[offset..] == whole[offset..|before|] == data[..|before| - offset];
    } else {
      assert before[offset..offset + |data|] == whole[offset..offset + |data|];
    }
  }

  /** The source answers, the receiver is honest and steady and expects exactly this object; replies to appends may get
      lost. */
  ghost predicate Undisturbed(source: Source, sink: Sink) {
    source.steady && sink.steady && sink.honest && sink.hash(source.bytes) == sink.digest
  }

  /** Where a transfer stands between two chunks: the last exchange confirmed the offset. */
  ghost predicate Standing(talk: seq<Exchange>, bytes: seq<byte>, chunkBytes: nat, offset: nat) {
    && talk != [] && Orderly(talk, bytes, chunkBytes) && Advances(talk, |talk| - 1, |bytes|)
    && Confirms(talk[|talk| - 1], offset)
  }

  /** A chunk that is at hand may be sent. */
  lemma ChunkInOrder(talk: seq<Exchange>, bytes: seq<byte>, chunkBytes: nat, e: Exchange)
    requires e.Appended? && Standing(talk, bytes, chunkBytes, e.offset)
    requires 0 < |e.data| <= chunkBytes && e.offset < |bytes| && At(bytes, e.offset, e.data)
    ensures Orderly(talk + [e], bytes, chunkBytes)
    ensures Progress(talk + [e], |bytes|) == if Advances(talk + [e], |talk|, |bytes|) then e.reply.value else e.offset
    ensures Advances(talk + [e], |talk|, |bytes|) <==> e.reply.Some? && e.offset + |e.data| <= e.reply.value <= |bytes|
    ensures e.reply.Some? && !Advances(talk + [e], |talk|, |bytes|) ==> OutOfRange(talk + [e], |talk|, |bytes|)
    ensures e.reply.None? ==> !Fatal(talk + [e], |talk|, |bytes|)
  {
    FatalPrefix(talk, e, |talk| - 1, |bytes|);
    OrderlyOn(talk, e, bytes, chunkBytes);
    assert (talk + [e])[..|talk|] == talk;
  }

  lemma FatalPrefix(talk: seq<Exchange>, e: Exchange, i: nat, byteCount: nat)
    requires i < |talk|
    ensures Fatal(talk + [e], i, byteCount) <==> Fatal(talk, i, byteCount)
    ensures (talk + [e])[i] == talk[i] && (Advances(talk + [e], i, byteCount) <==> Advances(talk, i, byteCount))
  {
    assert (talk + [e])[i] == talk[i] && (i > 0 ==> (talk + [e])[i - 1] == talk[i - 1]);
  }

  /** A lost reply is followed by a question. */
  lemma QuestionInOrder(talk: seq<Exchange>, bytes: seq<byte>, chunkBytes: nat, reply: Option<nat>)
    requires talk != [] && Orderly(talk, bytes, chunkBytes)
    requires talk[|talk| - 1].Appended? && talk[|talk| - 1].reply.None?
    ensures var e, end := Asked(reply), talk[|talk| - 1].offset + |talk[|talk| - 1].data|;
      && Orderly(talk + [e], bytes, chunkBytes)
      && (Advances(talk + [e], |talk|, |bytes|) <==> reply.Some? && end <= reply.value <= |bytes|)
      && (OutOfRange(talk + [e], |talk|, |bytes|) <==> reply.Some? && reply.value > |bytes|)
      && (Unanswered(talk + [e], |talk|) <==> reply.None? || reply.value < end)
      && Progress(talk + [e], |bytes|) ==
         if Advances(talk + [e], |talk|, |bytes|) then reply.value else Progress(talk, |bytes|)
  {
    var e := Asked(reply);
    FatalPrefix(talk, e, |talk| - 1, |bytes|);
    OrderlyOn(talk, e, bytes, chunkBytes);
    assert (talk + [e])[..|talk|] == talk;
  }

  lemma FirstQuestion(bytes: seq<byte>, chunkBytes: nat, reply: Option<nat>, steady: bool, canceled: bool)
    ensures Orderly([Asked(reply)], bytes, chunkBytes)
    ensures reply.None? ==> Explains([Asked(reply)], bytes, Failed(0, TransportInterrupted), steady, canceled)
    ensures reply.Some? && reply.value > |bytes| ==>
      Explains([Asked(reply)], bytes, Failed(0, InvalidProgress), steady, canceled)
    ensures reply.Some? && reply.value <= |bytes| ==> Standing([Asked(reply)], bytes, chunkBytes, reply.value)
  {
  }

  /** Between two chunks a transfer can only be stopped by the source or by being canceled. */
  lemma StoppedHere(talk: seq<Exchange>, bytes: seq<byte>, chunkBytes: nat, offset: nat, steady: bool, canceled: bool)
    requires Standing(talk, bytes, chunkBytes, offset)
    ensures Orderly(talk, bytes, chunkBytes)
    ensures canceled ==> Explains(talk, bytes, Failed(offset, Canceled), steady, canceled)
    ensures !steady ==> Explains(talk, bytes, Failed(offset, TransportInterrupted), steady, canceled)
    ensures !steady ==> Explains(talk, bytes, Failed(offset, SourceChanged), steady, canceled)
  {
  }

  lemma CommitInOrder(talk: seq<Exchange>, bytes: seq<byte>, chunkBytes: nat, ok: bool, steady: bool, canceled: bool)
    requires Standing(talk, bytes, chunkBytes, |bytes|)
    ensures Orderly(talk + [CommitAsked(ok)], bytes, chunkBytes)
    ensures ok ==> Explains(talk + [CommitAsked(ok)], bytes, Sent(|bytes|), steady, canceled)
    ensures !ok ==> Explains(talk + [CommitAsked(ok)], bytes, Failed(|bytes|, TransportInterrupted), steady, canceled)
  {
    var e := CommitAsked(ok);
    FatalPrefix(talk, e, |talk| - 1, |bytes|);
    OrderlyOn(talk, e, bytes, chunkBytes);
    assert (talk + [e])[..|talk|] == talk;
  }

  datatype Sending = Moved(offset: nat) | Stopped(code: Code)

  class Driver {
    const chunkBytes: nat

    constructor (chunkBytes: nat)
      ensures this.chunkBytes == chunkBytes
    {
      this.chunkBytes := chunkBytes;
    }

    /** One chunk: append it, and if the reply is lost ask what became of it. `base` is what was said before the transfer
        and `talk` what was said since. */
    method Send(source: Source, sink: Sink, offset: nat, chunk: seq<byte>, canceled: bool, ghost base: seq<Exchange>,
        ghost talk: seq<Exchange>)
      returns (s: Sending, ghost said: seq<Exchange>)
      requires sink.durable <= source.bytes && sink.log == base + talk
      requires Standing(talk, source.bytes, chunkBytes, offset) && (sink.honest ==> offset <= |sink.durable|)
      requires 0 < |chunk| <= chunkBytes && offset < |source.bytes| && At(source.bytes, offset, chunk)
      modifies sink`durable, sink`log
      ensures old(sink.durable) <= sink.durable <= source.bytes && sink.log == base + said && said != []
      ensures s.Moved? ==> Standing(said, source.bytes, chunkBytes, s.offset)
      ensures s.Moved? ==> offset + |chunk| <= s.offset <= |source.bytes|
      ensures s.Moved? && sink.honest ==> s.offset <= |sink.durable|
      ensures s.Stopped? ==> Orderly(said, source.bytes, chunkBytes)
      ensures s.Stopped? ==> Explains(said, source.bytes, Failed(offset, s.code), source.steady, canceled)
      ensures Undisturbed(source, sink) && !canceled ==> s.Moved?
    {
      hide Extends, Fits, Orderly, At;
      var byteCount, end := |source.bytes|, offset + |chunk|;
      ghost var before := sink.durable;
      var confirmed := sink.Append(offset, chunk);
      said := talk + [Appended(offset, chunk, confirmed)];
      ChunkKept(source.bytes, before, sink.durable, offset, chunk);
      ChunkInOrder(talk, source.bytes, chunkBytes, Appended(offset, chunk, confirmed));
      assert sink.log == base + said;
      if confirmed.None? {
        if * { if canceled { return Stopped(Canceled), said; } }
        confirmed := sink.ConfirmedOffset();
        QuestionInOrder(said, source.bytes, chunkBytes, confirmed);
        said := said + [Asked(confirmed)];
        assert sink.log == base + said;
        if confirmed.None? {
          return Stopped(TransportInterrupted), said;
        }
        if confirmed.value > byteCount {
          return Stopped(InvalidProgress), said;
        }
        if confirmed.value < end {
          return Stopped(TransportInterrupted), said;
        }
      }
      if confirmed.value < end || confirmed.value > byteCount {
        return Stopped(InvalidProgress), said;
      }
      return Moved(confirmed.value), said;
    }

    /** One transfer attempt. The receiver keeps holding a prefix of the source, the object is accepted only when all of
        it is there, and each round moves the offset forward. With an honest receiver the offset never passes what is
        durable and commit is asked for only once everything is. The exchanges with the receiver are in order and explain
        the result. As long as nothing but replies to appends gets lost, the transfer succeeds. */
    method Transfer(source: Source, sink: Sink, transferID: nat, canceled: bool)
      returns (r: Result, ghost talk: seq<Exchange>, ghost first: nat, ghost rounds: nat)
      requires sink.durable <= source.bytes && sink.byteCount == |source.bytes|
      modifies sink
      ensures old(sink.durable) <= sink.durable <= source.bytes
      ensures sink.honest ==> r.offset <= |sink.durable|
      ensures r.Sent? ==> sink.committed && sink.durable == source.bytes && r.offset == |source.bytes|
      ensures sink.honest ==> sink.prematureCommits == old(sink.prematureCommits)
      ensures sink.committed && !old(sink.committed) ==> sink.durable == source.bytes
      ensures old(sink.committed) ==> sink.committed
      ensures sink.log == old(sink.log) + talk && Orderly(talk, source.bytes, chunkBytes)
      ensures first <= |source.bytes| && rounds <= |source.bytes| - first
      ensures Ready(transferID) ==> Explains(talk, source.bytes, r, source.steady, canceled)
      ensures !Ready(transferID) ==> r == Failed(0, InvalidDescriptor) && talk == []
      ensures Undisturbed(source, sink) && !canceled && Ready(transferID) ==> r.Sent?
    {
      talk, first, rounds := [], 0, 0;
      assert Orderly(talk, source.bytes, chunkBytes);
      hide Explains, Standing, Orderly;
      if chunkBytes < 1 || chunkBytes > MAXIMUM_PAYLOAD_BYTES || transferID == 0 {
        return Failed(0, InvalidDescriptor), talk, first, rounds;
      }
      var byteCount := |source.bytes|;
      var status := sink.ConfirmedOffset();
      talk := [Asked(status)];
      FirstQuestion(source.bytes, chunkBytes, status, source.steady, canceled);
      if status.None? {
        return Failed(0, TransportInterrupted), talk, first, rounds;
      }
      var offset := status.value;
      if offset > byteCount {
        return Failed(0, InvalidProgress), talk, first, rounds;
      }
      first := offset;
      while offset < byteCount
        invariant old(sink.durable) <= sink.durable <= source.bytes
        invariant first <= offset <= byteCount && rounds <= offset - first && (sink.honest ==> offset <= |sink.durable|)
        invariant sink.log == old(sink.log) + talk && Standing(talk, source.bytes, chunkBytes, offset)
        invariant sink.committed == old(sink.committed) && sink.prematureCommits == old(sink.prematureCommits)
        decreases byteCount - offset
      {
        StoppedHere(talk, source.bytes, chunkBytes, offset, source.steady, canceled);
        if * { if canceled { return Failed(offset, Canceled), talk, first, rounds; } }
        var requested := if byteCount - offset < chunkBytes then byteCount - offset else chunkBytes;
        var chunk := source.ReadAt(offset, requested);
        if chunk.None? {
          return Failed(offset, TransportInterrupted), talk, first, rounds;
        }
        if |chunk.value| == 0 || |chunk.value| > requested {
          return Failed(offset, SourceChanged), talk, first, rounds;
        }
        if * { if canceled { return Failed(offset, Canceled), talk, first, rounds; } }
        var sent;
        sent, talk := Send(source, sink, offset, chunk.value, canceled, old(sink.log), talk);
        if sent.Stopped? {
          return Failed(offset, sent.code), talk, first, rounds;
        }
        offset := sent.offset;
        rounds := rounds + 1;
      }
      StoppedHere(talk, source.bytes, chunkBytes, offset, source.steady, canceled);
      if * { if canceled { return Failed(offset, Canceled), talk, first, rounds; } }
      assert sink.honest ==> sink.durable == source.bytes;
      var accepted := sink.Commit();
      CommitInOrder(talk, source.bytes, chunkBytes, accepted, source.steady, canceled);
      talk := talk + [CommitAsked(accepted)];
      if !accepted {
        return Failed(offset, TransportInterrupted), talk, first, rounds;
      }
      return Sent(offset), talk, first, rounds;
    }

    predicate Ready(transferID: nat) {
      1 <= chunkBytes <= MAXIMUM_PAYLOAD_BYTES && transferID != 0
    }

    /** Any number of attempts, each with its own driver settings: the receiver never loses ground, never holds anything
        but a prefix of the source, and an honest one is never asked to commit too early. */
    static method Retry(drivers: seq<Driver>, source: Source, sink: Sink, transferID: nat)
      requires sink.durable <= source.bytes && sink.byteCount == |source.bytes|
      modifies sink
      ensures old(sink.durable) <= sink.durable <= source.bytes
      ensures sink.honest ==> sink.prematureCommits == old(sink.prematureCommits)
      ensures sink.committed && !old(sink.committed) ==> sink.durable == source.bytes
    {
      for i := 0 to |drivers|
        invariant old(sink.durable) <= sink.durable <= source.bytes
        invariant sink.honest ==> sink.prematureCommits == old(sink.prematureCommits)
        invariant sink.committed && !old(sink.committed) ==> sink.durable == source.bytes
      {
        var canceled := *;
        var _, _, _, _ := drivers[i].Transfer(source, sink, transferID, canceled);
      }
    }
  }
}
