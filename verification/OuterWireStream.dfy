/**
 The outer wire validated over a stream: a source that delivers its bytes in fragments of any size, a reader
 that bounds and hashes what passes through, and the validator that runs on top.
 */
module OuterWireStream {
  import opened Bytes
  import opened OuterWire
  import OuterWireSlice

  /** What a read reports beside its bytes: nothing, the end of the input, or a fault. */
  datatype Status = More | End | Broken

  /** A byte source. Each read yields some of the bytes that are left, in order. It may report the end together
      with the last bytes or on a later read. Unless it is steady it may also stall or break, which `faulty` records. */
  class Source {
    const steady: bool
    const data: seq<byte>
    var pos: nat
    var faulty: bool

    ghost predicate Valid() reads this { pos <= |data| }

    constructor (bytes: seq<byte>, steady: bool)
      ensures this.steady == steady && data == bytes && pos == 0 && !faulty && Valid()
    {
      this.steady := steady;
      data, pos, faulty := bytes, 0, false;
    }

    method Read(limit: nat) returns (bytes: seq<byte>, status: Status)
      requires Valid() && limit > 0
      modifies this
      ensures Valid() && pos == old(pos) + |bytes| && bytes == data[old(pos)..pos] && |bytes| <= limit
      ensures status == End ==> pos == |data|
      ensures old(faulty) ==> faulty
      ensures steady && faulty ==> old(faulty)
      ensures status == Broken || (status == More && bytes == []) ==> faulty
    {
      var left := |data| - pos;
      var n: nat :| n <= left && n <= limit && (steady && left > 0 ==> n > 0);
      bytes := data[pos..pos + n];
      pos := pos + n;
      if {
        case !steady => status := Broken;
        case !steady || n > 0 => status := More;
        case pos == |data| => status := End;
      }
      faulty := faulty || status == Broken || (status == More && n == 0);
    }
  }

  class BoundedHashReader {
    const source: Source
    const maximum: nat
    var count: nat
    var hashed: seq<byte>

    /** Everything delivered so far was counted and hashed, and stays within the maximum. */
    ghost predicate Valid()
      reads this, source
    {
      source.Valid() && count == source.pos <= maximum && hashed == source.data[..count]
    }

    constructor (source: Source, maximum: nat)
      requires source.Valid() && source.pos == 0
      ensures Valid() && this.source == source && this.maximum == maximum && count == 0 && hashed == []
    {
      this.source, this.maximum := source, maximum;
      count, hashed := 0, [];
    }

    /** How many of the source's bytes may still be delivered. */
    ghost function Room(): int
      reads this, source
    {
      (if |source.data| < maximum then |source.data| else maximum) - count
    }

    method Read(limit: nat) returns (bytes: seq<byte>, status: Status)
      requires Valid() && limit > 0
      modifies this, source
      ensures |bytes| <= limit && (old(source.faulty) ==> source.faulty) &&
        (source.steady && source.faulty ==> old(source.faulty))
      ensures status != Broken ==> Valid()
      ensures bytes != [] ==> Valid()
      ensures Valid() ==> count == old(count) + |bytes| && bytes == source.data[old(count)..count]
      ensures status == More ==> bytes != []
      ensures status == End ==> count == |source.data|
      ensures status == Broken && !source.faulty ==> old(Room()) == 0 && old(count) < |source.data| && bytes == []
    {
      if count >= maximum {
        var probe, s := source.Read(1);
        if |probe| > 0 {
          return [], Broken;
        }
        return [], if s == More then Broken else s;
      }
      var remaining := maximum - count;
      bytes, status := source.Read(if limit > remaining then remaining else limit);
      if bytes == [] && status == More {
        return [], Broken;
      }
      if |bytes| > 0 {
        hashed := hashed + bytes;
        count := count + |bytes|;
      }
    }

    /** Fills a buffer of `n` bytes, as far as the source and the maximum allow. */
    method ReadFull(n: nat) returns (bytes: seq<byte>, ok: bool)
      requires Valid()
      modifies this, source
      ensures (old(source.faulty) ==> source.faulty) && (source.steady && source.faulty ==> old(source.faulty))
      ensures ok ==> Valid() && count == old(count) + n && bytes == source.data[old(count)..count]
      ensures !ok && !source.faulty ==> old(Room()) < n
    {
      bytes := [];
      var status := More;
      while |bytes| < n && status == More
        invariant |bytes| <= n && (old(source.faulty) ==> source.faulty) &&
          (source.steady && source.faulty ==> old(source.faulty))
        invariant status == More || |bytes| == n ==> Valid()
        invariant Valid() ==> count == old(count) + |bytes| && bytes == source.data[old(count)..count]
        invariant |bytes| < n && status != More && !source.faulty ==> old(Room()) < n
        decreases n - |bytes|, if status == More then 1 else 0
      {
        var piece;
        piece, status := Read(n - |bytes|);
        bytes := bytes + piece;
      }
      ok := |bytes| == n;
    }

    /** Discards `n` bytes, in pieces of at most 8 KiB. */
    method CopyN(n: nat) returns (ok: bool)
      requires Valid()
      modifies this, source
      ensures (old(source.faulty) ==> source.faulty) && (source.steady && source.faulty ==> old(source.faulty))
      ensures ok ==> Valid() && count == old(count) + n
      ensures !ok && !source.faulty ==> old(Room()) < n
    {
      var written := 0;
      var status := More;
      while written < n && status == More
        invariant written <= n && (old(source.faulty) ==> source.faulty) &&
          (source.steady && source.faulty ==> old(source.faulty))
        invariant status == More || written == n ==> Valid()
        invariant Valid() ==> count == old(count) + written
        invariant written < n && status != More && !source.faulty ==> old(Room()) < n
        decreases n - written, if status == More then 1 else 0
      {
        var piece;
        piece, status := Read(if n - written < 8192 then n - written else 8192);
        written := written + |piece|;
      }
      ok := written == n;
    }
  }

  /** The header check of the stream validator: the generation must also fit a signed 64-bit number. */
  method DecodeOuterHeader(encoded: seq<byte>, c: Codec) returns (r: Option<Header>)
    ensures r.Some? <==> HeaderLegal(encoded, c) && c.decode(encoded).value.generation <= MAX_INT64
    ensures r.Some? ==> r == c.decode(encoded)
  {
    hide SlotBelow, FieldsLegal;
    var decoded := c.decode(encoded);
    if decoded.None? || decoded.value.generation > MAX_INT64 || !FieldsLegal(decoded.value, c) {
      return None;
    }
    var slots := decoded.value.recipientSlots;
    var seen: set<seq<byte>> := {};
    for index := 0 to |slots|
      invariant seen == set i | 0 <= i < index :: slots[i].ephemeralPublicKey
      invariant SlotsLegal(slots[..index])
    {
      var slot := slots[index];
      if |slot.ephemeralPublicKey| != 32 || |slot.sealedContentKey| != 60 {
        return None;
      }
      if slot.ephemeralPublicKey in seen || (index > 0 && !SlotBelow(slots[index - 1], slot)) {
        return None;
      }
      OuterWireSlice.SlotsGrow(slots, index);
      seen := seen + {slot.ephemeralPublicKey};
    }
    assert slots[..|slots|] == slots;
    return decoded;
  }

  /** The only plaintext that is kept of a backup: its coordinates and the commitment to its exact bytes. */
  datatype Summary = Summary(backupSetID: nat, generation: nat, predecessorOuterDigest: Option<string>,
    outerDigest: string, outerByteCount: nat)

  function Summarize(h: Header, data: seq<byte>, c: Codec): Summary {
    Summary(h.backupSetID, h.generation, h.predecessorOuterDigest, c.digest(data), |data|)
  }

  ghost predicate StreamAccepts(data: seq<byte>, maximum: nat, c: Codec) {
    && 0 < maximum <= MAX_INT64 && |data| <= maximum && Accepts(data, c)
    && c.decode(data[27..HeaderEnd(data)]).value.generation <= MAX_INT64
  }

  /** What of acceptance is still open once the reader stands at `o`, after the header. */
  ghost predicate Rest(data: seq<byte>, maximum: nat, o: nat, p: Progress) {
    |data| <= maximum && Completes(data, o, p)
  }

  lemma RestIsNotEmpty(data: seq<byte>, maximum: nat, o: nat, p: Progress)
    requires Rest(data, maximum, o, p)
    ensures o < |data|
  {
  }

  lemma RestTurn(data: seq<byte>, maximum: nat, o: nat, p: Progress)
    ensures Rest(data, maximum, o, p) ==> |data| <= maximum && SectionAt(data, o)
    ensures Rest(data, maximum, o, p) && KindAt(data, o) == 3 ==>
      Finished(p, 3, IndexAt(data, o)) && o + 13 + LengthAt(data, o) == |data|
    ensures Rest(data, maximum, o, p) && KindAt(data, o) != 3 ==>
      Advance(p, KindAt(data, o), IndexAt(data, o), LengthAt(data, o)).Some?
  {
  }

  lemma RestAdvance(data: seq<byte>, maximum: nat, o: nat, p: Progress, q: Progress)
    requires SectionAt(data, o) && KindAt(data, o) != 3
    requires Advance(p, KindAt(data, o), IndexAt(data, o), LengthAt(data, o)) == Some(q)
    ensures Rest(data, maximum, o, p) == Rest(data, maximum, o + 13 + LengthAt(data, o), q)
  {
  }

  lemma RestFinish(data: seq<byte>, maximum: nat, o: nat, p: Progress)
    requires SectionAt(data, o) && Finished(p, KindAt(data, o), IndexAt(data, o))
    ensures Rest(data, maximum, o, p) == (|data| <= maximum && o + 13 + LengthAt(data, o) == |data|)
  {
  }

  /** However the source fragments its bytes, the validator accepts exactly the wires the slice validator accepts
      among those within the limits, and its summary commits to exactly the bytes read. Only a faulty source can
      make it reject more. */
  method ValidateOuterStream(source: Source, maximum: nat, c: Codec) returns (r: Option<Summary>)
    requires source.pos == 0 && !source.faulty
    modifies source
    ensures r.Some? ==> StreamAccepts(source.data, maximum, c)
    ensures r.Some? ==> r.value == Summarize(c.decode(source.data[27..HeaderEnd(source.data)]).value, source.data, c)
    ensures r.Some? ==> r.value.outerDigest == c.digest(source.data) && r.value.outerByteCount == |source.data|
    ensures r.Some? ==>
      var header := c.decode(source.data[27..HeaderEnd(source.data)]).value;
      && r.value.backupSetID == header.backupSetID && r.value.generation == header.generation
      && r.value.predecessorOuterDigest == header.predecessorOuterDigest
    ensures StreamAccepts(source.data, maximum, c) && !source.faulty ==> r.Some?
    ensures source.steady ==> !source.faulty
  {
    hide HeaderLegal, Completes, FromBigEndian;
    if maximum == 0 || maximum > MAX_INT64 {
      return None;
    }
    var counted := new BoundedHashReader(source, maximum);
    var magic, ok := counted.ReadFull(|MAGIC|);
    if !ok || magic != MAGIC {
      return None;
    }
    assert source.data[..23] == source.data[0..23];
    var lengthBytes;
    lengthBytes, ok := counted.ReadFull(4);
    if !ok {
      return None;
    }
    var headerLength := FromBigEndian(lengthBytes);
    if headerLength == 0 || headerLength > MAXIMUM_HEADER_BYTES {
      return None;
    }
    var headerBytes;
    headerBytes, ok := counted.ReadFull(headerLength);
    if !ok {
      return None;
    }
    var header := DecodeOuterHeader(headerBytes, c);
    if header.None? {
      return None;
    }
    ghost var end := counted.count;
    var complete := ReadSections(counted);
    if !complete {
      return None;
    }
    RestIsNotEmpty(source.data, maximum, end, START);
    assert counted.hashed == source.data;
    return Some(Summarize(header.value, counted.hashed, c));
  }

  /** The section loop over the stream, down to the end of the input. */
  method ReadSections(counted: BoundedHashReader) returns (ok: bool)
    requires counted.Valid()
    modifies counted, counted.source
    ensures old(counted.source.faulty) ==> counted.source.faulty
    ensures counted.source.steady && counted.source.faulty ==> old(counted.source.faulty)
    ensures ok ==> old(Rest(counted.source.data, counted.maximum, counted.count, START))
    ensures ok ==> counted.Valid() && counted.count == |counted.source.data|
    ensures !ok && !counted.source.faulty ==> old(!Rest(counted.source.data, counted.maximum, counted.count, START))
  {
    hide FromBigEndian, Completes, Rest;
    var expectedRecovery: nat, previousRecoveryLength: nat := 0, 0;
    var seenCatalog, seenRecovery := false, false;
    ghost var data, maximum, start := counted.source.data, counted.maximum, counted.count;
    while true
      invariant counted.Valid() && start <= counted.count
      invariant old(counted.source.faulty) ==> counted.source.faulty
      invariant counted.source.steady && counted.source.faulty ==> old(counted.source.faulty)
      invariant Rest(data, maximum, start, START)
             == Rest(data, maximum, counted.count,
                     Progress(expectedRecovery, seenCatalog, seenRecovery, previousRecoveryLength))
      decreases maximum - counted.count
    {
      ghost var o, p := counted.count, Progress(expectedRecovery, seenCatalog, seenRecovery, previousRecoveryLength);
      RestTurn(data, maximum, o, p);
      var sectionHeader, full := counted.ReadFull(13);
      if !full {
        return false;
      }
      SliceOfSlice(data, o, o + 13, 1, 9);
      SliceOfSlice(data, o, o + 13, 9, 13);
      var kind, index, length := sectionHeader[0], FromBigEndian(sectionHeader[1..9]),
        FromBigEndian(sectionHeader[9..13]);
      var limit := 0;
      match kind {
        case 1 => limit := MAXIMUM_CATALOG_BYTES + OVERHEAD;
        case 2 => limit := RECOVERY_CHUNK_BYTES + OVERHEAD;
        case 3 => limit := MAXIMUM_FINALIZATION_BYTES + OVERHEAD;
        case _ => return false;
      }
      if length < OVERHEAD + 1 || length > limit {
        return false;
      }
      full := counted.CopyN(length);
      if !full {
        return false;
      }
      match kind {
        case 1 =>
          if seenCatalog || seenRecovery || index != 0 {
            return false;
          }
          seenCatalog := true;
        case 2 =>
          if !seenCatalog || index != expectedRecovery
             || (seenRecovery && previousRecoveryLength != RECOVERY_CHUNK_BYTES + OVERHEAD)
             || expectedRecovery == MAX_UINT64 {
            return false;
          }
          expectedRecovery, seenRecovery, previousRecoveryLength := expectedRecovery + 1, true, length;
        case _ =>
          if !seenCatalog || !seenRecovery || index != expectedRecovery {
            return false;
          }
          RestFinish(data, maximum, o, p);
          var trailing, status := counted.Read(1);
          return trailing == [] && status == End;
      }
      RestAdvance(data, maximum, o, p, Progress(expectedRecovery, seenCatalog, seenRecovery, previousRecoveryLength));
    }
  }
}
