/**
 The Backup outer wire format: a magic string, a length-prefixed header and
 length-prefixed sections. It is validated twice, over a byte slice and over a
 bounded hashing stream that may be read in arbitrary fragments.
 */
module OuterWire {
  import opened Bytes

  const MAXIMUM_HEADER_BYTES := 128 * 1024
  const MAXIMUM_CATALOG_BYTES := 128 * 1024
  const MAXIMUM_FINALIZATION_BYTES := 4 * 1024
  const RECOVERY_CHUNK_BYTES := 1024 * 1024
  const OVERHEAD := 28
  const MAX_INT64 := 0x7FFF_FFFF_FFFF_FFFF
  const MAX_UINT64 := 0xFFFF_FFFF_FFFF_FFFF

  /** "facets.backup.outer.v1" and a zero byte. */
  const MAGIC: seq<byte> :=
    [102, 97, 99, 101, 116, 115, 46, 98, 97, 99, 107, 117, 112, 46, 111, 117, 116, 101, 114, 46, 118, 49, 0]

  datatype Slot = Slot(ephemeralPublicKey: seq<byte>, sealedContentKey: seq<byte>)

  datatype Header = Header(version: int, backupSetID: nat, generation: nat, predecessorOuterDigest: Option<string>,
    recipientSlots: seq<Slot>)

  /** The parts that belong to foreign libraries: strict JSON decoding of the header bytes (accepting only bytes
      that re-encode to themselves), the shape check of a base64url digest, and the digest of a byte string.
      UUID 0 is the nil UUID. */
  datatype Codec = Codec(decode: seq<byte> -> Option<Header>, digestShape: string -> bool, digest: seq<byte> -> string)

  // ---- the header ----

  predicate SlotBelow(a: Slot, b: Slot) {
    BytesLess(a.ephemeralPublicKey, b.ephemeralPublicKey) ||
    (a.ephemeralPublicKey == b.ephemeralPublicKey && BytesLess(a.sealedContentKey, b.sealedContentKey))
  }

  predicate SlotBucket(count: int) {
    count in {1, 2, 4, 8, 16, 32, 64}
  }

  /** Recipient slots have fixed sizes, distinct keys and strictly increase. */
  ghost predicate SlotsLegal(slots: seq<Slot>) {
    && (forall i :: 0 <= i < |slots| ==> |slots[i].ephemeralPublicKey| == 32 && |slots[i].sealedContentKey| == 60)
    && (forall i, j :: 0 <= i < j < |slots| ==> slots[i].ephemeralPublicKey != slots[j].ephemeralPublicKey)
    && (forall i :: 0 < i < |slots| ==> SlotBelow(slots[i - 1], slots[i]))
  }

  predicate FieldsLegal(h: Header, c: Codec) {
    && h.version == 1 && h.backupSetID != 0 && h.generation != 0
    && (h.generation == 1 <==> h.predecessorOuterDigest.None?)
    && (h.predecessorOuterDigest.Some? ==> c.digestShape(h.predecessorOuterDigest.value))
    && SlotBucket(|h.recipientSlots|)
  }

  ghost predicate HeaderLegal(bytes: seq<byte>, c: Codec) {
    c.decode(bytes).Some? && FieldsLegal(c.decode(bytes).value, c) && SlotsLegal(c.decode(bytes).value.recipientSlots)
  }

  // ---- what a legal wire is ----

  datatype Wire = Wire(header: seq<byte>, catalog: seq<byte>, chunks: seq<seq<byte>>, finalization: seq<byte>)

  function Section(kind: byte, index: nat, body: seq<byte>): seq<byte> {
    [kind] + ToBigEndian(index, 8) + ToBigEndian(|body|, 4) + body
  }

  /** Recovery sections numbered from `first`. */
  function ChunkSections(chunks: seq<seq<byte>>, first: nat): seq<byte> {
    if chunks == [] then [] else Section(2, first, chunks[0]) + ChunkSections(chunks[1..], first + 1)
  }

  function Sections(w: Wire): seq<byte> {
    Section(1, 0, w.catalog) + (ChunkSections(w.chunks, 0) + Section(3, |w.chunks|, w.finalization))
  }

  function EncodeWire(w: Wire): seq<byte> {
    MAGIC + (ToBigEndian(|w.header|, 4) + (w.header + Sections(w)))
  }

  predicate Sealed(body: seq<byte>, maximum: nat) {
    OVERHEAD + 1 <= |body| <= maximum + OVERHEAD
  }

  /** Every chunk but the last is full. */
  ghost predicate ChunksLegal(chunks: seq<seq<byte>>) {
    forall i :: 0 <= i < |chunks| ==>
      Sealed(chunks[i], RECOVERY_CHUNK_BYTES) && (i + 1 < |chunks| ==> |chunks[i]| == RECOVERY_CHUNK_BYTES + OVERHEAD)
  }

  ghost predicate SectionsLegal(w: Wire) {
    && Sealed(w.catalog, MAXIMUM_CATALOG_BYTES)
    && 1 <= |w.chunks| <= MAX_UINT64 && ChunksLegal(w.chunks)
    && Sealed(w.finalization, MAXIMUM_FINALIZATION_BYTES)
  }

  ghost predicate WireLegal(w: Wire, c: Codec) {
    1 <= |w.header| <= MAXIMUM_HEADER_BYTES && HeaderLegal(w.header, c) && SectionsLegal(w)
  }

  // ---- reading the sections ----

  /** What the validators remember between sections. */
  datatype Progress = Progress(expectedRecovery: nat, seenCatalog: bool, seenRecovery: bool,
    previousRecoveryLength: nat)

  const START := Progress(0, false, false, 0)

  function Maximum(kind: byte): nat {
    if kind == 1 then MAXIMUM_CATALOG_BYTES + OVERHEAD
    else if kind == 2 then RECOVERY_CHUNK_BYTES + OVERHEAD
    else if kind == 3 then MAXIMUM_FINALIZATION_BYTES + OVERHEAD
    else 0
  }

  /** The state after a catalog or recovery section, when it is in place. */
  function Advance(p: Progress, kind: byte, index: nat, length: nat): Option<Progress> {
    if kind == 1 then
      if p.seenCatalog || p.seenRecovery || index != 0 then None else Some(p.(seenCatalog := true))
    else if kind == 2 then
      if !p.seenCatalog || index != p.expectedRecovery
         || (p.seenRecovery && p.previousRecoveryLength != RECOVERY_CHUNK_BYTES + OVERHEAD)
         || p.expectedRecovery == MAX_UINT64 then None
      else Some(Progress(p.expectedRecovery + 1, true, true, length))
    else None
  }

  predicate Finished(p: Progress, kind: byte, index: nat) {
    kind == 3 && p.seenCatalog && p.seenRecovery && index == p.expectedRecovery
  }

  function KindAt(data: seq<byte>, o: nat): byte requires o + 13 <= |data| { data[o] }

  function IndexAt(data: seq<byte>, o: nat): nat requires o + 13 <= |data| { FromBigEndian(data[o + 1..o + 9]) }

  function LengthAt(data: seq<byte>, o: nat): nat requires o + 13 <= |data| { FromBigEndian(data[o + 9..o + 13]) }

  /** A complete section of acceptable length starts at `o`. */
  predicate SectionAt(data: seq<byte>, o: nat) {
    && o + 13 <= |data|
    && OVERHEAD + 1 <= LengthAt(data, o) <= Maximum(KindAt(data, o))
    && o + 13 + LengthAt(data, o) <= |data|
  }

  /** The sections from `o` to the end complete the wire begun as `p` records. */
  predicate Completes(data: seq<byte>, o: nat, p: Progress)
    decreases |data| - o
  {
    SectionAt(data, o) &&
    var kind, index, length := KindAt(data, o), IndexAt(data, o), LengthAt(data, o);
    var next := o + 13 + length;
    if kind == 3 then Finished(p, kind, index) && next == |data|
    else Advance(p, kind, index, length).Some? && Completes(data, next, Advance(p, kind, index, length).value)
  }

  function HeaderEnd(data: seq<byte>): nat
    requires |data| > 27
  {
    27 + FromBigEndian(data[23..27])
  }

  ghost predicate Accepts(data: seq<byte>, c: Codec) {
    && |data| > 27 && data[..23] == MAGIC
    && 1 <= FromBigEndian(data[23..27]) <= MAXIMUM_HEADER_BYTES && HeaderEnd(data) < |data|
    && HeaderLegal(data[27..HeaderEnd(data)], c)
    && Completes(data, HeaderEnd(data), START)
  }

  // ---- the reading is the format ----

  lemma Powers()
    ensures Power256(4) == 0x1_0000_0000 && Power256(8) == MAX_UINT64 + 1
  {
    assert Power256(2) == 0x10000;
    assert Power256(4) == 256 * (256 * Power256(2));
    assert Power256(6) == 256 * (256 * Power256(4));
    assert Power256(8) == 256 * (256 * Power256(6));
  }

  lemma SectionParts(kind: byte, index: nat, body: seq<byte>)
    ensures |Section(kind, index, body)| == 13 + |body|
    ensures Section(kind, index, body)[0] == kind
    ensures Section(kind, index, body)[1..9] == ToBigEndian(index, 8)
    ensures Section(kind, index, body)[9..13] == ToBigEndian(|body|, 4)
    ensures Section(kind, index, body)[13..] == body
  {
    hide ToBigEndian;
  }

  lemma SliceOfSlice(data: seq<byte>, o: nat, end: nat, i: nat, j: nat)
    requires o + j <= end <= |data| && i <= j
    ensures data[o..end][i..j] == data[o + i..o + j]
  {
    var a, b := data[o..end][i..j], data[o + i..o + j];
    assert |a| == |b|;
    assert forall k :: 0 <= k < |a| ==> a[k] == data[o + i + k] == b[k];
  }

  /** A section that was written is read back. */
  lemma SectionRead(data: seq<byte>, o: nat, kind: byte, index: nat, body: seq<byte>)
    requires At(data, o, Section(kind, index, body)) && index <= MAX_UINT64 && |body| < 0x1_0000_0000
    ensures o + 13 + |body| <= |data|
    ensures KindAt(data, o) == kind && IndexAt(data, o) == index && LengthAt(data, o) == |body|
  {
    hide Section, ToBigEndian, FromBigEndian, Power256;
    SectionParts(kind, index, body);
    var end := o + 13 + |body|;
    SliceOfSlice(data, o, end, 1, 9);
    SliceOfSlice(data, o, end, 9, 13);
    Powers();
    BigEndianRead(index, 8);
    BigEndianRead(|body|, 4);
  }

  /** A section that is read was written. */
  lemma SectionWritten(data: seq<byte>, o: nat)
    requires SectionAt(data, o)
    ensures var next := o + 13 + LengthAt(data, o);
      At(data, o, Section(KindAt(data, o), IndexAt(data, o), data[o + 13..next])) && IndexAt(data, o) <= MAX_UINT64
  {
    hide ToBigEndian, FromBigEndian, Power256;
    var next := o + 13 + LengthAt(data, o);
    BigEndianWrite(data[o + 1..o + 9]);
    BigEndianWrite(data[o + 9..o + 13]);
    BigEndianBound(data[o + 1..o + 9]);
    Powers();
    assert data[o..next] == [data[o]] + data[o + 1..o + 9] + data[o + 9..o + 13] + data[o + 13..next];
  }

  /** The chunks and the finalization that may still follow the progress made so far. */
  ghost predicate TailLegal(p: Progress, chunks: seq<seq<byte>>, finalization: seq<byte>) {
    && ChunksLegal(chunks) && Sealed(finalization, MAXIMUM_FINALIZATION_BYTES)
    && p.expectedRecovery + |chunks| <= MAX_UINT64
    && (chunks == [] ==> p.seenRecovery)
    && (p.seenRecovery && chunks != [] ==> p.previousRecoveryLength == RECOVERY_CHUNK_BYTES + OVERHEAD)
  }

  function Tail(p: Progress, chunks: seq<seq<byte>>, finalization: seq<byte>): seq<byte> {
    ChunkSections(chunks, p.expectedRecovery) + Section(3, p.expectedRecovery + |chunks|, finalization)
  }

  function AfterChunk(p: Progress, chunk: seq<byte>): Progress {
    Progress(p.expectedRecovery + 1, true, true, |chunk|)
  }

  lemma TailStep(p: Progress, chunks: seq<seq<byte>>, finalization: seq<byte>)
    requires chunks != []
    ensures Tail(p, chunks, finalization)
         == Section(2, p.expectedRecovery, chunks[0]) + Tail(AfterChunk(p, chunks[0]), chunks[1..], finalization)
  {
    hide Section;
  }

  lemma TailLegalStep(p: Progress, chunks: seq<seq<byte>>, finalization: seq<byte>)
    requires chunks != []
    ensures TailLegal(p, chunks, finalization) <==>
      && Sealed(chunks[0], RECOVERY_CHUNK_BYTES)
      && (p.seenRecovery ==> p.previousRecoveryLength == RECOVERY_CHUNK_BYTES + OVERHEAD)
      && TailLegal(AfterChunk(p, chunks[0]), chunks[1..], finalization)
  {
    var rest := chunks[1..];
    if ChunksLegal(chunks) {
      assert forall i :: 0 <= i < |rest| ==> rest[i] == chunks[i + 1];
    }
    if Sealed(chunks[0], RECOVERY_CHUNK_BYTES) && TailLegal(AfterChunk(p, chunks[0]), rest, finalization) {
      forall i | 0 <= i < |chunks|
        ensures Sealed(chunks[i], RECOVERY_CHUNK_BYTES) &&
          (i + 1 < |chunks| ==> |chunks[i]| == RECOVERY_CHUNK_BYTES + OVERHEAD)
      {
        assert i > 0 ==> chunks[i] == rest[i - 1];
      }
    }
  }

  /** After the catalog: reading completes exactly on legal tails. */
  lemma {:induction false} TailCompletes(data: seq<byte>, o: nat, p: Progress, chunks: seq<seq<byte>>,
      finalization: seq<byte>)
    requires p.seenCatalog && TailLegal(p, chunks, finalization)
    requires At(data, o, Tail(p, chunks, finalization)) && o + |Tail(p, chunks, finalization)| == |data|
    ensures Completes(data, o, p)
    decreases |chunks|
  {
    hide Section, TailLegal, At, KindAt, IndexAt, LengthAt;
    if chunks == [] {
      assert Tail(p, chunks, finalization) == Section(3, p.expectedRecovery, finalization);
      FinalSection(data, o, p, finalization);
    } else {
      TailStep(p, chunks, finalization);
      TailLegalStep(p, chunks, finalization);
      var first, rest := Section(2, p.expectedRecovery, chunks[0]),
        Tail(AfterChunk(p, chunks[0]), chunks[1..], finalization);
      AtConcat(data, o, first, rest);
      SectionParts(2, p.expectedRecovery, chunks[0]);
      TailRoom(p, chunks, finalization);
      SectionRead(data, o, 2, p.expectedRecovery, chunks[0]);
      TailCompletes(data, o + 13 + |chunks[0]|, AfterChunk(p, chunks[0]), chunks[1..], finalization);
    }
  }

  lemma TailRoom(p: Progress, chunks: seq<seq<byte>>, finalization: seq<byte>)
    requires TailLegal(p, chunks, finalization) && chunks != []
    ensures p.expectedRecovery < MAX_UINT64
  {
  }

  lemma FinalSection(data: seq<byte>, o: nat, p: Progress, finalization: seq<byte>)
    requires p.seenCatalog && TailLegal(p, [], finalization)
    requires At(data, o, Section(3, p.expectedRecovery, finalization)) &&
      o + |Section(3, p.expectedRecovery, finalization)| == |data|
    ensures Completes(data, o, p)
  {
    hide Section, KindAt, IndexAt, LengthAt;
    SectionParts(3, p.expectedRecovery, finalization);
    SectionRead(data, o, 3, p.expectedRecovery, finalization);
  }

  lemma {:induction false} TailFound(data: seq<byte>, o: nat, p: Progress)
    returns (chunks: seq<seq<byte>>, finalization: seq<byte>)
    requires p.seenCatalog && Completes(data, o, p) && p.expectedRecovery <= MAX_UINT64
    ensures TailLegal(p, chunks, finalization)
    ensures At(data, o, Tail(p, chunks, finalization)) && o + |Tail(p, chunks, finalization)| == |data|
    decreases |data| - o
  {
    hide Section, TailLegal, At, KindAt, IndexAt, LengthAt;
    var next := o + 13 + LengthAt(data, o);
    var body := data[o + 13..next];
    SectionWritten(data, o);
    SectionParts(KindAt(data, o), IndexAt(data, o), body);
    if KindAt(data, o) == 3 {
      chunks, finalization := [], body;
      assert Tail(p, [], body) == Section(3, p.expectedRecovery, body);
      EmptyTailLegal(p, body);
    } else {
      var rest, f := TailFound(data, next, AfterChunk(p, body));
      chunks, finalization := [body] + rest, f;
      assert chunks[1..] == rest;
      TailStep(p, chunks, finalization);
      TailLegalStep(p, chunks, finalization);
      AtConcat(data, o, Section(2, p.expectedRecovery, body), Tail(AfterChunk(p, body), rest, f));
    }
  }

  lemma EmptyTailLegal(p: Progress, body: seq<byte>)
    requires p.seenRecovery && p.expectedRecovery <= MAX_UINT64 && Sealed(body, MAXIMUM_FINALIZATION_BYTES)
    ensures TailLegal(p, [], body)
  {
  }

  const AFTER_CATALOG := Progress(0, true, false, 0)

  /** The sections of a wire: reading completes exactly when they are the sections of a legal wire. */
  lemma SectionsComplete(data: seq<byte>, o: nat, w: Wire)
    requires SectionsLegal(w) && At(data, o, Sections(w)) && o + |Sections(w)| == |data|
    ensures Completes(data, o, START)
  {
    hide Section, At, KindAt, IndexAt, LengthAt;
    var rest := Tail(AFTER_CATALOG, w.chunks, w.finalization);
    AtConcat(data, o, Section(1, 0, w.catalog), rest);
    SectionParts(1, 0, w.catalog);
    SectionRead(data, o, 1, 0, w.catalog);
    TailCompletes(data, o + 13 + |w.catalog|, AFTER_CATALOG, w.chunks, w.finalization);
  }

  lemma SectionsFound(data: seq<byte>, o: nat) returns (w: Wire)
    requires Completes(data, o, START)
    ensures SectionsLegal(w) && At(data, o, Sections(w)) && o + |Sections(w)| == |data|
  {
    hide Section, At, KindAt, IndexAt, LengthAt;
    var next := o + 13 + LengthAt(data, o);
    var body := data[o + 13..next];
    SectionWritten(data, o);
    SectionParts(KindAt(data, o), IndexAt(data, o), body);
    var chunks, finalization := TailFound(data, next, AFTER_CATALOG);
    w := Wire([], body, chunks, finalization);
    AtConcat(data, o, Section(1, 0, body), Tail(AFTER_CATALOG, chunks, finalization));
  }

  /** The accepted byte strings are exactly the encodings of legal wires: one catalog, then recovery chunks 0..n-1
      all full except possibly the last, then one finalization with index n and nothing after. */
  lemma AcceptsExactlyLegalWires(data: seq<byte>, c: Codec)
    ensures Accepts(data, c) <==> exists w :: WireLegal(w, c) && data == EncodeWire(w)
  {
    hide Completes, HeaderLegal, SectionsLegal, Sections;
    if Accepts(data, c) {
      var end := HeaderEnd(data);
      var w := SectionsFound(data, end);
      var whole := w.(header := data[27..end]);
      SectionsIgnoreHeader(w, whole);
      BigEndianWrite(data[23..27]);
      assert data[end..] == data[end..end + |Sections(w)|] == Sections(w);
      assert data == data[..23] + (data[23..27] + (data[27..end] + data[end..]));
      assert data == EncodeWire(whole);
    }
    if w :| WireLegal(w, c) && data == EncodeWire(w) {
      EncodedIsAccepted(data, w, c);
    }
  }

  lemma SectionsIgnoreHeader(w: Wire, v: Wire)
    requires v == w.(header := v.header) && SectionsLegal(w)
    ensures Sections(v) == Sections(w) && SectionsLegal(v)
  {
  }

  lemma EncodedIsAccepted(data: seq<byte>, w: Wire, c: Codec)
    requires WireLegal(w, c) && data == EncodeWire(w)
    ensures Accepts(data, c)
  {
    hide Completes, HeaderLegal, SectionsLegal, Sections, ToBigEndian, FromBigEndian, Power256;
    var size := ToBigEndian(|w.header|, 4);
    Powers();
    BigEndianRead(|w.header|, 4);
    assert data[..23] == MAGIC && data[23..27] == size;
    var end := 27 + |w.header|;
    assert data[27..end] == w.header;
    assert data[end..] == Sections(w);
    assert data[end..end + |Sections(w)|] == Sections(w);
    SectionsNonEmpty(w);
    SectionsComplete(data, end, w);
  }

  lemma SectionsNonEmpty(w: Wire)
    ensures |Sections(w)| > 0
  {
    SectionParts(1, 0, w.catalog);
  }

  /** Reading never looks past the end it found, so no accepted wire extends another. */
  lemma {:induction false} CompletesAtTheEnd(data: seq<byte>, more: seq<byte>, o: nat, p: Progress)
    requires Completes(data, o, p) && more != []
    ensures !Completes(data + more, o, p)
    decreases |data| - o
  {
    hide FromBigEndian;
    var whole := data + more;
    assert whole[o + 1..o + 9] == data[o + 1..o + 9] && whole[o + 9..o + 13] == data[o + 9..o + 13];
    var kind, index, length := KindAt(data, o), IndexAt(data, o), LengthAt(data, o);
    if kind != 3 {
      CompletesAtTheEnd(data, more, o + 13 + length, Advance(p, kind, index, length).value);
    }
  }

  lemma NoAcceptedExtension(data: seq<byte>, more: seq<byte>, c: Codec)
    requires Accepts(data, c) && more != []
    ensures !Accepts(data + more, c)
  {
    hide Completes, HeaderLegal, FromBigEndian;
    assert (data + more)[23..27] == data[23..27];
    CompletesAtTheEnd(data, more, HeaderEnd(data), START);
  }
}
