/**
 The outer wire validated over a byte slice held in memory.
 */
module OuterWireSlice {
  import opened Bytes
  import opened OuterWire

  /** The slot loop of the slice validator. */
  method CheckSlots(slots: seq<Slot>) returns (ok: bool)
    ensures ok == SlotsLegal(slots)
  {
    hide SlotBelow;
    var seen: set<seq<byte>> := {};
    var index := 0;
    while index < |slots|
      invariant 0 <= index <= |slots|
      invariant seen == set i | 0 <= i < index :: slots[i].ephemeralPublicKey
      invariant SlotsLegal(slots[..index])
    {
      var slot := slots[index];
      if |slot.ephemeralPublicKey| != 32 || |slot.sealedContentKey| != 60 {
        return false;
      }
      if slot.ephemeralPublicKey in seen {
        return false;
      }
      seen := seen + {slot.ephemeralPublicKey};
      if index > 0 && !SlotBelow(slots[index - 1], slot) {
        return false;
      }
      SlotsGrow(slots, index);
      index := index + 1;
    }
    assert slots[..index] == slots;
    return true;
  }

  lemma SlotsGrow(slots: seq<Slot>, n: nat)
    requires n < |slots| && SlotsLegal(slots[..n])
    requires |slots[n].ephemeralPublicKey| == 32 && |slots[n].sealedContentKey| == 60
    requires forall i :: 0 <= i < n ==> slots[i].ephemeralPublicKey != slots[n].ephemeralPublicKey
    requires n > 0 ==> SlotBelow(slots[n - 1], slots[n])
    ensures SlotsLegal(slots[..n + 1])
  {
    hide SlotBelow;
    var shorter, longer := slots[..n], slots[..n + 1];
    assert forall i :: 0 <= i < n ==> longer[i] == shorter[i];
    forall i, j | 0 <= i < j < |longer|
      ensures longer[i].ephemeralPublicKey != longer[j].ephemeralPublicKey
    {
      if j < n { assert shorter[i].ephemeralPublicKey != shorter[j].ephemeralPublicKey; }
    }
    forall i | 0 < i < |longer|
      ensures SlotBelow(longer[i - 1], longer[i])
    {
      if i < n { assert SlotBelow(shorter[i - 1], shorter[i]); }
    }
  }

  /** Accepts exactly the legal wires and returns their header. */
  method ValidateOuterWire(input: seq<byte>, c: Codec) returns (r: Option<Header>)
    ensures r.Some? <==> Accepts(input, c)
    ensures r.Some? ==> r == c.decode(input[27..HeaderEnd(input)])
  {
    hide SlotsLegal, FieldsLegal, FromBigEndian, Completes;
    if |input| <= |MAGIC| + 4 || input[..|MAGIC|] != MAGIC {
      return None;
    }
    var headerCount := FromBigEndian(input[|MAGIC|..|MAGIC| + 4]);
    var headerStart := |MAGIC| + 4;
    if headerCount <= 0 || headerCount > MAXIMUM_HEADER_BYTES || headerStart + headerCount >= |input| {
      return None;
    }
    var headerBytes := input[headerStart..headerStart + headerCount];
    var decoded := c.decode(headerBytes);
    if decoded.None? || !FieldsLegal(decoded.value, c) {
      return None;
    }
    var slotsLegal := CheckSlots(decoded.value.recipientSlots);
    if !slotsLegal {
      return None;
    }
    var complete := WalkSections(input, headerStart + headerCount);
    return if complete then decoded else None;
  }

  /** The section loop: the offset advances section by section until a finalization ends the input. */
  method WalkSections(input: seq<byte>, start: nat) returns (ok: bool)
    requires start <= |input|
    ensures ok == Completes(input, start, START)
  {
    hide FromBigEndian;
    var offset := start;
    var expectedRecovery: nat, previousRecoveryLength: nat := 0, 0;
    var seenCatalog, seenRecovery := false, false;
    while offset < |input|
      invariant start <= offset <= |input|
      invariant Completes(input, start, START)
             == Completes(input, offset, Progress(expectedRecovery, seenCatalog, seenRecovery, previousRecoveryLength))
    {
      ghost var o, p := offset, Progress(expectedRecovery, seenCatalog, seenRecovery, previousRecoveryLength);
      if offset + 13 > |input| {
        return false;
      }
      var kind, index, count := input[offset], FromBigEndian(input[offset + 1..offset + 9]),
        FromBigEndian(input[offset + 9..offset + 13]);
      offset := offset + 13;
      var maximum := 0;
      match kind {
        case 1 => maximum := MAXIMUM_CATALOG_BYTES + OVERHEAD;
        case 2 => maximum := RECOVERY_CHUNK_BYTES + OVERHEAD;
        case 3 => maximum := MAXIMUM_FINALIZATION_BYTES + OVERHEAD;
        case _ => return false;
      }
      if count < OVERHEAD + 1 || count > maximum || offset + count > |input| {
        return false;
      }
      offset := offset + count;
      match kind {
        case 1 =>
          if seenCatalog || seenRecovery || index != 0 {
            return false;
          }
          seenCatalog := true;
        case 2 =>
          if !seenCatalog || index != expectedRecovery
            || (seenRecovery && previousRecoveryLength != RECOVERY_CHUNK_BYTES + OVERHEAD) {
            return false;
          }
          if expectedRecovery == MAX_UINT64 {
            return false;
          }
          expectedRecovery, seenRecovery, previousRecoveryLength := expectedRecovery + 1, true, count;
        case _ =>
          return seenCatalog && seenRecovery && index == expectedRecovery && offset == |input|;
      }
      assert Advance(p, kind, index,
        count) == Some(Progress(expectedRecovery, seenCatalog, seenRecovery, previousRecoveryLength));
      assert Completes(input, o, p) == Completes(input, offset, Advance(p, kind, index, count).value);
    }
    return false;
  }
}
