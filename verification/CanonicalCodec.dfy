/**
 Canonicalisation of a whole document: the bounds, UTF-8 validity, parsing and
 writing together, and what they promise about the set of canonical documents.
 */
module CanonicalCodec {
  import opened Bytes
  import opened JsonText
  import opened JsonTree
  import opened JsonGrammar
  import opened JsonParsing
  import opened JsonAgreement
  import opened JsonWriting
  import opened JsonCanonical

  datatype Result = Ok(bytes: seq<byte>) | Err(error: Error)

  function Canonicalize(data: seq<byte>, b: Bounds): Result {
    if |data| == 0 || |data| > b.maximumDocumentBytes || !Valid(data) then Err(DocumentBytes)
    else match ParseDocument(data, b)
      case Rejected(e) => Err(e)
      case Parsed(v, _, _) =>
        if |Written(v)| > b.maximumDocumentBytes then Err(DocumentBytes) else Ok(Written(v))
  }

  // ---- every document of the grammar is UTF-8 ----

  lemma {:induction false} AsciiSkips(data: seq<byte>, i: nat, j: nat)
    requires i <= j <= |data| && forall k :: i <= k < j ==> data[k] < 0x80
    ensures ValidFrom(data, i) <==> ValidFrom(data, j)
    decreases j - i
  {
    if i < j { AsciiSkips(data, i + 1, j); }
  }

  lemma RuneIsUtf8(data: seq<byte>, i: nat, j: nat, r: Rune)
    requires SpellsRune(data, i, j, r)
    ensures i <= j <= |data| && (ValidFrom(data, i) <==> ValidFrom(data, j))
  {
    hide ValidFrom, EncodeRune, DecodeRune;
    if At(data, i, EncodeRune(r)) && j == i + |EncodeRune(r)| {
      ValidSkipsOne(data, i, r);
    } else {
      AsciiSkips(data, i, j);
    }
  }

  lemma {:induction false} RunesAreUtf8(data: seq<byte>, i: nat, j: nat, text: seq<Rune>)
    requires SpellsRunes(data, i, j, text)
    ensures i <= j <= |data| && (ValidFrom(data, i) <==> ValidFrom(data, j))
    decreases |text|
  {
    hide SpellsRune, ValidFrom;
    if text == [] {
      AsciiSkips(data, i, j);
    } else {
      var k: nat :| SpellsRune(data, i, k, text[0]) && SpellsRunes(data, k, j, text[1..]);
      RuneIsUtf8(data, i, k, text[0]);
      RunesAreUtf8(data, k, j, text[1..]);
    }
  }

  lemma StringIsUtf8(data: seq<byte>, i: nat, j: nat, text: seq<Rune>)
    requires SpellsString(data, i, j, text)
    ensures i <= j <= |data| && (ValidFrom(data, i) <==> ValidFrom(data, j))
  {
    hide SpellsRunes, ValidFrom;
    AsciiSkips(data, i, i + 1);
    RunesAreUtf8(data, i + 1, j, text);
  }

  lemma SeparatorIsUtf8(data: seq<byte>, m: nat, s: nat, next: nat, mark: char)
    requires Separator(data, m, s, next, mark) && mark as int < 128
    ensures m <= next <= |data| && (ValidFrom(data, m) <==> ValidFrom(data, next))
  {
    hide ValidFrom;
    AsciiSkips(data, m, next);
  }

  lemma {:induction false} SpelledIsUtf8(data: seq<byte>, i: nat, j: nat, v: Json)
    requires Spells(data, i, j, v) && WellFormed(v)
    ensures i <= j <= |data| && (ValidFrom(data, i) <==> ValidFrom(data, j))
    decreases v, 1
  {
    hide ValidFrom, SpellsItems, SpellsEntries, SpellsString;
    match v
    case Str(text) => StringIsUtf8(data, i, j, text);
    case Array(items) =>
      var k: nat :| Spaces(data, i + 1, k) &&
        if items == [] then k < |data| && data[k] == ']' as int && j == k + 1 else SpellsItems(data, k, j, items);
      AsciiSkips(data, i, k);
      if items == [] { AsciiSkips(data, k, j); } else { ItemsAreUtf8(data, k, j, items); }
    case Object(entries) =>
      var k: nat :| Spaces(data, i + 1, k) &&
        if entries == [] then k < |data| && data[k] == '}' as int && j == k + 1 else SpellsEntries(data, k, j, entries);
      AsciiSkips(data, i, k);
      if entries == [] { AsciiSkips(data, k, j); } else { EntriesAreUtf8(data, k, j, entries); }
    case _ => LiteralIsUtf8(data, i, j, v);
  }

  lemma IntegerBytes(digits: seq<byte>)
    requires IntegerText(digits)
    ensures forall k :: 0 <= k < |digits| ==> digits[k] == '-' as int || Digit(digits[k])
  {
    if digits != ['0' as int] {
      var body := if digits != [] && digits[0] == '-' as int then digits[1..] else digits;
      assert forall k :: 0 <= k < |body| ==> Digit(body[k]);
      forall k | 0 <= k < |digits| ensures digits[k] == '-' as int || Digit(digits[k]) {
        assert k == 0 || digits[k] == body[if body == digits then k else k - 1];
      }
    }
  }

  lemma LiteralIsUtf8(data: seq<byte>, i: nat, j: nat, v: Json)
    requires Spells(data, i, j, v) && WellFormed(v) && !v.Str? && !v.Array? && !v.Object?
    ensures i <= j <= |data| && (ValidFrom(data, i) <==> ValidFrom(data, j))
  {
    hide ValidFrom;
    var s := Render(v);
    AtBytes(data, i, s);
    if v.Integer? { IntegerBytes(v.digits); }
    forall k | i <= k < j ensures data[k] < 0x80 { assert data[i + (k - i)] == s[k - i]; }
    AsciiSkips(data, i, j);
  }

  lemma {:induction false} ItemsAreUtf8(data: seq<byte>, i: nat, j: nat, items: seq<Json>)
    requires items != [] && SpellsItems(data, i, j, items) && forall item | item in items :: WellFormed(item)
    ensures i <= j <= |data| && (ValidFrom(data, i) <==> ValidFrom(data, j))
    decreases items, 0
  {
    hide ValidFrom, Spells, SpellsItems, Separator;
    var m, s, next := ItemsSplit(data, i, j, items);
    assert items[0] in items;
    SpelledIsUtf8(data, i, m, items[0]);
    SeparatorIsUtf8(data, m, s, next, if |items| == 1 then ']' else ',');
    if |items| > 1 { ItemsAreUtf8(data, next, j, items[1..]); }
  }

  lemma {:induction false} EntriesAreUtf8(data: seq<byte>, i: nat, j: nat, entries: seq<Entry>)
    requires entries != [] && SpellsEntries(data, i, j, entries) && forall e | e in entries :: WellFormed(e.value)
    ensures i <= j <= |data| && (ValidFrom(data, i) <==> ValidFrom(data, j))
    decreases entries, 0
  {
    hide ValidFrom, Spells, SpellsString, SpellsEntries, SpellsMember, Separator;
    var m, s, next := EntriesSplit(data, i, j, entries);
    var k, colon, start := MemberSplit(data, i, m, entries[0]);
    assert entries[0] in entries;
    StringIsUtf8(data, i, k, entries[0].key);
    SeparatorIsUtf8(data, k, colon, start, ':');
    SpelledIsUtf8(data, start, m, entries[0].value);
    SeparatorIsUtf8(data, m, s, next, if |entries| == 1 then '}' else ',');
    if |entries| > 1 { EntriesAreUtf8(data, next, j, entries[1..]); }
  }

  /** The up-front UTF-8 check never rejects a document the grammar accepts. */
  lemma DocumentIsUtf8(data: seq<byte>, v: Json)
    requires SpellsDocument(data, v) && WellFormed(v)
    ensures data != [] && Valid(data)
  {
    hide Spells;
    var i: nat, j: nat :| Spaces(data, 0, i) && Spells(data, i, j, v) && Spaces(data, j, |data|);
    AsciiSkips(data, 0, i);
    SpelledIsUtf8(data, i, j, v);
    SpelledStarts(data, i, j, v);
    AsciiSkips(data, j, |data|);
  }

  // ---- canonical documents ----

  /** The tree is well formed and within every bound, including its node count. */
  ghost predicate InBounds(v: Json, b: Bounds) {
    Admissible(v, 0, b) && Size(v) <= b.maximumNodeCount
  }

  lemma CanonicalizeWrites(data: seq<byte>, b: Bounds, out: seq<byte>)
    ensures Canonicalize(data, b) == Ok(out) <==>
      && |data| <= b.maximumDocumentBytes && |out| <= b.maximumDocumentBytes
      && exists v :: SpellsDocument(data, v) && InBounds(v, b) && out == Written(v)
  {
    hide Spells, SpellsDocument, ParseDocument, Admissible, Render, Norm, Valid;
    if Canonicalize(data, b) == Ok(out) {
      var v := ParseDocument(data, b).value;
      DocumentExact(data, b, v);
      assert InBounds(v, b);
    }
    if |data| <= b.maximumDocumentBytes && |out| <= b.maximumDocumentBytes
       && exists v :: SpellsDocument(data, v) && InBounds(v, b) && out == Written(v) {
      var v :| SpellsDocument(data, v) && InBounds(v, b) && out == Written(v);
      DocumentExact(data, b, v);
      AdmissibleIsWellFormed(v, 0, b);
      DocumentIsUtf8(data, v);
    }
  }

  lemma AdmissibleIsWellFormed(v: Json, depth: nat, b: Bounds)
    requires Admissible(v, depth, b)
    ensures WellFormed(v)
  {
  }

  /** The written form of a tree spells its normal form as a whole document. */
  lemma WrittenDocument(v: Json)
    ensures SpellsDocument(Written(v), Norm(v))
  {
    hide Spells, Render;
    var data := Written(v);
    assert data[0..|data|] == data;
    RenderSpells(data, 0, Norm(v));
    assert Spaces(data, 0, 0) && Spaces(data, |data|, |data|);
  }

  lemma NormInBounds(v: Json, b: Bounds)
    requires InBounds(v, b)
    ensures InBounds(Norm(v), b) && Written(Norm(v)) == Written(v)
  {
    NormKeeps(v, 0, b);
    NormIdempotent(v);
  }

  lemma WrittenForms(data: seq<byte>, b: Bounds)
    ensures Canonicalize(data, b) == Ok(data) <==>
      |data| <= b.maximumDocumentBytes && exists v :: InBounds(v, b) && data == Written(v)
  {
    hide Canonicalize, SpellsDocument, Written, InBounds, Norm;
    CanonicalizeWrites(data, b, data);
    if |data| <= b.maximumDocumentBytes && exists v :: InBounds(v, b) && data == Written(v) {
      var v :| InBounds(v, b) && data == Written(v);
      WrittenDocument(v);
      NormInBounds(v, b);
    }
  }

  /** Canonicalisation succeeds exactly on bounded documents that spell a bounded, duplicate-free tree whose canonical
      spelling is bounded too, and the result is that spelling, of the tree with its entries in order. */
  lemma CanonicalizeExact(data: seq<byte>, b: Bounds, out: seq<byte>)
    ensures Canonicalize(data, b) == Ok(out) <==> CanonicalOf(data, b, out)
  {
    hide Canonicalize, SpellsDocument, Written, InBounds, IsChosenFor, WellFormed;
    CanonicalizeWrites(data, b, out);
    forall v | InBounds(v, b) ensures out == Written(v) <==> IsChosenFor(v, out) {
      BoundedIsWellFormed(v, b);
      WrittenIsChosen(v, out);
    }
  }

  /** Both are bounded, and the second is the canonical spelling of a bounded tree the first spells. */
  ghost predicate CanonicalOf(data: seq<byte>, b: Bounds, out: seq<byte>) {
    && |data| <= b.maximumDocumentBytes && |out| <= b.maximumDocumentBytes
    && exists v :: SpellsDocument(data, v) && InBounds(v, b) && IsChosenFor(v, out)
  }

  lemma BoundedIsWellFormed(v: Json, b: Bounds)
    requires InBounds(v, b)
    ensures WellFormed(v)
  {
  }

  /** The documents canonicalisation leaves alone are exactly the canonical spellings of bounded trees: the byte
      comparison of the decoder accepts these and nothing else. */
  lemma FixedPoints(data: seq<byte>, b: Bounds)
    ensures Canonicalize(data, b) == Ok(data) <==>
      |data| <= b.maximumDocumentBytes && exists v :: InBounds(v, b) && Chosen(data, v)
  {
    hide Canonicalize, Written, InBounds, Chosen, Norm, Render, Ordered, WellFormed;
    WrittenForms(data, b);
    forall v | InBounds(v, b) && data == Written(v) ensures InBounds(Norm(v), b) && Chosen(data, Norm(v)) {
      BoundedIsWellFormed(v, b);
      NormInBounds(v, b);
      NormOrdered(v);
      WrittenIsRendered(v);
      TreeChoice(data, Norm(v));
    }
    forall v | InBounds(v, b) && Chosen(data, v) ensures data == Written(v) {
      TreeChoice(data, v);
      OrderedIsNormal(v);
      WrittenIsRendered(v);
    }
  }

  lemma WrittenIsRendered(v: Json)
    ensures Written(v) == Render(Norm(v))
  {
    hide Render, Norm;
  }

  /** Canonicalising a canonical document changes nothing. */
  lemma Idempotent(data: seq<byte>, b: Bounds)
    requires Canonicalize(data, b).Ok?
    ensures Canonicalize(Canonicalize(data, b).bytes, b) == Canonicalize(data, b)
  {
    hide Canonicalize, SpellsDocument, Written, InBounds;
    var out := Canonicalize(data, b).bytes;
    CanonicalizeWrites(data, b, out);
    WrittenForms(out, b);
  }

  /** Two spelled trees have the same written form exactly when they are equal up to entry order. */
  lemma WrittenInjective(v: Json, w: Json, b: Bounds)
    requires InBounds(v, b) && InBounds(w, b)
    ensures Written(v) == Written(w) <==> SameUpToOrder(v, w)
  {
    hide SpellsDocument, Render, Norm, ParseDocument;
    SameIffNormEqual(v, w);
    if Written(v) == Written(w) {
      WrittenDocument(v);
      WrittenDocument(w);
      NormInBounds(v, b);
      NormInBounds(w, b);
      DocumentExact(Written(v), b, Norm(v));
      DocumentExact(Written(v), b, Norm(w));
    }
  }

  /** Every value has one canonical spelling: two accepted documents canonicalise to the same bytes exactly
      when the trees they spell are equal up to the order of object entries. */
  lemma OneSpelling(first: seq<byte>, second: seq<byte>, b: Bounds)
    requires Canonicalize(first, b).Ok? && Canonicalize(second, b).Ok?
    ensures ParseDocument(first, b).Parsed? && ParseDocument(second, b).Parsed?
    ensures Canonicalize(first, b) == Canonicalize(second, b)
       <==> SameUpToOrder(ParseDocument(first, b).value, ParseDocument(second, b).value)
  {
    hide ParseDocument, Written, SameUpToOrder, SpellsDocument;
    var v, w := ParseDocument(first, b).value, ParseDocument(second, b).value;
    DocumentExact(first, b, v);
    DocumentExact(second, b, w);
    WrittenInjective(v, w, b);
  }
}
