/**
 Why a well-spelled document is refused: the first fault met when its tree is walked in document order.
 */
module JsonFaults {
  import opened Bytes
  import opened JsonText
  import opened JsonTree
  import opened JsonGrammar
  import opened JsonParsing
  import opened JsonAgreement

  /** The first fault of a value that comes after `n` others, at this depth. */
  ghost function Fault(v: Json, n: nat, depth: nat, b: Bounds): Option<Error>
    decreases v, 1
  {
    if depth > b.maximumDepth then Some(NonCanonical)
    else if n + 1 > b.maximumNodeCount then Some(NodeCount)
    else match v
      case Object(entries) => EntriesFault([], entries, n + 1, depth, b)
      case Array(items) => ItemsFault(0, items, n + 1, depth, b)
      case _ => None
  }

  /** The first fault among the entries that follow those before. */
  ghost function EntriesFault(before: seq<Entry>, entries: seq<Entry>, n: nat, depth: nat, b: Bounds): Option<Error>
    decreases entries, 0
  {
    if entries == [] then None
    else if |before| >= b.maximumContainerEntries then Some(ContainerEntries)
    else if HasKey(before, entries[0].key) then Some(DuplicateKey)
    else
      var first := Fault(entries[0].value, n, depth + 1, b);
      if first.Some? then first
      else EntriesFault(before + [entries[0]], entries[1..], n + Size(entries[0].value), depth, b)
  }

  ghost function ItemsFault(before: nat, items: seq<Json>, n: nat, depth: nat, b: Bounds): Option<Error>
    decreases items, 0
  {
    if items == [] then None
    else if before >= b.maximumContainerEntries then Some(ContainerEntries)
    else
      var first := Fault(items[0], n, depth + 1, b);
      if first.Some? then first else ItemsFault(before + 1, items[1..], n + Size(items[0]), depth, b)
  }

  ghost predicate HasKey(entries: seq<Entry>, key: seq<Rune>) {
    exists k :: 0 <= k < |entries| && entries[k].key == key
  }

  /** Every integer is spelled canonically; keys may repeat. */
  ghost predicate Numbered(v: Json) {
    match v
    case Object(entries) => forall e | e in entries :: Numbered(e.value)
    case Array(items) => forall item | item in items :: Numbered(item)
    case Integer(digits) => IntegerText(digits)
    case _ => true
  }

  ghost function Outcome(v: Json, j: nat, n: nat, fault: Option<Error>): JsonParsing.Outcome {
    if fault.Some? then Rejected(fault.value) else Parsed(v, j, n)
  }

  // ---- the parser finds it ----

  /** What is parsed at a well-spelled value: the value, or its first fault. */
  lemma {:induction false} ValueJudged(data: seq<byte>, i: nat, j: nat, n: nat, depth: nat, b: Bounds, v: Json)
    requires Spells(data, i, j, v) && Numbered(v) && AtBoundary(data, j)
    ensures i <= |data| && ParseValue(data, i, n, depth, b) == Outcome(v, j, n + Size(v), Fault(v, n, depth, b))
    decreases v, 1
  {
    hide Spells, ParseValue, Fault, Size, AtBoundary, Outcome, Numbered, IntegerText;
    if depth > b.maximumDepth || n + 1 > b.maximumNodeCount {
      NumberedStarts(data, i, j, v);
      NotEntered(data, i, j, n, depth, b, v);
    } else {
      match v
      case Array(items) => ArrayJudged(data, i, j, n, depth, b, items);
      case Object(entries) => ObjectJudged(data, i, j, n, depth, b, entries);
      case _ => ScalarJudged(data, i, j, n, depth, b, v);
    }
  }

  lemma NumberedStarts(data: seq<byte>, i: nat, j: nat, v: Json)
    requires Spells(data, i, j, v) && Numbered(v)
    ensures i < |data|
  {
    hide Spells, IntegerText;
    SpelledStarts(data, i, j, v);
  }

  /** Too deep, or one value too many. */
  lemma NotEntered(data: seq<byte>, i: nat, j: nat, n: nat, depth: nat, b: Bounds, v: Json)
    requires i < |data| && (depth > b.maximumDepth || n + 1 > b.maximumNodeCount)
    ensures ParseValue(data, i, n, depth, b) == Outcome(v, j, n + Size(v), Fault(v, n, depth, b))
  {
    hide ParseEntries, ParseItems, ParseString, Size;
  }

  lemma ScalarJudged(data: seq<byte>, i: nat, j: nat, n: nat, depth: nat, b: Bounds, v: Json)
    requires Spells(data, i, j, v) && Numbered(v) && AtBoundary(data, j) && !v.Array? && !v.Object?
    requires depth <= b.maximumDepth && n + 1 <= b.maximumNodeCount
    ensures i <= |data| && ParseValue(data, i, n, depth, b) == Outcome(v, j, n + Size(v), Fault(v, n, depth, b))
  {
    hide Spells, ParseValue;
    ScalarComplete(data, i, j, n, depth, b, v);
  }

  lemma {:induction false} ArrayJudged(data: seq<byte>, i: nat, j: nat, n: nat, depth: nat, b: Bounds, items: seq<Json>)
    requires Spells(data, i, j, Array(items)) && Numbered(Array(items))
    requires depth <= b.maximumDepth && n + 1 <= b.maximumNodeCount
    ensures i <= |data|
    ensures ParseValue(data, i, n, depth, b) ==
      Outcome(Array(items), j, n + Size(Array(items)), Fault(Array(items), n, depth, b))
    decreases items, 1
  {
    hide SpellsItems, ParseItems, SkipSpace, Fault;
    var k: nat :| Spaces(data, i + 1, k) &&
      if items == [] then k < |data| && data[k] == ']' as int && j == k + 1 else SpellsItems(data, k, j, items);
    ArrayFault(items, n, depth, b);
    if items == [] {
      SkipSpaceStops(data, i + 1, k);
    } else {
      assert items[0] in items;
      ItemsStart(data, k, j, items);
      SkipSpaceStops(data, i + 1, k);
      ItemsJudged(data, k, j, n + 1, depth, b, [], items);
      assert [] + items == items;
    }
  }

  lemma ArrayFault(items: seq<Json>, n: nat, depth: nat, b: Bounds)
    requires depth <= b.maximumDepth && n + 1 <= b.maximumNodeCount
    ensures Fault(Array(items), n, depth, b) == ItemsFault(0, items, n + 1, depth, b)
    ensures items == [] ==> ItemsFault(0, items, n + 1, depth, b).None?
  {
  }

  lemma {:induction false} ItemsJudged(data: seq<byte>, i: nat, j: nat, n: nat, depth: nat, b: Bounds,
      before: seq<Json>, items: seq<Json>)
    requires items != [] && SpellsItems(data, i, j, items) && forall item | item in items :: Numbered(item)
    ensures i <= |data|
    ensures ParseItems(data, i, n, depth, b, before) ==
      Outcome(Array(before + items), j, n + ItemsSize(items), ItemsFault(|before|, items, n, depth, b))
    decreases items, 0
  {
    hide Spells, SpellsItems, ParseValue, Separator, Delimiter, Fault;
    var m, s, next := ItemsSplit(data, i, j, items);
    assert items[0] in items;
    SeparatorBounds(data, m, s, next, if |items| == 1 then ']' else ',');
    ValueJudged(data, i, m, n, depth + 1, b, items[0]);
    if |items| == 1 {
      assert items == [items[0]];
      assert ItemsFault(|before| + 1, items[1..], n + Size(items[0]), depth, b).None?;
    } else {
      assert items[1] in items && items[1..][0] == items[1];
      ItemsStart(data, next, j, items[1..]);
      SkipSpaceStops(data, s + 1, next);
      ItemsJudged(data, next, j, n + Size(items[0]), depth, b, before + [items[0]], items[1..]);
      assert before + items == before + [items[0]] + items[1..];
    }
  }

  lemma {:induction false} ObjectJudged(data: seq<byte>, i: nat, j: nat, n: nat, depth: nat, b: Bounds,
      entries: seq<Entry>)
    requires Spells(data, i, j, Object(entries)) && Numbered(Object(entries))
    requires depth <= b.maximumDepth && n + 1 <= b.maximumNodeCount
    ensures i <= |data|
    ensures ParseValue(data, i, n, depth, b) ==
      Outcome(Object(entries), j, n + Size(Object(entries)), Fault(Object(entries), n, depth, b))
    decreases entries, 1
  {
    hide SpellsEntries, ParseEntries, SkipSpace, Fault;
    var k: nat :| Spaces(data, i + 1, k) &&
      if entries == [] then k < |data| && data[k] == '}' as int && j == k + 1 else SpellsEntries(data, k, j, entries);
    ObjectFault(entries, n, depth, b);
    hide Spells, ParseValue;
    ObjectOpens(data, i, n, depth, b);
    if entries == [] {
      SkipSpaceStops(data, i + 1, k);
    } else {
      EntriesStart(data, k, j, entries);
      SkipSpaceStops(data, i + 1, k);
      EntriesJudged(data, k, j, n + 1, depth, b, [], entries);
      assert [] + entries == entries;
    }
  }

  lemma ObjectFault(entries: seq<Entry>, n: nat, depth: nat, b: Bounds)
    requires depth <= b.maximumDepth && n + 1 <= b.maximumNodeCount
    ensures Fault(Object(entries), n, depth, b) == EntriesFault([], entries, n + 1, depth, b)
    ensures entries == [] ==> EntriesFault([], entries, n + 1, depth, b).None?
  {
  }

  /** One spelled member is read as one turn of the object loop. */
  lemma {:induction false} MemberJudged(data: seq<byte>, i: nat, j: nat, n: nat, depth: nat, b: Bounds, e: Entry)
    returns (start: nat)
    requires SpellsMember(data, i, j, e) && Numbered(e.value) && AtBoundary(data, j)
    ensures ReadsKey(data, i, e.key, start)
    ensures ParseValue(data, start, n, depth, b) == Outcome(e.value, j, n + Size(e.value), Fault(e.value, n, depth, b))
    decreases e, 0
  {
    hide Spells, SpellsMember, ParseValue, SpellsRunes, Separator, Delimiter, Fault;
    var m, s, next := MemberSplit(data, i, j, e);
    StringComplete(data, i, m, e.key);
    SeparatorBounds(data, m, s, next, ':');
    SpelledStarts(data, next, j, e.value);
    SkipSpaceStops(data, s + 1, next);
    ValueJudged(data, next, j, n, depth, b, e.value);
    start := next;
  }

  lemma {:induction false} EntriesJudged(data: seq<byte>, i: nat, j: nat, n: nat, depth: nat, b: Bounds,
      before: seq<Entry>, entries: seq<Entry>)
    requires entries != [] && SpellsEntries(data, i, j, entries) && forall e | e in entries :: Numbered(e.value)
    ensures i <= |data|
    ensures ParseEntries(data, i, n, depth, b, before) ==
      Outcome(Object(before + entries), j, n + EntriesSize(entries), EntriesFault(before, entries, n, depth, b))
    decreases entries, 0
  {
    hide Spells, SpellsEntries, SpellsMember, ParseValue, Separator, Delimiter, ParseString, SkipSpace, Spaces, Size,
      Fault;
    var m, s, next := EntriesSplit(data, i, j, entries);
    var first := entries[0];
    assert first in entries;
    SeparatorBounds(data, m, s, next, if |entries| == 1 then '}' else ',');
    var start := MemberJudged(data, i, m, n, depth + 1, b, first);
    if |entries| == 1 {
      assert entries == [first];
      assert EntriesFault(before + [first], entries[1..], n + Size(first.value), depth, b).None?;
    } else {
      EntriesStart(data, next, j, entries[1..]);
      SkipSpaceStops(data, s + 1, next);
      assert before + entries == before + [first] + entries[1..];
      EntriesJudged(data, next, j, n + Size(first.value), depth, b, before + [first], entries[1..]);
    }
  }

  // ---- what the faults mean ----

  /** The fault says what is wrong with the tree. */
  ghost predicate Blames(v: Json, n: nat, depth: nat, b: Bounds, fault: Option<Error>) {
    match fault
    case None => WellFormed(v) && Fits(v, depth, b) && n + Size(v) <= b.maximumNodeCount
    case Some(DuplicateKey) => !WellFormed(v)
    case Some(NodeCount) => n + Size(v) > b.maximumNodeCount
    case Some(ContainerEntries) => !Fits(v, depth, b)
    case Some(NonCanonical) => !Fits(v, depth, b)
    case Some(DocumentBytes) => false
  }

  ghost predicate EntriesBlamed(before: seq<Entry>, entries: seq<Entry>, n: nat, depth: nat, b: Bounds,
      fault: Option<Error>)
  {
    match fault
    case None =>
      && NewKeys(before, entries) && (forall e | e in entries :: WellFormed(e.value) && Fits(e.value, depth + 1, b))
      && (entries == [] || |before| + |entries| <= b.maximumContainerEntries)
      && n + EntriesSize(entries) <= b.maximumNodeCount
    case Some(DuplicateKey) => !NewKeys(before, entries) || exists e :: e in entries && !WellFormed(e.value)
    case Some(NodeCount) => n + EntriesSize(entries) > b.maximumNodeCount
    case Some(ContainerEntries) =>
      |before| + |entries| > b.maximumContainerEntries || exists e :: e in entries && !Fits(e.value, depth + 1, b)
    case Some(NonCanonical) => exists e :: e in entries && !Fits(e.value, depth + 1, b)
    case Some(DocumentBytes) => false
  }

  /** The entries' keys are different from each other and from those before. */
  ghost predicate NewKeys(before: seq<Entry>, entries: seq<Entry>) {
    DistinctKeys(entries) && forall e | e in entries :: !HasKey(before, e.key)
  }

  ghost predicate ItemsBlamed(before: nat, items: seq<Json>, n: nat, depth: nat, b: Bounds, fault: Option<Error>) {
    match fault
    case None =>
      && (forall item | item in items :: WellFormed(item) && Fits(item, depth + 1, b))
      && (items == [] || before + |items| <= b.maximumContainerEntries) && n + ItemsSize(items) <= b.maximumNodeCount
    case Some(DuplicateKey) => exists item :: item in items && !WellFormed(item)
    case Some(NodeCount) => n + ItemsSize(items) > b.maximumNodeCount
    case Some(ContainerEntries) =>
      before + |items| > b.maximumContainerEntries || exists item :: item in items && !Fits(item, depth + 1, b)
    case Some(NonCanonical) => exists item :: item in items && !Fits(item, depth + 1, b)
    case Some(DocumentBytes) => false
  }

  lemma {:induction false} FaultBlames(v: Json, n: nat, depth: nat, b: Bounds)
    requires Numbered(v)
    ensures Blames(v, n, depth, b, Fault(v, n, depth, b))
    decreases v, 1
  {
    if depth <= b.maximumDepth && n + 1 <= b.maximumNodeCount {
      match v
      case Object(entries) =>
        EntriesFaultBlames([], entries, n + 1, depth, b);
      case Array(items) =>
        ItemsFaultBlames(0, items, n + 1, depth, b);
      case _ =>
    }
  }

  lemma {:induction false} ItemsFaultBlames(before: nat, items: seq<Json>, n: nat, depth: nat, b: Bounds)
    requires n <= b.maximumNodeCount && forall item | item in items :: Numbered(item)
    ensures ItemsBlamed(before, items, n, depth, b, ItemsFault(before, items, n, depth, b))
    decreases items, 0
  {
    if items != [] {
      hide Fault, Fits, WellFormed;
      assert items[0] in items && forall item :: item in items[1..] ==> item in items;
      assert forall item :: item in items ==> item == items[0] || item in items[1..];
      FaultBlames(items[0], n, depth + 1, b);
      if Fault(items[0], n, depth + 1, b).None? {
        ItemsFaultBlames(before + 1, items[1..], n + Size(items[0]), depth, b);
      }
    }
  }

  lemma NewKeysStep(before: seq<Entry>, entries: seq<Entry>)
    requires entries != []
    ensures NewKeys(before, entries) <==> !HasKey(before, entries[0].key) && NewKeys(before + [entries[0]], entries[1..])
  {
    var first, rest, more := entries[0], entries[1..], before + [entries[0]];
    assert entries == [first] + rest && more[|before|] == first;
    forall key ensures HasKey(more, key) <==> HasKey(before, key) || key == first.key {
      if HasKey(before, key) {
        var k :| 0 <= k < |before| && before[k].key == key;
        assert more[k].key == key;
      }
    }
    if NewKeys(more, rest) && !HasKey(before, first.key) {
      forall i, j | 0 <= i < j < |entries| ensures entries[i].key != entries[j].key {
        assert entries[j] == rest[j - 1] && rest[j - 1] in rest && !HasKey(more, rest[j - 1].key);
        assert i > 0 ==> entries[i] == rest[i - 1];
      }
    }
    if NewKeys(before, entries) {
      assert first in entries;
      forall e | e in rest ensures !HasKey(more, e.key) {
        var j :| 0 <= j < |rest| && rest[j] == e;
        assert entries[j + 1] == e && e in entries;
      }
      assert DistinctKeys(rest) by {
        assert forall i :: 0 <= i < |rest| ==> rest[i] == entries[i + 1];
      }
    }
  }

  /** The first entry's own fault. */
  lemma FirstBlamed(before: seq<Entry>, entries: seq<Entry>, n: nat, depth: nat, b: Bounds, fault: Option<Error>)
    requires entries != [] && fault.Some? && Blames(entries[0].value, n, depth + 1, b, fault)
    ensures EntriesBlamed(before, entries, n, depth, b, fault)
  {
    hide Fits, WellFormed, NewKeys, Size;
    assert entries[0] in entries;
  }

  /** The fault of the entries after a faultless first one, or none. */
  lemma RestBlamed(before: seq<Entry>, entries: seq<Entry>, n: nat, depth: nat, b: Bounds, fault: Option<Error>)
    requires entries != [] && |before| < b.maximumContainerEntries && !HasKey(before, entries[0].key)
    requires Blames(entries[0].value, n, depth + 1, b, None)
    requires EntriesBlamed(before + [entries[0]], entries[1..], n + Size(entries[0].value), depth, b, fault)
    ensures EntriesBlamed(before, entries, n, depth, b, fault)
  {
    hide Fits, WellFormed, NewKeys, Size, HasKey;
    NewKeysStep(before, entries);
    assert forall e :: e in entries[1..] ==> e in entries;
    assert forall e :: e in entries ==> e == entries[0] || e in entries[1..];
  }

  lemma {:induction false} EntriesFaultBlames(before: seq<Entry>, entries: seq<Entry>, n: nat, depth: nat, b: Bounds)
    requires n <= b.maximumNodeCount && forall e | e in entries :: Numbered(e.value)
    ensures EntriesBlamed(before, entries, n, depth, b, EntriesFault(before, entries, n, depth, b))
    decreases entries, 0
  {
    if entries != [] && |before| < b.maximumContainerEntries && !HasKey(before, entries[0].key) {
      hide Fault, EntriesBlamed, HasKey;
      var fault := Fault(entries[0].value, n, depth + 1, b);
      FaultBlames(entries[0].value, n, depth + 1, b);
      if fault.Some? {
        FirstBlamed(before, entries, n, depth, b, fault);
      } else {
        EntriesFaultBlames(before + [entries[0]], entries[1..], n + Size(entries[0].value), depth, b);
        RestBlamed(before, entries, n, depth, b,
          EntriesFault(before + [entries[0]], entries[1..], n + Size(entries[0].value), depth, b));
      }
    } else if entries != [] && |before| < b.maximumContainerEntries {
      NewKeysStep(before, entries);
    }
  }

  // ---- whole documents ----

  /** A document that spells a tree is parsed to it or refused with the tree's first fault. */
  lemma DocumentJudged(data: seq<byte>, b: Bounds, v: Json)
    requires SpellsDocument(data, v) && Numbered(v)
    ensures ParseDocument(data, b) == Outcome(v, |data|, Size(v), Fault(v, 0, 0, b))
  {
    hide Fault, Spells, ParseValue;
    var i: nat, j: nat :| Spaces(data, 0, i) && Spells(data, i, j, v) && Spaces(data, j, |data|);
    SpelledStarts(data, i, j, v);
    SkipSpaceStops(data, 0, i);
    ValueJudged(data, i, j, 0, 0, b, v);
    SkipSpaceStops(data, j, |data|);
  }

  /** If only one thing is wrong with the tree a document spells, that is what it is refused for. */
  lemma OneFault(data: seq<byte>, b: Bounds, v: Json)
    requires SpellsDocument(data, v) && Numbered(v)
    ensures !WellFormed(v) && Fits(v, 0, b) && Size(v) <= b.maximumNodeCount ==>
      ParseDocument(data, b) == Rejected(DuplicateKey)
    ensures WellFormed(v) && Fits(v, 0, b) && Size(v) > b.maximumNodeCount ==>
      ParseDocument(data, b) == Rejected(NodeCount)
    ensures WellFormed(v) && !Fits(v, 0, b) && Size(v) <= b.maximumNodeCount ==>
      ParseDocument(data, b) in {Rejected(ContainerEntries), Rejected(NonCanonical)}
  {
    hide Fault, SpellsDocument, Fits, WellFormed, Numbered, ParseDocument;
    DocumentJudged(data, b, v);
    FaultBlames(v, 0, 0, b);
  }
}
