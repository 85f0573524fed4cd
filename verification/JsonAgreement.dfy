/**
 The parser accepts exactly the grammar: what it returns is spelled by the
 stretch it consumed and respects every bound, and every well-formed tree within
 the bounds that is spelled at a position is what the parser returns there.
 */
module JsonAgreement {
  import opened Bytes
  import opened JsonText
  import opened JsonTree
  import opened JsonGrammar
  import opened JsonParsing

  // ---- what the parser returns is spelled ----

  /** The tree is well formed and within the bounds at the given depth. */
  ghost predicate Admissible(v: Json, depth: nat, b: Bounds) {
    WellFormed(v) && Fits(v, depth, b)
  }

  ghost predicate Explains(data: seq<byte>, i: nat, n: nat, depth: nat, b: Bounds, r: Outcome)
    requires r.Parsed?
  {
    && Spells(data, i, r.index, r.value)
    && Admissible(r.value, depth, b)
    && r.count == n + Size(r.value) <= b.maximumNodeCount
  }

  lemma {:induction false} ValueSound(data: seq<byte>, i: nat, n: nat, depth: nat, b: Bounds)
    requires i <= |data| && ParseValue(data, i, n, depth, b).Parsed?
    ensures Explains(data, i, n, depth, b, ParseValue(data, i, n, depth, b))
    decreases |data| - i, 2
  {
    if Here(data, i, '{') {
      ObjectSound(data, i, n, depth, b);
    } else if Here(data, i, '[') {
      ArraySound(data, i, n, depth, b);
    } else {
      ScalarSound(data, i, n, depth, b);
    }
  }

  lemma {:induction false} ObjectSound(data: seq<byte>, i: nat, n: nat, depth: nat, b: Bounds)
    requires Here(data, i, '{') && ParseValue(data, i, n, depth, b).Parsed?
    ensures Explains(data, i, n, depth, b, ParseValue(data, i, n, depth, b))
    decreases |data| - i, 1
  {
    hide ParseEntries, SpellsEntries;
    var k := SkipSpace(data, i + 1);
    SkipSpaceSkips(data, i + 1);
    if !Here(data, k, '}') {
      var entries := EntriesSound(data, k, n + 1, depth, b, []);
      assert [] + entries == entries;
    }
  }

  lemma {:induction false} ArraySound(data: seq<byte>, i: nat, n: nat, depth: nat, b: Bounds)
    requires Here(data, i, '[') && ParseValue(data, i, n, depth, b).Parsed?
    ensures Explains(data, i, n, depth, b, ParseValue(data, i, n, depth, b))
    decreases |data| - i, 1
  {
    hide ParseItems, SpellsItems;
    var k := SkipSpace(data, i + 1);
    SkipSpaceSkips(data, i + 1);
    if !Here(data, k, ']') {
      var items := ItemsSound(data, k, n + 1, depth, b, []);
      assert [] + items == items;
    }
  }

  lemma ScalarSound(data: seq<byte>, i: nat, n: nat, depth: nat, b: Bounds)
    requires i < |data| && data[i] as char != '{' && data[i] as char != '['
    requires ParseValue(data, i, n, depth, b).Parsed?
    ensures Explains(data, i, n, depth, b, ParseValue(data, i, n, depth, b))
  {
    var c := data[i] as char;
    if c == '"' {
      StringSound(data, i);
    } else if c == '-' || Digit(data[i]) {
      IntegerSound(data, i);
    }
  }

  ghost predicate ItemsAdmissible(items: seq<Json>, depth: nat, b: Bounds) {
    forall item | item in items :: Admissible(item, depth, b)
  }

  /** One turn of the array loop. */
  lemma ItemsTurn(data: seq<byte>, i: nat, n: nat, depth: nat, b: Bounds, before: seq<Json>)
    returns (child: Outcome, mark: nat, next: nat)
    requires i <= |data| && ParseItems(data, i, n, depth, b, before).Parsed?
    ensures child == ParseValue(data, i, n, depth + 1, b) && child.Parsed? && i < child.index <= |data|
    ensures |before| < b.maximumContainerEntries
    ensures var r := ParseItems(data, i, n, depth, b, before);
      || (Separator(data, child.index, mark, next, ']') && next == mark + 1
          && r == Parsed(Array(before + [child.value]), next, child.count))
      || (Separator(data, child.index, mark, next, ',') && i < next <= |data|
          && r == ParseItems(data, next, child.count, depth, b, before + [child.value]))
  {
    child := ParseValue(data, i, n, depth + 1, b);
    mark := SkipSpace(data, child.index);
    SkipSpaceSkips(data, child.index);
    if Here(data, mark, ']') {
      next := mark + 1;
    } else {
      next := SkipSpace(data, mark + 1);
      SkipSpaceSkips(data, mark + 1);
    }
  }

  lemma ItemsCons(data: seq<byte>, i: nat, m: nat, s: nat, next: nat, j: nat, item: Json, rest: seq<Json>)
    requires Spells(data, i, m, item)
    requires if rest == [] then Separator(data, m, s, next, ']') && next == s + 1 == j
             else Separator(data, m, s, next, ',') && SpellsItems(data, next, j, rest)
    ensures SpellsItems(data, i, j, [item] + rest) && ItemsSize([item] + rest) == Size(item) + ItemsSize(rest)
  {
    assert ([item] + rest)[1..] == rest;
  }

  lemma {:induction false} ItemsSound(data: seq<byte>, i: nat, n: nat, depth: nat, b: Bounds, before: seq<Json>)
    returns (items: seq<Json>)
    requires i <= |data| && ParseItems(data, i, n, depth, b, before).Parsed?
    ensures items != [] && ParseItems(data, i, n, depth, b, before).value == Array(before + items)
    ensures SpellsItems(data, i, ParseItems(data, i, n, depth, b, before).index, items)
    ensures ItemsAdmissible(items, depth + 1, b) && |before + items| <= b.maximumContainerEntries
    ensures ParseItems(data, i, n, depth, b, before).count == n + ItemsSize(items) <= b.maximumNodeCount
    decreases |data| - i, 3
  {
    hide ParseValue, ParseItems, Spells, SpellsItems, Separator, Admissible;
    var child, mark, next := ItemsTurn(data, i, n, depth, b, before);
    var j := ParseItems(data, i, n, depth, b, before).index;
    ValueSound(data, i, n, depth + 1, b);
    if Separator(data, child.index, mark, next, ']') && next == mark + 1 == j {
      ItemsCons(data, i, child.index, mark, next, j, child.value, []);
      items := [child.value] + [];
    } else {
      var rest := ItemsSound(data, next, child.count, depth, b, before + [child.value]);
      ItemsCons(data, i, child.index, mark, next, j, child.value, rest);
      items := [child.value] + rest;
      assert before + items == before + [child.value] + rest;
    }
  }

  ghost predicate EntriesAdmissible(entries: seq<Entry>, depth: nat, b: Bounds) {
    forall e | e in entries :: Admissible(e.value, depth, b)
  }

  /** The start of one turn of the object loop: a new key, a colon and the value after it. */
  lemma MemberTurn(data: seq<byte>, i: nat, n: nat, depth: nat, b: Bounds, before: seq<Entry>)
    returns (key: seq<Rune>, start: nat, child: Outcome)
    requires i <= |data| && ParseEntries(data, i, n, depth, b, before).Parsed?
    ensures i < start <= |data| && child == ParseValue(data, start, n, depth + 1, b) && child.Parsed? &&
      start < child.index <= |data|
    ensures |before| < b.maximumContainerEntries && forall k :: 0 <= k < |before| ==> before[k].key != key
    ensures Spells(data, start, child.index, child.value) ==>
      SpellsMember(data, i, child.index, Entry(key, child.value))
    ensures var r := ParseEntries(data, i, n, depth, b, before); var mark := SkipSpace(data, child.index);
      var more := before + [Entry(key, child.value)];
      || (Here(data, mark, '}') && r == Parsed(Object(more), mark + 1, child.count))
      || (Here(data, mark, ',') && r == ParseEntries(data, SkipSpace(data, mark + 1), child.count, depth, b, more))
  {
    hide ParseValue, Spells, SpellsRunes, ParseRunes, SkipSpace;
    var text := ParseString(data, i);
    StringSound(data, i);
    key := text.text;
    var colon := SkipSpace(data, text.index);
    SkipSpaceSkips(data, text.index);
    start := SkipSpace(data, colon + 1);
    SkipSpaceSkips(data, colon + 1);
    child := ParseValue(data, start, n, depth + 1, b);
    assert Separator(data, text.index, colon, start, ':');
  }

  lemma EntriesTurn(data: seq<byte>, i: nat, n: nat, depth: nat, b: Bounds, before: seq<Entry>)
    returns (key: seq<Rune>, start: nat, child: Outcome, mark: nat, next: nat)
    requires i <= |data| && ParseEntries(data, i, n, depth, b, before).Parsed?
    ensures i < start <= |data| && child == ParseValue(data, start, n, depth + 1, b) && child.Parsed? &&
      start < child.index <= |data|
    ensures |before| < b.maximumContainerEntries && forall k :: 0 <= k < |before| ==> before[k].key != key
    ensures Spells(data, start, child.index, child.value) ==>
      SpellsMember(data, i, child.index, Entry(key, child.value))
    ensures var r := ParseEntries(data, i, n, depth, b, before); var more := before + [Entry(key, child.value)];
      || (Separator(data, child.index, mark, next, '}') && next == mark + 1
          && r == Parsed(Object(more), next, child.count))
      || (Separator(data, child.index, mark, next, ',') && i < next <= |data|
          && r == ParseEntries(data, next, child.count, depth, b, more))
  {
    hide ParseEntries, ParseValue, Spells, SpellsMember;
    key, start, child := MemberTurn(data, i, n, depth, b, before);
    mark := SkipSpace(data, child.index);
    SkipSpaceSkips(data, child.index);
    if Here(data, mark, '}') {
      next := mark + 1;
    } else {
      next := SkipSpace(data, mark + 1);
      SkipSpaceSkips(data, mark + 1);
    }
  }

  lemma EntriesCons(data: seq<byte>, i: nat, m: nat, s: nat, next: nat, j: nat, e: Entry, rest: seq<Entry>)
    requires SpellsMember(data, i, m, e)
    requires if rest == [] then Separator(data, m, s, next, '}') && next == s + 1 == j
             else Separator(data, m, s, next, ',') && SpellsEntries(data, next, j, rest)
    ensures SpellsEntries(data, i, j, [e] + rest) && EntriesSize([e] + rest) == Size(e.value) + EntriesSize(rest)
  {
    hide SpellsMember, Separator;
    assert ([e] + rest)[1..] == rest;
  }

  lemma {:induction false} EntriesSound(data: seq<byte>, i: nat, n: nat, depth: nat, b: Bounds, before: seq<Entry>)
    returns (entries: seq<Entry>)
    requires i <= |data| && ParseEntries(data, i, n, depth, b, before).Parsed? && DistinctKeys(before)
    ensures entries != [] && ParseEntries(data, i, n, depth, b, before).value == Object(before + entries)
    ensures SpellsEntries(data, i, ParseEntries(data, i, n, depth, b, before).index, entries)
    ensures EntriesAdmissible(entries, depth + 1, b) && DistinctKeys(before + entries)
    ensures |before + entries| <= b.maximumContainerEntries
    ensures ParseEntries(data, i, n, depth, b, before).count == n + EntriesSize(entries) <= b.maximumNodeCount
    decreases |data| - i, 3
  {
    hide ParseValue, ParseEntries, Spells, SpellsEntries, SpellsMember, Separator, Admissible;
    var key, start, child, mark, next := EntriesTurn(data, i, n, depth, b, before);
    var j := ParseEntries(data, i, n, depth, b, before).index;
    ValueSound(data, start, n, depth + 1, b);
    var first := Entry(key, child.value);
    if Separator(data, child.index, mark, next, '}') && next == mark + 1 == j {
      EntriesCons(data, i, child.index, mark, next, j, first, []);
      entries := [first] + [];
    } else {
      var rest := EntriesSound(data, next, child.count, depth, b, before + [first]);
      EntriesCons(data, i, child.index, mark, next, j, first, rest);
      entries := [first] + rest;
      assert before + entries == before + [first] + rest;
    }
  }

  // ---- what is spelled is returned ----

  lemma IntegerFirst(digits: seq<byte>)
    requires IntegerText(digits)
    ensures digits != [] && (digits[0] == '-' as int || Digit(digits[0]))
  {
  }

  /** A spelled value starts with a byte that is neither whitespace nor a closing bracket. */
  lemma SpelledStarts(data: seq<byte>, i: nat, j: nat, v: Json)
    requires Spells(data, i, j, v) && (v.Integer? ==> IntegerText(v.digits))
    ensures i < |data| && !Space(data[i]) && !Here(data, i, ']') && !Here(data, i, '}')
  {
    match v
    case Null => assert data[i] == data[i..i + 4][0];
    case Boolean(value) => assert data[i] == data[i..j][0];
    case Integer(digits) =>
      assert data[i] == data[i..j][0] == digits[0];
      IntegerFirst(digits);
    case _ =>
  }

  lemma SeparatorBounds(data: seq<byte>, m: nat, s: nat, next: nat, mark: char)
    requires Separator(data, m, s, next, mark) && (mark == ',' || mark == ']' || mark == '}' || mark == ':')
    ensures m <= s < next <= |data| && SkipSpace(data, m) == s && Here(data, s, mark) && Spaces(data, s + 1, next)
    ensures mark != ':' ==> AtBoundary(data, m)
  {
    SkipSpaceStops(data, m, s);
  }

  lemma {:induction false} ValueComplete(data: seq<byte>, i: nat, j: nat, n: nat, depth: nat, b: Bounds, v: Json)
    requires Spells(data, i, j, v) && Admissible(v, depth, b) && n + Size(v) <= b.maximumNodeCount &&
      AtBoundary(data, j)
    ensures i <= |data| && ParseValue(data, i, n, depth, b) == Parsed(v, j, n + Size(v))
    decreases v, 1
  {
    match v
    case Array(items) => ArrayComplete(data, i, j, n, depth, b, items);
    case Object(entries) => ObjectComplete(data, i, j, n, depth, b, entries);
    case _ => ScalarComplete(data, i, j, n, depth, b, v);
  }

  lemma {:induction false} ArrayComplete(data: seq<byte>, i: nat, j: nat, n: nat, depth: nat, b: Bounds,
      items: seq<Json>)
    requires Spells(data, i, j, Array(items)) && Admissible(Array(items), depth, b) &&
      n + Size(Array(items)) <= b.maximumNodeCount
    ensures i <= |data| && ParseValue(data, i, n, depth, b) == Parsed(Array(items), j, n + Size(Array(items)))
    decreases items, 1
  {
    hide SpellsItems, ParseItems, SkipSpace;
    var k: nat :| Spaces(data, i + 1, k) &&
      if items == [] then k < |data| && data[k] == ']' as int && j == k + 1 else SpellsItems(data, k, j, items);
    if items == [] {
      SkipSpaceStops(data, i + 1, k);
    } else {
      assert items[0] in items && WellFormed(items[0]);
      ItemsStart(data, k, j, items);
      SkipSpaceStops(data, i + 1, k);
      ItemsComplete(data, k, j, n + 1, depth, b, [], items);
      assert [] + items == items;
    }
  }

  lemma ObjectParts(entries: seq<Entry>, depth: nat, b: Bounds)
    requires Admissible(Object(entries), depth, b)
    ensures depth <= b.maximumDepth && EntriesAdmissible(entries, depth + 1, b) && DistinctKeys(entries)
    ensures (entries == [] || |entries| <= b.maximumContainerEntries) &&
      Size(Object(entries)) == 1 + EntriesSize(entries)
    ensures entries == [] ==> EntriesSize(entries) == 0
  {
  }

  lemma ObjectOpens(data: seq<byte>, i: nat, n: nat, depth: nat, b: Bounds)
    requires i < |data| && data[i] == '{' as int && depth <= b.maximumDepth && n < b.maximumNodeCount
    ensures ParseValue(data, i, n, depth, b) ==
      if Here(data, SkipSpace(data, i + 1), '}') then Parsed(Object([]), SkipSpace(data, i + 1) + 1, n + 1)
      else ParseEntries(data, SkipSpace(data, i + 1), n + 1, depth, b, [])
  {
    hide ParseEntries, ParseItems, ParseString, ParseInteger, ParseLiteral, SkipSpace;
  }

  lemma {:induction false} ObjectComplete(data: seq<byte>, i: nat, j: nat, n: nat, depth: nat, b: Bounds,
      entries: seq<Entry>)
    requires Spells(data, i, j, Object(entries)) && Admissible(Object(entries), depth, b) &&
      n + Size(Object(entries)) <= b.maximumNodeCount
    ensures i <= |data| && ParseValue(data, i, n, depth, b) == Parsed(Object(entries), j, n + Size(Object(entries)))
    decreases entries, 1
  {
    hide SpellsEntries, ParseEntries, SkipSpace;
    var k: nat :| Spaces(data, i + 1, k) &&
      if entries == [] then k < |data| && data[k] == '}' as int && j == k + 1 else SpellsEntries(data, k, j, entries);
    ObjectParts(entries, depth, b);
    hide Spells, ParseValue, Admissible, Size, EntriesAdmissible, DistinctKeys;
    ObjectOpens(data, i, n, depth, b);
    if entries == [] {
      SkipSpaceStops(data, i + 1, k);
    } else {
      EntriesStart(data, k, j, entries);
      SkipSpaceStops(data, i + 1, k);
      EntriesComplete(data, k, j, n + 1, depth, b, [], entries);
      assert [] + entries == entries;
    }
  }

  lemma ScalarComplete(data: seq<byte>, i: nat, j: nat, n: nat, depth: nat, b: Bounds, v: Json)
    requires !v.Array? && !v.Object?
    requires Spells(data, i, j, v) && Admissible(v, depth, b) && n + Size(v) <= b.maximumNodeCount &&
      AtBoundary(data, j)
    ensures i <= |data| && ParseValue(data, i, n, depth, b) == Parsed(v, j, n + Size(v))
  {
    hide ParseString, SpellsRunes, ParseInteger, Delimiter;
    SpelledStarts(data, i, j, v);
    match v
    case Str(text) => StringComplete(data, i, j, text);
    case Integer(digits) => IntegerComplete(data, i, digits);
    case Null => assert data[i] == data[i..i + 4][0];
    case Boolean(value) => assert data[i] == data[i..j][0];
  }

  lemma ItemsSplit(data: seq<byte>, i: nat, j: nat, items: seq<Json>) returns (m: nat, s: nat, next: nat)
    requires items != [] && SpellsItems(data, i, j, items)
    ensures Spells(data, i, m, items[0])
    ensures if |items| == 1 then Separator(data, m, s, next, ']') && next == s + 1 == j
            else Separator(data, m, s, next, ',') && SpellsItems(data, next, j, items[1..])
  {
    hide Spells, Separator;
    m, s, next :| Spells(data, i, m, items[0]) &&
      if |items| == 1 then Separator(data, m, s, next, ']') && next == s + 1 == j
      else Separator(data, m, s, next, ',') && SpellsItems(data, next, j, items[1..]);
  }

  lemma ItemsStart(data: seq<byte>, i: nat, j: nat, items: seq<Json>)
    requires items != [] && SpellsItems(data, i, j, items) && (items[0].Integer? ==> IntegerText(items[0].digits))
    ensures i < |data| && !Space(data[i]) && !Here(data, i, ']')
  {
    hide Spells, SpellsItems;
    var m, s, next := ItemsSplit(data, i, j, items);
    SpelledStarts(data, i, m, items[0]);
  }

  lemma EntriesSplit(data: seq<byte>, i: nat, j: nat, entries: seq<Entry>) returns (m: nat, s: nat, next: nat)
    requires entries != [] && SpellsEntries(data, i, j, entries)
    ensures SpellsMember(data, i, m, entries[0])
    ensures if |entries| == 1 then Separator(data, m, s, next, '}') && next == s + 1 == j
            else Separator(data, m, s, next, ',') && SpellsEntries(data, next, j, entries[1..])
  {
    hide SpellsMember, Separator;
    m, s, next :| SpellsMember(data, i, m, entries[0]) &&
      if |entries| == 1 then Separator(data, m, s, next, '}') && next == s + 1 == j
      else Separator(data, m, s, next, ',') && SpellsEntries(data, next, j, entries[1..]);
  }

  lemma MemberSplit(data: seq<byte>, i: nat, j: nat, e: Entry) returns (m: nat, s: nat, next: nat)
    requires SpellsMember(data, i, j, e)
    ensures SpellsString(data, i, m, e.key) && Separator(data, m, s, next, ':') && Spells(data, next, j, e.value)
  {
    hide SpellsRunes, Separator, Spells;
    m, s, next :| SpellsString(data, i, m, e.key) && Separator(data, m, s, next, ':') && Spells(data, next, j, e.value);
  }

  lemma EntriesStart(data: seq<byte>, i: nat, j: nat, entries: seq<Entry>)
    requires entries != [] && SpellsEntries(data, i, j, entries)
    ensures Here(data, i, '"')
  {
    hide SpellsMember, SpellsEntries, Spells, SpellsRunes;
    var m, s, next := EntriesSplit(data, i, j, entries);
    var k, colon, start := MemberSplit(data, i, m, entries[0]);
  }

  lemma {:induction false} ItemsComplete(data: seq<byte>, i: nat, j: nat, n: nat, depth: nat, b: Bounds,
      before: seq<Json>, items: seq<Json>)
    requires items != [] && SpellsItems(data, i, j, items) && ItemsAdmissible(items, depth + 1, b)
    requires |before + items| <= b.maximumContainerEntries && n + ItemsSize(items) <= b.maximumNodeCount
    ensures i <= |data| &&
      ParseItems(data, i, n, depth, b, before) == Parsed(Array(before + items), j, n + ItemsSize(items))
    decreases items, 0
  {
    hide Spells, SpellsItems, ParseValue, Separator, Admissible, Delimiter;
    var m, s, next := ItemsSplit(data, i, j, items);
    assert items[0] in items;
    SeparatorBounds(data, m, s, next, if |items| == 1 then ']' else ',');
    ValueComplete(data, i, m, n, depth + 1, b, items[0]);
    if |items| == 1 {
      assert items == [items[0]];
    } else {
      AdmissibleFirst(items[1..], depth + 1, b);
      ItemsStart(data, next, j, items[1..]);
      SkipSpaceStops(data, s + 1, next);
      ItemsComplete(data, next, j, n + Size(items[0]), depth, b, before + [items[0]], items[1..]);
      assert before + items == before + [items[0]] + items[1..];
    }
  }

  lemma AdmissibleFirst(items: seq<Json>, depth: nat, b: Bounds)
    requires items != [] && ItemsAdmissible(items, depth, b)
    ensures WellFormed(items[0])
  {
    assert items[0] in items;
  }

  /** At `i` a key is read, and after its colon the value starts at `start`. */
  ghost predicate ReadsKey(data: seq<byte>, i: nat, key: seq<Rune>, start: nat) {
    && start <= |data| && Here(data, i, '"') && ParseString(data, i).Text? && ParseString(data, i).text == key
    && var colon := SkipSpace(data, ParseString(data, i).index);
    Here(data, colon, ':') && start == SkipSpace(data, colon + 1)
  }

  /** One spelled member is read as one turn of the object loop. */
  lemma {:induction false} MemberComplete(data: seq<byte>, i: nat, j: nat, n: nat, depth: nat, b: Bounds, e: Entry)
    returns (start: nat)
    requires SpellsMember(data, i, j, e) && Admissible(e.value, depth, b) && n + Size(e.value) <= b.maximumNodeCount &&
      AtBoundary(data, j)
    ensures ReadsKey(data, i, e.key, start)
    ensures ParseValue(data, start, n, depth, b) == Parsed(e.value, j, n + Size(e.value))
    decreases e, 0
  {
    hide Spells, SpellsMember, ParseValue, SpellsRunes, Separator, Delimiter;
    var m, s, next := MemberSplit(data, i, j, e);
    StringComplete(data, i, m, e.key);
    SeparatorBounds(data, m, s, next, ':');
    SpelledStarts(data, next, j, e.value);
    SkipSpaceStops(data, s + 1, next);
    ValueComplete(data, next, j, n, depth, b, e.value);
    start := next;
  }

  lemma {:induction false} EntriesComplete(data: seq<byte>, i: nat, j: nat, n: nat, depth: nat, b: Bounds,
      before: seq<Entry>, entries: seq<Entry>)
    requires entries != [] && SpellsEntries(data, i, j, entries) && EntriesAdmissible(entries, depth + 1, b)
    requires DistinctKeys(before + entries)
    requires |before + entries| <= b.maximumContainerEntries && n + EntriesSize(entries) <= b.maximumNodeCount
    ensures i <= |data| &&
      ParseEntries(data, i, n, depth, b, before) == Parsed(Object(before + entries), j, n + EntriesSize(entries))
    decreases entries, 0
  {
    hide Spells, SpellsEntries, SpellsMember, ParseValue, Separator, Admissible, Delimiter, ParseString, SkipSpace,
      Spaces, Size;
    var m, s, next := EntriesSplit(data, i, j, entries);
    var first := entries[0];
    assert first in entries;
    SeparatorBounds(data, m, s, next, if |entries| == 1 then '}' else ',');
    var start := MemberComplete(data, i, m, n, depth + 1, b, first);
    NewKey(before, entries);
    if |entries| == 1 {
      assert entries == [first];
    } else {
      EntriesStart(data, next, j, entries[1..]);
      SkipSpaceStops(data, s + 1, next);
      assert before + entries == before + [first] + entries[1..];
      EntriesComplete(data, next, j, n + Size(first.value), depth, b, before + [first], entries[1..]);
    }
  }

  lemma NewKey(before: seq<Entry>, entries: seq<Entry>)
    requires entries != [] && DistinctKeys(before + entries)
    ensures !exists k :: 0 <= k < |before| && before[k].key == entries[0].key
  {
    assert (before + entries)[|before|] == entries[0];
    assert forall k :: 0 <= k < |before| ==> (before + entries)[k] == before[k];
  }

  // ---- whole documents ----

  /** A document is parsed to `v` exactly when it spells `v` and `v` is well formed and within the bounds;
      in particular a document spells at most one such tree, and the node counter is its size. */
  lemma DocumentExact(data: seq<byte>, b: Bounds, v: Json)
    ensures ParseDocument(data, b) == Parsed(v, |data|, Size(v))
       <==> SpellsDocument(data, v) && Admissible(v, 0, b) && Size(v) <= b.maximumNodeCount
    ensures ParseDocument(data, b).Parsed? ==> ParseDocument(data, b).count == Size(ParseDocument(data, b).value)
  {
    var start := SkipSpace(data, 0);
    SkipSpaceSkips(data, 0);
    if ParseDocument(data, b).Parsed? {
      var r := ParseValue(data, start, 0, 0, b);
      ValueSound(data, start, 0, 0, b);
      SkipSpaceSkips(data, r.index);
    }
    if SpellsDocument(data, v) && Admissible(v, 0, b) && Size(v) <= b.maximumNodeCount {
      var i: nat, j: nat :| Spaces(data, 0, i) && Spells(data, i, j, v) && Spaces(data, j, |data|);
      SpelledStarts(data, i, j, v);
      SkipSpaceStops(data, 0, i);
      ValueComplete(data, i, j, 0, 0, b, v);
      SkipSpaceStops(data, j, |data|);
    }
  }
}
