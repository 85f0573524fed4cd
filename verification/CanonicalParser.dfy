/**
 The parser object and the writer, step by step: a cursor and a node counter
 that only move forward, and an output buffer that only grows. Each method is
 tied to the functions of JsonParsing and JsonWriting.
 */
module CanonicalParser {
  import opened Bytes
  import opened JsonText
  import opened JsonTree
  import opened JsonGrammar
  import P = JsonParsing
  import opened JsonAgreement
  import opened JsonWriting
  import opened JsonCanonical
  import opened CanonicalCodec

  datatype Reply<+T> = Value(value: T) | Failed(error: P.Error)

  class Parser {
    const data: seq<byte>
    const bounds: Bounds
    var index: nat
    var nodeCount: nat

    ghost predicate Valid()
      reads this
    {
      index <= |data|
    }

    constructor (data: seq<byte>, bounds: Bounds)
      ensures Valid() && this.data == data && this.bounds == bounds && index == 0 && nodeCount == 0
    {
      this.data, this.bounds, index, nodeCount := data, bounds, 0, 0;
    }

    method SkipWhitespace()
      requires Valid()
      modifies this`index
      ensures Valid() && index == P.SkipSpace(data, old(index))
    {
      while index < |data| && Space(data[index])
        invariant Valid() && P.SkipSpace(data, index) == P.SkipSpace(data, old(index))
        decreases |data| - index
      {
        index := index + 1;
      }
    }

    method ConsumeByte(c: char) returns (ok: bool)
      requires Valid()
      modifies this`index
      ensures Valid() && ok == P.Here(data, old(index), c) && index == old(index) + if ok then 1 else 0
    {
      ok := index < |data| && data[index] == c as int;
      if ok { index := index + 1; }
    }

    method ConsumeLiteral(literal: seq<byte>) returns (ok: bool)
      requires Valid()
      modifies this`index
      ensures Valid() && ok == P.ParseLiteral(data, old(index), literal).Some?
      ensures ok ==> index == P.ParseLiteral(data, old(index), literal).value
    {
      if index + |literal| > |data| || data[index..index + |literal|] != literal {
        return false;
      }
      index := index + |literal|;
      ok := index == |data| || Delimiter(data[index]);
    }

    method ParseHexQuad() returns (unit: Option<nat>)
      requires Valid()
      modifies this`index
      ensures Valid()
      ensures unit == if HexQuad(data, old(index)) then Some(QuadUnit(data, old(index))) else None
      ensures index == old(index) + if unit.Some? then 4 else 0
    {
      if !HexQuad(data, index) { return None; }
      unit := Some(QuadUnit(data, index));
      index := index + 4;
    }

    /** The part of a string escape after `\u`. */
    method ParseUnicodeEscape() returns (r: Option<Rune>)
      requires Valid()
      modifies this`index
      ensures Valid()
      ensures match P.ParseUnicodeEscape(data, old(index))
        case OneRune(rune, j) => r == Some(rune) && index == j
        case NoRune => r == None
    {
      var first := ParseHexQuad();
      if first.None? { return None; }
      if !(0xD800 <= first.value <= 0xDFFF) { return Some(first.value); }
      if first.value > 0xDBFF || index + 2 > |data| || data[index] != '\\' as int || data[index + 1] != 'u' as int {
        return None;
      }
      index := index + 2;
      var second := ParseHexQuad();
      if second.None? || second.value < 0xDC00 || second.value > 0xDFFF { return None; }
      r := Some(Combine(first.value, second.value));
    }

    method ParseString() returns (r: Reply<seq<Rune>>)
      requires Valid()
      modifies this`index
      ensures Valid()
      ensures match P.ParseString(data, old(index))
        case Text(text, j) => r == Value(text) && index == j
        case NoText => r == Failed(P.NonCanonical)
    {
      hide DecodeRune, P.ParseUnicodeEscape, P.Unescape;
      var quoted := ConsumeByte('"');
      if !quoted { return Failed(P.NonCanonical); }
      var output: seq<Rune> := [];
      while index < |data|
        invariant Valid() && index > old(index)
        invariant P.ParseRunes(data, index, output) == P.ParseString(data, old(index))
        decreases |data| - index
      {
        var current := data[index];
        if current == '"' as int {
          index := index + 1;
          return Value(output);
        }
        if current == '\\' as int {
          index := index + 1;
          if index >= |data| { return Failed(P.NonCanonical); }
          var escaped := data[index];
          index := index + 1;
          if escaped == 'u' as int {
            var rune := ParseUnicodeEscape();
            if rune.None? { return Failed(P.NonCanonical); }
            output := output + [rune.value];
          } else {
            var rune := P.Unescape(escaped);
            if rune.None? { return Failed(P.NonCanonical); }
            output := output + [rune.value];
          }
        } else {
          if current < 0x20 { return Failed(P.NonCanonical); }
          var decoded := DecodeRune(data, index);
          if decoded.Malformed? { return Failed(P.NonCanonical); }
          output := output + [decoded.rune];
          index := index + decoded.width;
        }
      }
      r := Failed(P.NonCanonical);
    }

    method ParseInteger() returns (r: Reply<seq<byte>>)
      requires Valid()
      modifies this`index
      ensures Valid()
      ensures match P.ParseInteger(data, old(index))
        case Some(j) => r == Value(data[old(index)..j]) && index == j
        case None => r == Failed(P.NonCanonical)
    {
      var start := index;
      var negative := ConsumeByte('-');
      if index >= |data| { return Failed(P.NonCanonical); }
      if data[index] == '0' as int {
        if negative { return Failed(P.NonCanonical); }
        index := index + 1;
        if index < |data| && Digit(data[index]) { return Failed(P.NonCanonical); }
      } else {
        if !Digit(data[index]) { return Failed(P.NonCanonical); }
        ghost var body := index;
        while index < |data| && Digit(data[index])
          invariant Valid() && index >= body
          invariant P.DigitsEnd(data, index) == P.DigitsEnd(data, body)
          decreases |data| - index
        {
          index := index + 1;
        }
      }
      if index < |data| && !Delimiter(data[index]) { return Failed(P.NonCanonical); }
      r := Value(data[start..index]);
    }

    /** How a reply and the cursor after it answer the corresponding outcome. */
    ghost predicate Answers(r: Reply<Json>, outcome: P.Outcome)
      reads this
    {
      && Valid()
      && match outcome
         case Parsed(v, j, n) => r == Value(v) && index == j && nodeCount == n
         case Rejected(e) => r == Failed(e)
    }

    method ParseValue(depth: nat) returns (r: Reply<Json>)
      requires Valid()
      modifies this
      ensures Answers(r, P.ParseValue(data, old(index), old(nodeCount), depth, bounds))
      decreases |data| - index, 2
    {
      if depth > bounds.maximumDepth || index >= |data| { return Failed(P.NonCanonical); }
      nodeCount := nodeCount + 1;
      if nodeCount > bounds.maximumNodeCount { return Failed(P.NodeCount); }
      var c := data[index] as char;
      if c == '{' {
        r := ParseObject(depth);
      } else if c == '[' {
        r := ParseArray(depth);
      } else {
        r := ParseScalar(c);
      }
    }

    /** The cases that hold no other value, with the node already counted. */
    method ParseScalar(c: char) returns (r: Reply<Json>)
      requires Valid() && index < |data| && c == data[index] as char && c != '{' && c != '['
      requires 1 <= nodeCount <= bounds.maximumNodeCount
      modifies this
      ensures Answers(r, P.ParseValue(data, old(index), old(nodeCount) - 1, 0, bounds.(maximumDepth := 0)))
    {
      if c == '"' {
        var text := ParseString();
        r := match text case Value(t) => Value(Str(t)) case Failed(e) => Failed(e);
      } else if c == 't' {
        var ok := ConsumeLiteral(Ascii("true"));
        r := if ok then Value(Boolean(true)) else Failed(P.NonCanonical);
      } else if c == 'f' {
        var ok := ConsumeLiteral(Ascii("false"));
        r := if ok then Value(Boolean(false)) else Failed(P.NonCanonical);
      } else if c == 'n' {
        var ok := ConsumeLiteral(Ascii("null"));
        r := if ok then Value(Null) else Failed(P.NonCanonical);
      } else if c == '-' || Digit(data[index]) {
        var digits := ParseInteger();
        r := match digits case Value(d) => Value(Integer(d)) case Failed(e) => Failed(e);
      } else {
        r := Failed(P.NonCanonical);
      }
    }

    method ParseObject(depth: nat) returns (r: Reply<Json>)
      requires Valid() &&
        P.Here(data, index, '{') && depth <= bounds.maximumDepth && 1 <= nodeCount <= bounds.maximumNodeCount
      modifies this
      ensures Answers(r, P.ParseValue(data, old(index), old(nodeCount) - 1, depth, bounds))
      decreases |data| - index, 1
    {
      index := index + 1;
      SkipWhitespace();
      var empty := ConsumeByte('}');
      if empty { return Value(Object([])); }
      r := ParseMembers(depth);
    }

    /** The object loop, after the opening brace and whitespace. */
    method ParseMembers(depth: nat) returns (r: Reply<Json>)
      requires Valid()
      modifies this
      ensures Answers(r, P.ParseEntries(data, old(index), old(nodeCount), depth, bounds, []))
      decreases |data| - index, 3
    {
      hide P.ParseString, P.SkipSpace, P.ParseValue;
      var entries: seq<Entry> := [];
      var keys: set<seq<Rune>> := {};
      while true
        invariant Valid() && index >= old(index)
        invariant KeysOf(entries, keys)
        invariant P.ParseEntries(data, index, nodeCount, depth, bounds, entries)
               == P.ParseEntries(data, old(index), old(nodeCount), depth, bounds, [])
        decreases |data| - index
      {
        if |entries| >= bounds.maximumContainerEntries || index >= |data| || data[index] != '"' as int {
          return Failed(P.ContainerEntries);
        }
        var key := ParseString();
        if key.Failed? { return Failed(P.NonCanonical); }
        if key.value in keys { return Failed(P.DuplicateKey); }
        ghost var seen := keys;
        keys := keys + {key.value};
        SkipWhitespace();
        var colon := ConsumeByte(':');
        if !colon { return Failed(P.NonCanonical); }
        SkipWhitespace();
        var child := ParseValue(depth + 1);
        if child.Failed? { return Failed(child.error); }
        AddKey(entries, seen, Entry(key.value, child.value));
        entries := entries + [Entry(key.value, child.value)];
        SkipWhitespace();
        var closed := ConsumeByte('}');
        if closed { return Value(Object(entries)); }
        var comma := ConsumeByte(',');
        if !comma { return Failed(P.NonCanonical); }
        SkipWhitespace();
      }
    }

    method ParseArray(depth: nat) returns (r: Reply<Json>)
      requires Valid() &&
        P.Here(data, index, '[') && depth <= bounds.maximumDepth && 1 <= nodeCount <= bounds.maximumNodeCount
      modifies this
      ensures Answers(r, P.ParseValue(data, old(index), old(nodeCount) - 1, depth, bounds))
      decreases |data| - index, 1
    {
      index := index + 1;
      SkipWhitespace();
      var empty := ConsumeByte(']');
      if empty { return Value(Array([])); }
      r := ParseElements(depth);
    }

    /** The array loop, after the opening bracket and whitespace. */
    method ParseElements(depth: nat) returns (r: Reply<Json>)
      requires Valid()
      modifies this
      ensures Answers(r, P.ParseItems(data, old(index), old(nodeCount), depth, bounds, []))
      decreases |data| - index, 3
    {
      hide P.SkipSpace, P.ParseValue;
      var values: seq<Json> := [];
      while true
        invariant Valid() && index >= old(index)
        invariant P.ParseItems(data, index, nodeCount, depth, bounds, values)
               == P.ParseItems(data, old(index), old(nodeCount), depth, bounds, [])
        decreases |data| - index
      {
        if |values| >= bounds.maximumContainerEntries { return Failed(P.ContainerEntries); }
        var child := ParseValue(depth + 1);
        if child.Failed? { return Failed(child.error); }
        values := values + [child.value];
        SkipWhitespace();
        var closed := ConsumeByte(']');
        if closed { return Value(Array(values)); }
        var comma := ConsumeByte(',');
        if !comma { return Failed(P.NonCanonical); }
        SkipWhitespace();
      }
    }

    /** A fresh parser reads the whole document, and its node counter ends at the size of the tree. */
    method Parse() returns (r: Reply<Json>)
      requires Valid() && index == 0 && nodeCount == 0
      modifies this
      ensures Answers(r, P.ParseDocument(data, bounds))
      ensures r.Value? <==> exists v :: SpellsDocument(data, v) && InBounds(v, bounds)
      ensures r.Value? ==> SpellsDocument(data, r.value) && InBounds(r.value, bounds) && nodeCount == Size(r.value)
    {
      hide SpellsDocument, InBounds, Admissible;
      SkipWhitespace();
      var value := ParseValue(0);
      if value.Failed? {
        r := value;
      } else {
        SkipWhitespace();
        r := if index == |data| then value else Failed(P.NonCanonical);
      }
      DocumentAccepted(data, bounds);
    }
  }

  /** The seen-key set of the object loop holds exactly the keys of the entries read so far. */
  ghost predicate KeysOf(entries: seq<Entry>, keys: set<seq<Rune>>) {
    && (forall k :: 0 <= k < |entries| ==> entries[k].key in keys)
    && (forall key | key in keys :: exists k :: 0 <= k < |entries| && entries[k].key == key)
  }

  lemma AddKey(entries: seq<Entry>, keys: set<seq<Rune>>, e: Entry)
    requires KeysOf(entries, keys)
    ensures KeysOf(entries + [e], keys + {e.key})
  {
    var more := entries + [e];
    assert more[|entries|] == e;
    forall key | key in keys ensures exists k :: 0 <= k < |more| && more[k].key == key {
      var k :| 0 <= k < |entries| && entries[k].key == key;
      assert more[k].key == key;
    }
  }

  lemma DocumentAccepted(data: seq<byte>, b: Bounds)
    ensures P.ParseDocument(data, b).Parsed? <==> exists v :: SpellsDocument(data, v) && InBounds(v, b)
    ensures P.ParseDocument(data, b).Parsed? ==>
      var r := P.ParseDocument(data, b);
      SpellsDocument(data, r.value) && InBounds(r.value, b) && r.count == Size(r.value)
  {
    hide SpellsDocument, Admissible, P.ParseDocument;
    var r := P.ParseDocument(data, b);
    if r.Parsed? {
      DocumentExact(data, b, r.value);
    }
    if v :| SpellsDocument(data, v) && InBounds(v, b) {
      DocumentExact(data, b, v);
    }
  }

  // ---- the writer ----

  class Buffer {
    var bytes: seq<byte>

    constructor ()
      ensures bytes == []
    {
      bytes := [];
    }

    method Write(more: seq<byte>)
      modifies this
      ensures bytes == old(bytes) + more
    {
      bytes := bytes + more;
    }
  }

  method WriteString(text: seq<Rune>, output: Buffer)
    modifies output
    ensures output.bytes == old(output.bytes) + RenderString(text) && ChosenString(RenderString(text), text)
  {
    StringChoice(RenderString(text), text);
    hide RenderRune, ChosenString;
    output.Write(['"' as int]);
    for i := 0 to |text|
      invariant output.bytes + RenderRunes(text[i..]) == old(output.bytes) + RenderString(text)
    {
      assert text[i..][0] == text[i] && text[i..][1..] == text[i + 1..];
      output.Write(RenderRune(text[i]));
    }
    output.Write(['"' as int]);
  }

  /** What is still to be written after `i` of the members. */
  ghost function RestOfEntries(entries: seq<Entry>, i: nat): seq<byte>
    requires i <= |entries|
  {
    if i == |entries| then ['}' as int]
    else (if i > 0 then [',' as int] else []) + RenderEntries(entries[i..])
  }

  lemma RestOfEntriesEnds(entries: seq<Entry>)
    ensures ['{' as int] + RestOfEntries(entries, 0) == Render(Object(entries))
    ensures RestOfEntries(entries, |entries|) == ['}' as int]
  {
    assert entries[0..] == entries;
    if entries != [] { assert [] + RenderEntries(entries) == RenderEntries(entries); }
  }

  lemma RestOfEntriesStep(entries: seq<Entry>, i: nat)
    requires i < |entries|
    ensures RestOfEntries(entries, i)
         == (if i > 0 then [',' as int] else []) + RenderMember(entries[i]) + RestOfEntries(entries, i + 1)
  {
    hide RenderMember;
    assert entries[i..][0] == entries[i] && entries[i..][1..] == entries[i + 1..];
  }

  ghost function RestOfItems(items: seq<Json>, i: nat): seq<byte>
    requires i <= |items|
  {
    if i == |items| then [']' as int]
    else (if i > 0 then [',' as int] else []) + RenderItems(items[i..])
  }

  lemma RestOfItemsEnds(items: seq<Json>)
    ensures ['[' as int] + RestOfItems(items, 0) == Render(Array(items))
    ensures RestOfItems(items, |items|) == [']' as int]
  {
    assert items[0..] == items;
    if items != [] { assert [] + RenderItems(items) == RenderItems(items); }
  }

  lemma RestOfItemsStep(items: seq<Json>, i: nat)
    requires i < |items|
    ensures RestOfItems(items, i)
         == (if i > 0 then [',' as int] else []) + Render(items[i]) + RestOfItems(items, i + 1)
  {
    hide Render;
    assert items[i..][0] == items[i] && items[i..][1..] == items[i + 1..];
  }

  /** Sorting first and normalising the members afterwards is the same as the other way round. */
  lemma SortThenNorm(entries: seq<Entry>)
    requires DistinctKeys(entries)
    ensures NormEntries(SortEntries(entries)) == SortEntries(NormEntries(entries))
  {
    hide KeyLess, SortEntries, Norm;
    var sorted := SortEntries(entries);
    SortSorted(entries);
    MembersOf(sorted, entries);
    NormObjectSorted(entries);
    var a, b := NormEntries(sorted), SortEntries(NormEntries(entries));
    assert StrictlySorted(a) by {
      assert forall i :: 0 <= i < |a| ==> a[i].key == sorted[i].key;
    }
    forall x | x in a ensures x in b {
      var i :| 0 <= i < |a| && a[i] == x;
      assert sorted[i] in sorted;
      NormMember(entries, sorted[i]);
    }
    forall x | x in b ensures x in a {
      var e := NormMemberOrigin(entries, x);
      var i :| 0 <= i < |sorted| && sorted[i] == e;
      assert a[i] == x;
    }
    SortedUnique(a, b);
  }

  lemma {:induction false} MemberSmaller(entries: seq<Entry>, i: nat)
    requires i < |entries|
    ensures Size(entries[i].value) <= EntriesSize(entries)
    decreases i
  {
    if i > 0 { MemberSmaller(entries[1..], i - 1); }
  }

  lemma {:induction false} ItemSmaller(items: seq<Json>, i: nat)
    requires i < |items|
    ensures Size(items[i]) <= ItemsSize(items)
    decreases i
  {
    if i > 0 { ItemSmaller(items[1..], i - 1); }
  }

  method WriteValue(v: Json, output: Buffer)
    requires WellFormed(v)
    modifies output
    ensures output.bytes == old(output.bytes) + Written(v)
    decreases Size(v), 2
  {
    match v
    case Object(entries) => WriteObject(entries, output);
    case Array(items) => WriteArray(items, output);
    case Str(text) => WriteString(text, output);
    case Integer(digits) => output.Write(digits);
    case Boolean(value) => output.Write(if value then Ascii("true") else Ascii("false"));
    case Null => output.Write(Ascii("null"));
  }

  method WriteObject(entries: seq<Entry>, output: Buffer)
    requires WellFormed(Object(entries))
    modifies output
    ensures output.bytes == old(output.bytes) + Written(Object(entries))
    decreases 1 + EntriesSize(entries), 1
  {
    hide Render, SortEntries, Norm;
    SortSize(entries);
    var sorted := SortEntries(entries);
    MembersOf(sorted, entries);
    SortThenNorm(entries);
    NormObject(entries);
    WriteSorted(sorted, output);
  }

  lemma NormObject(entries: seq<Entry>)
    ensures Norm(Object(entries)) == Object(SortEntries(NormEntries(entries)))
  {
  }

  method WriteSorted(sorted: seq<Entry>, output: Buffer)
    requires forall e | e in sorted :: WellFormed(e.value)
    modifies output
    ensures output.bytes == old(output.bytes) + Render(Object(NormEntries(sorted)))
    decreases 1 + EntriesSize(sorted), 0
  {
    hide Render, RestOfEntries, RenderMember, Norm, WellFormed;
    ghost var norm := NormEntries(sorted);
    ghost var target := old(output.bytes) + Render(Object(norm));
    RestOfEntriesEnds(norm);
    output.Write(['{' as int]);
    for i := 0 to |sorted|
      invariant output.bytes + RestOfEntries(norm, i) == target
    {
      assert sorted[i] in sorted;
      RestOfEntriesStep(norm, i);
      MemberSmaller(sorted, i);
      ghost var before, piece := output.bytes, (if i > 0 then [',' as int] else []) + RenderMember(norm[i]);
      WriteMember(sorted[i], i > 0, output);
      assert before + (piece + RestOfEntries(norm, i + 1)) == before + piece + RestOfEntries(norm, i + 1);
    }
    output.Write(['}' as int]);
  }

  method WriteMember(e: Entry, comma: bool, output: Buffer)
    requires WellFormed(e.value)
    modifies output
    ensures output.bytes == old(output.bytes) + ((if comma then [',' as int] else []) + RenderMember(NormEntry(e)))
    decreases Size(e.value), 3
  {
    hide Render, RenderString;
    if comma { output.Write([',' as int]); }
    WriteString(e.key, output);
    output.Write([':' as int]);
    WriteValue(e.value, output);
  }

  method WriteArray(items: seq<Json>, output: Buffer)
    requires WellFormed(Array(items))
    modifies output
    ensures output.bytes == old(output.bytes) + Written(Array(items))
    decreases 1 + ItemsSize(items), 0
  {
    hide Render, RestOfItems, Norm, WellFormed;
    ghost var norm := NormItems(items);
    ghost var target := old(output.bytes) + Render(Array(norm));
    NormArray(items);
    RestOfItemsEnds(norm);
    output.Write(['[' as int]);
    for i := 0 to |items|
      invariant output.bytes + RestOfItems(norm, i) == target
    {
      MembersWellFormed(items, i);
      RestOfItemsStep(norm, i);
      ItemSmaller(items, i);
      ghost var before, piece := output.bytes, (if i > 0 then [',' as int] else []) + Render(norm[i]);
      if i > 0 { output.Write([',' as int]); }
      WriteValue(items[i], output);
      assert output.bytes == before + piece;
      assert before + (piece + RestOfItems(norm, i + 1)) == before + piece + RestOfItems(norm, i + 1);
    }
    output.Write([']' as int]);
  }

  lemma NormArray(items: seq<Json>)
    ensures Norm(Array(items)) == Array(NormItems(items))
  {
  }

  lemma MembersWellFormed(items: seq<Json>, i: nat)
    requires WellFormed(Array(items)) && i < |items|
    ensures WellFormed(items[i])
  {
    assert items[i] in items;
  }

  // ---- whole documents ----

  method CanonicalizeDocument(data: seq<byte>, b: Bounds) returns (r: Result)
    ensures r == Canonicalize(data, b)
    ensures r.Ok? ==> CanonicalOf(data, b, r.bytes)
    ensures r.Err? ==> forall out :: !CanonicalOf(data, b, out)
  {
    forall out ensures Canonicalize(data, b) == Ok(out) <==> CanonicalOf(data, b, out) {
      CanonicalizeExact(data, b, out);
    }
    hide CanonicalOf;
    if |data| == 0 || |data| > b.maximumDocumentBytes || !Valid(data) { return Err(P.DocumentBytes); }
    var parser := new Parser(data, b);
    var value := parser.Parse();
    if value.Failed? { return Err(value.error); }
    ParsedIsWellFormed(value.value, b);
    var output := new Buffer();
    WriteValue(value.value, output);
    r := if |output.bytes| > b.maximumDocumentBytes then Err(P.DocumentBytes) else Ok(output.bytes);
  }

  lemma ParsedIsWellFormed(v: Json, b: Bounds)
    requires InBounds(v, b)
    ensures WellFormed(v)
  {
  }

  /** The decoder's gate: the bytes are accepted exactly when they are the canonical spelling of a bounded tree. */
  method AcceptCanonical(data: seq<byte>, b: Bounds) returns (r: Result)
    ensures r.Ok? ==> r.bytes == data
    ensures r.Ok? <==> |data| <= b.maximumDocumentBytes && exists v :: InBounds(v, b) && Chosen(data, v)
  {
    hide InBounds, Chosen, Canonicalize;
    var canonical := CanonicalizeDocument(data, b);
    FixedPoints(data, b);
    if canonical.Err? { return canonical; }
    r := if canonical.bytes == data then canonical else Err(P.NonCanonical);
  }
}
