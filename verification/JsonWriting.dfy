/**
 The canonical spelling of a tree, and why reading it back gives the tree with
 every object sorted by key.
 */
module JsonWriting {
  import opened Bytes
  import opened JsonText
  import opened JsonTree
  import opened JsonGrammar
  import opened JsonParsing
  import opened JsonAgreement

  function LowerHex(v: nat): (b: byte)
    requires v < 16
    ensures HexDigit(b) && HexValue(b) == v
  {
    if v < 10 then v + '0' as int else v - 10 + 'a' as int
  }

  /** One string character: quotes, backslashes, control characters and the two line separators are escaped. */
  function RenderRune(r: Rune): seq<byte> {
    if r == '"' as int || r == '\\' as int then ['\\' as int, r]
    else if r == 8 then Ascii("\\b")
    else if r == 12 then Ascii("\\f")
    else if r == 10 then Ascii("\\n")
    else if r == 13 then Ascii("\\r")
    else if r == 9 then Ascii("\\t")
    else if r == 0x2028 then Ascii("\\u2028")
    else if r == 0x2029 then Ascii("\\u2029")
    else if r < 0x20 then Ascii("\\u00") + [LowerHex(r / 16), LowerHex(r % 16)]
    else EncodeRune(r)
  }

  /** The characters and the closing quote. */
  function RenderRunes(text: seq<Rune>): seq<byte> {
    if text == [] then ['"' as int] else RenderRune(text[0]) + RenderRunes(text[1..])
  }

  function RenderString(text: seq<Rune>): seq<byte> {
    ['"' as int] + RenderRunes(text)
  }

  /** The spelling of a tree with object entries in the order they have. */
  function Render(v: Json): seq<byte>
    decreases v, 1
  {
    match v
    case Null => Ascii("null")
    case Boolean(true) => Ascii("true")
    case Boolean(false) => Ascii("false")
    case Integer(digits) => digits
    case Str(text) => RenderString(text)
    case Array(items) => ['[' as int] + if items == [] then [']' as int] else RenderItems(items)
    case Object(entries) => ['{' as int] + if entries == [] then ['}' as int] else RenderEntries(entries)
  }

  /** One or more values and the closing bracket. */
  function RenderItems(items: seq<Json>): seq<byte>
    requires items != []
    decreases items, 0
  {
    Render(items[0]) + if |items| == 1 then [']' as int] else [',' as int] + RenderItems(items[1..])
  }

  function RenderMember(e: Entry): seq<byte>
    decreases e, 0
  {
    RenderString(e.key) + ([':' as int] + Render(e.value))
  }

  /** One or more members and the closing brace. */
  function RenderEntries(entries: seq<Entry>): seq<byte>
    requires entries != []
    decreases entries, 0
  {
    RenderMember(entries[0]) + if |entries| == 1 then ['}' as int] else [',' as int] + RenderEntries(entries[1..])
  }

  /** What the writer emits: the spelling with every object sorted by key. */
  function Written(v: Json): seq<byte> {
    Render(Norm(v))
  }

  // ---- the rendering spells the tree ----

  lemma AtByte(data: seq<byte>, i: nat, b: byte)
    ensures At(data, i, [b]) <==> i < |data| && data[i] == b
  {
    if i < |data| { assert data[i..i + 1] == [data[i]]; }
  }

  lemma AtBytes(data: seq<byte>, i: nat, s: seq<byte>)
    requires At(data, i, s)
    ensures forall k :: 0 <= k < |s| ==> data[i + k] == s[k]
  {
    var t := data[i..i + |s|];
    assert forall k :: 0 <= k < |s| ==> t[k] == data[i + k];
  }

  lemma UnitSpelled(data: seq<byte>, i: nat, a: byte, b: byte, c: byte, d: byte, r: Rune)
    requires HexDigit(a) && HexDigit(b) && HexDigit(c) && HexDigit(d)
    requires r == HexValue(a) * 0x1000 + HexValue(b) * 0x100 + HexValue(c) * 0x10 + HexValue(d)
    requires At(data, i, ['\\' as int, 'u' as int, a, b, c, d])
    ensures SpellsRune(data, i, i + 6, r)
  {
    hide EncodeRune, HexValue, HexDigit;
    var s: seq<byte> := ['\\' as int, 'u' as int, a, b, c, d];
    AtBytes(data, i, s);
    assert data[i + 0] == s[0] && data[i + 1] == s[1] && data[i + 2] == s[2];
    assert data[i + 3] == s[3] && data[i + 4] == s[4] && data[i + 5] == s[5];
    assert HexQuad(data, i + 2) && QuadUnit(data, i + 2) == r;
  }

  lemma RuneSpelled(data: seq<byte>, i: nat, r: Rune)
    requires At(data, i, RenderRune(r))
    ensures SpellsRune(data, i, i + |RenderRune(r)|, r)
  {
    var two, eight, nine, zero := '2' as int, '8' as int, '9' as int, '0' as int;
    if r == 0x2028 {
      assert RenderRune(r) == ['\\' as int, 'u' as int, two, zero, two, eight];
      UnitSpelled(data, i, two, zero, two, eight, r);
    } else if r == 0x2029 {
      assert RenderRune(r) == ['\\' as int, 'u' as int, two, zero, two, nine];
      UnitSpelled(data, i, two, zero, two, nine, r);
    } else if r < 0x20 && r != 8 && r != 9 && r != 10 && r != 12 && r != 13 {
      assert RenderRune(r) == ['\\' as int, 'u' as int, zero, zero, LowerHex(r / 16), LowerHex(r % 16)];
      UnitSpelled(data, i, zero, zero, LowerHex(r / 16), LowerHex(r % 16), r);
    } else {
      ShortSpelled(data, i, r);
    }
  }

  lemma ShortSpelled(data: seq<byte>, i: nat, r: Rune)
    requires At(data, i, RenderRune(r)) && r != 0x2028 && r != 0x2029
    requires r >= 0x20 || r == 8 || r == 9 || r == 10 || r == 12 || r == 13
    ensures SpellsRune(data, i, i + |RenderRune(r)|, r)
  {
    hide EncodeRune;
    AtBytes(data, i, RenderRune(r));
  }

  lemma {:induction false} RunesSpelled(data: seq<byte>, i: nat, text: seq<Rune>)
    requires At(data, i, RenderRunes(text))
    ensures SpellsRunes(data, i, i + |RenderRunes(text)|, text)
    decreases |text|
  {
    hide SpellsRune, RenderRune;
    if text == [] {
      AtByte(data, i, '"' as int);
    } else {
      AtConcat(data, i, RenderRune(text[0]), RenderRunes(text[1..]));
      RuneSpelled(data, i, text[0]);
      RunesSpelled(data, i + |RenderRune(text[0])|, text[1..]);
    }
  }

  lemma StringSpelled(data: seq<byte>, i: nat, text: seq<Rune>)
    requires At(data, i, RenderString(text))
    ensures SpellsString(data, i, i + |RenderString(text)|, text)
  {
    hide RenderRunes, SpellsRunes;
    AtConcat(data, i, ['"' as int], RenderRunes(text));
    AtByte(data, i, '"' as int);
    RunesSpelled(data, i + 1, text);
  }

  lemma MarkSpelled(data: seq<byte>, i: nat, mark: char)
    requires mark as int < 128 && At(data, i, [mark as int])
    ensures Separator(data, i, i, i + 1, mark)
  {
    AtByte(data, i, mark as int);
  }

  lemma {:induction false} RenderSpells(data: seq<byte>, i: nat, v: Json)
    requires At(data, i, Render(v))
    ensures Spells(data, i, i + |Render(v)|, v)
    decreases v, 1
  {
    hide RenderItems, RenderEntries, SpellsItems, SpellsEntries, RenderString, SpellsString;
    match v
    case Array(items) => ArraySpelled(data, i, items);
    case Object(entries) => ObjectSpelled(data, i, entries);
    case Str(text) => StringSpelled(data, i, text);
    case _ =>
  }

  lemma {:induction false} ArraySpelled(data: seq<byte>, i: nat, items: seq<Json>)
    requires At(data, i, Render(Array(items)))
    ensures Spells(data, i, i + |Render(Array(items))|, Array(items))
    decreases items, 1
  {
    hide RenderItems, SpellsItems;
    var rest := if items == [] then [']' as int] else RenderItems(items);
    AtConcat(data, i, ['[' as int], rest);
    AtByte(data, i, '[' as int);
    assert Spaces(data, i + 1, i + 1);
    if items == [] {
      AtByte(data, i + 1, ']' as int);
    } else {
      ItemsSpelled(data, i + 1, items);
    }
  }

  lemma ItemsRendered(data: seq<byte>, i: nat, items: seq<Json>)
    requires items != [] && At(data, i, RenderItems(items))
    ensures At(data, i, Render(items[0]))
    ensures |items| == 1 ==>
      At(data, i + |Render(items[0])|, [']' as int]) && |RenderItems(items)| == |Render(items[0])| + 1
    ensures |items| > 1 ==>
      && At(data, i + |Render(items[0])|, [',' as int]) && At(data, i + |Render(items[0])| + 1, RenderItems(items[1..]))
      && |RenderItems(items)| == |Render(items[0])| + 1 + |RenderItems(items[1..])|
  {
    hide Render, At;
    var head := Render(items[0]);
    if |items| == 1 {
      AtConcat(data, i, head, [']' as int]);
    } else {
      AtConcat(data, i, head, [',' as int] + RenderItems(items[1..]));
      AtConcat(data, i + |head|, [',' as int], RenderItems(items[1..]));
    }
  }

  lemma {:induction false} ItemsSpelled(data: seq<byte>, i: nat, items: seq<Json>)
    requires items != [] && At(data, i, RenderItems(items))
    ensures SpellsItems(data, i, i + |RenderItems(items)|, items)
    decreases items, 0
  {
    hide Render, RenderItems, Spells, SpellsItems, Separator, At;
    ItemsRendered(data, i, items);
    var m := i + |Render(items[0])|;
    RenderSpells(data, i, items[0]);
    if |items| == 1 {
      MarkSpelled(data, m, ']');
      ItemsCons(data, i, m, m, m + 1, m + 1, items[0], []);
      assert items == [items[0]] + [];
    } else {
      MarkSpelled(data, m, ',');
      ItemsSpelled(data, m + 1, items[1..]);
      ItemsCons(data, i, m, m, m + 1, m + 1 + |RenderItems(items[1..])|, items[0], items[1..]);
      assert items == [items[0]] + items[1..];
    }
  }

  lemma {:induction false} ObjectSpelled(data: seq<byte>, i: nat, entries: seq<Entry>)
    requires At(data, i, Render(Object(entries)))
    ensures Spells(data, i, i + |Render(Object(entries))|, Object(entries))
    decreases entries, 1
  {
    hide RenderEntries, SpellsEntries;
    var rest := if entries == [] then ['}' as int] else RenderEntries(entries);
    AtConcat(data, i, ['{' as int], rest);
    AtByte(data, i, '{' as int);
    assert Spaces(data, i + 1, i + 1);
    if entries == [] {
      AtByte(data, i + 1, '}' as int);
    } else {
      EntriesSpelled(data, i + 1, entries);
    }
  }

  lemma {:induction false} MemberSpelled(data: seq<byte>, i: nat, e: Entry)
    requires At(data, i, RenderMember(e))
    ensures SpellsMember(data, i, i + |RenderMember(e)|, e)
    decreases e, 0
  {
    hide Render, RenderString, Spells, SpellsString, Separator;
    var key := RenderString(e.key);
    var m := i + |key|;
    AtConcat(data, i, key, [':' as int] + Render(e.value));
    AtConcat(data, m, [':' as int], Render(e.value));
    StringSpelled(data, i, e.key);
    MarkSpelled(data, m, ':');
    RenderSpells(data, m + 1, e.value);
  }

  lemma EntriesRendered(data: seq<byte>, i: nat, entries: seq<Entry>)
    requires entries != [] && At(data, i, RenderEntries(entries))
    ensures At(data, i, RenderMember(entries[0]))
    ensures |entries| == 1 ==>
      At(data, i + |RenderMember(entries[0])|,
        ['}' as int]) && |RenderEntries(entries)| == |RenderMember(entries[0])| + 1
    ensures |entries| > 1 ==>
      && At(data, i + |RenderMember(entries[0])|, [',' as int])
      && At(data, i + |RenderMember(entries[0])| + 1, RenderEntries(entries[1..]))
      && |RenderEntries(entries)| == |RenderMember(entries[0])| + 1 + |RenderEntries(entries[1..])|
  {
    hide RenderMember, At;
    var head := RenderMember(entries[0]);
    if |entries| == 1 {
      AtConcat(data, i, head, ['}' as int]);
    } else {
      AtConcat(data, i, head, [',' as int] + RenderEntries(entries[1..]));
      AtConcat(data, i + |head|, [',' as int], RenderEntries(entries[1..]));
    }
  }

  lemma {:induction false} EntriesSpelled(data: seq<byte>, i: nat, entries: seq<Entry>)
    requires entries != [] && At(data, i, RenderEntries(entries))
    ensures SpellsEntries(data, i, i + |RenderEntries(entries)|, entries)
    decreases entries, 0
  {
    hide RenderMember, RenderEntries, SpellsMember, SpellsEntries, Separator, At;
    EntriesRendered(data, i, entries);
    var m := i + |RenderMember(entries[0])|;
    MemberSpelled(data, i, entries[0]);
    if |entries| == 1 {
      MarkSpelled(data, m, '}');
      EntriesCons(data, i, m, m, m + 1, m + 1, entries[0], []);
      assert entries == [entries[0]] + [];
    } else {
      MarkSpelled(data, m, ',');
      EntriesSpelled(data, m + 1, entries[1..]);
      EntriesCons(data, i, m, m, m + 1, m + 1 + |RenderEntries(entries[1..])|, entries[0], entries[1..]);
      assert entries == [entries[0]] + entries[1..];
    }
  }

  // ---- reading back what was written ----

  /** Parsing the written form of a well-formed tree within the bounds, followed by the end of input or a
      delimiter, consumes exactly the written bytes and returns the tree sorted by key. */
  lemma ReadBack(data: seq<byte>, i: nat, n: nat, depth: nat, b: Bounds, v: Json)
    requires At(data, i, Written(v)) && AtBoundary(data, i + |Written(v)|)
    requires Admissible(v, depth, b) && n + Size(v) <= b.maximumNodeCount
    ensures ParseValue(data, i, n, depth, b) == Parsed(Norm(v), i + |Written(v)|, n + Size(v))
  {
    hide Render, Spells, ParseValue, WellFormed, Fits, Norm, Size, Delimiter, At;
    NormKeeps(v, depth, b);
    RenderSpells(data, i, Norm(v));
    ValueComplete(data, i, i + |Written(v)|, n, depth, b, Norm(v));
  }
}
