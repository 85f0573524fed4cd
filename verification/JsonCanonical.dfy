/**
 Which of the legal spellings of a tree is the canonical one, said without the writer: no whitespace, object keys in
 byte order, and one choice among the spellings of each character.
 */
module JsonCanonical {
  import opened Bytes
  import opened JsonText
  import opened JsonTree
  import opened JsonGrammar
  import opened JsonWriting

  // ---- one character ----

  /** Characters that stand for themselves in a string; the two line separators do not, though the grammar lets them. */
  predicate Plain(r: Rune) {
    r >= 0x20 && r != '"' as int && r != '\\' as int && r != 0x2028 && r != 0x2029
  }

  /** There is a two-byte escape for the character, the one for the slash aside. */
  ghost predicate HasShortEscape(r: Rune) {
    exists b: byte :: b != '/' as int && ShortEscape(b, r)
  }

  /** Of the spellings of the character: itself if it is plain, else the two-byte escape if there is one, else the
      six-byte escape in lower case. */
  ghost predicate ChosenRune(s: seq<byte>, r: Rune) {
    && SpellsRune(s, 0, |s|, r) && s != []
    && (Plain(r) <==> s[0] != '\\' as int)
    && (!Plain(r) && HasShortEscape(r) ==> |s| == 2)
    && (!Plain(r) && !HasShortEscape(r) ==> |s| == 6)
    && (!Plain(r) ==> forall k :: 0 <= k < |s| ==> !('A' as int <= s[k] <= 'Z' as int))
  }

  lemma WholeEncoding(s: seq<byte>, t: seq<byte>)
    ensures At(s, 0, t) && |s| == |t| <==> s == t
  {
    if |s| == |t| { assert s[0..|t|] == s; }
  }

  lemma LowerDigits(v: nat)
    requires v < 16
    ensures var b := LowerHex(v); HexDigit(b) && HexValue(b) == v && !('A' as int <= b <= 'Z' as int)
  {
  }

  lemma LowerDigit(b: byte)
    requires HexDigit(b) && !('A' as int <= b <= 'Z' as int)
    ensures b == LowerHex(HexValue(b))
  {
  }

  /** The writer makes that choice, and it leaves no other. */
  lemma RuneChoice(s: seq<byte>, r: Rune)
    ensures ChosenRune(s, r) <==> s == RenderRune(r)
  {
    if Plain(r) {
      PlainChoice(s, r);
    } else {
      ShortEscapes(r);
      if HasShortEscape(r) { ShortChoice(s, r); } else { LongChoice(s, r); }
    }
  }

  lemma PlainChoice(s: seq<byte>, r: Rune)
    requires Plain(r)
    ensures ChosenRune(s, r) <==> s == RenderRune(r)
  {
    hide EncodeRune;
    WholeEncoding(s, EncodeRune(r));
  }

  lemma ShortEscapes(r: Rune)
    ensures HasShortEscape(r) <==> r in {8, 9, 10, 12, 13, '"' as int, '\\' as int}
  {
    if r == 8 { assert ShortEscape('b' as int, r); }
    if r == 9 { assert ShortEscape('t' as int, r); }
    if r == 10 { assert ShortEscape('n' as int, r); }
    if r == 12 { assert ShortEscape('f' as int, r); }
    if r == 13 { assert ShortEscape('r' as int, r); }
    if r == '"' as int || r == '\\' as int { assert ShortEscape(r, r); }
  }

  lemma ShortChoice(s: seq<byte>, r: Rune)
    requires !Plain(r) && HasShortEscape(r) && r in {8, 9, 10, 12, 13, '"' as int, '\\' as int}
    ensures ChosenRune(s, r) <==> s == RenderRune(r)
  {
    hide EncodeRune;
    if ChosenRune(s, r) { assert s == [s[0], s[1]]; }
  }

  lemma LastDigit(v: nat, rest: nat, d: nat)
    requires d < 16
    ensures v == rest * 16 + d <==> rest == v / 16 && d == v % 16
  {
  }

  /** The four digits of a unit are determined by its value. */
  lemma QuadDigits(v: nat, a: nat, b: nat, c: nat, d: nat)
    requires b < 16 && c < 16 && d < 16
    ensures v == a * 0x1000 + b * 0x100 + c * 0x10 + d
       <==> a == v / 16 / 16 / 16 && b == v / 16 / 16 % 16 && c == v / 16 % 16 && d == v % 16
  {
    LastDigit(v, a * 0x100 + b * 0x10 + c, d);
    LastDigit(v / 16, a * 0x10 + b, c);
    LastDigit(v / 16 / 16, a, b);
  }

  lemma LongChoice(s: seq<byte>, r: Rune)
    requires !Plain(r) && !HasShortEscape(r) && r !in {8, 9, 10, 12, 13, '"' as int, '\\' as int}
    ensures ChosenRune(s, r) <==> s == RenderRune(r)
  {
    LongRendering(r);
    if ChosenRune(s, r) { LongIsRendered(s, r); }
    if s == RenderRune(r) { LongIsChosen(s, r); }
  }

  lemma LongIsRendered(s: seq<byte>, r: Rune)
    requires !Plain(r) && !HasShortEscape(r) && ChosenRune(s, r)
    ensures s == ['\\' as int, 'u' as int, LowerHex(r / 16 / 16 / 16), LowerHex(r / 16 / 16 % 16),
      LowerHex(r / 16 % 16), LowerHex(r % 16)]
  {
    hide HasShortEscape, HexValue, LowerHex, ShortEscape;
    QuadDigits(r, HexValue(s[2]), HexValue(s[3]), HexValue(s[4]), HexValue(s[5]));
    LowerDigit(s[2]);
    LowerDigit(s[3]);
    LowerDigit(s[4]);
    LowerDigit(s[5]);
    assert s == [s[0], s[1], s[2], s[3], s[4], s[5]];
  }

  lemma LongIsChosen(s: seq<byte>, r: Rune)
    requires !Plain(r) && !HasShortEscape(r) && r < 0x10000
    requires s == ['\\' as int, 'u' as int, LowerHex(r / 16 / 16 / 16), LowerHex(r / 16 / 16 % 16),
      LowerHex(r / 16 % 16), LowerHex(r % 16)]
    ensures ChosenRune(s, r)
  {
    hide HasShortEscape, HexValue, LowerHex, ShortEscape;
    LowerDigits(r / 16 / 16 / 16);
    LowerDigits(r / 16 / 16 % 16);
    LowerDigits(r / 16 % 16);
    LowerDigits(r % 16);
    QuadDigits(r, r / 16 / 16 / 16, r / 16 / 16 % 16, r / 16 % 16, r % 16);
  }

  lemma LongRendering(r: Rune)
    requires r < 0x20 || r == 0x2028 || r == 0x2029
    requires r !in {8, 9, 10, 12, 13}
    ensures RenderRune(r) == ['\\' as int, 'u' as int, LowerHex(r / 16 / 16 / 16), LowerHex(r / 16 / 16 % 16),
      LowerHex(r / 16 % 16), LowerHex(r % 16)]
  {
  }

  // ---- strings ----

  /** The characters, each as chosen, and the closing quote. */
  ghost predicate ChosenRunes(s: seq<byte>, text: seq<Rune>)
    decreases |text|
  {
    if text == [] then s == ['"' as int]
    else exists k: nat :: k <= |s| && ChosenRune(s[..k], text[0]) && ChosenRunes(s[k..], text[1..])
  }

  ghost predicate ChosenString(s: seq<byte>, text: seq<Rune>) {
    s != [] && s[0] == '"' as int && ChosenRunes(s[1..], text)
  }

  lemma {:induction false} RunesChoice(s: seq<byte>, text: seq<Rune>)
    ensures ChosenRunes(s, text) <==> s == RenderRunes(text)
    decreases |text|
  {
    hide ChosenRune, RenderRune;
    if text != [] {
      forall k: nat | k <= |s| && ChosenRune(s[..k], text[0]) && ChosenRunes(s[k..], text[1..])
        ensures s == RenderRunes(text)
      {
        RuneChoice(s[..k], text[0]);
        RunesChoice(s[k..], text[1..]);
        assert s == s[..k] + s[k..];
      }
      if s == RenderRunes(text) {
        var k := |RenderRune(text[0])|;
        assert s[..k] == RenderRune(text[0]) && s[k..] == RenderRunes(text[1..]);
        RuneChoice(s[..k], text[0]);
        RunesChoice(s[k..], text[1..]);
      }
    }
  }

  lemma StringChoice(s: seq<byte>, text: seq<Rune>)
    ensures ChosenString(s, text) <==> s == RenderString(text)
  {
    hide ChosenRunes, RenderRunes;
    if s != [] {
      RunesChoice(s[1..], text);
      assert s == [s[0]] + s[1..];
    }
  }

  // ---- trees ----

  /** The parts with a comma between any two. */
  function Joined(parts: seq<seq<byte>>): seq<byte> {
    if parts == [] then []
    else if |parts| == 1 then parts[0]
    else parts[0] + [',' as int] + Joined(parts[1..])
  }

  function Enclosed(first: char, parts: seq<seq<byte>>, last: char): seq<byte>
    requires first as int < 128 && last as int < 128
  {
    [first as int] + Joined(parts) + [last as int]
  }

  /** The canonical spelling of the tree, which has its object keys in byte order. */
  ghost predicate Chosen(s: seq<byte>, v: Json)
    decreases v, 1
  {
    match v
    case Null => s == Ascii("null")
    case Boolean(value) => s == if value then Ascii("true") else Ascii("false")
    case Integer(digits) => IntegerText(digits) && s == digits
    case Str(text) => ChosenString(s, text)
    case Array(items) => exists parts :: s == Enclosed('[', parts, ']') && ChosenItems(parts, items)
    case Object(entries) =>
      StrictlySorted(entries) && exists parts :: s == Enclosed('{', parts, '}') && ChosenMembers(parts, entries)
  }

  ghost predicate ChosenItems(parts: seq<seq<byte>>, items: seq<Json>)
    decreases items, 0
  {
    |parts| == |items| && forall i | 0 <= i < |items| :: Chosen(parts[i], items[i])
  }

  ghost predicate ChosenMembers(parts: seq<seq<byte>>, entries: seq<Entry>)
    decreases entries, 0
  {
    |parts| == |entries| && forall i | 0 <= i < |entries| :: ChosenMember(parts[i], entries[i])
  }

  /** A key, a colon and a value. */
  ghost predicate ChosenMember(s: seq<byte>, e: Entry)
    decreases e, 0
  {
    exists k :: 0 <= k < |s| && s[k] == ':' as int && ChosenString(s[..k], e.key) && Chosen(s[k + 1..], e.value)
  }

  /** Every object has its keys in order. */
  ghost predicate Ordered(v: Json) {
    match v
    case Object(entries) => StrictlySorted(entries) && forall e | e in entries :: Ordered(e.value)
    case Array(items) => forall item | item in items :: Ordered(item)
    case Integer(digits) => IntegerText(digits)
    case _ => true
  }

  function ItemParts(items: seq<Json>): (parts: seq<seq<byte>>) {
    seq(|items|, i requires 0 <= i < |items| => Render(items[i]))
  }

  function MemberParts(entries: seq<Entry>): (parts: seq<seq<byte>>) {
    seq(|entries|, i requires 0 <= i < |entries| => RenderMember(entries[i]))
  }

  lemma {:induction false} ItemsJoined(items: seq<Json>)
    requires items != []
    ensures RenderItems(items) == Joined(ItemParts(items)) + [']' as int]
    decreases |items|
  {
    hide Render;
    if |items| > 1 {
      ItemsJoined(items[1..]);
      assert ItemParts(items)[1..] == ItemParts(items[1..]);
    }
  }

  lemma {:induction false} MembersJoined(entries: seq<Entry>)
    requires entries != []
    ensures RenderEntries(entries) == Joined(MemberParts(entries)) + ['}' as int]
    decreases |entries|
  {
    hide RenderMember;
    if |entries| > 1 {
      MembersJoined(entries[1..]);
      assert MemberParts(entries)[1..] == MemberParts(entries[1..]);
    }
  }

  lemma ArrayEnclosed(items: seq<Json>)
    ensures Render(Array(items)) == Enclosed('[', ItemParts(items), ']')
  {
    hide RenderItems;
    if items != [] { ItemsJoined(items); }
  }

  lemma ObjectEnclosed(entries: seq<Entry>)
    ensures Render(Object(entries)) == Enclosed('{', MemberParts(entries), '}')
  {
    hide RenderEntries;
    if entries != [] { MembersJoined(entries); }
  }

  /** The spelling of an ordered tree is the canonical one, and the only one. */
  lemma {:induction false} TreeChoice(s: seq<byte>, v: Json)
    ensures Chosen(s, v) <==> Ordered(v) && s == Render(v)
    decreases v, 1
  {
    match v
    case Str(text) => StringChoice(s, text);
    case Array(items) => ArrayChoice(s, items);
    case Object(entries) => ObjectChoice(s, entries);
    case _ =>
  }

  lemma {:induction false} ArrayChoice(s: seq<byte>, items: seq<Json>)
    ensures Chosen(s, Array(items)) <==> Ordered(Array(items)) && s == Render(Array(items))
    decreases items, 1
  {
    hide Render, Joined;
    ArrayEnclosed(items);
    ItemsChoice(ItemParts(items), items);
    forall parts | s == Enclosed('[', parts, ']') && ChosenItems(parts, items)
      ensures Ordered(Array(items)) && s == Render(Array(items))
    {
      ItemsChoice(parts, items);
    }
  }

  lemma {:induction false} ItemsChoice(parts: seq<seq<byte>>, items: seq<Json>)
    ensures ChosenItems(parts, items) <==> parts == ItemParts(items) && Ordered(Array(items))
    decreases items, 0
  {
    hide Render, Chosen;
    forall i | 0 <= i < |items| && i < |parts|
      ensures Chosen(parts[i], items[i]) <==> Ordered(items[i]) && parts[i] == Render(items[i])
    {
      TreeChoice(parts[i], items[i]);
    }
    if parts == ItemParts(items) && Ordered(Array(items)) {
      assert forall i :: 0 <= i < |items| ==> items[i] in items && parts[i] == Render(items[i]);
    }
  }

  lemma {:induction false} ObjectChoice(s: seq<byte>, entries: seq<Entry>)
    ensures Chosen(s, Object(entries)) <==> Ordered(Object(entries)) && s == Render(Object(entries))
    decreases entries, 1
  {
    hide Render, Joined, StrictlySorted;
    ObjectEnclosed(entries);
    MembersChoice(MemberParts(entries), entries);
    forall parts | s == Enclosed('{', parts, '}') && ChosenMembers(parts, entries)
      ensures OrderedValues(entries) && s == Render(Object(entries))
    {
      MembersChoice(parts, entries);
    }
  }

  ghost predicate OrderedValues(entries: seq<Entry>) {
    forall e | e in entries :: Ordered(e.value)
  }

  lemma {:induction false} MembersChoice(parts: seq<seq<byte>>, entries: seq<Entry>)
    ensures ChosenMembers(parts, entries) <==> parts == MemberParts(entries) && OrderedValues(entries)
    decreases entries, 0
  {
    hide RenderMember, ChosenMember;
    forall i | 0 <= i < |entries| && i < |parts|
      ensures ChosenMember(parts[i], entries[i]) <==> Ordered(entries[i].value) && parts[i] == RenderMember(entries[i])
    {
      MemberChoice(parts[i], entries[i]);
    }
    if parts == MemberParts(entries) && OrderedValues(entries) {
      assert forall i :: 0 <= i < |entries| ==> entries[i] in entries && parts[i] == RenderMember(entries[i]);
    }
  }

  lemma {:induction false} MemberChoice(s: seq<byte>, e: Entry)
    ensures ChosenMember(s, e) <==> Ordered(e.value) && s == RenderMember(e)
    decreases e, 0
  {
    hide Render, RenderString, Chosen, ChosenString;
    forall k | 0 <= k < |s| && s[k] == ':' as int && ChosenString(s[..k], e.key) && Chosen(s[k + 1..], e.value)
      ensures Ordered(e.value) && s == RenderMember(e)
    {
      StringChoice(s[..k], e.key);
      TreeChoice(s[k + 1..], e.value);
      assert s == s[..k] + ([s[k]] + s[k + 1..]);
    }
    if Ordered(e.value) && s == RenderMember(e) {
      var k := |RenderString(e.key)|;
      assert s[..k] == RenderString(e.key) && s[k] == ':' as int && s[k + 1..] == Render(e.value);
      StringChoice(s[..k], e.key);
      TreeChoice(s[k + 1..], e.value);
    }
  }

  // ---- the normal form is the ordered tree ----

  lemma {:induction false} NormOrdered(v: Json)
    requires WellFormed(v)
    ensures Ordered(Norm(v))
    decreases v
  {
    match v
    case Object(entries) =>
      NormObjectSorted(entries);
      forall x | x in SortEntries(NormEntries(entries)) ensures Ordered(x.value) {
        var e := NormMemberOrigin(entries, x);
        NormOrdered(e.value);
      }
    case Array(items) =>
      forall i | 0 <= i < |items| ensures Ordered(Norm(items[i])) {
        assert items[i] in items;
        NormOrdered(items[i]);
      }
    case _ =>
  }

  lemma {:induction false} OrderedIsNormal(v: Json)
    requires Ordered(v)
    ensures WellFormed(v) && Norm(v) == v
    decreases v
  {
    match v
    case Object(entries) =>
      forall i | 0 <= i < |entries| ensures WellFormed(entries[i].value) && Norm(entries[i].value) == entries[i].value {
        assert entries[i] in entries;
        OrderedIsNormal(entries[i].value);
      }
      assert NormEntries(entries) == entries;
      SortFixed(entries);
    case Array(items) =>
      forall i | 0 <= i < |items| ensures WellFormed(items[i]) && Norm(items[i]) == items[i] {
        assert items[i] in items;
        OrderedIsNormal(items[i]);
      }
      assert NormItems(items) == items;
    case _ =>
  }

  /** The canonical spelling of the tree after putting its entries in order. */
  ghost predicate IsChosenFor(v: Json, s: seq<byte>) {
    exists w :: SameUpToOrder(v, w) && Chosen(s, w)
  }

  /** What is written for a tree is exactly the canonical spelling of the ordered tree that is the same up to the order of
      entries. */
  lemma WrittenIsChosen(v: Json, s: seq<byte>)
    requires WellFormed(v)
    ensures s == Written(v) <==> IsChosenFor(v, s)
  {
    hide Render, Norm, Chosen, SameUpToOrder, WellFormed, Ordered;
    if s == Written(v) {
      NormOrdered(v);
      OrderedIsNormal(Norm(v));
      SameIffNormEqual(v, Norm(v));
      TreeChoice(s, Norm(v));
    }
    forall w | SameUpToOrder(v, w) && Chosen(s, w) ensures s == Written(v) {
      TreeChoice(s, w);
      OrderedIsNormal(w);
      SameIffNormEqual(v, w);
    }
  }
}
