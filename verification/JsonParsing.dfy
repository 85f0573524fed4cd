/**
 The bounded recursive-descent parser as functions of the byte string, a
 position and a node count. The parser object of module CanonicalParser refines them.
 */
module JsonParsing {
  import opened Bytes
  import opened JsonText
  import opened JsonTree
  import opened JsonGrammar

  datatype Error = NonCanonical | DocumentBytes | NodeCount | ContainerEntries | DuplicateKey

  datatype Outcome = Parsed(value: Json, index: nat, count: nat) | Rejected(error: Error)

  datatype RuneStep = NoRune | OneRune(rune: Rune, index: nat)

  datatype TextOutcome = NoText | Text(text: seq<Rune>, index: nat)

  predicate Here(data: seq<byte>, i: nat, c: char) {
    i < |data| && data[i] == c as int
  }

  function SkipSpace(data: seq<byte>, i: nat): (j: nat)
    requires i <= |data|
    ensures i <= j <= |data|
    decreases |data| - i
  {
    if i < |data| && Space(data[i]) then SkipSpace(data, i + 1) else i
  }

  predicate AtBoundary(data: seq<byte>, i: nat) {
    i >= |data| || Delimiter(data[i])
  }

  /** The rune a short escape stands for; the caller has ruled out `u`. */
  function Unescape(b: byte): Option<Rune> {
    if b == '"' as int || b == '\\' as int || b == '/' as int then Some(b)
    else if b == 'b' as int then Some(8)
    else if b == 'f' as int then Some(12)
    else if b == 'n' as int then Some(10)
    else if b == 'r' as int then Some(13)
    else if b == 't' as int then Some(9)
    else None
  }

  /** A `\u` escape whose digits start at `i`; a high surrogate must be followed by a low one. */
  function ParseUnicodeEscape(data: seq<byte>, i: nat): (s: RuneStep)
    ensures s.OneRune? ==> i < s.index <= |data|
  {
    if !HexQuad(data, i) then NoRune
    else
      var first := QuadUnit(data, i);
      if !HighSurrogate(first) && !LowSurrogate(first) then OneRune(first, i + 4)
      else if HighSurrogate(first) && Escape(data, i + 4, 'u') && HexQuad(data, i + 6)
                    && LowSurrogate(QuadUnit(data, i + 6)) then
        OneRune(Combine(first, QuadUnit(data, i + 6)), i + 10)
      else NoRune
  }

  /** One character of a string, at a position that is not the closing quote. */
  function ParseRune(data: seq<byte>, i: nat): (s: RuneStep)
    requires i < |data|
    ensures s.OneRune? ==> i < s.index <= |data|
  {
    if data[i] == '\\' as int then
      if i + 1 >= |data| then NoRune
      else if data[i + 1] == 'u' as int then ParseUnicodeEscape(data, i + 2)
      else match Unescape(data[i + 1])
        case Some(r) => OneRune(r, i + 2)
        case None => NoRune
    else if data[i] < 0x20 then NoRune
    else match DecodeRune(data, i)
      case Decoded(r, width) => OneRune(r, i + width)
      case Malformed => NoRune
  }

  function ParseRunes(data: seq<byte>, i: nat, text: seq<Rune>): (t: TextOutcome)
    requires i <= |data|
    ensures t.Text? ==> i < t.index <= |data|
    decreases |data| - i
  {
    if i == |data| then NoText
    else if data[i] == '"' as int then Text(text, i + 1)
    else match ParseRune(data, i)
      case OneRune(r, next) => ParseRunes(data, next, text + [r])
      case NoRune => NoText
  }

  function ParseString(data: seq<byte>, i: nat): (t: TextOutcome)
    requires i <= |data|
    ensures t.Text? ==> i < t.index <= |data|
  {
    if Here(data, i, '"') then ParseRunes(data, i + 1, []) else NoText
  }

  function DigitsEnd(data: seq<byte>, i: nat): (j: nat)
    requires i <= |data|
    ensures i <= j <= |data|
    decreases |data| - i
  {
    if i < |data| && Digit(data[i]) then DigitsEnd(data, i + 1) else i
  }

  /** The end of the integer starting at `i`, when there is one and a boundary follows it. */
  function ParseInteger(data: seq<byte>, i: nat): (r: Option<nat>)
    requires i <= |data|
    ensures r.Some? ==> i < r.value <= |data|
  {
    var negative := Here(data, i, '-');
    var start := if negative then i + 1 else i;
    if start >= |data| then None
    else if data[start] == '0' as int then
      if negative || (start + 1 < |data| && Digit(data[start + 1])) || !AtBoundary(data, start + 1) then None
      else Some(start + 1)
    else if !Digit(data[start]) then None
    else
      var end := DigitsEnd(data, start);
      if AtBoundary(data, end) then Some(end) else None
  }

  function ParseLiteral(data: seq<byte>, i: nat, literal: seq<byte>): (r: Option<nat>)
    ensures r.Some? ==> r.value == i + |literal| <= |data|
  {
    if At(data, i, literal) && AtBoundary(data, i + |literal|) then Some(i + |literal|) else None
  }

  function OrNonCanonical(r: Option<nat>, v: Json, count: nat): Outcome {
    match r
    case Some(j) => Parsed(v, j, count)
    case None => Rejected(NonCanonical)
  }

  function ParseValue(data: seq<byte>, i: nat, n: nat, depth: nat, b: Bounds): (r: Outcome)
    requires i <= |data|
    ensures r.Parsed? ==> i < r.index <= |data|
    decreases |data| - i, 2
  {
    if depth > b.maximumDepth || i >= |data| then Rejected(NonCanonical)
    else if n + 1 > b.maximumNodeCount then Rejected(NodeCount)
    else
      var c := data[i] as char;
      if c == '{' then
        var k := SkipSpace(data, i + 1);
        if Here(data, k, '}') then Parsed(Object([]), k + 1, n + 1) else ParseEntries(data, k, n + 1, depth, b, [])
      else if c == '[' then
        var k := SkipSpace(data, i + 1);
        if Here(data, k, ']') then Parsed(Array([]), k + 1, n + 1) else ParseItems(data, k, n + 1, depth, b, [])
      else if c == '"' then
        match ParseString(data, i)
        case Text(text, j) => Parsed(Str(text), j, n + 1)
        case NoText => Rejected(NonCanonical)
      else if c == 't' then OrNonCanonical(ParseLiteral(data, i, Ascii("true")), Boolean(true), n + 1)
      else if c == 'f' then OrNonCanonical(ParseLiteral(data, i, Ascii("false")), Boolean(false), n + 1)
      else if c == 'n' then OrNonCanonical(ParseLiteral(data, i, Ascii("null")), Null, n + 1)
      else if c == '-' || Digit(data[i]) then
        match ParseInteger(data, i)
        case Some(j) => Parsed(Integer(data[i..j]), j, n + 1)
        case None => Rejected(NonCanonical)
      else Rejected(NonCanonical)
  }

  /** The object loop, entered with the members read so far. */
  function ParseEntries(data: seq<byte>, i: nat, n: nat, depth: nat, b: Bounds, entries: seq<Entry>): (r: Outcome)
    requires i <= |data|
    ensures r.Parsed? ==> i < r.index <= |data|
    decreases |data| - i, 3
  {
    if |entries| >= b.maximumContainerEntries || !Here(data, i, '"') then Rejected(ContainerEntries)
    else match ParseString(data, i)
      case NoText => Rejected(NonCanonical)
      case Text(key, afterKey) =>
        if exists k :: 0 <= k < |entries| && entries[k].key == key then Rejected(DuplicateKey)
        else
          var colon := SkipSpace(data, afterKey);
          if !Here(data, colon, ':') then Rejected(NonCanonical)
          else match ParseValue(data, SkipSpace(data, colon + 1), n, depth + 1, b)
            case Rejected(e) => Rejected(e)
            case Parsed(child, afterChild, count) =>
              var more := entries + [Entry(key, child)];
              var mark := SkipSpace(data, afterChild);
              if Here(data, mark, '}') then Parsed(Object(more), mark + 1, count)
              else if Here(data, mark, ',') then ParseEntries(data, SkipSpace(data, mark + 1), count, depth, b, more)
              else Rejected(NonCanonical)
  }

  /** The array loop, entered with the values read so far. */
  function ParseItems(data: seq<byte>, i: nat, n: nat, depth: nat, b: Bounds, items: seq<Json>): (r: Outcome)
    requires i <= |data|
    ensures r.Parsed? ==> i < r.index <= |data|
    decreases |data| - i, 3
  {
    if |items| >= b.maximumContainerEntries then Rejected(ContainerEntries)
    else match ParseValue(data, i, n, depth + 1, b)
      case Rejected(e) => Rejected(e)
      case Parsed(child, afterChild, count) =>
        var more := items + [child];
        var mark := SkipSpace(data, afterChild);
        if Here(data, mark, ']') then Parsed(Array(more), mark + 1, count)
        else if Here(data, mark, ',') then ParseItems(data, SkipSpace(data, mark + 1), count, depth, b, more)
        else Rejected(NonCanonical)
  }

  function ParseDocument(data: seq<byte>, b: Bounds): (r: Outcome)
    ensures r.Parsed? ==> r.index == |data|
  {
    match ParseValue(data, SkipSpace(data, 0), 0, 0, b)
    case Rejected(e) => Rejected(e)
    case Parsed(v, j, count) =>
      if SkipSpace(data, j) == |data| then Parsed(v, |data|, count) else Rejected(NonCanonical)
  }

  // ---- characters ----

  lemma {:induction false} SkipSpaceSkips(data: seq<byte>, i: nat)
    requires i <= |data|
    ensures Spaces(data, i, SkipSpace(data, i))
    ensures SkipSpace(data, i) == |data| || !Space(data[SkipSpace(data, i)])
    decreases |data| - i
  {
    if i < |data| && Space(data[i]) { SkipSpaceSkips(data, i + 1); }
  }

  /** Whitespace up to a byte that is not whitespace is skipped exactly. */
  lemma {:induction false} SkipSpaceStops(data: seq<byte>, i: nat, j: nat)
    requires Spaces(data, i, j) && (j == |data| || !Space(data[j]))
    ensures SkipSpace(data, i) == j
    decreases j - i
  {
    if i < j { SkipSpaceStops(data, i + 1, j); }
  }

  lemma EncodeFirst(r: Rune)
    ensures r < 0x80 ==> EncodeRune(r)[0] == r
    ensures r >= 0x80 ==> EncodeRune(r)[0] >= 0x80
  {
  }

  lemma RuneSound(data: seq<byte>, i: nat)
    requires i < |data| && data[i] != '"' as int && ParseRune(data, i).OneRune?
    ensures SpellsRune(data, i, ParseRune(data, i).index, ParseRune(data, i).rune)
  {
    if data[i] != '\\' as int {
      DecodedIsEncoded(data, i);
      EncodeFirst(DecodeRune(data, i).rune);
    }
  }

  lemma RuneComplete(data: seq<byte>, i: nat, j: nat, r: Rune)
    requires SpellsRune(data, i, j, r)
    ensures i < |data| && data[i] != '"' as int && ParseRune(data, i) == OneRune(r, j)
  {
    if r >= 0x20 && r != '"' as int && r != '\\' as int && At(data, i, EncodeRune(r)) && j == i + |EncodeRune(r)| {
      assert data[i] == data[i..j][0] == EncodeRune(r)[0];
      EncodeFirst(r);
      EncodedIsDecoded(data, i, r);
    }
  }

  lemma RunesStep(data: seq<byte>, i: nat, before: seq<Rune>) returns (r: Rune, next: nat)
    requires i < |data| && data[i] != '"' as int && ParseRunes(data, i, before).Text?
    ensures i < next <= |data|
    ensures ParseRunes(data, i, before) == ParseRunes(data, next, before + [r])
    ensures forall j: nat, rest :: SpellsRunes(data, next, j, rest) ==> SpellsRunes(data, i, j, [r] + rest)
  {
    var step := ParseRune(data, i);
    r, next := step.rune, step.index;
    RuneSound(data, i);
    forall j: nat, rest | SpellsRunes(data, next, j, rest) ensures SpellsRunes(data, i, j, [r] + rest) {
      assert ([r] + rest)[1..] == rest;
    }
  }

  lemma RunesEnd(data: seq<byte>, i: nat, before: seq<Rune>)
    requires Here(data, i, '"')
    ensures ParseRunes(data, i, before) == Text(before, i + 1) && SpellsRunes(data, i, i + 1, [])
  {
  }

  lemma RunesNonEmpty(data: seq<byte>, i: nat, before: seq<Rune>)
    requires i <= |data| && ParseRunes(data, i, before).Text?
    ensures i < |data|
  {
  }

  lemma {:induction false} RunesSound(data: seq<byte>, i: nat, before: seq<Rune>) returns (text: seq<Rune>)
    requires i <= |data| && ParseRunes(data, i, before).Text?
    ensures ParseRunes(data, i, before).text == before + text
    ensures SpellsRunes(data, i, ParseRunes(data, i, before).index, text)
    decreases |data| - i
  {
    hide ParseRunes, SpellsRunes;
    if Here(data, i, '"') {
      RunesEnd(data, i, before);
      text := [];
      assert before + text == before;
    } else {
      RunesNonEmpty(data, i, before);
      var r, next := RunesStep(data, i, before);
      var rest := RunesSound(data, next, before + [r]);
      text := [r] + rest;
      assert before + text == before + [r] + rest;
    }
  }

  lemma {:induction false} RunesComplete(data: seq<byte>, i: nat, j: nat, before: seq<Rune>, text: seq<Rune>)
    requires SpellsRunes(data, i, j, text)
    ensures i <= |data| && ParseRunes(data, i, before) == Text(before + text, j)
    decreases |text|
  {
    hide SpellsRune, ParseRune;
    if text != [] {
      var k: nat :| SpellsRune(data, i, k, text[0]) && SpellsRunes(data, k, j, text[1..]);
      RuneComplete(data, i, k, text[0]);
      RunesComplete(data, k, j, before + [text[0]], text[1..]);
      assert before + text == before + [text[0]] + text[1..];
    } else {
      assert before + text == before;
    }
  }

  lemma StringSound(data: seq<byte>, i: nat)
    requires i <= |data| && ParseString(data, i).Text?
    ensures SpellsString(data, i, ParseString(data, i).index, ParseString(data, i).text)
  {
    var text := RunesSound(data, i + 1, []);
    assert [] + text == text;
  }

  lemma StringComplete(data: seq<byte>, i: nat, j: nat, text: seq<Rune>)
    requires SpellsString(data, i, j, text)
    ensures ParseString(data, i) == Text(text, j)
  {
    RunesComplete(data, i + 1, j, [], text);
    assert [] + text == text;
  }

  lemma {:induction false} DigitsEndIs(data: seq<byte>, i: nat, j: nat)
    requires i <= j <= |data| && (forall k :: i <= k < j ==> Digit(data[k])) && (j == |data| || !Digit(data[j]))
    ensures DigitsEnd(data, i) == j
    decreases j - i
  {
    if i < j { DigitsEndIs(data, i + 1, j); }
  }

  lemma {:induction false} DigitsEndDigits(data: seq<byte>, i: nat)
    requires i <= |data|
    ensures forall k :: i <= k < DigitsEnd(data, i) ==> Digit(data[k])
    decreases |data| - i
  {
    if i < |data| && Digit(data[i]) { DigitsEndDigits(data, i + 1); }
  }

  lemma IntegerSound(data: seq<byte>, i: nat)
    requires i <= |data| && ParseInteger(data, i).Some?
    ensures IntegerText(data[i..ParseInteger(data, i).value])
  {
    var j := ParseInteger(data, i).value;
    var s := data[i..j];
    var start := if Here(data, i, '-') then i + 1 else i;
    if data[start] == '0' as int {
      assert s == ['0' as int];
    } else {
      DigitsEndDigits(data, start);
      var body := if s[0] == '-' as int then s[1..] else s;
      assert body == data[start..j];
    }
  }

  lemma IntegerComplete(data: seq<byte>, i: nat, digits: seq<byte>)
    requires IntegerText(digits) && At(data, i, digits) && AtBoundary(data, i + |digits|)
    ensures ParseInteger(data, i) == Some(i + |digits|)
    ensures i < |data| && (data[i] == '-' as int || Digit(data[i]))
  {
    var j := i + |digits|;
    assert forall k :: i <= k < j ==> data[k] == data[i..j][k - i] == digits[k - i];
    assert data[i] == digits[0];
    if digits != ['0' as int] {
      var start := if digits[0] == '-' as int then i + 1 else i;
      assert forall k :: start <= k < j ==> Digit(data[k]);
      DigitsEndIs(data, start, j);
    }
  }
}
