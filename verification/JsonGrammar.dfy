/**
 The JSON grammar of sections 2 to 7 of RFC 8259, with integers as the only
 numbers, as a relation between stretches of a byte string and value trees.
 It says nothing about how a parser finds the stretches.
 */
module JsonGrammar {
  import opened Bytes
  import opened JsonText
  import opened JsonTree

  predicate Space(b: byte) {
    b == ' ' as int || b == '\t' as int || b == '\n' as int || b == '\r' as int
  }

  predicate Delimiter(b: byte) {
    b == ',' as int || b == ']' as int || b == '}' as int || Space(b)
  }

  /** The stretch `i..j` is insignificant whitespace. */
  ghost predicate Spaces(data: seq<byte>, i: nat, j: nat) {
    i <= j <= |data| && forall k :: i <= k < j ==> Space(data[k])
  }

  predicate HexDigit(b: byte) {
    Digit(b) || 'a' as int <= b <= 'f' as int || 'A' as int <= b <= 'F' as int
  }

  function HexValue(b: byte): (v: nat)
    requires HexDigit(b)
    ensures v < 16
  {
    if Digit(b) then b - '0' as int
    else if 'a' as int <= b then b - 'a' as int + 10
    else b - 'A' as int + 10
  }

  predicate HexQuad(data: seq<byte>, i: nat) {
    i + 4 <= |data| && HexDigit(data[i]) && HexDigit(data[i + 1]) && HexDigit(data[i + 2]) && HexDigit(data[i + 3])
  }

  function QuadUnit(data: seq<byte>, i: nat): (v: nat)
    requires HexQuad(data, i)
    ensures v < 0x10000
  {
    HexValue(data[i]) * 0x1000 + HexValue(data[i + 1]) * 0x100 + HexValue(data[i + 2]) * 0x10 + HexValue(data[i + 3])
  }

  predicate HighSurrogate(u: int) { 0xD800 <= u <= 0xDBFF }

  predicate LowSurrogate(u: int) { 0xDC00 <= u <= 0xDFFF }

  function Combine(high: int, low: int): (r: Rune)
    requires HighSurrogate(high) && LowSurrogate(low)
    ensures r >= 0x10000
  {
    (high - 0xD800) * 0x400 + (low - 0xDC00) + 0x10000
  }

  /** The two-character escapes: the byte after the backslash and what it stands for. */
  predicate ShortEscape(b: byte, r: Rune) {
    || ((b == '"' as int || b == '\\' as int || b == '/' as int) && r == b)
    || (b == 'b' as int && r == 8)
    || (b == 'f' as int && r == 12)
    || (b == 'n' as int && r == 10)
    || (b == 'r' as int && r == 13)
    || (b == 't' as int && r == 9)
  }

  predicate Escape(data: seq<byte>, i: nat, c: char) {
    i + 2 <= |data| && data[i] == '\\' as int && data[i + 1] == c as int
  }

  /** The stretch `i..j` is one string character standing for `r`. */
  ghost predicate SpellsRune(data: seq<byte>, i: nat, j: nat, r: Rune) {
    || (r >= 0x20 && r != '"' as int && r != '\\' as int && At(data, i, EncodeRune(r)) && j == i + |EncodeRune(r)|)
    || (j == i + 2 && j <= |data| && data[i] == '\\' as int && ShortEscape(data[i + 1], r))
    || (j == i + 6 && Escape(data, i, 'u') && HexQuad(data, i + 2) && QuadUnit(data, i + 2) == r)
    || (j == i + 12 && Escape(data, i, 'u') && HexQuad(data, i + 2) && HighSurrogate(QuadUnit(data, i + 2))
        && Escape(data, i + 6, 'u') && HexQuad(data, i + 8) && LowSurrogate(QuadUnit(data, i + 8))
        && r == Combine(QuadUnit(data, i + 2), QuadUnit(data, i + 8)))
  }

  /** The stretch `i..j` is the given text followed by the closing quote. */
  ghost predicate SpellsRunes(data: seq<byte>, i: nat, j: nat, text: seq<Rune>)
    decreases |text|
  {
    if text == [] then i < |data| && data[i] == '"' as int && j == i + 1
    else exists k: nat :: SpellsRune(data, i, k, text[0]) && SpellsRunes(data, k, j, text[1..])
  }

  ghost predicate SpellsString(data: seq<byte>, i: nat, j: nat, text: seq<Rune>) {
    i < |data| && data[i] == '"' as int && SpellsRunes(data, i + 1, j, text)
  }

  function Ascii(s: string): (r: seq<byte>)
    requires forall k :: 0 <= k < |s| ==> (s[k] as int) < 128
    ensures |r| == |s| && forall k :: 0 <= k < |s| ==> r[k] == s[k] as int
  {
    seq(|s|, k requires 0 <= k < |s| => s[k] as int)
  }

  /** The stretch `i..j` is the value `v`, without surrounding whitespace. */
  ghost predicate Spells(data: seq<byte>, i: nat, j: nat, v: Json)
    decreases v, 1
  {
    match v
    case Null => At(data, i, Ascii("null")) && j == i + 4
    case Boolean(true) => At(data, i, Ascii("true")) && j == i + 4
    case Boolean(false) => At(data, i, Ascii("false")) && j == i + 5
    case Integer(digits) => At(data, i, digits) && j == i + |digits|
    case Str(text) => SpellsString(data, i, j, text)
    case Array(items) =>
      i < |data| && data[i] == '[' as int &&
      exists k: nat :: Spaces(data, i + 1, k) &&
        if items == [] then k < |data| && data[k] == ']' as int && j == k + 1 else SpellsItems(data, k, j, items)
    case Object(entries) =>
      i < |data| && data[i] == '{' as int &&
      exists k: nat :: Spaces(data, i + 1, k) &&
        if entries == [] then k < |data| && data[k] == '}' as int && j == k + 1 else SpellsEntries(data, k, j, entries)
  }

  /** After an element ending at `j`: whitespace, then either the closing byte or a comma and whitespace. */
  ghost predicate Separator(data: seq<byte>, j: nat, s: nat, next: nat, mark: char) {
    Spaces(data, j, s) && s < |data| && data[s] == mark as int && Spaces(data, s + 1, next)
  }

  /** One or more comma-separated values and the closing bracket. */
  ghost predicate SpellsItems(data: seq<byte>, i: nat, j: nat, items: seq<Json>)
    requires items != []
    decreases items, 0
  {
    exists m: nat, s: nat, next: nat ::
      Spells(data, i, m, items[0]) &&
      if |items| == 1 then Separator(data, m, s, next, ']') && next == s + 1 == j
      else Separator(data, m, s, next, ',') && SpellsItems(data, next, j, items[1..])
  }

  /** A key, a colon and a value. */
  ghost predicate SpellsMember(data: seq<byte>, i: nat, j: nat, e: Entry)
    decreases e, 0
  {
    exists m: nat, s: nat, next: nat ::
      SpellsString(data, i, m, e.key) && Separator(data, m, s, next, ':') && Spells(data, next, j, e.value)
  }

  /** One or more comma-separated members and the closing brace. */
  ghost predicate SpellsEntries(data: seq<byte>, i: nat, j: nat, entries: seq<Entry>)
    requires entries != []
    decreases entries, 0
  {
    exists m: nat, s: nat, next: nat ::
      SpellsMember(data, i, m, entries[0]) &&
      if |entries| == 1 then Separator(data, m, s, next, '}') && next == s + 1 == j
      else Separator(data, m, s, next, ',') && SpellsEntries(data, next, j, entries[1..])
  }

  /** A whole document: one value with optional whitespace around it. */
  ghost predicate SpellsDocument(data: seq<byte>, v: Json) {
    exists i: nat, j: nat :: Spaces(data, 0, i) && Spells(data, i, j, v) && Spaces(data, j, |data|)
  }
}
