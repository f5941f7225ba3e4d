/**
  JSON values, their printed form, and the strict parser, as functions.

  Text is a sequence of Unicode scalar values.  A number keeps its source
  spelling; an object is its entries in strictly increasing key order, which
  is what iterating the source's ordered map yields (UTF-8 order and scalar
  order agree).
 */
module Json {
  import opened Decimals
  import opened Wrappers

  const MAX_JSON_DEPTH: nat := 128

  datatype Value =
    | Null
    | Bool(b: bool)
    | Number(text: string)
    | String(value: string)
    | Array(items: seq<Value>)
    | Object(entries: seq<Entry>)

  datatype Entry = Entry(key: string, value: Value)

  // ---------------------------------------------------------------------------
  // Which values have a printed form
  // ---------------------------------------------------------------------------

  predicate Less(a: string, b: string) {
    if b == "" then false
    else if a == "" then true
    else a[0] < b[0] || (a[0] == b[0] && Less(a[1..], b[1..]))
  }

  predicate Sorted(entries: seq<Entry>) {
    forall i, j | 0 <= i < j < |entries| :: Less(entries[i].key, entries[j].key)
  }

  /** The grammar of RFC 8259, section 6, as the parts a number is put together from. */
  datatype NumberParts = NumberParts(minus: bool, integer: string, fraction: Option<string>, exponent: Option<Exponent>)
  {
    predicate Valid() {
      && integer != "" && Digits(integer) && (integer[0] == '0' ==> integer == "0")
      && (fraction.Some? ==> fraction.value != "" && Digits(fraction.value))
      && (exponent.Some? ==> exponent.value.Valid())
    }

    function Text(): string {
      (if minus then "-" else "") + integer + (if fraction.Some? then "." + fraction.value else "")
      + (if exponent.Some? then exponent.value.Text() else "")
    }
  }

  datatype Exponent = Exponent(marker: char, sign: string, digits: string) {
    predicate Valid() {
      (marker == 'e' || marker == 'E') && (sign == "" || sign == "+" || sign == "-") && digits != "" && Digits(digits)
    }

    function Text(): string { [marker] + sign + digits }
  }

  ghost predicate IsNumber(text: string) {
    exists p: NumberParts :: p.Valid() && p.Text() == text
  }

  /** Numbers in the grammar, keys in order, and at most `room` levels below this one. */
  ghost predicate Printable(v: Value, room: nat)
    decreases v
  {
    match v
    case Number(text) => IsNumber(text)
    case Array(items) => items != [] ==> room > 0 && forall i | 0 <= i < |items| :: Printable(items[i], room - 1)
    case Object(entries) =>
      && Sorted(entries)
      && (entries != [] ==> room > 0 && forall i | 0 <= i < |entries| :: Printable(entries[i].value, room - 1))
    case _ => true
  }

  // ---------------------------------------------------------------------------
  // Printing
  // ---------------------------------------------------------------------------

  const HEX_DIGITS: string := "0123456789abcdef"

  function EscapeChar(c: char): string {
    if c == '"' then "\\\""
    else if c == '\\' then "\\\\"
    else if c == '\U{08}' then "\\b"
    else if c == '\U{0c}' then "\\f"
    else if c == '\n' then "\\n"
    else if c == '\r' then "\\r"
    else if c == '\t' then "\\t"
    else if c <= '\U{1f}' then "\\u00" + [HEX_DIGITS[c as int / 16], HEX_DIGITS[c as int % 16]]
    else [c]
  }

  function Escape(s: string): string {
    if s == "" then "" else EscapeChar(s[0]) + Escape(s[1..])
  }

  function PrintString(s: string): string {
    "\"" + Escape(s) + "\""
  }

  function Print(v: Value): string
    decreases v, 0
  {
    match v
    case Null => "null"
    case Bool(b) => if b then "true" else "false"
    case Number(text) => text
    case String(value) => PrintString(value)
    case Array(items) => "[" + PrintItems(items) + "]"
    case Object(entries) => "{" + PrintEntries(entries) + "}"
  }

  function PrintItems(items: seq<Value>): string
    decreases items, 0
  {
    if items == [] then ""
    else if |items| == 1 then Print(items[0])
    else Print(items[0]) + "," + PrintItems(items[1..])
  }

  function PrintEntries(entries: seq<Entry>): string
    decreases entries, 0
  {
    if entries == [] then ""
    else
      var first := PrintString(entries[0].key) + ":" + Print(entries[0].value);
      if |entries| == 1 then first else first + "," + PrintEntries(entries[1..])
  }

  // ---------------------------------------------------------------------------
  // Parsing: each function takes the text from the current offset on and
  // returns what it read with the text that is left
  // ---------------------------------------------------------------------------

  datatype Parsed<+T> = Failed | Parsed(value: T, rest: string)

  predicate IsWhitespace(c: char) { c == ' ' || c == '\t' || c == '\r' || c == '\n' }

  function SkipWhitespace(s: string): (r: string)
    ensures |r| <= |s|
  {
    if s != "" && IsWhitespace(s[0]) then SkipWhitespace(s[1..]) else s
  }

  function Expect(s: string, literal: string): Option<string> {
    if literal <= s then Some(s[|literal|..]) else None
  }

  function ParseDocument(s: string): Option<Value> {
    match ParseValue(SkipWhitespace(s), 0)
    case Failed => None
    case Parsed(v, rest) => if SkipWhitespace(rest) == "" then Some(v) else None
  }

  function ParseLiteral(s: string, literal: string, v: Value): Parsed<Value> {
    match Expect(s, literal)
    case None => Failed
    case Some(rest) => Parsed(v, rest)
  }

  function ParseValue(s: string, depth: nat): (r: Parsed<Value>)
    ensures r.Parsed? ==> |r.rest| < |s|
    decreases |s|, 0
  {
    if depth > MAX_JSON_DEPTH || s == "" then Failed
    else if s[0] == 'n' then ParseLiteral(s, "null", Null)
    else if s[0] == 't' then ParseLiteral(s, "true", Bool(true))
    else if s[0] == 'f' then ParseLiteral(s, "false", Bool(false))
    else if s[0] == '"' then
      match ParseChars(s[1..])
      case Failed => Failed
      case Parsed(value, rest) => Parsed(String(value), rest)
    else if s[0] == '[' then ParseArray(SkipWhitespace(s[1..]), depth + 1)
    else if s[0] == '{' then ParseObject(SkipWhitespace(s[1..]), depth + 1)
    else if s[0] == '-' || IsDigit(s[0]) then
      match ParseNumber(s)
      case Failed => Failed
      case Parsed(text, rest) => Parsed(Number(text), rest)
    else Failed
  }

  function ParseArray(s: string, depth: nat): (r: Parsed<Value>)
    ensures r.Parsed? ==> |r.rest| < |s|
    decreases |s|, 2
  {
    if s != "" && s[0] == ']' then Parsed(Array([]), s[1..])
    else
      match ParseItems(s, depth)
      case Failed => Failed
      case Parsed(items, rest) => Parsed(Array(items), rest)
  }

  /** The items of an array from the first one on, up to and including the bracket. */
  function ParseItems(s: string, depth: nat): (r: Parsed<seq<Value>>)
    ensures r.Parsed? ==> |r.rest| < |s|
    decreases |s|, 1
  {
    match ParseValue(s, depth)
    case Failed => Failed
    case Parsed(v, afterValue) =>
      var next := SkipWhitespace(afterValue);
      if next == "" then Failed
      else if next[0] == ']' then Parsed([v], next[1..])
      else if next[0] != ',' then Failed
      else
        match ParseItems(SkipWhitespace(next[1..]), depth)
        case Failed => Failed
        case Parsed(items, rest) => Parsed([v] + items, rest)
  }

  /** Where a key belongs among ordered entries. */
  function Place(entries: seq<Entry>, key: string): (k: nat)
    ensures k <= |entries|
  {
    if entries == [] || !Less(entries[0].key, key) then 0 else 1 + Place(entries[1..], key)
  }

  /** Inserting into the ordered map; `None` when the key is there already. */
  function Insert(entries: seq<Entry>, e: Entry): Option<seq<Entry>> {
    var k := Place(entries, e.key);
    if k < |entries| && entries[k].key == e.key then None else Some(entries[..k] + [e] + entries[k..])
  }

  function ParseObject(s: string, depth: nat): (r: Parsed<Value>)
    ensures r.Parsed? ==> |r.rest| < |s|
    decreases |s|, 2
  {
    if s != "" && s[0] == '}' then Parsed(Object([]), s[1..])
    else
      match ParseEntries(s, depth, [])
      case Failed => Failed
      case Parsed(entries, rest) => Parsed(Object(entries), rest)
  }

  /** One key and its value. */
  function ParseEntry(s: string, depth: nat): (r: Parsed<Entry>)
    ensures r.Parsed? ==> |r.rest| < |s|
    decreases |s|, 0
  {
    if s == "" || s[0] != '"' then Failed
    else
      match ParseChars(s[1..])
      case Failed => Failed
      case Parsed(key, afterKey) =>
        var colon := SkipWhitespace(afterKey);
        if colon == "" || colon[0] != ':' then Failed
        else
          match ParseValue(SkipWhitespace(colon[1..]), depth)
          case Failed => Failed
          case Parsed(v, rest) => Parsed(Entry(key, v), rest)
  }

  /** The remaining entries of an object, on top of those already in the map. */
  function ParseEntries(s: string, depth: nat, sofar: seq<Entry>): (r: Parsed<seq<Entry>>)
    ensures r.Parsed? ==> |r.rest| < |s|
    decreases |s|, 1
  {
    match ParseEntry(s, depth)
    case Failed => Failed
    case Parsed(e, afterEntry) =>
      match Insert(sofar, e)
      case None => Failed
      case Some(entries) =>
        var next := SkipWhitespace(afterEntry);
        if next == "" then Failed
        else if next[0] == '}' then Parsed(entries, next[1..])
        else if next[0] != ',' then Failed
        else ParseEntries(SkipWhitespace(next[1..]), depth, entries)
  }

  /** The characters of a string after its opening quote, up to and including the closing one. */
  function ParseChars(s: string): (r: Parsed<string>)
    ensures r.Parsed? ==> |r.rest| < |s|
    decreases |s|
  {
    if s == "" then Failed
    else if s[0] == '"' then Parsed("", s[1..])
    else if s[0] == '\\' then
      match ParseEscape(s[1..])
      case Failed => Failed
      case Parsed(c, rest) => Prepend(c, ParseChars(rest))
    else if s[0] < ' ' then Failed
    else Prepend(s[0], ParseChars(s[1..]))
  }

  function Prepend(c: char, r: Parsed<string>): Parsed<string> {
    match r
    case Failed => Failed
    case Parsed(text, rest) => Parsed([c] + text, rest)
  }

  /** An escape after its backslash. */
  function ParseEscape(s: string): (r: Parsed<char>)
    ensures r.Parsed? ==> |r.rest| < |s|
  {
    if s == "" then Failed
    else
      match s[0]
      case '"' => Parsed('"', s[1..])
      case '\\' => Parsed('\\', s[1..])
      case '/' => Parsed('/', s[1..])
      case 'b' => Parsed('\U{08}', s[1..])
      case 'f' => Parsed('\U{0c}', s[1..])
      case 'n' => Parsed('\n', s[1..])
      case 'r' => Parsed('\r', s[1..])
      case 't' => Parsed('\t', s[1..])
      case 'u' => ParseUnicodeEscape(s[1..])
      case _ => Failed
  }

  predicate IsHex(c: char) { '0' <= c <= '9' || 'a' <= c <= 'f' || 'A' <= c <= 'F' }

  function HexValue(c: char): (n: nat)
    requires IsHex(c)
    ensures n < 16
  {
    if c <= '9' then c as int - '0' as int
    else if c <= 'F' then c as int - 'A' as int + 10
    else c as int - 'a' as int + 10
  }

  function ParseHexQuad(s: string): (r: Option<nat>)
    ensures r.Some? ==> |s| >= 4 && r.value < 0x1_0000
  {
    if |s| >= 4 && IsHex(s[0]) && IsHex(s[1]) && IsHex(s[2]) && IsHex(s[3])
    then Some(HexValue(s[0]) * 4096 + HexValue(s[1]) * 256 + HexValue(s[2]) * 16 + HexValue(s[3]))
    else None
  }

  /**
    Four hex digits, or two quads that form a surrogate pair.  The conversion
    to a character is always defined: that the pair arithmetic lands on a
    scalar value is part of this function being well formed.
   */
  function ParseUnicodeEscape(s: string): (r: Parsed<char>)
    ensures r.Parsed? ==> |r.rest| < |s|
  {
    match ParseHexQuad(s)
    case None => Failed
    case Some(first) =>
      if 0xd800 <= first <= 0xdbff then
        match Expect(s[4..], "\\u")
        case None => Failed
        case Some(low) =>
          match ParseHexQuad(low)
          case None => Failed
          case Some(second) =>
            if 0xdc00 <= second <= 0xdfff
            then Parsed((0x1_0000 + (first - 0xd800) * 1024 + (second - 0xdc00)) as char, low[4..])
            else Failed
      else if 0xdc00 <= first <= 0xdfff then Failed
      else Parsed(first as char, s[4..])
  }

  /** How many digits the text begins with. */
  function DigitRun(s: string): (n: nat)
    ensures n <= |s| && Digits(s[..n]) && (n < |s| ==> !IsDigit(s[n]))
  {
    if s != "" && IsDigit(s[0]) then
      var n := DigitRun(s[1..]);
      assert s[..1 + n] == [s[0]] + s[1..][..n];
      1 + n
    else 0
  }

  /** The offset after an integer part that starts at `i`. */
  function IntegerEnd(s: string, i: nat): (r: Option<nat>)
    requires i <= |s|
    ensures r.Some? ==> i < r.value <= |s|
  {
    if i < |s| && s[i] == '0' then
      if i + 1 < |s| && IsDigit(s[i + 1]) then None else Some(i + 1)
    else if i < |s| && IsDigit(s[i]) then
      Some(i + DigitRun(s[i..]))
    else None
  }

  function FractionEnd(s: string, i: nat): (r: Option<nat>)
    requires i <= |s|
    ensures r.Some? ==> i <= r.value <= |s|
  {
    if i < |s| && s[i] == '.' then
      var n := DigitRun(s[i + 1..]);
      if n == 0 then None else Some(i + 1 + n)
    else Some(i)
  }

  function ExponentEnd(s: string, i: nat): (r: Option<nat>)
    requires i <= |s|
    ensures r.Some? ==> i <= r.value <= |s|
  {
    if i < |s| && (s[i] == 'e' || s[i] == 'E') then
      var j := if i + 1 < |s| && (s[i + 1] == '+' || s[i + 1] == '-') then i + 2 else i + 1;
      var n := DigitRun(s[j..]);
      if n == 0 then None else Some(j + n)
    else Some(i)
  }

  function NumberEnd(s: string): (r: Option<nat>)
    ensures r.Some? ==> 0 < r.value <= |s|
  {
    match IntegerEnd(s, if s != "" && s[0] == '-' then 1 else 0)
    case None => None
    case Some(i) =>
      match FractionEnd(s, i)
      case None => None
      case Some(j) => ExponentEnd(s, j)
  }

  function ParseNumber(s: string): (r: Parsed<string>)
    ensures r.Parsed? ==> |r.rest| < |s|
  {
    match NumberEnd(s)
    case None => Failed
    case Some(n) => Parsed(s[..n], s[n..])
  }
}
