/**
  Printing and parsing are inverse to each other.
 */
module JsonRoundTrip {
  import opened Decimals
  import opened Wrappers
  import opened Json

  // ---------------------------------------------------------------------------
  // Strings
  // ---------------------------------------------------------------------------

  lemma PlainParses(c: char, tail: string)
    requires c != '"' && c != '\\' && c >= ' '
    ensures ParseChars([c] + tail) == Prepend(c, ParseChars(tail))
  {
    assert ([c] + tail)[1..] == tail;
  }

  lemma EscapeParses(body: string, c: char, tail: string)
    requires ParseEscape(body + tail) == Parsed(c, tail)
    ensures ParseChars("\\" + body + tail) == Prepend(c, ParseChars(tail))
  {
    assert ("\\" + body + tail)[1..] == body + tail;
  }

  lemma ShortEscapeParses(letter: char, c: char, tail: string)
    requires letter != 'u' && ParseEscape([letter]) == Parsed(c, "")
    ensures ParseEscape([letter] + tail) == Parsed(c, tail)
  {
    assert ([letter] + tail)[1..] == tail;
  }

  /** The letter of a two-character escape. */
  function Letter(c: char): Option<char> {
    match c
    case '"' => Some('"')
    case '\\' => Some('\\')
    case '\U{08}' => Some('b')
    case '\U{0c}' => Some('f')
    case '\n' => Some('n')
    case '\r' => Some('r')
    case '\t' => Some('t')
    case _ => None
  }

  lemma LetterParses(c: char)
    requires Letter(c).Some?
    ensures EscapeChar(c) == "\\" + [Letter(c).value]
    ensures Letter(c).value != 'u' && ParseEscape([Letter(c).value]) == Parsed(c, "")
  {
  }

  lemma EscapeCharParses(c: char, tail: string)
    ensures ParseChars(EscapeChar(c) + tail) == Prepend(c, ParseChars(tail))
  {
    hide ParseChars, ParseEscape, Prepend;
    if Letter(c).Some? {
      LetterParses(c);
      ShortEscapeParses(Letter(c).value, c, tail);
      EscapeParses([Letter(c).value], c, tail);
    } else if c <= '\U{1f}' {
      ControlParses(c, tail);
    } else {
      PlainParses(c, tail);
    }
  }

  lemma ControlParses(c: char, tail: string)
    requires c <= '\U{1f}' && Letter(c).None?
    ensures ParseChars(EscapeChar(c) + tail) == Prepend(c, ParseChars(tail))
  {
    hide ParseChars, ParseUnicodeEscape, EscapeChar, ParseEscape;
    var high, low := HEX_DIGITS[c as int / 16], HEX_DIGITS[c as int % 16];
    var quad := "00" + [high, low];
    ControlText(c);
    ControlEscape(c, tail);
    EscapedUnit(quad, c, tail);
    EscapeParses("u" + quad, c, tail);
  }

  lemma ControlText(c: char)
    requires c <= '\U{1f}' && Letter(c).None?
    ensures EscapeChar(c) == "\\" + ("u" + ("00" + [HEX_DIGITS[c as int / 16], HEX_DIGITS[c as int % 16]]))
  {
    hide HEX_DIGITS;
  }

  lemma EscapedUnit(quad: string, c: char, tail: string)
    requires ParseUnicodeEscape(quad + tail) == Parsed(c, tail)
    ensures ParseEscape("u" + quad + tail) == Parsed(c, tail)
  {
    hide ParseUnicodeEscape;
    assert ("u" + quad + tail)[1..] == quad + tail;
  }

  lemma ControlEscape(c: char, tail: string)
    requires c <= '\U{1f}'
    ensures ParseUnicodeEscape("00" + [HEX_DIGITS[c as int / 16], HEX_DIGITS[c as int % 16]] + tail) == Parsed(c, tail)
  {
    var s := "00" + [HEX_DIGITS[c as int / 16], HEX_DIGITS[c as int % 16]] + tail;
    assert s[4..] == tail;
    HexDigitValue(c as int / 16);
    HexDigitValue(c as int % 16);
  }

  lemma HexDigitValue(n: nat)
    requires n < 16
    ensures IsHex(HEX_DIGITS[n]) && HexValue(HEX_DIGITS[n]) == n
  {
  }

  /** Every string survives: quotes, control characters and scalars beyond the basic plane included. */
  lemma {:induction false} StringRoundTrip(s: string, rest: string)
    ensures ParseChars(Escape(s) + "\"" + rest) == Parsed(s, rest)
  {
    if s == "" {
      assert Escape(s) + "\"" + rest == "\"" + rest;
    } else {
      hide ParseChars, EscapeChar;
      StringRoundTrip(s[1..], rest);
      EscapeCharParses(s[0], Escape(s[1..]) + "\"" + rest);
      assert Escape(s) + "\"" + rest == EscapeChar(s[0]) + (Escape(s[1..]) + "\"" + rest);
      assert [s[0]] + s[1..] == s;
    }
  }

  // ---------------------------------------------------------------------------
  // Unicode escapes
  // ---------------------------------------------------------------------------

  function Quad(n: nat): string
    requires n < 0x1_0000
  {
    [HEX_DIGITS[n / 16 / 16 / 16], HEX_DIGITS[n / 16 / 16 % 16], HEX_DIGITS[n / 16 % 16], HEX_DIGITS[n % 16]]
  }

  lemma Nibble(n: nat)
    ensures n == n / 16 * 16 + n % 16 && n % 16 < 16
  {
  }

  lemma QuadRead(n: nat, tail: string)
    requires n < 0x1_0000
    ensures ParseHexQuad(Quad(n) + tail) == Some(n) && (Quad(n) + tail)[4..] == tail
  {
    hide HexValue, HEX_DIGITS, IsHex;
    var a, b, c, d := n / 16 / 16 / 16, n / 16 / 16 % 16, n / 16 % 16, n % 16;
    Nibble(n);
    Nibble(n / 16);
    Nibble(n / 16 / 16);
    assert n == a * 4096 + b * 256 + c * 16 + d;
    DigitsRead(a, b, c, d, tail);
  }

  lemma DigitsRead(a: nat, b: nat, c: nat, d: nat, tail: string)
    requires a < 16 && b < 16 && c < 16 && d < 16
    ensures var s := [HEX_DIGITS[a], HEX_DIGITS[b], HEX_DIGITS[c], HEX_DIGITS[d]] + tail;
            ParseHexQuad(s) == Some(a * 4096 + b * 256 + c * 16 + d) && s[4..] == tail
  {
    HexDigitValue(a);
    HexDigitValue(b);
    HexDigitValue(c);
    HexDigitValue(d);
    hide HexValue, HEX_DIGITS, IsHex;
  }

  /** A character as its UTF-16 units in hexadecimal, two of them beyond the basic plane. */
  function EscapedUnits(c: char): string {
    var n := c as int;
    if n < 0x1_0000 then Quad(n)
    else Quad(0xd800 + (n - 0x1_0000) / 1024) + "\\u" + Quad(0xdc00 + (n - 0x1_0000) % 1024)
  }

  /** Every character can be written by its units and is read back; a surrogate pair is one character. */
  lemma UnitsRoundTrip(c: char, tail: string)
    ensures ParseUnicodeEscape(EscapedUnits(c) + tail) == Parsed(c, tail)
  {
    hide ParseHexQuad, Quad;
    var n := c as int;
    if n < 0x1_0000 {
      QuadRead(n, tail);
    } else {
      var first, second := 0xd800 + (n - 0x1_0000) / 1024, 0xdc00 + (n - 0x1_0000) % 1024;
      PairOf(c);
      PairParses(first, second, c, tail);
      PairText(Quad(first), Quad(second), tail);
    }
  }

  lemma PairOf(c: char)
    requires c >= '\U{10000}'
    ensures var n := c as int - 0x1_0000;
            && n / 1024 < 1024 && n % 1024 < 1024
            && (0x1_0000 + n / 1024 * 1024 + n % 1024) as char == c
  {
  }

  lemma PairText(first: string, second: string, tail: string)
    ensures first + "\\u" + second + tail == first + ("\\u" + (second + tail))
  {
  }

  lemma PairParses(first: nat, second: nat, c: char, tail: string)
    requires 0xd800 <= first < 0xdc00 <= second < 0xe000
    requires c as int == 0x1_0000 + (first - 0xd800) * 1024 + (second - 0xdc00)
    ensures ParseUnicodeEscape(Quad(first) + ("\\u" + (Quad(second) + tail))) == Parsed(c, tail)
  {
    hide ParseHexQuad, Quad;
    var rest := Quad(second) + tail;
    QuadRead(second, tail);
    QuadRead(first, "\\u" + rest);
    DropAppend("\\u", rest);
  }

  /** Half a pair is no character. */
  lemma LoneSurrogateRefused(n: nat, tail: string)
    requires 0xd800 <= n < 0xe000
    requires n < 0xdc00 ==>
               !("\\u" <= tail) || ParseHexQuad(tail[2..]).None? || !(0xdc00 <= ParseHexQuad(tail[2..]).value < 0xe000)
    ensures ParseUnicodeEscape(Quad(n) + tail) == Failed
  {
    QuadRead(n, tail);
    hide ParseHexQuad, Quad;
  }

  // ---------------------------------------------------------------------------
  // Numbers
  // ---------------------------------------------------------------------------

  /** Text that cannot continue a number: what may follow a value. */
  predicate Follows(rest: string) {
    rest == "" || rest[0] == ',' || rest[0] == ']' || rest[0] == '}' || IsWhitespace(rest[0])
  }

  predicate NoDigitFirst(s: string) {
    s == "" || !IsDigit(s[0])
  }

  lemma {:induction false} DigitRunIs(digits: string, tail: string)
    requires Digits(digits) && NoDigitFirst(tail)
    ensures DigitRun(digits + tail) == |digits|
  {
    if digits == "" {
      assert digits + tail == tail;
    } else {
      assert (digits + tail)[1..] == digits[1..] + tail;
      DigitRunIs(digits[1..], tail);
    }
  }

  lemma DropAppend(a: string, b: string)
    ensures (a + b)[|a|..] == b
  {
  }

  lemma IntegerIs(before: string, integer: string, tail: string)
    requires integer != "" && Digits(integer) && (integer[0] == '0' ==> integer == "0") && NoDigitFirst(tail)
    ensures IntegerEnd(before + integer + tail, |before|) == Some(|before| + |integer|)
  {
    var s := before + integer + tail;
    assert s[|before|..] == integer + tail;
    DigitRunIs(integer, tail);
  }

  lemma FractionIs(before: string, fraction: string, tail: string)
    requires fraction != "" && Digits(fraction) && NoDigitFirst(tail)
    ensures FractionEnd(before + "." + fraction + tail, |before|) == Some(|before| + 1 + |fraction|)
  {
    var s := before + "." + fraction + tail;
    assert s[|before| + 1..] == fraction + tail;
    DigitRunIs(fraction, tail);
  }

  lemma ExponentIs(before: string, e: Exponent, tail: string)
    requires e.Valid() && NoDigitFirst(tail)
    ensures ExponentEnd(before + e.Text() + tail, |before|) == Some(|before| + |e.Text()|)
  {
    hide DigitRun, Digits;
    var s := before + e.Text() + tail;
    var i := |before|;
    assert s[i] == e.marker;
    assert s[i + 1..] == e.sign + e.digits + tail;
    SignOf(e, tail);
    if e.sign == "" {
      assert s[i + 1..] == e.digits + tail;
    } else {
      assert s[i + 2..] == e.digits + tail;
    }
    DigitRunIs(e.digits, tail);
  }

  lemma SignOf(e: Exponent, tail: string)
    requires e.Valid()
    ensures var c := (e.sign + e.digits + tail)[0]; if e.sign == "" then c != '+' && c != '-' else [c] == e.sign
  {
    assert IsDigit(e.digits[0]);
  }

  lemma NoFraction(before: string, tail: string)
    requires tail == "" || tail[0] != '.'
    ensures FractionEnd(before + tail, |before|) == Some(|before|)
  {
    assert (before + tail)[|before|..] == tail;
  }

  lemma NoExponent(before: string, tail: string)
    requires tail == "" || (tail[0] != 'e' && tail[0] != 'E')
    ensures ExponentEnd(before + tail, |before|) == Some(|before|)
  {
    assert (before + tail)[|before|..] == tail;
  }

  lemma MantissaEnd(p: NumberParts, before: string, tail: string)
    requires p.Valid() && NoDigitFirst(tail) && (tail == "" || tail[0] != '.')
    ensures var fraction := if p.fraction.Some? then "." + p.fraction.value else "";
            FractionEnd(before + fraction + tail, |before|) == Some(|before| + |fraction|)
  {
    if p.fraction.Some? {
      FractionIs(before, p.fraction.value, tail);
      assert before + ("." + p.fraction.value) + tail == before + "." + p.fraction.value + tail;
    } else {
      NoFraction(before, tail);
      assert before + "" + tail == before + tail;
    }
  }

  lemma Assoc(a: string, b: string, c: string)
    ensures a + b + c == a + (b + c)
  {
  }

  lemma NumberEndIs(s: string, i: nat, j: nat, k: nat)
    requires IntegerEnd(s, if s != "" && s[0] == '-' then 1 else 0) == Some(i)
    requires i <= |s| && FractionEnd(s, i) == Some(j) && ExponentEnd(s, j) == Some(k)
    ensures NumberEnd(s) == Some(k)
  {
  }

  lemma NumberRoundTrip(p: NumberParts, rest: string)
    requires p.Valid() && Follows(rest)
    ensures ParseNumber(p.Text() + rest) == Parsed(p.Text(), rest)
  {
    hide IntegerEnd, FractionEnd, ExponentEnd, DigitRun, NumberEnd, Digits;
    var sign := if p.minus then "-" else "";
    var fraction := if p.fraction.Some? then "." + p.fraction.value else "";
    var exponent := if p.exponent.Some? then p.exponent.value.Text() else "";
    var head := sign + p.integer;
    var mantissa := head + fraction;
    var s := mantissa + exponent + rest;
    assert p.Text() == mantissa + exponent;
    SignFirst(p, fraction + (exponent + rest));
    Assoc(mantissa, exponent, rest);
    Assoc(head, fraction, exponent + rest);
    IntegerIs(sign, p.integer, fraction + (exponent + rest));
    MantissaEnd(p, head, exponent + rest);
    if p.exponent.Some? {
      ExponentIs(mantissa, p.exponent.value, rest);
    } else {
      NoExponent(mantissa, rest);
      assert mantissa + exponent == mantissa;
    }
    NumberEndIs(s, |head|, |mantissa|, |mantissa| + |exponent|);
    DropAppend(p.Text(), rest);
    assert s[..|p.Text()|] == p.Text();
  }

  lemma SignFirst(p: NumberParts, tail: string)
    requires p.Valid()
    ensures var s := (if p.minus then "-" else "") + p.integer + tail; s[0] == '-' <==> p.minus
  {
    assert IsDigit(p.integer[0]);
  }

  // ---------------------------------------------------------------------------
  // The order of keys
  // ---------------------------------------------------------------------------

  lemma {:induction false} LessTotal(a: string, b: string)
    ensures Less(a, b) || Less(b, a) || a == b
    ensures !(Less(a, b) && Less(b, a)) && !Less(a, a)
  {
    if a != "" && b != "" {
      LessTotal(a[1..], b[1..]);
      assert a == [a[0]] + a[1..] && b == [b[0]] + b[1..];
    }
    if a != "" {
      LessTotal(a[1..], a[1..]);
    }
  }

  lemma {:induction false} LessTransitive(a: string, b: string, c: string)
    requires Less(a, b) && Less(b, c)
    ensures Less(a, c)
  {
    if a != "" && b != "" && c != "" && a[0] == b[0] && b[0] == c[0] {
      LessTransitive(a[1..], b[1..], c[1..]);
    }
  }

  /** The place of a key: everything before it is smaller, nothing after it is. */
  lemma {:induction false} PlaceSplits(entries: seq<Entry>, key: string)
    requires Sorted(entries)
    ensures forall i | 0 <= i < Place(entries, key) :: Less(entries[i].key, key)
    ensures forall i | Place(entries, key) <= i < |entries| :: !Less(entries[i].key, key)
  {
    if entries != [] {
      if Less(entries[0].key, key) {
        PlaceSplits(entries[1..], key);
        var k := Place(entries[1..], key);
        assert forall i | 0 < i <= k :: entries[i] == entries[1..][i - 1];
        assert forall i | k < i < |entries| :: entries[i] == entries[1..][i - 1];
      } else {
        forall i | 0 <= i < |entries| ensures !Less(entries[i].key, key) {
          if Less(entries[i].key, key) && i > 0 {
            LessTransitive(entries[0].key, entries[i].key, key);
          }
        }
      }
    }
  }

  /** From its place on, every key is larger than one that is not there. */
  lemma PlaceBelow(entries: seq<Entry>, key: string)
    requires Sorted(entries)
    requires Place(entries, key) < |entries| ==> entries[Place(entries, key)].key != key
    ensures forall i | Place(entries, key) <= i < |entries| :: Less(key, entries[i].key)
    ensures forall x <- entries :: x.key != key
  {
    var k := Place(entries, key);
    PlaceSplits(entries, key);
    LessTotal(key, key);
    if k < |entries| {
      LessTotal(entries[k].key, key);
      forall i | k < i < |entries| ensures Less(key, entries[i].key) {
        LessTransitive(key, entries[k].key, entries[i].key);
      }
    }
  }

  /** Insertion keeps the map ordered, and fails exactly on a key that is already there. */
  lemma InsertSorts(entries: seq<Entry>, e: Entry)
    requires Sorted(entries)
    ensures Insert(entries, e).None? <==> exists x <- entries :: x.key == e.key
    ensures Insert(entries, e).Some? ==>
              Sorted(Insert(entries, e).value) && multiset(Insert(entries, e).value) == multiset(entries) + multiset{e}
  {
    hide Less, Place;
    var k := Place(entries, e.key);
    PlaceSplits(entries, e.key);
    if Insert(entries, e).None? {
      assert entries[k] in entries;
    } else {
      PlaceBelow(entries, e.key);
      SplicedSorted(entries, e, k);
      assert entries == entries[..k] + entries[k..];
    }
  }

  lemma SplicedSorted(entries: seq<Entry>, e: Entry, k: nat)
    requires Sorted(entries) && k <= |entries|
    requires forall i | 0 <= i < k :: Less(entries[i].key, e.key)
    requires forall i | k <= i < |entries| :: Less(e.key, entries[i].key)
    ensures Sorted(entries[..k] + [e] + entries[k..])
  {
    hide Less;
    var r := entries[..k] + [e] + entries[k..];
    forall i, j | 0 <= i < j < |r| ensures Less(r[i].key, r[j].key) {
      if i < k < j {
        LessTransitive(r[i].key, e.key, r[j].key);
      }
    }
  }

  lemma {:induction false} PlaceAfter(entries: seq<Entry>, key: string)
    requires forall i | 0 <= i < |entries| :: Less(entries[i].key, key)
    ensures Place(entries, key) == |entries|
  {
    if entries != [] {
      PlaceAfter(entries[1..], key);
    }
  }

  lemma InsertLast(entries: seq<Entry>, e: Entry)
    requires Sorted(entries + [e])
    ensures Insert(entries, e) == Some(entries + [e])
  {
    assert forall i | 0 <= i < |entries| :: (entries + [e])[i] == entries[i];
    assert (entries + [e])[|entries|] == e;
    PlaceAfter(entries, e.key);
    assert entries[..|entries|] == entries && entries[|entries|..] == [];
    assert entries + [e] + [] == entries + [e];
  }

  // ---------------------------------------------------------------------------
  // Members in any order
  // ---------------------------------------------------------------------------

  /**
    The value a reader makes of one whose objects list their members in any
    order: sorted by key at every level, and nothing if a key repeats.
   */
  function Settled(v: Value): Option<Value>
    decreases v, 0
  {
    match v
    case Array(items) =>
      (match SettledItems(items)
       case None => None
       case Some(settled) => Some(Array(settled)))
    case Object(entries) =>
      (match SettledEntries(entries, [])
       case None => None
       case Some(settled) => Some(Object(settled)))
    case _ => Some(v)
  }

  function SettledItems(items: seq<Value>): Option<seq<Value>>
    decreases items, 1
  {
    if items == [] then Some([])
    else
      match Settled(items[0])
      case None => None
      case Some(first) =>
        match SettledItems(items[1..])
        case None => None
        case Some(rest) => Some([first] + rest)
  }

  /** The ordered map after inserting the members one by one. */
  function SettledEntries(entries: seq<Entry>, sofar: seq<Entry>): Option<seq<Entry>>
    decreases entries, 1
  {
    if entries == [] then Some(sofar)
    else
      match Settled(entries[0].value)
      case None => None
      case Some(v) =>
        match Insert(sofar, Entry(entries[0].key, v))
        case None => None
        case Some(next) => SettledEntries(entries[1..], next)
  }

  /** Numbers in the grammar and at most `room` levels below this one; `Printable` but for the order of keys. */
  ghost predicate Legible(v: Value, room: nat)
    decreases v
  {
    match v
    case Number(text) => IsNumber(text)
    case Array(items) => items != [] ==> room > 0 && forall i | 0 <= i < |items| :: Legible(items[i], room - 1)
    case Object(entries) =>
      entries != [] ==> room > 0 && forall i | 0 <= i < |entries| :: Legible(entries[i].value, room - 1)
    case _ => true
  }

  /** A value with its keys in order is what a reader makes of it. */
  lemma {:induction false} PrintableIsSettled(v: Value, room: nat)
    requires Printable(v, room)
    ensures Legible(v, room) && Settled(v) == Some(v)
    decreases v, 0
  {
    match v
    case Array(items) =>
      if items != [] {
        ItemsAreSettled(items, room - 1);
      }
    case Object(entries) =>
      assert [] + entries == entries;
      if entries != [] {
        EntriesAreSettled(entries, room - 1, []);
      }
    case _ =>
  }

  lemma {:induction false} ItemsAreSettled(items: seq<Value>, room: nat)
    requires forall i | 0 <= i < |items| :: Printable(items[i], room)
    ensures SettledItems(items) == Some(items) && forall i | 0 <= i < |items| :: Legible(items[i], room)
    decreases items, 1
  {
    hide Printable, Legible, Settled;
    if items != [] {
      PrintableIsSettled(items[0], room);
      ItemsAreSettled(items[1..], room);
      assert items == [items[0]] + items[1..];
    }
  }

  lemma {:induction false} EntriesAreSettled(entries: seq<Entry>, room: nat, sofar: seq<Entry>)
    requires Sorted(sofar + entries) && forall i | 0 <= i < |entries| :: Printable(entries[i].value, room)
    ensures SettledEntries(entries, sofar) == Some(sofar + entries)
    ensures forall i | 0 <= i < |entries| :: Legible(entries[i].value, room)
    decreases entries, 1
  {
    hide Printable, Legible, Settled, Less, Insert;
    if entries == [] {
      assert sofar + entries == sofar;
    } else {
      var next := sofar + [entries[0]];
      assert sofar + entries == next + entries[1..];
      assert forall i | 0 <= i < |next| :: next[i] == (sofar + entries)[i];
      PrintableIsSettled(entries[0].value, room);
      InsertLast(sofar, entries[0]);
      EntriesAreSettled(entries[1..], room, next);
    }
  }

  // ---------------------------------------------------------------------------
  // Parsing what was printed
  // ---------------------------------------------------------------------------

  /** No value starts with whitespace or with a closing bracket. */
  lemma FirstCharacter(v: Value, room: nat)
    requires Legible(v, room)
    ensures Print(v) != "" && !IsWhitespace(Print(v)[0]) && Print(v)[0] != ']' && Print(v)[0] != '}'
  {
    if v.Number? {
      var p: NumberParts :| p.Valid() && p.Text() == v.text;
      assert IsDigit(p.integer[0]);
    }
  }

  lemma SkipNothing(s: string)
    requires s == "" || !IsWhitespace(s[0])
    ensures SkipWhitespace(s) == s
  {
  }

  lemma LiteralParses(literal: string, v: Value, rest: string)
    ensures ParseLiteral(literal + rest, literal, v) == Parsed(v, rest)
  {
    DropAppend(literal, rest);
  }

  lemma NumberValueParses(v: Value, rest: string, depth: nat)
    requires v.Number? && IsNumber(v.text) && Follows(rest) && depth <= MAX_JSON_DEPTH
    ensures ParseValue(Print(v) + rest, depth) == Parsed(v, rest)
  {
    hide ParseNumber;
    var p: NumberParts :| p.Valid() && p.Text() == v.text;
    NumberRoundTrip(p, rest);
    assert IsDigit(p.integer[0]);
    FirstCharacter(v, 0);
  }

  lemma QuotedText(body: string, rest: string)
    ensures var s := "\"" + body + "\"" + rest; s[0] == '"' && s[1..] == body + "\"" + rest
  {
  }

  lemma StringValueParses(v: Value, rest: string, depth: nat)
    requires v.String? && depth <= MAX_JSON_DEPTH
    ensures ParseValue(Print(v) + rest, depth) == Parsed(v, rest)
  {
    hide ParseChars, Escape;
    StringRoundTrip(v.value, rest);
    QuotedText(Escape(v.value), rest);
  }

  function Outcome<T>(r: Option<T>, rest: string): Parsed<T> {
    match r
    case None => Failed
    case Some(v) => Parsed(v, rest)
  }

  /** Whatever follows it, a printed value is read as what it settles to and exactly it is consumed. */
  lemma {:induction false} ValueRoundTrip(v: Value, rest: string, depth: nat)
    requires depth <= MAX_JSON_DEPTH && Legible(v, MAX_JSON_DEPTH - depth) && Follows(rest)
    ensures ParseValue(Print(v) + rest, depth) == Outcome(Settled(v), rest)
    decreases v, 0
  {
    hide ParseChars, ParseNumber, ParseItems, ParseEntries, ParseArray, ParseObject, SettledItems, SettledEntries;
    match v
    case Null => LiteralParses("null", v, rest);
    case Bool(b) => LiteralParses(if b then "true" else "false", v, rest);
    case Number(_) => NumberValueParses(v, rest, depth);
    case String(_) => StringValueParses(v, rest, depth);
    case Array(items) => ArrayRoundTrip(items, rest, depth);
    case Object(entries) => ObjectRoundTrip(entries, rest, depth);
  }

  lemma {:induction false} ArrayRoundTrip(items: seq<Value>, rest: string, depth: nat)
    requires depth <= MAX_JSON_DEPTH && Legible(Array(items), MAX_JSON_DEPTH - depth)
    ensures ParseValue(Print(Array(items)) + rest, depth) == Outcome(Settled(Array(items)), rest)
    decreases items, 3
  {
    hide ParseChars, ParseNumber, ParseItems, ParseObject, PrintItems, SettledEntries;
    var inner := PrintItems(items) + "]" + rest;
    assert (Print(Array(items)) + rest)[1..] == inner;
    if items == [] {
      EmptyPrints();
      assert inner == "]" + rest && inner[1..] == rest;
      SkipNothing(inner);
    } else {
      hide SettledItems;
      FirstOfItems(items, "]" + rest, MAX_JSON_DEPTH - depth - 1);
      Assoc(PrintItems(items), "]", rest);
      SkipNothing(inner);
      ItemsRoundTrip(items, rest, depth + 1);
    }
  }

  lemma EmptyPrints()
    ensures PrintItems([]) == "" && PrintEntries([]) == ""
  {
  }

  lemma FirstOfItems(items: seq<Value>, tail: string, room: nat)
    requires items != [] && Legible(items[0], room)
    ensures var s := PrintItems(items) + tail; s != "" && !IsWhitespace(s[0]) && s[0] != ']'
  {
    FirstCharacter(items[0], room);
  }

  lemma FirstOfEntries(entries: seq<Entry>, tail: string)
    requires entries != []
    ensures (PrintEntries(entries) + tail)[0] == '"'
  {
  }

  lemma {:induction false} ObjectRoundTrip(entries: seq<Entry>, rest: string, depth: nat)
    requires depth <= MAX_JSON_DEPTH && Legible(Object(entries), MAX_JSON_DEPTH - depth)
    ensures ParseValue(Print(Object(entries)) + rest, depth) == Outcome(Settled(Object(entries)), rest)
    decreases entries, 3
  {
    hide ParseChars, ParseNumber, ParseEntries, ParseArray, PrintEntries, SettledItems;
    var inner := PrintEntries(entries) + "}" + rest;
    assert (Print(Object(entries)) + rest)[1..] == inner;
    if entries == [] {
      EmptyPrints();
      assert inner == "}" + rest && inner[1..] == rest;
      SkipNothing(inner);
    } else {
      hide SettledEntries;
      FirstOfEntries(entries, "}" + rest);
      Assoc(PrintEntries(entries), "}", rest);
      SkipNothing(inner);
      EntriesRoundTrip(entries, rest, depth + 1, []);
    }
  }

  lemma {:induction false} ItemsRoundTrip(items: seq<Value>, rest: string, depth: nat)
    requires items != [] && depth <= MAX_JSON_DEPTH
    requires forall i | 0 <= i < |items| :: Legible(items[i], MAX_JSON_DEPTH - depth)
    ensures ParseItems(PrintItems(items) + "]" + rest, depth) == Outcome(SettledItems(items), rest)
    decreases items, 1
  {
    hide ParseValue, Print, PrintItems, ParseItems, Legible, Settled;
    var tail := if |items| == 1 then "]" + rest else "," + (PrintItems(items[1..]) + "]" + rest);
    ItemsText(items, rest, tail);
    ValueRoundTrip(items[0], tail, depth);
    SkipNothing(tail);
    ItemRead(Print(items[0]) + tail, tail, depth);
    if |items| == 1 {
      assert tail[1..] == rest;
      OneItemSettles(items);
    } else {
      var more := PrintItems(items[1..]) + "]" + rest;
      assert tail[1..] == more;
      FirstOfItems(items[1..], "]" + rest, MAX_JSON_DEPTH - depth);
      Assoc(PrintItems(items[1..]), "]", rest);
      SkipNothing(more);
      ItemsRoundTrip(items[1..], rest, depth);
    }
  }

  lemma OneItemSettles(items: seq<Value>)
    requires |items| == 1
    ensures SettledItems(items) == match Settled(items[0]) case None => None case Some(v) => Some([v])
  {
    hide Settled;
    assert SettledItems(items[1..]) == Some([]);
    assert Settled(items[0]).Some? ==> [Settled(items[0]).value] + [] == [Settled(items[0]).value];
  }

  lemma ItemRead(s: string, tail: string, depth: nat)
    requires ParseValue(s, depth).Parsed? ==> SkipWhitespace(ParseValue(s, depth).rest) == tail
    requires tail != ""
    ensures ParseValue(s, depth).Failed? ==> ParseItems(s, depth) == Failed
    ensures ParseValue(s, depth).Parsed? && tail[0] == ']' ==>
              ParseItems(s, depth) == Parsed([ParseValue(s, depth).value], tail[1..])
    ensures ParseValue(s, depth).Parsed? && tail[0] == ',' ==>
              match ParseItems(SkipWhitespace(tail[1..]), depth)
              case Failed => ParseItems(s, depth) == Failed
              case Parsed(items, rest) => ParseItems(s, depth) == Parsed([ParseValue(s, depth).value] + items, rest)
  {
    hide ParseValue;
  }

  lemma EntryText(key: string, value: string, tail: string)
    ensures var s := PrintString(key) + ":" + value + tail;
            s[0] == '"' && s[1..] == Escape(key) + "\"" + (":" + (value + tail))
  {
    hide Escape;
  }

  lemma {:induction false} EntryRoundTrip(e: Entry, tail: string, depth: nat)
    requires depth <= MAX_JSON_DEPTH && Legible(e.value, MAX_JSON_DEPTH - depth) && Follows(tail)
    ensures ParseEntry(PrintString(e.key) + ":" + Print(e.value) + tail, depth)
         == match Settled(e.value)
            case None => Failed
            case Some(v) => Parsed(Entry(e.key, v), tail)
    decreases e.value, 1
  {
    hide ParseValue, ParseChars, Settled, Print, PrintString, Escape, Legible;
    var afterColon := Print(e.value) + tail;
    var afterKey := ":" + afterColon;
    EntryText(e.key, Print(e.value), tail);
    StringRoundTrip(e.key, afterKey);
    SkipNothing(afterKey);
    assert afterKey[1..] == afterColon;
    FirstCharacter(e.value, MAX_JSON_DEPTH - depth);
    SkipNothing(afterColon);
    ValueRoundTrip(e.value, tail, depth);
  }

  /**
    The members of an object may be written in any order: what is read is the
    map they build when inserted one by one, and nothing if a key repeats.
   */
  lemma {:induction false} EntriesRoundTrip(entries: seq<Entry>, rest: string, depth: nat, sofar: seq<Entry>)
    requires entries != [] && depth <= MAX_JSON_DEPTH
    requires forall i | 0 <= i < |entries| :: Legible(entries[i].value, MAX_JSON_DEPTH - depth)
    ensures ParseEntries(PrintEntries(entries) + "}" + rest, depth, sofar)
         == Outcome(SettledEntries(entries, sofar), rest)
    decreases entries, 2
  {
    hide ParseEntry, Insert, PrintEntries, PrintString, Print, Settled, Legible, ParseEntries;
    var e := entries[0];
    var tail := if |entries| == 1 then "}" + rest else "," + (PrintEntries(entries[1..]) + "}" + rest);
    EntriesText(entries, rest, tail);
    EntryRoundTrip(e, tail, depth);
    SkipNothing(tail);
    EntryRead(PrintString(e.key) + ":" + Print(e.value) + tail, tail, depth, sofar);
    if |entries| == 1 {
      assert tail[1..] == rest;
      OneEntrySettles(entries, sofar);
    } else {
      var more := PrintEntries(entries[1..]) + "}" + rest;
      assert tail[1..] == more;
      FirstOfEntries(entries[1..], "}" + rest);
      Assoc(PrintEntries(entries[1..]), "}", rest);
      SkipNothing(more);
      if Settled(e.value).Some? {
        var next := Insert(sofar, Entry(e.key, Settled(e.value).value));
        if next.Some? {
          EntriesRoundTrip(entries[1..], rest, depth, next.value);
        }
      }
    }
  }

  lemma OneEntrySettles(entries: seq<Entry>, sofar: seq<Entry>)
    requires |entries| == 1
    ensures SettledEntries(entries, sofar)
         == match Settled(entries[0].value)
            case None => None
            case Some(v) => Insert(sofar, Entry(entries[0].key, v))
  {
    hide Settled, Insert;
    assert forall next :: SettledEntries(entries[1..], next) == Some(next);
  }

  lemma EntryRead(s: string, tail: string, depth: nat, sofar: seq<Entry>)
    requires ParseEntry(s, depth).Parsed? ==> SkipWhitespace(ParseEntry(s, depth).rest) == tail
    requires tail != ""
    ensures ParseEntry(s, depth).Failed? ==> ParseEntries(s, depth, sofar) == Failed
    ensures ParseEntry(s, depth).Parsed? ==>
              match Insert(sofar, ParseEntry(s, depth).value)
              case None => ParseEntries(s, depth, sofar) == Failed
              case Some(next) =>
                && (tail[0] == '}' ==> ParseEntries(s, depth, sofar) == Parsed(next, tail[1..]))
                && (tail[0] == ',' ==>
                      ParseEntries(s, depth, sofar) == ParseEntries(SkipWhitespace(tail[1..]), depth, next))
  {
    hide ParseEntry, Insert;
  }

  lemma Regroup(a: string, b: string, c: string, d: string, e: string)
    ensures a + b + c + d + e == a + (b + (c + d + e))
  {
  }

  lemma EntriesText(entries: seq<Entry>, rest: string, tail: string)
    requires entries != []
    requires tail == if |entries| == 1 then "}" + rest else "," + (PrintEntries(entries[1..]) + "}" + rest)
    ensures PrintEntries(entries) + "}" + rest
         == PrintString(entries[0].key) + ":" + Print(entries[0].value) + tail
  {
    hide PrintString, Print;
    var first := PrintString(entries[0].key) + ":" + Print(entries[0].value);
    if |entries| == 1 {
      Assoc(first, "}", rest);
    } else {
      Regroup(first, ",", PrintEntries(entries[1..]), "}", rest);
    }
  }

  lemma ItemsText(items: seq<Value>, rest: string, tail: string)
    requires items != []
    requires tail == if |items| == 1 then "]" + rest else "," + (PrintItems(items[1..]) + "]" + rest)
    ensures PrintItems(items) + "]" + rest == Print(items[0]) + tail
  {
    hide Print;
    if |items| == 1 {
      Assoc(Print(items[0]), "]", rest);
    } else {
      Regroup(Print(items[0]), ",", PrintItems(items[1..]), "]", rest);
    }
  }

  /** A value printed with its members in any order is read as what it settles to. */
  lemma PrintedInAnyOrder(v: Value)
    requires Legible(v, MAX_JSON_DEPTH)
    ensures ParseDocument(Print(v)) == Settled(v)
  {
    hide ParseValue, Settled;
    FirstCharacter(v, MAX_JSON_DEPTH);
    SkipNothing(Print(v));
    ValueRoundTrip(v, "", 0);
    assert Print(v) + "" == Print(v);
  }

  /** Parsing undoes printing. */
  lemma ParsePrint(v: Value)
    requires Printable(v, MAX_JSON_DEPTH)
    ensures ParseDocument(Print(v)) == Some(v)
  {
    hide ParseDocument, Print, Settled;
    PrintableIsSettled(v, MAX_JSON_DEPTH);
    PrintedInAnyOrder(v);
  }

  // ---------------------------------------------------------------------------
  // Printing what was parsed
  // ---------------------------------------------------------------------------

  lemma Slices(s: string, a: nat, b: nat, c: nat, d: nat)
    requires a <= b <= c <= d <= |s|
    ensures s[..d] == s[..a] + s[a..b] + s[b..c] + s[c..d]
  {
  }

  lemma ParsedNumberIsNumber(s: string)
    requires NumberEnd(s).Some?
    ensures IsNumber(s[..NumberEnd(s).value])
  {
    hide IntegerEnd, FractionEnd, ExponentEnd, Digits;
    var minus := s != "" && s[0] == '-';
    var start := if minus then 1 else 0;
    var i := IntegerEnd(s, start).value;
    var j := FractionEnd(s, i).value;
    var k := ExponentEnd(s, j).value;
    IntegerRead(s, start);
    FractionRead(s, i);
    ExponentRead(s, j);
    var p := PartsAt(s, start, i, j, k);
    Slices(s, start, i, j, k);
    assert s[..start] == if minus then "-" else "";
    assert s[i..j] == if p.fraction.Some? then "." + p.fraction.value else "";
    assert s[j..k] == if p.exponent.Some? then p.exponent.value.Text() else "";
    assert p.Text() == s[..k] && p.Valid();
  }

  function PartsAt(s: string, start: nat, i: nat, j: nat, k: nat): NumberParts
    requires start <= i <= j <= k <= |s|
  {
    NumberParts(start > 0, s[start..i], if j <= i + 1 then None else Some(s[i + 1..j]),
                if k == j then None else Some(ExponentAt(s, j, k)))
  }

  lemma IntegerRead(s: string, i: nat)
    requires i <= |s| && IntegerEnd(s, i).Some?
    ensures var t := s[i..IntegerEnd(s, i).value]; t != "" && Digits(t) && (t[0] == '0' ==> t == "0")
  {
    if s[i] != '0' {
      var n := DigitRun(s[i..]);
      assert s[i..][..n] == s[i..i + n];
    }
  }

  lemma FractionRead(s: string, i: nat)
    requires i <= |s| && FractionEnd(s, i).Some?
    ensures var j := FractionEnd(s, i).value;
            j == i || (i + 1 < j && s[i..j] == "." + s[i + 1..j] && Digits(s[i + 1..j]))
  {
    if i < |s| && s[i] == '.' {
      var n := DigitRun(s[i + 1..]);
      assert s[i + 1..][..n] == s[i + 1..i + 1 + n];
    }
  }

  function ExponentAt(s: string, j: nat, k: nat): Exponent
    requires j < k <= |s|
  {
    if j + 1 < k && (s[j + 1] == '+' || s[j + 1] == '-') then Exponent(s[j], [s[j + 1]], s[j + 2..k])
    else Exponent(s[j], "", s[j + 1..k])
  }

  lemma ExponentRead(s: string, j: nat)
    requires j <= |s| && ExponentEnd(s, j).Some?
    ensures ExponentEnd(s, j).value >= j
    ensures var k := ExponentEnd(s, j).value;
            j == k || (j < k && ExponentAt(s, j, k).Valid() && ExponentAt(s, j, k).Text() == s[j..k])
  {
    if j < |s| && (s[j] == 'e' || s[j] == 'E') {
      var d := if j + 1 < |s| && (s[j + 1] == '+' || s[j + 1] == '-') then j + 2 else j + 1;
      var n := DigitRun(s[d..]);
      assert s[d..][..n] == s[d..d + n];
      hide DigitRun;
      assert d == j + 2 ==> s[j..d + n] == [s[j]] + [s[j + 1]] + s[d..d + n];
      assert d == j + 1 ==> s[j..d + n] == [s[j]] + "" + s[d..d + n];
    }
  }

  /** Whatever the parser accepts can be printed: it is no deeper, its numbers are numbers, its keys are in order. */
  lemma {:induction false} ParsedIsPrintable(s: string, depth: nat)
    requires ParseValue(s, depth).Parsed?
    ensures depth <= MAX_JSON_DEPTH && Printable(ParseValue(s, depth).value, MAX_JSON_DEPTH - depth)
    decreases |s|, 0
  {
    hide ParseChars, NumberEnd, ParseItems, ParseEntries;
    if s[0] == '[' {
      var inner := SkipWhitespace(s[1..]);
      if inner == "" || inner[0] != ']' {
        ItemsArePrintable(inner, depth + 1);
        var items := ParseItems(inner, depth + 1).value;
        assert forall i | 0 <= i < |items| :: items[i] in items;
      }
    } else if s[0] == '{' {
      var inner := SkipWhitespace(s[1..]);
      if inner == "" || inner[0] != '}' {
        EntriesArePrintable(inner, depth + 1, []);
        var entries := ParseEntries(inner, depth + 1, []).value;
        assert forall i | 0 <= i < |entries| :: entries[i] in entries;
      }
    } else if s[0] == '-' || IsDigit(s[0]) {
      ParsedNumberIsNumber(s);
    }
  }

  lemma {:induction false} ItemsArePrintable(s: string, depth: nat)
    requires ParseItems(s, depth).Parsed?
    ensures depth <= MAX_JSON_DEPTH
    ensures forall v <- ParseItems(s, depth).value :: Printable(v, MAX_JSON_DEPTH - depth)
    decreases |s|, 1
  {
    hide ParseValue, Printable;
    ParsedIsPrintable(s, depth);
    var next := SkipWhitespace(ParseValue(s, depth).rest);
    if next[0] == ',' {
      ItemsArePrintable(SkipWhitespace(next[1..]), depth);
    }
  }

  lemma {:induction false} EntriesArePrintable(s: string, depth: nat, sofar: seq<Entry>)
    requires ParseEntries(s, depth, sofar).Parsed? && Sorted(sofar)
    requires depth <= MAX_JSON_DEPTH ==> forall e <- sofar :: Printable(e.value, MAX_JSON_DEPTH - depth)
    ensures depth <= MAX_JSON_DEPTH && Sorted(ParseEntries(s, depth, sofar).value)
    ensures forall e <- ParseEntries(s, depth, sofar).value :: Printable(e.value, MAX_JSON_DEPTH - depth)
    decreases |s|, 1
  {
    hide ParseEntry, Printable, Insert, Sorted;
    var e := ParseEntry(s, depth).value;
    EntryIsPrintable(s, depth);
    InsertSorts(sofar, e);
    var entries := Insert(sofar, e).value;
    assert forall x <- entries :: x in multiset(entries);
    var next := SkipWhitespace(ParseEntry(s, depth).rest);
    if next[0] == ',' {
      EntriesArePrintable(SkipWhitespace(next[1..]), depth, entries);
    }
  }

  lemma {:induction false} EntryIsPrintable(s: string, depth: nat)
    requires ParseEntry(s, depth).Parsed?
    ensures depth <= MAX_JSON_DEPTH && Printable(ParseEntry(s, depth).value.value, MAX_JSON_DEPTH - depth)
    decreases |s|, 0
  {
    hide ParseValue, Printable, ParseChars;
    var colon := SkipWhitespace(ParseChars(s[1..]).rest);
    ParsedIsPrintable(SkipWhitespace(colon[1..]), depth);
  }

  /** So every accepted text, printed again, is accepted again as the same value. */
  lemma PrintParse(s: string)
    requires ParseDocument(s).Some?
    ensures Printable(ParseDocument(s).value, MAX_JSON_DEPTH)
    ensures ParseDocument(Print(ParseDocument(s).value)) == ParseDocument(s)
  {
    hide ParseValue, Printable;
    ParsedIsPrintable(SkipWhitespace(s), 0);
    ParsePrint(ParseDocument(s).value);
  }
}
