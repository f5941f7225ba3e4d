/**
  JSON texts by the grammar of RFC 8259, apart from any parser: a text is
  spelled out by a tree that keeps its whitespace and its escapes, and the
  parser accepts exactly the texts of trees, with exactly their meaning.
 */
module JsonGrammar {
  import opened Decimals
  import opened Wrappers
  import opened Json
  import opened JsonRoundTrip

  // ---------------------------------------------------------------------------
  // Trees
  // ---------------------------------------------------------------------------

  /** A character of a string and how it is written. */
  datatype Spelling = Spelling(raw: string, c: char)
  {
    /** Section 7: as itself, by a letter, or by UTF-16 units in hexadecimal of either case. */
    predicate Valid() {
      || (raw == [c] && c >= ' ' && c != '"' && c != '\\')
      || (|raw| == 2 && raw[0] == '\\' && Stands(raw[1], c))
      || (|raw| == 6 && IsUnit(raw) && UnitOf(raw) == c as int)
      || (|raw| == 12 && IsUnit(raw[..6]) && IsUnit(raw[6..])
          && 0xd800 <= UnitOf(raw[..6]) < 0xdc00 <= UnitOf(raw[6..]) < 0xe000
          && c as int == 0x1_0000 + (UnitOf(raw[..6]) - 0xd800) * 0x400 + (UnitOf(raw[6..]) - 0xdc00))
    }
  }

  /** What the letter of a two-character escape stands for. */
  predicate Stands(letter: char, c: char) {
    || (letter == '"' && c as int == 0x22)
    || (letter == '\\' && c as int == 0x5c)
    || (letter == '/' && c as int == 0x2f)
    || (letter == 'b' && c as int == 0x08)
    || (letter == 'f' && c as int == 0x0c)
    || (letter == 'n' && c as int == 0x0a)
    || (letter == 'r' && c as int == 0x0d)
    || (letter == 't' && c as int == 0x09)
  }

  const LOWER: string := "0123456789abcdef"
  const UPPER: string := "0123456789ABCDEF"

  predicate IsUnit(raw: string) {
    && |raw| == 6 && raw[0] == '\\' && raw[1] == 'u'
    && forall i | 2 <= i < 6 :: raw[i] in LOWER || raw[i] in UPPER
  }

  /** The place of a hexadecimal digit among the sixteen. */
  function Nth(digits: string, c: char): (n: nat)
    requires c in digits
    ensures n < |digits| && digits[n] == c
  {
    if digits[0] == c then 0 else 1 + Nth(digits[1..], c)
  }

  function Digit(c: char): (n: nat)
    requires c in LOWER || c in UPPER
    ensures n < 16
  {
    if c in LOWER then Nth(LOWER, c) else Nth(UPPER, c)
  }

  function UnitOf(raw: string): nat
    requires IsUnit(raw)
  {
    ((Digit(raw[2]) * 16 + Digit(raw[3])) * 16 + Digit(raw[4])) * 16 + Digit(raw[5])
  }

  predicate IsSpace(s: string) { forall c <- s :: c as int in {0x20, 0x09, 0x0a, 0x0d} }

  datatype Tree =
    | Word(v: Value)
    | Numeral(parts: NumberParts)
    | Quoted(chars: seq<Spelling>)
    | NoItems(space: string)
    | Items(items: seq<Node>)
    | NoMembers(space: string)
    | Members(members: seq<Member>)

  /** A value and the whitespace around it. */
  datatype Node = Node(before: string, tree: Tree, after: string)

  datatype Member = Member(before: string, key: seq<Spelling>, gap: string, node: Node)

  ghost predicate Valid(t: Tree)
    decreases t, 0
  {
    match t
    case Word(v) => v.Null? || v.Bool?
    case Numeral(parts) => parts.Valid()
    case Quoted(chars) => forall i | 0 <= i < |chars| :: chars[i].Valid()
    case NoItems(space) => IsSpace(space)
    case Items(items) => items != [] && forall i | 0 <= i < |items| :: ValidNode(items[i])
    case NoMembers(space) => IsSpace(space)
    case Members(members) => members != [] && forall i | 0 <= i < |members| :: ValidMember(members[i])
  }

  ghost predicate ValidNode(n: Node)
    decreases n, 1
  {
    IsSpace(n.before) && Valid(n.tree) && IsSpace(n.after)
  }

  ghost predicate ValidMember(m: Member)
    decreases m, 2
  {
    && IsSpace(m.before) && (forall i | 0 <= i < |m.key| :: m.key[i].Valid())
    && IsSpace(m.gap) && ValidNode(m.node)
  }

  /** At most `room` levels of items and members below this one. */
  ghost predicate Fits(t: Tree, room: nat)
    decreases t
  {
    match t
    case Items(items) => room > 0 && forall i | 0 <= i < |items| :: Fits(items[i].tree, room - 1)
    case Members(members) => room > 0 && forall i | 0 <= i < |members| :: Fits(members[i].node.tree, room - 1)
    case _ => true
  }

  // ---------------------------------------------------------------------------
  // The text of a tree
  // ---------------------------------------------------------------------------

  function Raw(chars: seq<Spelling>): string {
    if chars == [] then "" else chars[0].raw + Raw(chars[1..])
  }

  function Text(t: Tree): string
    decreases t, 0
  {
    match t
    case Word(v) => if v == Null then "null" else if v == Bool(true) then "true" else "false"
    case Numeral(parts) => parts.Text()
    case Quoted(chars) => "\"" + Raw(chars) + "\""
    case NoItems(space) => "[" + space + "]"
    case Items(items) => "[" + ItemsText(items) + "]"
    case NoMembers(space) => "{" + space + "}"
    case Members(members) => "{" + MembersText(members) + "}"
  }

  function NodeText(n: Node): string
    decreases n, 0
  {
    n.before + Text(n.tree) + n.after
  }

  function ItemsText(items: seq<Node>): string
    decreases items, 0
  {
    if items == [] then ""
    else NodeText(items[0]) + (if |items| == 1 then "" else "," + ItemsText(items[1..]))
  }

  function MemberText(m: Member): string
    decreases m, 0
  {
    m.before + "\"" + Raw(m.key) + "\"" + m.gap + ":" + NodeText(m.node)
  }

  function MembersText(members: seq<Member>): string
    decreases members, 0
  {
    if members == [] then ""
    else MemberText(members[0]) + (if |members| == 1 then "" else "," + MembersText(members[1..]))
  }

  // ---------------------------------------------------------------------------
  // The meaning of a tree
  // ---------------------------------------------------------------------------

  function Letters(chars: seq<Spelling>): string {
    seq(|chars|, i requires 0 <= i < |chars| => chars[i].c)
  }

  /** The value, unless a key repeats in some object. */
  function Meaning(t: Tree): Option<Value>
    decreases t, 0
  {
    match t
    case Word(v) => Some(v)
    case Numeral(parts) => Some(Number(parts.Text()))
    case Quoted(chars) => Some(String(Letters(chars)))
    case NoItems(_) => Some(Array([]))
    case Items(items) =>
      (match ItemsMeaning(items)
       case None => None
       case Some(values) => Some(Array(values)))
    case NoMembers(_) => Some(Object([]))
    case Members(members) =>
      (match MembersMeaning(members, [])
       case None => None
       case Some(entries) => Some(Object(entries)))
  }

  function ItemsMeaning(items: seq<Node>): Option<seq<Value>>
    decreases items, 0
  {
    if items == [] then Some([])
    else
      match Meaning(items[0].tree)
      case None => None
      case Some(first) =>
        match ItemsMeaning(items[1..])
        case None => None
        case Some(rest) => Some([first] + rest)
  }

  function MembersMeaning(members: seq<Member>, sofar: seq<Entry>): Option<seq<Entry>>
    decreases members, 0
  {
    if members == [] then Some(sofar)
    else
      match Meaning(members[0].node.tree)
      case None => None
      case Some(v) =>
        match Insert(sofar, Entry(Letters(members[0].key), v))
        case None => None
        case Some(next) => MembersMeaning(members[1..], next)
  }

  // ---------------------------------------------------------------------------
  // Strings
  // ---------------------------------------------------------------------------

  lemma PlaceOfDigit(n: nat)
    requires n < 16
    ensures IsHex(LOWER[n]) && HexValue(LOWER[n]) == n
    ensures IsHex(UPPER[n]) && HexValue(UPPER[n]) == n
  {
  }

  lemma WrittenDigit(c: char)
    requires c in LOWER || c in UPPER
    ensures IsHex(c) && HexValue(c) == Digit(c)
  {
    hide LOWER, UPPER, IsHex, HexValue;
    PlaceOfDigit(Digit(c));
  }

  lemma DigitWritten(c: char)
    requires IsHex(c)
    ensures c in LOWER || c in UPPER
  {
    if c <= '9' {
      assert LOWER[c as int - 0x30] == c;
    } else if c >= 'a' {
      assert LOWER[c as int - 0x57] == c;
    } else {
      assert UPPER[c as int - 0x37] == c;
    }
  }

  /** The digits are the hexadecimal ones, each with its value. */
  lemma DigitIsHex(c: char)
    ensures IsHex(c) <==> c in LOWER || c in UPPER
    ensures IsHex(c) ==> HexValue(c) == Digit(c)
  {
    hide LOWER, UPPER, HexValue, Digit;
    if c in LOWER || c in UPPER {
      WrittenDigit(c);
    }
    if IsHex(c) {
      DigitWritten(c);
    }
  }

  lemma UnitRead(raw: string, tail: string)
    requires |raw| == 6 && raw[0] == '\\' && raw[1] == 'u'
    ensures ParseHexQuad(raw[2..] + tail) == if IsUnit(raw) then Some(UnitOf(raw)) else None
  {
    hide IsHex, HexValue, Digit, LOWER, UPPER;
    DigitIsHex(raw[2]);
    DigitIsHex(raw[3]);
    DigitIsHex(raw[4]);
    DigitIsHex(raw[5]);
  }

  lemma LetterRead(letter: char, c: char, tail: string)
    ensures letter != 'u' ==> (ParseEscape([letter] + tail) == Parsed(c, tail) <==> Stands(letter, c))
  {
    assert ([letter] + tail)[1..] == tail;
  }

  /** One character, however it is written. */
  lemma SpellingRead(sp: Spelling, tail: string)
    requires sp.Valid()
    ensures ParseChars(sp.raw + tail) == Prepend(sp.c, ParseChars(tail))
  {
    hide ParseChars, ParseEscape, Prepend, Stands, IsUnit, UnitOf;
    var raw := sp.raw;
    if |raw| == 1 {
      PlainParses(sp.c, tail);
    } else if |raw| == 2 {
      assert raw[1] != 'u' by {
        NoLetterU(sp.c);
      }
      LetterRead(raw[1], sp.c, tail);
      EscapeParses([raw[1]], sp.c, tail);
      assert raw == "\\" + [raw[1]];
    } else if |raw| == 6 {
      OneUnitRead(sp, tail);
    } else {
      TwoUnitsRead(sp, tail);
    }
  }

  lemma NoLetterU(c: char)
    ensures !Stands('u', c)
  {
  }

  lemma UnitStarts(raw: string)
    requires IsUnit(raw)
    ensures |raw| == 6 && raw == "\\" + "u" + raw[2..]
  {
  }

  lemma OneUnitRead(sp: Spelling, tail: string)
    requires IsUnit(sp.raw) && UnitOf(sp.raw) == sp.c as int
    ensures ParseChars(sp.raw + tail) == Prepend(sp.c, ParseChars(tail))
  {
    hide ParseChars, ParseEscape, Prepend, ParseHexQuad, UnitOf, IsUnit;
    UnitStarts(sp.raw);
    var quad := sp.raw[2..];
    UnitRead(sp.raw, tail);
    assert (quad + tail)[4..] == tail;
    EscapedUnit(quad, sp.c, tail);
    EscapeParses("u" + quad, sp.c, tail);
    assert sp.raw == "\\" + ("u" + quad);
  }

  lemma TwoUnitsRead(sp: Spelling, tail: string)
    requires |sp.raw| == 12 && sp.Valid()
    ensures ParseChars(sp.raw + tail) == Prepend(sp.c, ParseChars(tail))
  {
    hide ParseChars, ParseEscape, Prepend, ParseHexQuad, UnitOf, IsUnit;
    var high, low := sp.raw[..6], sp.raw[6..];
    UnitStarts(high);
    UnitStarts(low);
    PairRead(high[2..], low[2..], high, low, sp.c, tail);
    EscapedUnit(high[2..] + ("\\u" + low[2..]), sp.c, tail);
    EscapeParses("u" + (high[2..] + ("\\u" + low[2..])), sp.c, tail);
    assert sp.raw == "\\" + ("u" + (high[2..] + ("\\u" + low[2..])));
  }

  lemma PairRead(first: string, second: string, high: string, low: string, c: char, tail: string)
    requires IsUnit(high) && IsUnit(low) && first == high[2..] && second == low[2..]
    requires 0xd800 <= UnitOf(high) < 0xdc00 <= UnitOf(low) < 0xe000
    requires c as int == 0x1_0000 + (UnitOf(high) - 0xd800) * 0x400 + (UnitOf(low) - 0xdc00)
    ensures ParseUnicodeEscape(first + ("\\u" + second) + tail) == Parsed(c, tail)
  {
    hide ParseHexQuad, UnitOf, IsUnit;
    UnitStarts(high);
    UnitStarts(low);
    UnitRead(high, "\\u" + (second + tail));
    UnitRead(low, tail);
    PairSplits(first, second, tail);
  }

  lemma PairSplits(first: string, second: string, tail: string)
    requires |first| == 4 && |second| == 4
    ensures var s, after := first + ("\\u" + second) + tail, "\\u" + (second + tail);
            && s == first + after && s[4..] == after
            && "\\u" <= after && after[2..] == second + tail && (second + tail)[4..] == tail
  {
  }

  /** Every spelling of a text is read as that text. */
  lemma {:induction false} SpelledIsRead(chars: seq<Spelling>, rest: string)
    requires forall i | 0 <= i < |chars| :: chars[i].Valid()
    ensures ParseChars(Raw(chars) + "\"" + rest) == Parsed(Letters(chars), rest)
  {
    hide ParseChars, Spelling.Valid;
    if chars == [] {
      NothingRead(rest);
      assert Raw(chars) + "\"" + rest == "\"" + rest;
    } else {
      var tail := Raw(chars[1..]) + "\"" + rest;
      SpelledIsRead(chars[1..], rest);
      SpellingRead(chars[0], tail);
      Regroup4(chars[0].raw, Raw(chars[1..]), "\"", rest);
      assert [chars[0].c] + Letters(chars[1..]) == Letters(chars);
    }
  }

  lemma Regroup4(a: string, b: string, c: string, d: string)
    ensures a + b + c + d == a + (b + c + d)
  {
  }

  lemma NothingRead(rest: string)
    ensures ParseChars("\"" + rest) == Parsed("", rest)
  {
    assert ("\"" + rest)[1..] == rest;
  }

  /** How an escape that was read is spelled. */
  lemma EscapeSpelled(s: string) returns (sp: Spelling)
    requires ParseEscape(s).Parsed?
    ensures sp.Valid() && sp.c == ParseEscape(s).value && "\\" + s == sp.raw + ParseEscape(s).rest
  {
    hide ParseUnicodeEscape, IsUnit, UnitOf;
    if s[0] == 'u' {
      sp := UnicodeSpelled(s[1..]);
      assert "\\" + s == "\\u" + s[1..];
    } else {
      var c := ParseEscape(s).value;
      LetterRead(s[0], c, s[1..]);
      assert s == [s[0]] + s[1..];
      sp := Spelling("\\" + [s[0]], c);
    }
  }

  lemma QuadIsUnit(s: string)
    requires ParseHexQuad(s).Some?
    ensures |s| >= 4 && IsUnit("\\u" + s[..4]) && UnitOf("\\u" + s[..4]) == ParseHexQuad(s).value
  {
    hide ParseHexQuad, UnitOf;
    HasQuad(s);
    var raw := "\\u" + s[..4];
    assert raw[2..] + s[4..] == s;
    UnitRead(raw, s[4..]);
  }

  lemma HasQuad(s: string)
    requires ParseHexQuad(s).Some?
    ensures |s| >= 4
  {
  }

  lemma UnicodeSpelled(s: string) returns (sp: Spelling)
    requires ParseUnicodeEscape(s).Parsed?
    ensures sp.Valid() && sp.c == ParseUnicodeEscape(s).value && "\\u" + s == sp.raw + ParseUnicodeEscape(s).rest
  {
    hide ParseHexQuad, IsUnit, UnitOf;
    var r := ParseUnicodeEscape(s);
    QuadIsUnit(s);
    var high := "\\u" + s[..4];
    if 0xd800 <= ParseHexQuad(s).value <= 0xdbff {
      var low := Expect(s[4..], "\\u").value;
      QuadIsUnit(low);
      assert s[4..] == "\\u" + low;
      var second := "\\u" + low[..4];
      sp := Spelling(high + second, r.value);
      assert sp.raw[..6] == high && sp.raw[6..] == second;
      assert "\\u" + s == sp.raw + r.rest;
    } else {
      sp := Spelling(high, r.value);
      assert "\\u" + s == high + s[4..];
    }
  }

  /** Whatever string is read was spelled out. */
  lemma {:induction false} ReadIsSpelled(s: string) returns (chars: seq<Spelling>)
    requires ParseChars(s).Parsed?
    ensures forall i | 0 <= i < |chars| :: chars[i].Valid()
    ensures s == Raw(chars) + "\"" + ParseChars(s).rest && Letters(chars) == ParseChars(s).value
    decreases |s|
  {
    hide ParseEscape, Spelling.Valid;
    if s[0] == '"' {
      chars := [];
      assert s == "" + "\"" + s[1..];
    } else {
      var first: Spelling;
      var tail: string;
      if s[0] == '\\' {
        first := EscapeSpelled(s[1..]);
        tail := ParseEscape(s[1..]).rest;
        assert s == "\\" + s[1..];
      } else {
        first, tail := Spelling([s[0]], s[0]), s[1..];
        PlainIsValid(s[0]);
      }
      var more := ReadIsSpelled(tail);
      chars := [first] + more;
      assert chars[1..] == more;
      Regroup4(first.raw, Raw(more), "\"", ParseChars(s).rest);
      assert Letters(chars) == [first.c] + Letters(more);
    }
  }

  lemma PlainIsValid(c: char)
    requires c != '"' && c != '\\' && c >= ' '
    ensures Spelling([c], c).Valid()
  {
  }

  // ---------------------------------------------------------------------------
  // Every tree is read
  // ---------------------------------------------------------------------------

  lemma SpaceIsWhitespace(c: char)
    ensures c as int in {0x20, 0x09, 0x0a, 0x0d} <==> IsWhitespace(c)
  {
  }

  lemma {:induction false} SpacesSkipped(space: string, s: string)
    requires IsSpace(space)
    ensures SkipWhitespace(space + s) == SkipWhitespace(s)
  {
    if space == "" {
      assert space + s == s;
    } else {
      assert space[0] in space;
      SpaceIsWhitespace(space[0]);
      assert (space + s)[1..] == space[1..] + s;
      assert forall c <- space[1..] :: c in space;
      SpacesSkipped(space[1..], s);
    }
  }

  lemma FirstOfTree(t: Tree)
    requires Valid(t)
    ensures Text(t) != "" && !IsWhitespace(Text(t)[0]) && Text(t)[0] != ']' && Text(t)[0] != '}'
  {
    if t.Numeral? {
      assert IsDigit(t.parts.integer[0]);
    }
  }

  /** Whitespace, then what is not, up to a tail. */
  lemma AfterSpaces(space: string, t: Tree, tail: string)
    requires IsSpace(space) && Valid(t)
    ensures SkipWhitespace(space + (Text(t) + tail)) == Text(t) + tail
  {
    hide Text;
    FirstOfTree(t);
    SpacesSkipped(space, Text(t) + tail);
    SkipNothing(Text(t) + tail);
  }

  lemma FollowsSpaces(space: string, tail: string)
    requires IsSpace(space) && Follows(tail)
    ensures Follows(space + tail)
  {
    if space != "" {
      assert space[0] in space;
      SpaceIsWhitespace(space[0]);
    } else {
      assert space + tail == tail;
    }
  }

  /** Whatever follows it, the text of a tree is read as its meaning and exactly it is consumed. */
  lemma {:induction false} TreeRead(t: Tree, rest: string, depth: nat)
    requires Valid(t) && depth <= MAX_JSON_DEPTH && Fits(t, MAX_JSON_DEPTH - depth) && Follows(rest)
    ensures ParseValue(Text(t) + rest, depth) == Outcome(Meaning(t), rest)
    decreases t, 0
  {
    hide ParseValue, ItemsMeaning, MembersMeaning, Fits, Text, Letters;
    match t
    case Word(v) => WordRead(v, rest, depth);
    case Numeral(parts) => NumeralRead(parts, rest, depth);
    case Quoted(chars) => QuotedRead(chars, rest, depth);
    case NoItems(space) => NothingInside(t, space, rest, depth);
    case NoMembers(space) => NothingInside(t, space, rest, depth);
    case Items(items) => ArrayRead(items, rest, depth);
    case Members(members) => ObjectRead(members, rest, depth);
  }

  lemma WordRead(v: Value, rest: string, depth: nat)
    requires (v.Null? || v.Bool?) && depth <= MAX_JSON_DEPTH
    ensures ParseValue(Text(Word(v)) + rest, depth) == Parsed(v, rest)
  {
    LiteralParses(Text(Word(v)), v, rest);
  }

  lemma QuotedRead(chars: seq<Spelling>, rest: string, depth: nat)
    requires Valid(Quoted(chars)) && depth <= MAX_JSON_DEPTH
    ensures ParseValue(Text(Quoted(chars)) + rest, depth) == Parsed(String(Letters(chars)), rest)
  {
    hide ParseChars, Raw, Letters;
    SpelledIsRead(chars, rest);
    JsonRoundTrip.QuotedText(Raw(chars), rest);
  }

  lemma NumeralRead(parts: NumberParts, rest: string, depth: nat)
    requires parts.Valid() && Follows(rest) && depth <= MAX_JSON_DEPTH
    ensures ParseValue(Text(Numeral(parts)) + rest, depth) == Parsed(Number(parts.Text()), rest)
  {
    hide ParseNumber;
    NumberRoundTrip(parts, rest);
    assert IsDigit(parts.integer[0]);
  }

  lemma NothingInside(t: Tree, space: string, rest: string, depth: nat)
    requires (t == NoItems(space) || t == NoMembers(space)) && IsSpace(space) && depth <= MAX_JSON_DEPTH
    ensures ParseValue(Text(t) + rest, depth) == Outcome(Meaning(t), rest)
  {
    hide ParseItems, ParseEntries;
    var s, close := Text(t) + rest, if t.NoItems? then "]" else "}";
    assert s[1..] == space + (close + rest);
    SpacesSkipped(space, close + rest);
    SkipNothing(close + rest);
    assert (close + rest)[1..] == rest;
  }

  /** The text of the first item, then what comes behind it. */
  lemma FirstItem(items: seq<Node>, rest: string, tail: string)
    requires items != []
    requires tail == if |items| == 1 then "]" + rest else "," + (ItemsText(items[1..]) + "]" + rest)
    ensures ItemsText(items) + "]" + rest == items[0].before + (Text(items[0].tree) + (items[0].after + tail))
  {
    hide Text, ItemsText;
    var n := items[0];
    ItemsSplit(items);
    if |items| == 1 {
      OnlyNode(n.before, Text(n.tree), n.after, rest);
    } else {
      FirstNode(n.before, Text(n.tree), n.after, ItemsText(items[1..]), rest);
    }
  }

  lemma ItemsSplit(items: seq<Node>)
    requires items != []
    ensures ItemsText(items)
         == items[0].before + Text(items[0].tree) + items[0].after
            + if |items| == 1 then "" else "," + ItemsText(items[1..])
  {
    hide Text;
  }

  lemma OnlyNode(space: string, text: string, after: string, rest: string)
    ensures space + text + after + "" + "]" + rest == space + (text + (after + ("]" + rest)))
  {
  }

  lemma FirstNode(space: string, text: string, after: string, more: string, rest: string)
    ensures space + text + after + ("," + more) + "]" + rest
         == space + (text + (after + ("," + (more + "]" + rest))))
  {
  }

  lemma {:induction false} ArrayRead(items: seq<Node>, rest: string, depth: nat)
    requires Valid(Items(items)) && depth <= MAX_JSON_DEPTH && Fits(Items(items), MAX_JSON_DEPTH - depth)
    ensures ParseValue(Text(Items(items)) + rest, depth) == Outcome(Meaning(Items(items)), rest)
    decreases items, 3
  {
    hide ParseChars, ParseNumber, ParseItems, ParseObject, ItemsText, ItemsMeaning, MembersMeaning;
    var inner := ItemsText(items) + "]" + rest;
    assert (Text(Items(items)) + rest)[1..] == inner;
    var tail := if |items| == 1 then "]" + rest else "," + (ItemsText(items[1..]) + "]" + rest);
    var n := items[0];
    assert ValidNode(n);
    FirstItem(items, rest, tail);
    AfterSpaces(n.before, n.tree, n.after + tail);
    FirstOfTree(n.tree);
    ItemsRead(items, rest, depth + 1);
  }

  lemma {:induction false} ItemsRead(items: seq<Node>, rest: string, depth: nat)
    requires items != [] && depth <= MAX_JSON_DEPTH
    requires forall i | 0 <= i < |items| :: ValidNode(items[i]) && Fits(items[i].tree, MAX_JSON_DEPTH - depth)
    ensures ParseItems(SkipWhitespace(ItemsText(items) + "]" + rest), depth) == Outcome(ItemsMeaning(items), rest)
    decreases items, 2
  {
    hide ParseValue, ParseItems, ItemsText, Text, Meaning, Fits, ItemsMeaning, SkipWhitespace, Valid, IsSpace;
    var tail := if |items| == 1 then "]" + rest else "," + (ItemsText(items[1..]) + "]" + rest);
    var n := items[0];
    FirstItem(items, rest, tail);
    AfterSpaces(n.before, n.tree, n.after + tail);
    FollowsSpaces(n.after, tail);
    TreeRead(n.tree, n.after + tail, depth);
    SpacesSkipped(n.after, tail);
    SkipNothing(tail);
    ItemRead(Text(n.tree) + (n.after + tail), tail, depth);
    if |items| == 1 {
      assert tail[1..] == rest;
      LastItem(items);
    } else {
      assert tail[1..] == ItemsText(items[1..]) + "]" + rest;
      ItemsRead(items[1..], rest, depth);
      NextItem(items);
    }
  }

  lemma NextItem(items: seq<Node>)
    requires items != []
    ensures ItemsMeaning(items)
         == match Meaning(items[0].tree)
            case None => None
            case Some(v) =>
              match ItemsMeaning(items[1..])
              case None => None
              case Some(more) => Some([v] + more)
  {
    hide Meaning;
  }

  lemma LastItem(items: seq<Node>)
    requires |items| == 1
    ensures ItemsMeaning(items) == match Meaning(items[0].tree) case None => None case Some(v) => Some([v])
  {
    hide Meaning;
    assert ItemsMeaning(items[1..]) == Some([]);
    assert Meaning(items[0].tree).Some? ==> [Meaning(items[0].tree).value] + [] == [Meaning(items[0].tree).value];
  }

  lemma FirstMember(members: seq<Member>, rest: string, tail: string)
    requires members != []
    requires tail == if |members| == 1 then "}" + rest else "," + (MembersText(members[1..]) + "}" + rest)
    ensures MembersText(members) + "}" + rest == members[0].before + (MemberText(members[0].(before := "")) + tail)
  {
    hide MemberText, MembersText;
    var m := members[0];
    MembersSplit(members);
    if |members| == 1 {
      OnlyOne(m.before, MemberText(m.(before := "")), rest);
    } else {
      FirstOfMore(m.before, MemberText(m.(before := "")), MembersText(members[1..]), rest);
    }
  }

  lemma MembersSplit(members: seq<Member>)
    requires members != []
    ensures MembersText(members)
         == members[0].before + MemberText(members[0].(before := ""))
            + if |members| == 1 then "" else "," + MembersText(members[1..])
  {
    hide MemberText;
    var m := members[0];
    Indented(m.before, m.(before := ""));
    assert m.before + "" == m.before;
  }

  lemma OnlyOne(space: string, text: string, rest: string)
    ensures space + text + "" + "}" + rest == space + (text + ("}" + rest))
  {
  }

  lemma FirstOfMore(space: string, text: string, more: string, rest: string)
    ensures space + text + ("," + more) + "}" + rest == space + (text + ("," + (more + "}" + rest)))
  {
  }

  lemma Indented(space: string, m: Member)
    ensures MemberText(m.(before := space + m.before)) == space + MemberText(m)
  {
    hide NodeText, Raw;
  }

  lemma QuoteFirst(m: Member, tail: string)
    ensures var s := MemberText(m.(before := "")) + tail;
            && s != "" && s[0] == '"'
            && s[1..]
                  == Raw(m.key) + "\"" + (m.gap + (":" + (m.node.before + (Text(m.node.tree) + (m.node.after + tail)))))
  {
    hide Raw, Text;
  }

  lemma {:induction false} ObjectRead(members: seq<Member>, rest: string, depth: nat)
    requires Valid(Members(members)) && depth <= MAX_JSON_DEPTH && Fits(Members(members), MAX_JSON_DEPTH - depth)
    ensures ParseValue(Text(Members(members)) + rest, depth) == Outcome(Meaning(Members(members)), rest)
    decreases members, 3
  {
    hide ParseChars, ParseNumber, ParseEntries, ParseArray, MembersText, MembersMeaning, ItemsMeaning, MemberText;
    var inner := MembersText(members) + "}" + rest;
    assert (Text(Members(members)) + rest)[1..] == inner;
    var tail := if |members| == 1 then "}" + rest else "," + (MembersText(members[1..]) + "}" + rest);
    FirstMember(members, rest, tail);
    BeforeMember(members[0], tail);
    assert ValidMember(members[0]);
    MembersRead(members, rest, depth + 1, []);
  }

  lemma BeforeMember(m: Member, tail: string)
    requires ValidMember(m)
    ensures var s := MemberText(m.(before := "")) + tail;
            SkipWhitespace(m.before + s) == s && s != "" && s[0] == '"'
  {
    hide MemberText;
    var s := MemberText(m.(before := "")) + tail;
    QuoteFirst(m, tail);
    SpacesSkipped(m.before, s);
    SkipNothing(s);
  }

  lemma {:induction false} MemberRead(m: Member, tail: string, depth: nat)
    requires ValidMember(m) && depth <= MAX_JSON_DEPTH && Fits(m.node.tree, MAX_JSON_DEPTH - depth) && Follows(tail)
    ensures ParseEntry(MemberText(m.(before := "")) + tail, depth)
         == match Meaning(m.node.tree)
            case None => Failed
            case Some(v) => Parsed(Entry(Letters(m.key), v), m.node.after + tail)
    decreases m, 1
  {
    hide ParseValue, ParseChars, Meaning, Text, Raw, Fits, MemberText, Letters;
    var n := m.node;
    var afterColon := n.before + (Text(n.tree) + (n.after + tail));
    var colon := ":" + afterColon;
    QuoteFirst(m, tail);
    SpelledIsRead(m.key, m.gap + colon);
    SpacesSkipped(m.gap, colon);
    SkipNothing(colon);
    assert colon[1..] == afterColon;
    AfterSpaces(n.before, n.tree, n.after + tail);
    FollowsSpaces(n.after, tail);
    TreeRead(n.tree, n.after + tail, depth);
  }

  lemma {:induction false} MembersRead(members: seq<Member>, rest: string, depth: nat, sofar: seq<Entry>)
    requires members != [] && depth <= MAX_JSON_DEPTH
    requires forall i | 0 <= i < |members| ::
               ValidMember(members[i]) && Fits(members[i].node.tree, MAX_JSON_DEPTH - depth)
    ensures ParseEntries(SkipWhitespace(MembersText(members) + "}" + rest), depth, sofar)
         == Outcome(MembersMeaning(members, sofar), rest)
    decreases members, 2
  {
    hide ParseEntry, Insert, MembersText, MemberText, Meaning, Fits, ParseEntries, Letters;
    var tail := if |members| == 1 then "}" + rest else "," + (MembersText(members[1..]) + "}" + rest);
    var m := members[0];
    FirstMember(members, rest, tail);
    BeforeMember(m, tail);
    MemberRead(m, tail, depth);
    AfterMember(m);
    SpacesSkipped(m.node.after, tail);
    SkipNothing(tail);
    EntryRead(MemberText(m.(before := "")) + tail, tail, depth, sofar);
    if |members| == 1 {
      assert tail[1..] == rest;
      LastMember(members, sofar);
    } else {
      assert tail[1..] == MembersText(members[1..]) + "}" + rest;
      if Meaning(m.node.tree).Some? {
        var next := Insert(sofar, Entry(Letters(m.key), Meaning(m.node.tree).value));
        if next.Some? {
          MembersRead(members[1..], rest, depth, next.value);
        }
      }
    }
  }

  lemma AfterMember(m: Member)
    requires ValidMember(m)
    ensures IsSpace(m.node.after)
  {
  }

  lemma LastMember(members: seq<Member>, sofar: seq<Entry>)
    requires |members| == 1
    ensures MembersMeaning(members, sofar)
         == match Meaning(members[0].node.tree)
            case None => None
            case Some(v) => Insert(sofar, Entry(Letters(members[0].key), v))
  {
    hide Meaning, Insert, Letters;
    assert forall next :: MembersMeaning(members[1..], next) == Some(next);
  }

  // ---------------------------------------------------------------------------
  // Whatever is read is the text of a tree
  // ---------------------------------------------------------------------------

  lemma {:induction false} SkippedIsSpace(s: string) returns (space: string)
    ensures IsSpace(space) && s == space + SkipWhitespace(s)
  {
    if s != "" && IsWhitespace(s[0]) {
      var more := SkippedIsSpace(s[1..]);
      SpaceIsWhitespace(s[0]);
      space := [s[0]] + more;
      assert s == [s[0]] + s[1..];
    } else {
      space := "";
    }
  }

  lemma {:induction false} TreeOf(s: string, depth: nat) returns (t: Tree)
    requires ParseValue(s, depth).Parsed?
    ensures depth <= MAX_JSON_DEPTH && Valid(t) && Fits(t, MAX_JSON_DEPTH - depth)
    ensures s == Text(t) + ParseValue(s, depth).rest && Meaning(t) == Some(ParseValue(s, depth).value)
    decreases |s|, 2
  {
    hide ParseChars, ParseNumber, ParseArray, ParseObject, Text, Valid, Fits, Meaning;
    if s[0] == '"' {
      t := QuotedOf(s);
      FitsAnywhere(t, MAX_JSON_DEPTH - depth);
    } else if s[0] == '[' {
      t := ArrayOf(s, depth);
    } else if s[0] == '{' {
      t := ObjectOf(s, depth);
    } else if s[0] == '-' || IsDigit(s[0]) {
      t := NumeralOf(s);
      FitsAnywhere(t, MAX_JSON_DEPTH - depth);
    } else {
      t := Word(ParseValue(s, depth).value);
      WordText(s, depth);
      FitsAnywhere(t, MAX_JSON_DEPTH - depth);
    }
  }

  lemma FitsAnywhere(t: Tree, room: nat)
    requires !t.Items? && !t.Members?
    ensures Fits(t, room)
  {
  }

  lemma WordText(s: string, depth: nat)
    requires ParseValue(s, depth).Parsed? && s[0] != '"' && s[0] != '[' && s[0] != '{' && s[0] != '-' && !IsDigit(s[0])
    ensures var r := ParseValue(s, depth);
            Valid(Word(r.value)) && s == Text(Word(r.value)) + r.rest && Meaning(Word(r.value)) == Some(r.value)
  {
  }

  lemma QuotedOf(s: string) returns (t: Tree)
    requires s != "" && s[0] == '"' && ParseChars(s[1..]).Parsed?
    ensures t.Quoted? && Valid(t) && s == Text(t) + ParseChars(s[1..]).rest
    ensures Meaning(t) == Some(String(ParseChars(s[1..]).value))
  {
    hide ParseChars, Raw;
    var chars := ReadIsSpelled(s[1..]);
    t := Quoted(chars);
    assert s == "\"" + s[1..];
  }

  lemma NumeralOf(s: string) returns (t: Tree)
    requires ParseNumber(s).Parsed?
    ensures t.Numeral? && Valid(t) && s == Text(t) + ParseNumber(s).rest
    ensures Meaning(t) == Some(Number(ParseNumber(s).value))
  {
    hide NumberEnd;
    ParsedNumberIsNumber(s);
    var parts: NumberParts :| parts.Valid() && parts.Text() == s[..NumberEnd(s).value];
    t := Numeral(parts);
  }

  lemma {:induction false} ArrayOf(s: string, depth: nat) returns (t: Tree)
    requires s != "" && s[0] == '[' && depth <= MAX_JSON_DEPTH && ParseArray(SkipWhitespace(s[1..]), depth + 1).Parsed?
    ensures var r := ParseArray(SkipWhitespace(s[1..]), depth + 1);
            Valid(t) && Fits(t, MAX_JSON_DEPTH - depth) && s == Text(t) + r.rest && Meaning(t) == Some(r.value)
    decreases |s|, 1
  {
    hide ParseItems, ItemsText, ItemsMeaning, Text, Valid, Fits, SkipWhitespace;
    var space := SkippedIsSpace(s[1..]);
    var inner := SkipWhitespace(s[1..]);
    assert s == "[" + s[1..];
    if inner != "" && inner[0] == ']' {
      t := NothingSpelled("[", space, inner);
      FitsAnywhere(t, MAX_JSON_DEPTH - depth);
    } else {
      var items := ItemsOf(inner, depth + 1);
      t := WrappedItems(space, items, ParseItems(inner, depth + 1).rest, MAX_JSON_DEPTH - depth);
    }
  }

  lemma NothingSpelled(open: string, space: string, inner: string) returns (t: Tree)
    requires IsSpace(space) && inner != ""
    requires (open == "[" && inner[0] == ']') || (open == "{" && inner[0] == '}')
    ensures Valid(t) && Meaning(t) == Some(if open == "[" then Array([]) else Object([]))
    ensures !t.Items? && !t.Members? && open + (space + inner) == Text(t) + inner[1..]
  {
    t := if open == "[" then NoItems(space) else NoMembers(space);
    assert inner == [inner[0]] + inner[1..];
  }

  lemma WrappedItems(space: string, items: seq<Node>, rest: string, room: nat) returns (t: Tree)
    requires items != [] && IsSpace(space) && room > 0
    requires forall i | 0 <= i < |items| :: ValidNode(items[i]) && Fits(items[i].tree, room - 1)
    ensures t.Items? && Valid(t) && Fits(t, room)
    ensures "[" + (space + (ItemsText(items) + "]" + rest)) == Text(t) + rest
    ensures ItemsMeaning(t.items) == ItemsMeaning(items)
  {
    hide ItemsText, ItemsMeaning, Text, Valid, ValidNode, Fits;
    t := Items([items[0].(before := space + items[0].before)] + items[1..]);
    SpacedItems(space, items);
    assert forall i | 0 <= i < |items| :: t.items[i].tree == items[i].tree;
    ItemsHold(t.items, room);
    ItemsAround(t.items, space, ItemsText(items), rest);
  }

  lemma ItemsHold(items: seq<Node>, room: nat)
    requires items != [] && room > 0
    requires forall i | 0 <= i < |items| :: ValidNode(items[i]) && Fits(items[i].tree, room - 1)
    ensures Valid(Items(items)) && Fits(Items(items), room)
  {
  }

  lemma ItemsAround(items: seq<Node>, space: string, text: string, rest: string)
    requires ItemsText(items) == space + text
    ensures "[" + (space + (text + "]" + rest)) == Text(Items(items)) + rest
  {
    hide ItemsText;
  }

  /** Whitespace in front of the first item. */
  lemma SpacedItems(space: string, items: seq<Node>)
    requires items != [] && IsSpace(space) && ValidNode(items[0])
    ensures var spaced := [items[0].(before := space + items[0].before)] + items[1..];
            && ItemsText(spaced) == space + ItemsText(items) && ItemsMeaning(spaced) == ItemsMeaning(items)
            && ValidNode(spaced[0]) && |spaced| == |items|
            && forall i | 0 < i < |items| :: spaced[i] == items[i]
  {
    hide Text, Meaning, ValidNode, ItemsText, ItemsMeaning;
    var spaced := [items[0].(before := space + items[0].before)] + items[1..];
    assert spaced[1..] == items[1..];
    ItemsSplit(items);
    ItemsSplit(spaced);
    NextItem(items);
    NextItem(spaced);
    SpacedNode(space, items[0]);
    SpaceFirst(space, items[0].before, Text(items[0].tree), items[0].after,
               if |items| == 1 then "" else "," + ItemsText(items[1..]));
  }

  lemma SpaceFirst(space: string, before: string, text: string, after: string, more: string)
    ensures space + before + text + after + more == space + (before + text + after + more)
  {
  }

  lemma SpacedNode(space: string, n: Node)
    requires IsSpace(space) && ValidNode(n)
    ensures ValidNode(n.(before := space + n.before))
  {
  }

  lemma {:induction false} ItemsOf(s: string, depth: nat) returns (items: seq<Node>)
    requires ParseItems(s, depth).Parsed?
    ensures depth <= MAX_JSON_DEPTH && items != []
    ensures forall i | 0 <= i < |items| :: ValidNode(items[i]) && Fits(items[i].tree, MAX_JSON_DEPTH - depth)
    ensures s == ItemsText(items) + "]" + ParseItems(s, depth).rest
    ensures ItemsMeaning(items) == Some(ParseItems(s, depth).value)
    decreases |s|, 3
  {
    hide ParseValue, Text, Meaning, Fits, ItemsText, ItemsMeaning, SkipWhitespace;
    var t := TreeOf(s, depth);
    var afterValue := ParseValue(s, depth).rest;
    var after := SkippedIsSpace(afterValue);
    var next := SkipWhitespace(afterValue);
    var first := Node("", t, after);
    assert next == [next[0]] + next[1..];
    if next[0] == ']' {
      items := [first];
      LastItem(items);
      OneItem(first, next[1..]);
    } else {
      var space := SkippedIsSpace(next[1..]);
      var more := ItemsOf(SkipWhitespace(next[1..]), depth);
      SpacedItems(space, more);
      var spaced := [more[0].(before := space + more[0].before)] + more[1..];
      items := [first] + spaced;
      MoreItems(first, spaced, ParseItems(s, depth).rest);
      Regroup4(space, ItemsText(more), "]", ParseItems(s, depth).rest);
    }
  }

  lemma OneItem(first: Node, rest: string)
    ensures ItemsText([first]) + "]" + rest == first.before + (Text(first.tree) + (first.after + ("]" + rest)))
  {
    hide Text;
    FirstItem([first], rest, "]" + rest);
  }

  lemma MoreItems(first: Node, more: seq<Node>, rest: string)
    requires more != []
    ensures ItemsText([first] + more) + "]" + rest
         == first.before + (Text(first.tree) + (first.after + ("," + (ItemsText(more) + "]" + rest))))
    ensures Meaning(first.tree).Some? && ItemsMeaning(more).Some? ==>
              ItemsMeaning([first] + more) == Some([Meaning(first.tree).value] + ItemsMeaning(more).value)
  {
    hide Text, Meaning;
    var items := [first] + more;
    assert items[1..] == more;
    FirstItem(items, rest, "," + (ItemsText(more) + "]" + rest));
  }

  lemma {:induction false} ObjectOf(s: string, depth: nat) returns (t: Tree)
    requires s != "" && s[0] == '{' && depth <= MAX_JSON_DEPTH && ParseObject(SkipWhitespace(s[1..]), depth + 1).Parsed?
    ensures var r := ParseObject(SkipWhitespace(s[1..]), depth + 1);
            Valid(t) && Fits(t, MAX_JSON_DEPTH - depth) && s == Text(t) + r.rest && Meaning(t) == Some(r.value)
    decreases |s|, 1
  {
    hide ParseEntries, MembersText, MembersMeaning, Text, Valid, Fits, SkipWhitespace;
    var space := SkippedIsSpace(s[1..]);
    var inner := SkipWhitespace(s[1..]);
    assert s == "{" + s[1..];
    if inner != "" && inner[0] == '}' {
      t := NothingSpelled("{", space, inner);
      FitsAnywhere(t, MAX_JSON_DEPTH - depth);
    } else {
      var members := MembersOf(inner, depth + 1, []);
      t := WrappedMembers(space, members, ParseEntries(inner, depth + 1, []).rest, MAX_JSON_DEPTH - depth);
    }
  }

  lemma WrappedMembers(space: string, members: seq<Member>, rest: string, room: nat) returns (t: Tree)
    requires members != [] && IsSpace(space) && room > 0
    requires forall i | 0 <= i < |members| :: ValidMember(members[i]) && Fits(members[i].node.tree, room - 1)
    ensures t.Members? && Valid(t) && Fits(t, room)
    ensures "{" + (space + (MembersText(members) + "}" + rest)) == Text(t) + rest
    ensures MembersMeaning(t.members, []) == MembersMeaning(members, [])
  {
    hide MembersText, MembersMeaning, Text, Valid, ValidMember, Fits;
    t := Members([members[0].(before := space + members[0].before)] + members[1..]);
    SpacedMembers(space, members, []);
    assert forall i | 0 <= i < |members| :: t.members[i].node == members[i].node;
    MembersHold(t.members, room);
    MembersAround(t.members, space, MembersText(members), rest);
  }

  lemma MembersHold(members: seq<Member>, room: nat)
    requires members != [] && room > 0
    requires forall i | 0 <= i < |members| :: ValidMember(members[i]) && Fits(members[i].node.tree, room - 1)
    ensures Valid(Members(members)) && Fits(Members(members), room)
  {
  }

  lemma MembersAround(members: seq<Member>, space: string, text: string, rest: string)
    requires MembersText(members) == space + text
    ensures "{" + (space + (text + "}" + rest)) == Text(Members(members)) + rest
  {
    hide MembersText;
  }

  lemma SpacedMembers(space: string, members: seq<Member>, sofar: seq<Entry>)
    requires members != [] && IsSpace(space) && ValidMember(members[0])
    ensures var spaced := [members[0].(before := space + members[0].before)] + members[1..];
            && MembersText(spaced) == space + MembersText(members)
            && MembersMeaning(spaced, sofar) == MembersMeaning(members, sofar)
            && ValidMember(spaced[0]) && |spaced| == |members|
            && forall i | 0 < i < |members| :: spaced[i] == members[i]
  {
    hide MemberText, Meaning, Insert;
    Indented(space, members[0]);
    var spaced := [members[0].(before := space + members[0].before)] + members[1..];
    assert spaced[1..] == members[1..];
  }

  lemma {:induction false} MemberOf(s: string, depth: nat) returns (m: Member)
    requires ParseEntry(s, depth).Parsed?
    ensures depth <= MAX_JSON_DEPTH && ValidMember(m) && Fits(m.node.tree, MAX_JSON_DEPTH - depth)
    ensures s == MemberText(m) + ParseEntry(s, depth).rest && m.before == "" && m.node.after == ""
    ensures Meaning(m.node.tree).Some?
    ensures ParseEntry(s, depth).value == Entry(Letters(m.key), Meaning(m.node.tree).value)
    decreases |s|, 0
  {
    hide ParseValue, ParseChars, Text, Meaning, Fits, Raw, SkipWhitespace, Letters;
    var key := ReadIsSpelled(s[1..]);
    var afterKey := ParseChars(s[1..]).rest;
    var gap := SkippedIsSpace(afterKey);
    var colon := SkipWhitespace(afterKey);
    var before := SkippedIsSpace(colon[1..]);
    var t := TreeOf(SkipWhitespace(colon[1..]), depth);
    m := Member("", key, gap, Node(before, t, ""));
    MemberSpelled(m, ParseEntry(s, depth).rest);
    assert s == "\"" + s[1..] && colon == ":" + colon[1..];
  }

  lemma MemberSpelled(m: Member, rest: string)
    requires m.before == "" && m.node.after == ""
    ensures MemberText(m) + rest
         == "\"" + (Raw(m.key) + "\"" + (m.gap + (":" + (m.node.before + (Text(m.node.tree) + rest)))))
  {
    hide Raw, Text;
  }

  lemma {:induction false} MembersOf(s: string, depth: nat, sofar: seq<Entry>) returns (members: seq<Member>)
    requires ParseEntries(s, depth, sofar).Parsed?
    ensures depth <= MAX_JSON_DEPTH && members != []
    ensures forall i | 0 <= i < |members| ::
               ValidMember(members[i]) && Fits(members[i].node.tree, MAX_JSON_DEPTH - depth)
    ensures s == MembersText(members) + "}" + ParseEntries(s, depth, sofar).rest
    ensures MembersMeaning(members, sofar) == Some(ParseEntries(s, depth, sofar).value)
    decreases |s|, 3
  {
    hide ParseEntry, Text, Meaning, Fits, MembersText, MembersMeaning, SkipWhitespace, Insert, MemberText, Letters;
    hide NodeText;
    var m := MemberOf(s, depth);
    var afterEntry := ParseEntry(s, depth).rest;
    var after := SkippedIsSpace(afterEntry);
    var next := SkipWhitespace(afterEntry);
    var first := m.(node := m.node.(after := after));
    SpacedMember(m, after);
    assert next == [next[0]] + next[1..];
    var entries := Insert(sofar, ParseEntry(s, depth).value).value;
    if next[0] == '}' {
      members := [first];
      LastMember(members, sofar);
      OneMember(first, next[1..]);
    } else {
      var space := SkippedIsSpace(next[1..]);
      var more := MembersOf(SkipWhitespace(next[1..]), depth, entries);
      SpacedMembers(space, more, entries);
      var spaced := [more[0].(before := space + more[0].before)] + more[1..];
      members := [first] + spaced;
      MoreMembers(first, spaced, sofar, ParseEntries(s, depth, sofar).rest);
      Regroup4(space, MembersText(more), "}", ParseEntries(s, depth, sofar).rest);
    }
  }

  lemma SpacedMember(m: Member, after: string)
    requires ValidMember(m) && m.node.after == "" && IsSpace(after)
    ensures var spaced := m.(node := m.node.(after := after));
            ValidMember(spaced) && MemberText(spaced) == MemberText(m) + after
  {
    hide Raw, Text;
  }

  lemma OneMember(first: Member, rest: string)
    ensures MembersText([first]) + "}" + rest == MemberText(first) + ("}" + rest)
  {
    hide MemberText;
  }

  lemma MoreMembers(first: Member, more: seq<Member>, sofar: seq<Entry>, rest: string)
    requires more != []
    ensures MembersText([first] + more) + "}" + rest == MemberText(first) + ("," + (MembersText(more) + "}" + rest))
    ensures Meaning(first.node.tree).Some? ==>
              var next := Insert(sofar, Entry(Letters(first.key), Meaning(first.node.tree).value));
              next.Some? ==> MembersMeaning([first] + more, sofar) == MembersMeaning(more, next.value)
  {
    hide MemberText, Meaning, Insert, Letters;
    assert ([first] + more)[1..] == more;
  }

  // ---------------------------------------------------------------------------
  // Documents
  // ---------------------------------------------------------------------------

  /** The text is that of a tree of this meaning, no deeper than the parser's limit. */
  ghost predicate Denotes(s: string, v: Value) {
    exists n: Node :: ValidNode(n) && Fits(n.tree, MAX_JSON_DEPTH) && NodeText(n) == s && Meaning(n.tree) == Some(v)
  }

  /**
    The parser accepts exactly the texts of the grammar within its depth whose
    keys do not repeat, each as what it means.
   */
  lemma ReadsExactly(s: string, v: Value)
    ensures ParseDocument(s) == Some(v) <==> Denotes(s, v)
  {
    hide ParseValue, Valid, Fits, Meaning, Text;
    forall n: Node | ValidNode(n) && Fits(n.tree, MAX_JSON_DEPTH) && NodeText(n) == s && Meaning(n.tree) == Some(v)
      ensures ParseDocument(s) == Some(v)
    {
      DocumentRead(n);
    }
    if ParseDocument(s) == Some(v) {
      var n := DocumentOf(s);
    }
  }

  lemma DocumentRead(n: Node)
    requires ValidNode(n) && Fits(n.tree, MAX_JSON_DEPTH)
    ensures ParseDocument(NodeText(n)) == Meaning(n.tree)
  {
    hide ParseValue, Valid, Fits, Meaning, Text;
    assert NodeText(n) == n.before + (Text(n.tree) + n.after);
    AfterSpaces(n.before, n.tree, n.after);
    FollowsSpaces(n.after, "");
    assert n.after + "" == n.after;
    TreeRead(n.tree, n.after, 0);
    SpacesSkipped(n.after, "");
  }

  lemma DocumentOf(s: string) returns (n: Node)
    requires ParseDocument(s).Some?
    ensures ValidNode(n) && Fits(n.tree, MAX_JSON_DEPTH) && NodeText(n) == s && Meaning(n.tree) == ParseDocument(s)
  {
    hide ParseValue, Valid, Fits, Meaning, Text, SkipWhitespace;
    var before := SkippedIsSpace(s);
    var inner := SkipWhitespace(s);
    var t := TreeOf(inner, 0);
    var after := SkippedIsSpace(ParseValue(inner, 0).rest);
    n := Node(before, t, after);
  }
}
