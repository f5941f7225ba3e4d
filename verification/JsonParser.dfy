/**
  The parser as the source runs it: one object over the text, with an offset
  that its methods advance, proved to read what the functions of `Json` read.
 */
module JsonParser {
  import opened Decimals
  import opened Wrappers
  import opened Json

  class Parser {
    const source: string
    var offset: nat

    ghost predicate Valid()
      reads this
    {
      offset <= |source|
    }

    /** The text from the offset on. */
    ghost function Rest(): string
      requires Valid()
      reads this
    {
      source[offset..]
    }

    constructor (source: string)
      ensures Valid() && this.source == source && Rest() == source
    {
      this.source := source;
      offset := 0;
    }

    method Parse() returns (result: Option<Value>)
      requires Valid() && offset == 0
      modifies this
      ensures Valid() && result == ParseDocument(source)
    {
      assert Rest() == source;
      SkipSpaces();
      var value := ReadValue(0);
      if value.None? {
        return None;
      }
      SkipSpaces();
      result := if offset == |source| then value else None;
    }

    method SkipSpaces()
      requires Valid()
      modifies this
      ensures Valid() && Rest() == SkipWhitespace(old(Rest())) && offset >= old(offset)
    {
      while offset < |source| && IsWhitespace(source[offset])
        invariant Valid() && offset >= old(offset)
        invariant SkipWhitespace(Rest()) == SkipWhitespace(old(Rest()))
      {
        assert Rest()[1..] == source[offset + 1..];
        offset := offset + 1;
      }
    }

    /** Advances over `wanted` if it is the next character. */
    method Consume(wanted: char) returns (found: bool)
      requires Valid()
      modifies this
      ensures Valid()
      ensures found == (old(Rest()) != "" && old(Rest())[0] == wanted)
      ensures Rest() == if found then old(Rest())[1..] else old(Rest())
      ensures offset == if found then old(offset) + 1 else old(offset)
    {
      found := offset < |source| && source[offset] == wanted;
      if found {
        offset := offset + 1;
      }
    }

    method ReadLiteral(literal: string, value: Value) returns (result: Option<Value>)
      requires Valid()
      modifies this
      ensures Valid() && Outcome(result, Rest(), ParseLiteral(old(Rest()), literal, value)) && offset >= old(offset)
    {
      if literal <= source[offset..] {
        offset := offset + |literal|;
        result := Some(value);
      } else {
        result := None;
      }
    }

    method ReadValue(depth: nat) returns (result: Option<Value>)
      requires Valid()
      modifies this
      ensures Valid() && Outcome(result, Rest(), ParseValue(old(Rest()), depth)) && offset >= old(offset)
      decreases |source| - offset, 2
    {
      if depth > MAX_JSON_DEPTH || offset == |source| {
        return None;
      }
      var c := source[offset];
      if c == 'n' {
        result := ReadLiteral("null", Null);
      } else if c == 't' {
        result := ReadLiteral("true", Bool(true));
      } else if c == 'f' {
        result := ReadLiteral("false", Bool(false));
      } else if c == '"' {
        var text := ReadString();
        result := if text.Some? then Some(String(text.value)) else None;
      } else if c == '[' {
        result := ReadArray(depth + 1);
      } else if c == '{' {
        result := ReadObject(depth + 1);
      } else if c == '-' || IsDigit(c) {
        var text := ReadNumber();
        result := if text.Some? then Some(Number(text.value)) else None;
      } else {
        result := None;
      }
    }

    method ReadArray(depth: nat) returns (result: Option<Value>)
      requires Valid() && offset < |source|
      modifies this
      ensures Valid() && offset >= old(offset)
      ensures Outcome(result, Rest(), ParseArray(SkipWhitespace(old(Rest())[1..]), depth))
      decreases |source| - offset, 1
    {
      hide ParseValue;
      offset := offset + 1;
      SkipSpaces();
      var values: seq<Value> := [];
      var empty := Consume(']');
      if empty {
        return Some(Array(values));
      }
      ghost var items := ParseItems(Rest(), depth);
      PrependNothing(items);
      while true
        invariant Valid() && offset > old(offset)
        invariant items == PrependItems(values, ParseItems(Rest(), depth))
        decreases |source| - offset
      {
        var value := ReadValue(depth);
        if value.None? {
          return None;
        }
        ghost var sofar := values;
        values := values + [value.value];
        SkipSpaces();
        var closed := Consume(']');
        if closed {
          return Some(Array(values));
        }
        var comma := Consume(',');
        if !comma {
          return None;
        }
        SkipSpaces();
        PrependMore(sofar, value.value, ParseItems(Rest(), depth));
      }
    }

    method ReadObject(depth: nat) returns (result: Option<Value>)
      requires Valid() && offset < |source|
      modifies this
      ensures Valid() && offset >= old(offset)
      ensures Outcome(result, Rest(), ParseObject(SkipWhitespace(old(Rest())[1..]), depth))
      decreases |source| - offset, 1
    {
      hide ParseValue, ParseEntry, Insert;
      offset := offset + 1;
      SkipSpaces();
      var members: seq<Entry> := [];
      var empty := Consume('}');
      if empty {
        return Some(Object(members));
      }
      ghost var entries := ParseEntries(Rest(), depth, []);
      while true
        invariant Valid() && offset > old(offset)
        invariant entries == ParseEntries(Rest(), depth, members)
        decreases |source| - offset
      {
        var entry := ReadEntry(depth);
        if entry.None? {
          return None;
        }
        var inserted := Insert(members, entry.value);
        if inserted.None? {
          return None;
        }
        members := inserted.value;
        SkipSpaces();
        var closed := Consume('}');
        if closed {
          return Some(Object(members));
        }
        var comma := Consume(',');
        if !comma {
          return None;
        }
        SkipSpaces();
      }
    }

    method ReadEntry(depth: nat) returns (result: Option<Entry>)
      requires Valid()
      modifies this
      ensures Valid() && Outcome(result, Rest(), ParseEntry(old(Rest()), depth)) && offset >= old(offset)
      ensures result.Some? ==> offset > old(offset)
      decreases |source| - offset, 1
    {
      if offset == |source| || source[offset] != '"' {
        return None;
      }
      var key := ReadString();
      if key.None? {
        return None;
      }
      SkipSpaces();
      var colon := Consume(':');
      if !colon {
        return None;
      }
      SkipSpaces();
      var value := ReadValue(depth);
      result := if value.Some? then Some(Entry(key.value, value.value)) else None;
    }

    method ReadString() returns (result: Option<string>)
      requires Valid() && offset < |source|
      modifies this
      ensures Valid() && Outcome(result, Rest(), ParseChars(old(Rest())[1..])) && offset > old(offset)
    {
      hide ParseEscape;
      offset := offset + 1;
      var output := "";
      ghost var whole := ParseChars(Rest());
      assert Rest() == old(Rest())[1..];
      PrependNoText(whole);
      while offset < |source|
        invariant Valid() && offset > old(offset)
        invariant whole == PrependText(output, ParseChars(Rest()))
        decreases |source| - offset
      {
        var c := source[offset];
        ghost var sofar := output;
        assert Rest()[0] == c && Rest()[1..] == source[offset + 1..];
        if c == '"' {
          assert output + "" == output;
          offset := offset + 1;
          return Some(output);
        } else if c == '\\' {
          offset := offset + 1;
          var escaped := ReadEscape();
          if escaped.None? {
            return None;
          }
          output := output + [escaped.value];
          PrependChar(sofar, escaped.value, ParseChars(Rest()));
        } else if c < ' ' {
          return None;
        } else {
          output := output + [c];
          offset := offset + 1;
          PrependChar(sofar, c, ParseChars(Rest()));
        }
      }
      result := None;
    }

    method ReadEscape() returns (result: Option<char>)
      requires Valid()
      modifies this
      ensures Valid() && Outcome(result, Rest(), ParseEscape(old(Rest()))) && offset >= old(offset)
      ensures result.Some? ==> offset > old(offset)
    {
      if offset == |source| {
        return None;
      }
      var escape := source[offset];
      offset := offset + 1;
      assert old(Rest())[1..] == Rest();
      match escape {
        case '"' => result := Some('"');
        case '\\' => result := Some('\\');
        case '/' => result := Some('/');
        case 'b' => result := Some('\U{08}');
        case 'f' => result := Some('\U{0c}');
        case 'n' => result := Some('\n');
        case 'r' => result := Some('\r');
        case 't' => result := Some('\t');
        case 'u' => result := ReadUnicodeEscape();
        case _ => result := None;
      }
    }

    method ReadHexQuad() returns (result: Option<nat>)
      requires Valid()
      modifies this
      ensures Valid() && result == ParseHexQuad(old(Rest())) && offset >= old(offset)
      ensures Rest() == if result.Some? then old(Rest())[4..] else old(Rest())
      ensures offset == if result.Some? then old(offset) + 4 else old(offset)
    {
      result := ParseHexQuad(source[offset..]);
      if result.Some? {
        offset := offset + 4;
      }
    }

    method ReadUnicodeEscape() returns (result: Option<char>)
      requires Valid()
      modifies this
      ensures Valid() && Outcome(result, Rest(), ParseUnicodeEscape(old(Rest()))) && offset >= old(offset)
    {
      hide ParseHexQuad;
      var first := ReadHexQuad();
      if first.None? {
        return None;
      }
      if 0xd800 <= first.value <= 0xdbff {
        if !("\\u" <= source[offset..]) {
          return None;
        }
        offset := offset + 2;
        var second := ReadHexQuad();
        if second.None? || !(0xdc00 <= second.value <= 0xdfff) {
          return None;
        }
        result := Some((0x1_0000 + (first.value - 0xd800) * 1024 + (second.value - 0xdc00)) as char);
      } else if 0xdc00 <= first.value <= 0xdfff {
        result := None;
      } else {
        result := Some(first.value as char);
      }
    }

    /** Advances over a run of digits. */
    method SkipDigits()
      requires Valid()
      modifies this
      ensures Valid() && offset == old(offset) + DigitRun(old(Rest()))
    {
      while offset < |source| && IsDigit(source[offset])
        invariant Valid() && offset >= old(offset)
        invariant offset + DigitRun(Rest()) == old(offset) + DigitRun(old(Rest()))
      {
        assert Rest()[1..] == source[offset + 1..];
        offset := offset + 1;
      }
    }

    /** The integer part of a number that starts at `start`; false when there is none. */
    method ReadInteger(ghost start: nat) returns (ok: bool)
      requires Valid() && start <= offset
      modifies this
      ensures Valid() && offset >= old(offset)
      ensures IntegerEnd(source[start..], old(offset) - start) == if ok then Some(offset - start) else None
    {
      hide DigitRun;
      ghost var s := source[start..];
      assert forall i | start <= i < |source| :: source[i] == s[i - start];
      assert source[offset..] == s[offset - start..];
      if offset == |source| || !IsDigit(source[offset]) {
        return false;
      }
      if source[offset] == '0' {
        offset := offset + 1;
        return offset == |source| || !IsDigit(source[offset]);
      }
      SkipDigits();
      ok := true;
    }

    method ReadFraction(ghost start: nat) returns (ok: bool)
      requires Valid() && start <= offset
      modifies this
      ensures Valid() && offset >= old(offset)
      ensures FractionEnd(source[start..], old(offset) - start) == if ok then Some(offset - start) else None
    {
      hide DigitRun;
      ghost var s := source[start..];
      assert offset < |source| ==> source[offset] == s[offset - start];
      var point := Consume('.');
      if !point {
        return true;
      }
      var fraction := offset;
      assert source[offset..] == s[offset - start..];
      SkipDigits();
      ok := offset > fraction;
    }

    method ReadExponent(ghost start: nat) returns (ok: bool)
      requires Valid() && start <= offset
      modifies this
      ensures Valid() && offset >= old(offset)
      ensures ExponentEnd(source[start..], old(offset) - start) == if ok then Some(offset - start) else None
    {
      hide DigitRun;
      ghost var s := source[start..];
      assert forall i | start <= i < |source| :: source[i] == s[i - start];
      var marker := offset < |source| && (source[offset] == 'e' || source[offset] == 'E');
      if !marker {
        return true;
      }
      offset := offset + 1;
      var sign := offset < |source| && (source[offset] == '+' || source[offset] == '-');
      if sign {
        offset := offset + 1;
      }
      var digits := offset;
      assert source[offset..] == s[offset - start..];
      SkipDigits();
      ok := offset > digits;
    }

    method ReadNumber() returns (result: Option<string>)
      requires Valid() && offset < |source|
      modifies this
      ensures Valid() && Outcome(result, Rest(), ParseNumber(old(Rest()))) && offset >= old(offset)
    {
      hide IntegerEnd, FractionEnd, ExponentEnd;
      var start := offset;
      var _ := Consume('-');
      var integer := ReadInteger(start);
      if !integer {
        return None;
      }
      var fraction := ReadFraction(start);
      if !fraction {
        return None;
      }
      var exponent := ReadExponent(start);
      if !exponent {
        return None;
      }
      result := Some(source[start..offset]);
      Slices(source, start, offset);
    }
  }

  /** The method's result and the text it left agree with the function's. */
  predicate Outcome<T(==)>(result: Option<T>, rest: string, expected: Parsed<T>) {
    match expected
    case Failed => result.None?
    case Parsed(value, left) => result == Some(value) && rest == left
  }

  lemma Slices(s: string, a: nat, b: nat)
    requires a <= b <= |s|
    ensures s[a..b] == s[a..][..b - a] && s[b..] == s[a..][b - a..]
  {
  }

  function PrependItems(first: seq<Value>, r: Parsed<seq<Value>>): Parsed<seq<Value>> {
    match r
    case Failed => Failed
    case Parsed(items, rest) => Parsed(first + items, rest)
  }

  function PrependText(first: string, r: Parsed<string>): Parsed<string> {
    match r
    case Failed => Failed
    case Parsed(text, rest) => Parsed(first + text, rest)
  }

  lemma PrependNothing(r: Parsed<seq<Value>>)
    ensures PrependItems([], r) == r
  {
    if r.Parsed? {
      assert [] + r.value == r.value;
    }
  }

  lemma PrependNoText(r: Parsed<string>)
    ensures PrependText("", r) == r
  {
    if r.Parsed? {
      assert "" + r.value == r.value;
    }
  }

  lemma PrependMore(first: seq<Value>, v: Value, r: Parsed<seq<Value>>)
    ensures PrependItems(first, PrependItems([v], r)) == PrependItems(first + [v], r)
  {
    if r.Parsed? {
      assert first + ([v] + r.value) == first + [v] + r.value;
    }
  }

  lemma PrependChar(first: string, c: char, r: Parsed<string>)
    ensures PrependText(first, Prepend(c, r)) == PrependText(first + [c], r)
  {
    if r.Parsed? {
      assert first + ([c] + r.value) == first + [c] + r.value;
    }
  }
}
