/**
  The one JSON writer behind two outputs: a string, which takes everything,
  and a bounded byte count, which refuses what would pass its maximum.
 */
module JsonWriter {
  import opened Wrappers
  import opened Machine
  import opened Utf8
  import opened Json

  datatype Outcome = Done | Refused
  {
    predicate IsFailure() { Refused? }
    function PropagateFailure(): Outcome { this }
  }

  /** No value nested more than `room` levels below this one. */
  predicate Shallow(v: Value, room: nat)
    decreases v
  {
    match v
    case Array(items) => items != [] ==> room > 0 && forall i | 0 <= i < |items| :: Shallow(items[i], room - 1)
    case Object(entries) =>
      entries != [] ==> room > 0 && forall i | 0 <= i < |entries| :: Shallow(entries[i].value, room - 1)
    case _ => true
  }

  /** How deep containers with something in them are nested. */
  function Levels(v: Value): nat
    decreases v, 0
  {
    match v
    case Array(items) => if items == [] then 0 else 1 + ItemLevels(items)
    case Object(entries) => if entries == [] then 0 else 1 + EntryLevels(entries)
    case _ => 0
  }

  function ItemLevels(items: seq<Value>): nat
    decreases items, 0
  {
    if items == [] then 0 else Deeper(Levels(items[0]), ItemLevels(items[1..]))
  }

  function EntryLevels(entries: seq<Entry>): nat
    decreases entries, 0
  {
    if entries == [] then 0 else Deeper(Levels(entries[0].value), EntryLevels(entries[1..]))
  }

  function Deeper(a: nat, b: nat): nat { if a < b then b else a }

  /** The depth check passes exactly what is nested no deeper than there is room. */
  lemma {:induction false} ShallowIsLevels(v: Value, room: nat)
    ensures Shallow(v, room) <==> Levels(v) <= room
    decreases v, 0
  {
    match v
    case Array(items) =>
      if items != [] && room > 0 {
        ItemsAreLevels(items, room - 1);
      }
    case Object(entries) =>
      if entries != [] && room > 0 {
        EntriesAreLevels(entries, room - 1);
      }
    case _ =>
  }

  lemma {:induction false} ItemsAreLevels(items: seq<Value>, room: nat)
    ensures (forall i | 0 <= i < |items| :: Shallow(items[i], room)) <==> ItemLevels(items) <= room
    decreases items, 0
  {
    hide Shallow, Levels;
    if items != [] {
      ShallowIsLevels(items[0], room);
      ItemsAreLevels(items[1..], room);
      assert forall i | 0 < i < |items| :: items[i] == items[1..][i - 1];
    }
  }

  lemma {:induction false} EntriesAreLevels(entries: seq<Entry>, room: nat)
    ensures (forall i | 0 <= i < |entries| :: Shallow(entries[i].value, room)) <==> EntryLevels(entries) <= room
    decreases entries, 0
  {
    hide Shallow, Levels;
    if entries != [] {
      ShallowIsLevels(entries[0].value, room);
      EntriesAreLevels(entries[1..], room);
      assert forall i | 0 < i < |entries| :: entries[i] == entries[1..][i - 1];
    }
  }

  lemma PrefixIsShorter(s: string, t: string)
    ensures Length(s) <= Length(s + t)
  {
    EncodeAppend(s, t);
  }

  class Output {
    /** The maximum of a byte count; none for a string. */
    const max: Option<nat>
    var text: string
    var bytes: nat
    /** Everything pushed so far, whichever of the two this is. */
    ghost var written: string

    ghost predicate Valid()
      reads this
    {
      match max
      case None => text == written
      case Some(m) => bytes == Length(written) <= m <= USIZE_MAX
    }

    constructor (max: Option<nat>)
      requires max.Some? ==> max.value <= USIZE_MAX
      ensures Valid() && written == "" && this.max == max
    {
      this.max := max;
      text := "";
      bytes := 0;
      written := "";
    }

    /** Whether this output could hold the whole of `s`. */
    ghost predicate Holds(s: string)
      reads this
    {
      max.Some? ==> Length(s) <= max.value
    }

    method Push(s: string) returns (outcome: Outcome)
      requires Valid()
      modifies this
      ensures Valid()
      ensures outcome.Done? <==> Holds(old(written) + s)
      ensures outcome.Done? ==> written == old(written) + s
    {
      EncodeAppend(written, s);
      match max {
        case None =>
          text := text + s;
        case Some(m) =>
          var count := Length(s);
          if bytes > USIZE_MAX - count || bytes + count > m {
            return Refused;
          }
          bytes := bytes + count;
      }
      written := written + s;
      outcome := Done;
    }

    method WriteString(s: string) returns (outcome: Outcome)
      requires Valid()
      modifies this
      ensures Valid()
      ensures outcome.Done? <==> Holds(old(written) + PrintString(s))
      ensures outcome.Done? ==> written == old(written) + PrintString(s)
    {
      hide EscapeChar;
      ghost var goal := old(written) + PrintString(s);
      Regroup(old(written), "\"", Escape(s), "\"");
      PrefixIsShorter(old(written) + "\"", Escape(s) + "\"");
      :- Push("\"");
      for i := 0 to |s|
        invariant Valid()
        invariant goal == written + (Escape(s[i..]) + "\"")
      {
        assert s[i..][1..] == s[i + 1..];
        ghost var rest := Escape(s[i + 1..]) + "\"";
        assert Escape(s[i..]) + "\"" == EscapeChar(s[i]) + rest;
        Assoc(written, EscapeChar(s[i]), rest);
        PrefixIsShorter(written + EscapeChar(s[i]), rest);
        :- WriteCharacter(s[i]);
      }
      assert Escape(s[|s|..]) + "\"" == "\"";
      :- Push("\"");
      outcome := Done;
    }

    method WriteCharacter(c: char) returns (outcome: Outcome)
      requires Valid()
      modifies this
      ensures Valid()
      ensures outcome.Done? <==> Holds(old(written) + EscapeChar(c))
      ensures outcome.Done? ==> written == old(written) + EscapeChar(c)
    {
      hide Length;
      match c {
        case '"' => outcome := Push("\\\"");
        case '\\' => outcome := Push("\\\\");
        case '\U{08}' => outcome := Push("\\b");
        case '\U{0c}' => outcome := Push("\\f");
        case '\n' => outcome := Push("\\n");
        case '\r' => outcome := Push("\\r");
        case '\t' => outcome := Push("\\t");
        case _ =>
          if c <= '\U{1f}' {
            Assoc(written, "\\u00", [HEX_DIGITS[c as int / 16], HEX_DIGITS[c as int % 16]]);
            outcome := WriteControl(c);
          } else {
            outcome := Push([c]);
          }
      }
    }

    method WriteControl(c: char) returns (outcome: Outcome)
      requires Valid() && c <= '\U{1f}'
      modifies this
      ensures Valid()
      ensures outcome.Done? <==> Holds(old(written) + "\\u00" + [HEX_DIGITS[c as int / 16], HEX_DIGITS[c as int % 16]])
      ensures outcome.Done? ==> written == old(written)
                                  + "\\u00" + [HEX_DIGITS[c as int / 16], HEX_DIGITS[c as int % 16]]
    {
      var high, low := [HEX_DIGITS[c as int / 16]], [HEX_DIGITS[c as int % 16]];
      ghost var start := old(written) + "\\u00";
      assert start + [HEX_DIGITS[c as int / 16], HEX_DIGITS[c as int % 16]] == start + high + low;
      PrefixIsShorter(start + high, low);
      Assoc(start, high, low);
      PrefixIsShorter(start, high + low);
      :- Push("\\u00");
      :- Push(high);
      outcome := Push(low);
    }

    /** Accepts exactly the values that are not too deep and whose printed form fits. */
    method WriteValue(v: Value, depth: nat) returns (outcome: Outcome)
      requires Valid() && depth <= MAX_JSON_DEPTH + 1
      modifies this
      ensures Valid()
      ensures outcome.Done? <==> depth <= MAX_JSON_DEPTH && Shallow(v, MAX_JSON_DEPTH - depth)
                                 && Holds(old(written) + Print(v))
      ensures outcome.Done? ==> written == old(written) + Print(v)
      decreases v, 1
    {
      hide Length, Escape;
      if depth > MAX_JSON_DEPTH {
        return Refused;
      }
      match v {
        case Null => outcome := Push("null");
        case Bool(b) => outcome := Push(if b then "true" else "false");
        case Number(number) => outcome := Push(number);
        case String(s) => outcome := WriteString(s);
        case Array(items) => outcome := WriteArray(items, depth);
        case Object(entries) => outcome := WriteObject(entries, depth);
      }
    }

    method WriteArray(items: seq<Value>, depth: nat) returns (outcome: Outcome)
      requires Valid() && depth <= MAX_JSON_DEPTH
      modifies this
      ensures Valid()
      ensures outcome.Done? <==> Shallow(Array(items), MAX_JSON_DEPTH - depth)
                                 && Holds(old(written) + Print(Array(items)))
      ensures outcome.Done? ==> written == old(written) + Print(Array(items))
      decreases items, 0
    {
      hide Length, Escape, PrintItems, Print, Shallow, ShallowItems, ItemsLeft;
      ghost var room: nat := MAX_JSON_DEPTH - depth;
      PrintedArray(items, room);
      ghost var goal := old(written) + Print(Array(items));
      Regroup(old(written), "[", PrintItems(items), "]");
      PrefixIsShorter(old(written) + "[", PrintItems(items) + "]");
      :- Push("[");
      for i := 0 to |items|
        invariant Valid()
        invariant goal == written + (ItemsLeft(items, i) + "]")
        invariant ShallowItems(items, i, room)
      {
        ItemStep(written, items, i, room);
        if i != 0 {
          :- Push(",");
        }
        :- WriteValue(items[i], depth + 1);
      }
      :- Push("]");
      outcome := Done;
    }

    method WriteObject(entries: seq<Entry>, depth: nat) returns (outcome: Outcome)
      requires Valid() && depth <= MAX_JSON_DEPTH
      modifies this
      ensures Valid()
      ensures outcome.Done? <==> Shallow(Object(entries), MAX_JSON_DEPTH - depth)
                                 && Holds(old(written) + Print(Object(entries)))
      ensures outcome.Done? ==> written == old(written) + Print(Object(entries))
      decreases entries, 0
    {
      hide Length, Escape, PrintEntries, PrintString, Print, Shallow, ShallowEntries, EntriesLeft;
      ghost var room: nat := MAX_JSON_DEPTH - depth;
      PrintedObject(entries, room);
      ghost var goal := old(written) + Print(Object(entries));
      Regroup(old(written), "{", PrintEntries(entries), "}");
      PrefixIsShorter(old(written) + "{", PrintEntries(entries) + "}");
      :- Push("{");
      for i := 0 to |entries|
        invariant Valid()
        invariant goal == written + (EntriesLeft(entries, i) + "}")
        invariant ShallowEntries(entries, i, room)
      {
        EntryStep(written, entries, i, room);
        if i != 0 {
          :- Push(",");
        }
        :- WriteEntry(entries[i], depth + 1);
      }
      :- Push("}");
      outcome := Done;
    }

    method WriteEntry(e: Entry, depth: nat) returns (outcome: Outcome)
      requires Valid() && 0 < depth <= MAX_JSON_DEPTH + 1
      modifies this
      ensures Valid()
      ensures outcome.Done? <==>
                && depth <= MAX_JSON_DEPTH && Shallow(e.value, MAX_JSON_DEPTH - depth)
                && Holds(old(written) + PrintString(e.key) + ":" + Print(e.value))
      ensures outcome.Done? ==> written == old(written) + PrintString(e.key) + ":" + Print(e.value)
      decreases e, 0
    {
      hide Length, PrintString, Print, Shallow;
      PrefixIsShorter(written + PrintString(e.key), ":");
      PrefixIsShorter(written + PrintString(e.key) + ":", Print(e.value));
      :- WriteString(e.key);
      :- Push(":");
      outcome := WriteValue(e.value, depth);
    }
  }

  lemma Assoc(a: string, b: string, c: string)
    ensures a + (b + c) == a + b + c
  {
  }

  lemma Regroup(a: string, b: string, c: string, d: string)
    ensures a + (b + c + d) == a + b + (c + d)
  {
  }

  /** What is still to be printed of an array's items once `i` of them are. */
  function ItemsLeft(items: seq<Value>, i: nat): string
    requires i <= |items|
  {
    if i == 0 then PrintItems(items) else if i < |items| then "," + PrintItems(items[i..]) else ""
  }

  function EntriesLeft(entries: seq<Entry>, i: nat): string
    requires i <= |entries|
  {
    if i == 0 then PrintEntries(entries) else if i < |entries| then "," + PrintEntries(entries[i..]) else ""
  }

  lemma ItemsFrom(items: seq<Value>, i: nat)
    requires i <= |items|
    ensures i < |items| ==> ItemsLeft(items, i) == Comma(i) + Print(items[i]) + ItemsLeft(items, i + 1)
    ensures i == |items| ==> ItemsLeft(items, i) == ""
  {
    if i < |items| {
      var from := items[i..];
      assert items[0..] == items && from[0] == items[i] && from[1..] == items[i + 1..];
    }
  }

  lemma EntriesFrom(entries: seq<Entry>, i: nat)
    requires i <= |entries|
    ensures i < |entries| ==>
              EntriesLeft(entries, i)
              == Comma(i) + PrintString(entries[i].key) + ":" + Print(entries[i].value) + EntriesLeft(entries, i + 1)
    ensures i == |entries| ==> EntriesLeft(entries, i) == ""
  {
    hide Print, PrintString;
    if i < |entries| {
      var from := entries[i..];
      assert entries[0..] == entries && from[0] == entries[i] && from[1..] == entries[i + 1..];
    }
  }

  lemma PrintedArray(items: seq<Value>, room: nat)
    ensures Print(Array(items)) == "[" + PrintItems(items) + "]"
    ensures ItemsLeft(items, |items|) + "]" == "]"
    ensures Shallow(Array(items), room)
         <==> ShallowItems(items, |items|, room)
    ensures ShallowItems(items, 0, room) && ItemsLeft(items, 0) == PrintItems(items)
  {
  }

  lemma PrintedObject(entries: seq<Entry>, room: nat)
    ensures Print(Object(entries)) == "{" + PrintEntries(entries) + "}"
    ensures EntriesLeft(entries, |entries|) + "}" == "}"
    ensures Shallow(Object(entries), room)
         <==> ShallowEntries(entries, |entries|, room)
    ensures ShallowEntries(entries, 0, room) && EntriesLeft(entries, 0) == PrintEntries(entries)
  {
  }

  predicate ShallowItems(items: seq<Value>, n: nat, room: nat)
    requires n <= |items|
  {
    forall i | 0 <= i < n :: room > 0 && Shallow(items[i], room - 1)
  }

  predicate ShallowEntries(entries: seq<Entry>, n: nat, room: nat)
    requires n <= |entries|
  {
    forall i | 0 <= i < n :: room > 0 && Shallow(entries[i].value, room - 1)
  }

  function Comma(i: nat): string { if i != 0 then "," else "" }

  lemma ItemStep(w: string, items: seq<Value>, i: nat, room: nat)
    requires i < |items|
    ensures ShallowItems(items, i + 1, room)
       <==> ShallowItems(items, i, room) && room > 0 && Shallow(items[i], room - 1)
    ensures ShallowItems(items, |items|, room) ==> ShallowItems(items, i + 1, room)
    ensures var goal, start := w + (ItemsLeft(items, i) + "]"), if i != 0 then w + "," else w;
            && goal == start + Print(items[i]) + (ItemsLeft(items, i + 1) + "]")
            && Length(start) <= Length(goal)
            && Length(start + Print(items[i])) <= Length(goal)
  {
    hide ItemsLeft, Print, Length;
    ItemsFrom(items, i);
    var comma, rest := Comma(i), ItemsLeft(items, i + 1) + "]";
    Four(w, comma, Print(items[i]), ItemsLeft(items, i + 1), "]");
    PrefixIsShorter(w + comma, Print(items[i]) + rest);
    PrefixIsShorter(w + comma + Print(items[i]), rest);
    assert w + "" == w;
  }

  lemma EntryStep(w: string, entries: seq<Entry>, i: nat, room: nat)
    requires i < |entries|
    ensures ShallowEntries(entries, i + 1, room)
       <==> ShallowEntries(entries, i, room) && room > 0 && Shallow(entries[i].value, room - 1)
    ensures ShallowEntries(entries, |entries|, room) ==> ShallowEntries(entries, i + 1, room)
    ensures var goal, start := w + (EntriesLeft(entries, i) + "}"), if i != 0 then w + "," else w;
            var key, value := PrintString(entries[i].key), Print(entries[i].value);
            && goal == start + key + ":" + value + (EntriesLeft(entries, i + 1) + "}")
            && Length(start) <= Length(goal)
            && Length(start + key) <= Length(goal)
            && Length(start + key + ":") <= Length(goal)
            && Length(start + key + ":" + value) <= Length(goal)
  {
    hide EntriesLeft, Print, PrintString, Length;
    EntriesFrom(entries, i);
    var key, value := PrintString(entries[i].key), Print(entries[i].value);
    var comma, rest := Comma(i), EntriesLeft(entries, i + 1) + "}";
    Six(w, comma, key, value, EntriesLeft(entries, i + 1), "}");
    PrefixIsShorter(w + comma, key + (":" + (value + rest)));
    PrefixIsShorter(w + comma + key, ":" + (value + rest));
    PrefixIsShorter(w + comma + key + ":", value + rest);
    PrefixIsShorter(w + comma + key + ":" + value, rest);
    assert w + "" == w;
  }

  lemma Four(w: string, comma: string, value: string, left: string, close: string)
    ensures w + (comma + value + left + close) == w + comma + (value + (left + close))
    ensures w + (comma + value + left + close) == w + comma + value + (left + close)
  {
  }

  lemma Six(w: string, comma: string, key: string, value: string, left: string, close: string)
    ensures w + (comma + key + ":" + value + left + close) == w + comma + (key + (":" + (value + (left + close))))
    ensures w + (comma + key + ":" + value + left + close) == w + comma + key + (":" + (value + (left + close)))
    ensures w + (comma + key + ":" + value + left + close) == w + comma + key + ":" + (value + (left + close))
    ensures w + (comma + key + ":" + value + left + close) == w + comma + key + ":" + value + (left + close)
  {
    var rest := left + close;
    Assoc(comma + key + ":" + value, left, close);
    Assoc(w + comma + key + ":", value, rest);
    Assoc(w + comma + key, ":", value + rest);
    Assoc(w + comma, key, ":" + (value + rest));
    Assoc(w, comma + key + ":" + value, rest);
    Assoc(w, comma + key + ":", value);
    Assoc(w, comma + key, ":");
    Assoc(w, comma, key);
  }
}
