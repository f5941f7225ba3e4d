/**
  The size estimate of a diagnostic: a worklist over its raw JSON that adds up
  serialized bytes, nodes and allocations against their limits, next to the
  recursive sums it must agree with.

  A value here also carries the capacities its strings and arrays hold.  The
  sizes of the machine's types are parameters.
 */
module DiagnosticEstimate {
  import opened Wrappers
  import opened Machine
  import opened Utf8
  import opened Json
  import JsonWriter

  datatype Sizes = Sizes(word: nat, str: nat, value: nat)

  datatype Limits = Limits(rawBytes: nat, nodes: nat, depth: nat, retained: nat)
  {
    predicate Valid() {
      rawBytes < USIZE_MAX - 6 && 0 < nodes < USIZE_MAX && depth < USIZE_MAX && retained < USIZE_MAX
    }
  }

  datatype Heap =
    | HeapNull
    | HeapBool(b: bool)
    | HeapNumber(text: string)
    | HeapString(value: string, capacity: nat)
    | HeapArray(items: seq<Heap>, slots: nat)
    | HeapObject(entries: seq<HeapEntry>)

  datatype HeapEntry = HeapEntry(key: string, capacity: nat, value: Heap)

  /** The JSON value without its capacities. */
  function Erase(h: Heap): Value {
    match h
    case HeapNull => Null
    case HeapBool(b) => Bool(b)
    case HeapNumber(text) => Number(text)
    case HeapString(value, _) => String(value)
    case HeapArray(items, _) => Array(seq(|items|, i requires 0 <= i < |items| => Erase(items[i])))
    case HeapObject(entries) =>
      Object(seq(|entries|, i requires 0 <= i < |entries| => Entry(entries[i].key, Erase(entries[i].value))))
  }

  function EraseAll(items: seq<Heap>): seq<Value> {
    seq(|items|, i requires 0 <= i < |items| => Erase(items[i]))
  }

  function EraseEntries(entries: seq<HeapEntry>): seq<Entry> {
    seq(|entries|, i requires 0 <= i < |entries| => Entry(entries[i].key, Erase(entries[i].value)))
  }

  function Children(h: Heap): seq<Heap> {
    match h
    case HeapArray(items, _) => items
    case HeapObject(entries) => seq(|entries|, i requires 0 <= i < |entries| => entries[i].value)
    case _ => []
  }

  // ---------------------------------------------------------------------------
  // What a value costs
  // ---------------------------------------------------------------------------

  /** Nodes strictly below, serialized bytes, and bytes of heap. */
  datatype Cost = Cost(below: nat, raw: nat, heap: nat)
  {
    function Plus(c: Cost): Cost { Cost(below + c.below, raw + c.raw, heap + c.heap) }
  }

  function Max(a: nat, b: nat): nat { if a < b then b else a }

  /** An array or object of `n` elements: brackets and commas. */
  function Punctuation(n: nat): nat { 2 + (if n == 0 then 0 else n - 1) }

  function ObjectHeap(n: nat, sizes: Sizes): nat {
    Max(n, 1) * (8 * sizes.word + 11 * (sizes.str + sizes.value) + 12 * sizes.word)
  }

  function KeysCost(entries: seq<HeapEntry>): Cost {
    if entries == [] then Cost(0, 0, 0)
    else
      var last := entries[|entries| - 1];
      KeysCost(entries[..|entries| - 1]).Plus(Cost(0, Length(PrintString(last.key)), last.capacity))
  }

  /** What a node costs by itself. */
  function Own(h: Heap, sizes: Sizes): Cost {
    match h
    case HeapNull => Cost(0, 4, 0)
    case HeapBool(b) => Cost(0, if b then 4 else 5, 0)
    case HeapNumber(text) => Cost(0, Length(text), Max(2 * Length(text), sizes.word))
    case HeapString(value, capacity) => Cost(0, Length(PrintString(value)), capacity)
    case HeapArray(items, slots) => Cost(|items|, Punctuation(|items|), slots * sizes.value)
    case HeapObject(entries) =>
      Cost(|entries|, Punctuation(|entries|) + |entries|, ObjectHeap(|entries|, sizes)).Plus(KeysCost(entries))
  }

  function CostOf(h: Heap, sizes: Sizes): Cost
    decreases h, 0
  {
    match h
    case HeapArray(items, _) => Own(h, sizes).Plus(CostOfAll(items, sizes))
    case HeapObject(entries) => Own(h, sizes).Plus(CostOfValues(entries, sizes))
    case _ => Own(h, sizes)
  }

  function CostOfAll(items: seq<Heap>, sizes: Sizes): Cost
    decreases items, 0
  {
    if items == [] then Cost(0, 0, 0) else CostOf(items[0], sizes).Plus(CostOfAll(items[1..], sizes))
  }

  function CostOfValues(entries: seq<HeapEntry>, sizes: Sizes): Cost
    decreases entries, 0
  {
    if entries == [] then Cost(0, 0, 0) else CostOf(entries[0].value, sizes).Plus(CostOfValues(entries[1..], sizes))
  }

  lemma {:induction false} ValuesAreChildren(entries: seq<HeapEntry>, sizes: Sizes)
    ensures CostOfValues(entries, sizes) == CostOfAll(Children(HeapObject(entries)), sizes)
  {
    hide CostOf;
    if entries != [] {
      ValuesAreChildren(entries[1..], sizes);
      assert Children(HeapObject(entries))[1..] == Children(HeapObject(entries[1..]));
    }
  }

  lemma NothingCosts(sizes: Sizes)
    ensures CostOfAll([], sizes) == Cost(0, 0, 0)
  {
  }

  lemma CostSplits(h: Heap, sizes: Sizes)
    ensures CostOf(h, sizes) == Own(h, sizes).Plus(CostOfAll(Children(h), sizes))
  {
    hide Own, CostOfAll, CostOfValues;
    assert CostOfAll([], sizes) == Cost(0, 0, 0) by { NothingCosts(sizes); }
    if h.HeapObject? {
      ValuesAreChildren(h.entries, sizes);
    }
  }

  // ---------------------------------------------------------------------------
  // The serialized bytes are those of the printer
  // ---------------------------------------------------------------------------

  lemma {:induction false} KeysCostFirst(entries: seq<HeapEntry>)
    requires entries != []
    ensures KeysCost(entries)
         == Cost(0, Length(PrintString(entries[0].key)), entries[0].capacity).Plus(KeysCost(entries[1..]))
  {
    hide Length, PrintString;
    if |entries| > 1 {
      var before := entries[..|entries| - 1];
      KeysCostFirst(before);
      assert before[1..] == entries[1..][..|entries| - 2];
    } else {
      assert entries[..0] == [] && entries[1..] == [];
    }
  }

  lemma PunctuationLength()
    ensures Length("[") == 1 && Length("]") == 1 && Length("{") == 1 && Length("}") == 1
       && Length(",") == 1 && Length(":") == 1
    ensures Length("") == 0 && Length("null") == 4 && Length("true") == 4 && Length("false") == 5
  {
    hide Encode;
    EncodeAscii("");
    EncodeAscii("[");
    EncodeAscii("]");
    EncodeAscii("{");
    EncodeAscii("}");
    EncodeAscii(",");
    EncodeAscii(":");
    EncodeAscii("null");
    EncodeAscii("true");
    EncodeAscii("false");
  }

  lemma EnclosedLength(open: string, inner: string, close: string)
    ensures Length(open + inner + close) == Length(open) + Length(inner) + Length(close)
  {
    hide Encode;
    EncodeAppend(open, inner);
    EncodeAppend(open + inner, close);
  }

  /** The raw byte count is the length of what the printer emits. */
  lemma {:induction false} RawIsPrinted(h: Heap, sizes: Sizes)
    ensures CostOf(h, sizes).raw == Length(Print(Erase(h)))
    decreases h, 0
  {
    hide Length, PrintString;
    PunctuationLength();
    match h
    case HeapArray(items, _) =>
      RawOfItems(items, sizes);
      EnclosedLength("[", PrintItems(EraseAll(items)), "]");
    case HeapObject(entries) =>
      RawOfEntries(entries, sizes);
      EnclosedLength("{", PrintEntries(EraseEntries(entries)), "}");
    case _ =>
  }

  lemma {:induction false} RawOfItems(items: seq<Heap>, sizes: Sizes)
    ensures Length(PrintItems(EraseAll(items))) + 2 == Punctuation(|items|) + CostOfAll(items, sizes).raw
    decreases items, 1
  {
    hide Length, Print, CostOf;
    PunctuationLength();
    if items != [] {
      RawIsPrinted(items[0], sizes);
      RawOfItems(items[1..], sizes);
      assert EraseAll(items)[1..] == EraseAll(items[1..]);
      EnclosedLength(Print(Erase(items[0])), ",", PrintItems(EraseAll(items[1..])));
    }
  }

  lemma {:induction false} RawOfEntries(entries: seq<HeapEntry>, sizes: Sizes)
    ensures Length(PrintEntries(EraseEntries(entries))) + 2
         == Punctuation(|entries|) + |entries| + KeysCost(entries).raw + CostOfValues(entries, sizes).raw
    decreases entries, 1
  {
    hide Length, Print, CostOf, PrintString, KeysCost;
    PunctuationLength();
    if entries == [] {
      NoKeys();
    } else {
      var first := entries[0];
      RawIsPrinted(first.value, sizes);
      RawOfEntries(entries[1..], sizes);
      KeysCostFirst(entries);
      assert EraseEntries(entries)[1..] == EraseEntries(entries[1..]);
      EnclosedLength(PrintString(first.key), ":", Print(Erase(first.value)));
      EnclosedLength(PrintString(first.key) + ":" + Print(Erase(first.value)),
                     ",", PrintEntries(EraseEntries(entries[1..])));
    }
  }

  lemma NoKeys()
    ensures KeysCost([]) == Cost(0, 0, 0)
  {
  }

  /** How many values a JSON value consists of. */
  function Nodes(v: Value): nat
    decreases v, 0
  {
    match v
    case Array(items) => 1 + NodesIn(items)
    case Object(entries) => 1 + NodesInEntries(entries)
    case _ => 1
  }

  function NodesIn(items: seq<Value>): nat
    decreases items, 0
  {
    if items == [] then 0 else Nodes(items[0]) + NodesIn(items[1..])
  }

  function NodesInEntries(entries: seq<Entry>): nat
    decreases entries, 0
  {
    if entries == [] then 0 else Nodes(entries[0].value) + NodesInEntries(entries[1..])
  }

  lemma {:induction false} NodesAreCounted(h: Heap, sizes: Sizes)
    ensures CostOf(h, sizes).below + 1 == Nodes(Erase(h))
    decreases h, 0
  {
    hide Length, PrintString, ObjectHeap, Punctuation, Max, CostOfAll, CostOfValues, KeysCost;
    match h
    case HeapArray(items, _) =>
      ItemsAreCounted(items, sizes);
      assert Erase(h) == Array(EraseAll(items));
    case HeapObject(entries) =>
      ValuesAreCounted(entries, sizes);
      NoBelowInKeys(entries);
      assert Erase(h) == Object(EraseEntries(entries));
    case _ =>
  }

  lemma {:induction false} ItemsAreCounted(items: seq<Heap>, sizes: Sizes)
    ensures CostOfAll(items, sizes).below + |items| == NodesIn(EraseAll(items))
    decreases items, 1
  {
    hide CostOf, Nodes;
    if items != [] {
      NodesAreCounted(items[0], sizes);
      ItemsAreCounted(items[1..], sizes);
      assert EraseAll(items)[1..] == EraseAll(items[1..]);
    }
  }

  lemma {:induction false} ValuesAreCounted(entries: seq<HeapEntry>, sizes: Sizes)
    ensures CostOfValues(entries, sizes).below + |entries| == NodesInEntries(EraseEntries(entries))
    decreases entries, 1
  {
    hide CostOf, Nodes;
    if entries != [] {
      NodesAreCounted(entries[0].value, sizes);
      ValuesAreCounted(entries[1..], sizes);
      assert EraseEntries(entries)[1..] == EraseEntries(entries[1..]);
    }
  }

  lemma {:induction false} NoBelowInKeys(entries: seq<HeapEntry>)
    ensures KeysCost(entries).below == 0
  {
    if entries != [] {
      NoBelowInKeys(entries[..|entries| - 1]);
    }
  }

  // ---------------------------------------------------------------------------
  // Bounded sums
  // ---------------------------------------------------------------------------

  method AddBounded(total: nat, amount: nat, limit: nat) returns (updated: Option<nat>)
    requires total <= limit < USIZE_MAX
    ensures updated == if total + amount <= limit then Some(total + amount) else None
    ensures updated == if total + Saturate(amount) <= limit then Some(total + amount) else None
  {
    if amount > USIZE_MAX - total {
      return None;
    }
    updated := if total + amount > limit then None else Some(total + amount);
  }

  function EscapedLength(c: char): nat {
    match c
    case '"' => 2
    case '\\' => 2
    case '\U{08}' => 2
    case '\U{0c}' => 2
    case '\n' => 2
    case '\r' => 2
    case '\t' => 2
    case _ => if c <= '\U{1f}' then 6 else |EncodeScalar(c)|
  }

  lemma EscapedLengthIsExact(c: char)
    ensures EscapedLength(c) == Length(EscapeChar(c))
  {
    hide EncodeScalar;
    if EscapeChar(c) == [c] {
      assert Encode([c]) == EncodeScalar(c) + Encode([c][1..]) == EncodeScalar(c);
    } else {
      if c <= '\U{1f}' {
        HexDigitsAreAscii(c);
      }
      EncodeAscii(EscapeChar(c));
    }
  }

  lemma HexDigitsAreAscii(c: char)
    requires c <= '\U{1f}'
    ensures HEX_DIGITS[c as int / 16] < '\U{80}' && HEX_DIGITS[c as int % 16] < '\U{80}'
  {
  }

  /** The printed length of a string, given up as soon as it passes `max`. */
  method BoundedStringLength(s: string, max: nat) returns (length: Option<nat>)
    requires max < USIZE_MAX - 6
    ensures length.Some? ==> length.value == Length(PrintString(s))
    ensures length.None? ==> Length(PrintString(s)) > max
  {
    hide Escape, Length, EscapeChar, EscapedLength;
    var bytes := 2;
    assert s[0..] == s;
    QuotesLength(s);
    for i := 0 to |s|
      invariant bytes + Length(Escape(s[i..])) == Length(PrintString(s))
    {
      EscapeFrom(s, i);
      EscapedLengthIsExact(s[i]);
      bytes := bytes + EscapedLength(s[i]);
      if bytes > max {
        return None;
      }
    }
    NothingLeft(s);
    length := Some(bytes);
  }

  lemma QuotesLength(s: string)
    ensures Length(PrintString(s)) == 2 + Length(Escape(s))
  {
    hide Escape, Encode;
    EncodeAscii("\"");
    EnclosedLength("\"", Escape(s), "\"");
  }

  lemma EscapeFrom(s: string, i: nat)
    requires i < |s|
    ensures Length(Escape(s[i..])) == Length(EscapeChar(s[i])) + Length(Escape(s[i + 1..]))
  {
    hide EscapeChar, Encode;
    assert s[i..][1..] == s[i + 1..];
    EncodeAppend(EscapeChar(s[i]), Escape(s[i + 1..]));
  }

  lemma NothingLeft(s: string)
    ensures Length(Escape(s[|s|..])) == 0
  {
  }

  // ---------------------------------------------------------------------------
  // The worklist
  // ---------------------------------------------------------------------------

  datatype Diagnostic = Diagnostic(uriCapacity: nat, messageCapacity: nat, sourceCapacity: Option<nat>, raw: Heap)
  {
    function Strings(): nat {
      uriCapacity + messageCapacity + (if sourceCapacity.Some? then sourceCapacity.value else 0)
    }

    /** The four limits, each on a sum over the whole tree. */
    predicate Accepted(limits: Limits, sizes: Sizes) {
      && Within(Cost(0, 0, Strings()).Plus(CostOf(raw, sizes)), limits)
      && limits.depth > 0 && JsonWriter.Shallow(Erase(raw), limits.depth - 1)
    }
  }

  predicate Within(spent: Cost, limits: Limits) {
    1 + spent.below <= limits.nodes && spent.raw <= limits.rawBytes && spent.heap <= limits.retained
  }

  // ---------------------------------------------------------------------------
  // The estimate covers what is owned
  // ---------------------------------------------------------------------------

  /** What a tree owns on the heap at least: the capacity of its strings and keys, its slots, and a place per entry. */
  function Owned(h: Heap, sizes: Sizes): nat
    decreases h, 0
  {
    match h
    case HeapNumber(text) => Length(text)
    case HeapString(_, capacity) => capacity
    case HeapArray(items, slots) => slots * sizes.value + OwnedByAll(items, sizes)
    case HeapObject(entries) => OwnedByEntries(entries, sizes)
    case _ => 0
  }

  function OwnedByAll(items: seq<Heap>, sizes: Sizes): nat
    decreases items, 0
  {
    if items == [] then 0 else Owned(items[0], sizes) + OwnedByAll(items[1..], sizes)
  }

  function OwnedByEntries(entries: seq<HeapEntry>, sizes: Sizes): nat
    decreases entries, 0
  {
    if entries == [] then 0
    else
      entries[0].capacity + sizes.str + sizes.value + Owned(entries[0].value, sizes)
      + OwnedByEntries(entries[1..], sizes)
  }

  /** The estimate never falls short of what a tree owns. */
  lemma {:induction false} EstimateCovers(h: Heap, sizes: Sizes)
    ensures Owned(h, sizes) <= CostOf(h, sizes).heap
    decreases h, 0
  {
    hide Length;
    match h
    case HeapArray(items, _) => AllCovered(items, sizes);
    case HeapObject(entries) =>
      EntriesCovered(entries, sizes);
      PlacesCovered(|entries|, sizes);
    case _ =>
  }

  lemma {:induction false} AllCovered(items: seq<Heap>, sizes: Sizes)
    ensures OwnedByAll(items, sizes) <= CostOfAll(items, sizes).heap
    decreases items, 0
  {
    hide Owned, CostOf;
    if items != [] {
      EstimateCovers(items[0], sizes);
      AllCovered(items[1..], sizes);
    }
  }

  lemma {:induction false} EntriesCovered(entries: seq<HeapEntry>, sizes: Sizes)
    ensures OwnedByEntries(entries, sizes)
         <= KeysCost(entries).heap + |entries| * (sizes.str + sizes.value) + CostOfValues(entries, sizes).heap
    decreases entries, 0
  {
    hide Owned, CostOf, Length, PrintString;
    if entries != [] {
      EstimateCovers(entries[0].value, sizes);
      EntriesCovered(entries[1..], sizes);
      KeysFromFront(entries);
      OneMorePlace(|entries| - 1, sizes.str + sizes.value);
    }
  }

  lemma OneMorePlace(n: nat, size: nat)
    ensures (n + 1) * size == n * size + size
  {
  }

  lemma {:induction false} KeysFromFront(entries: seq<HeapEntry>)
    requires entries != []
    ensures KeysCost(entries).heap == entries[0].capacity + KeysCost(entries[1..]).heap
    decreases |entries|
  {
    hide Length, PrintString;
    if |entries| > 1 {
      var before := entries[..|entries| - 1];
      KeysFromFront(before);
      assert entries[1..][..|entries| - 2] == before[1..];
    } else {
      assert KeysCost(entries[..0]) == Cost(0, 0, 0) == KeysCost(entries[1..]);
    }
  }

  lemma PlacesCovered(n: nat, sizes: Sizes)
    ensures n * (sizes.str + sizes.value) <= ObjectHeap(n, sizes)
  {
    var node := 8 * sizes.word + 11 * (sizes.str + sizes.value) + 12 * sizes.word;
    ProductsGrow(n, Max(n, 1), sizes.str + sizes.value, node);
  }

  lemma ProductsGrow(a: nat, b: nat, x: nat, y: nat)
    requires a <= b && x <= y
    ensures a * x <= b * y
  {
    assert a * x <= b * x;
    assert b * x <= b * y;
  }

  /** What acceptance means for the JSON itself: its nodes, its nesting and the length of its printed form. */
  lemma AcceptedMeans(diagnostic: Diagnostic, limits: Limits, sizes: Sizes)
    ensures diagnostic.Accepted(limits, sizes)
       <==> && Nodes(Erase(diagnostic.raw)) <= limits.nodes
            && limits.depth > 0 && JsonWriter.Shallow(Erase(diagnostic.raw), limits.depth - 1)
            && Length(Print(Erase(diagnostic.raw))) <= limits.rawBytes
            && diagnostic.Strings() + CostOf(diagnostic.raw, sizes).heap <= limits.retained
  {
    hide CostOf, Erase, Length, Print;
    RawIsPrinted(diagnostic.raw, sizes);
    NodesAreCounted(diagnostic.raw, sizes);
  }

  datatype Task = Task(value: Heap, depth: nat)

  function StackCost(stack: seq<Task>, sizes: Sizes): Cost {
    if stack == [] then Cost(0, 0, 0)
    else StackCost(stack[..|stack| - 1], sizes).Plus(CostOf(stack[|stack| - 1].value, sizes))
  }

  predicate StackShallow(stack: seq<Task>, depth: nat) {
    forall t <- stack :: t.depth <= depth && JsonWriter.Shallow(Erase(t.value), depth - t.depth)
  }

  /** Children in reverse, so that the first is on top. */
  function Scheduled(items: seq<Heap>, depth: nat): (tasks: seq<Task>)
    ensures |tasks| == |items|
    ensures forall i | 0 <= i < |items| :: tasks[i] == Task(items[|items| - 1 - i], depth)
  {
    seq(|items|, i requires 0 <= i < |items| => Task(items[|items| - 1 - i], depth))
  }

  lemma {:induction false} ScheduledCost(stack: seq<Task>, items: seq<Heap>, depth: nat, sizes: Sizes)
    ensures StackCost(stack + Scheduled(items, depth), sizes) == StackCost(stack, sizes).Plus(CostOfAll(items, sizes))
  {
    hide CostOf;
    var tasks := Scheduled(items, depth);
    if items == [] {
      assert stack + tasks == stack;
    } else {
      ScheduledCost(stack, items[1..], depth, sizes);
      assert (stack + tasks)[..|stack + tasks| - 1] == stack + Scheduled(items[1..], depth);
    }
  }

  lemma InSequence<T>(s: seq<T>)
    ensures forall x <- s :: exists i | 0 <= i < |s| :: s[i] == x
  {
  }

  lemma ChildrenShallow(h: Heap, room: nat)
    ensures JsonWriter.Shallow(Erase(h), room)
       <==> Children(h) == [] || (room > 0 && forall c <- Children(h) :: JsonWriter.Shallow(Erase(c), room - 1))
  {
    var children := Children(h);
    if room > 0 && h.HeapArray? {
      ItemsShallow(children, EraseAll(h.items), room - 1);
      assert Erase(h) == Array(EraseAll(h.items));
    } else if room > 0 && h.HeapObject? {
      var values := seq(|children|, i requires 0 <= i < |children| => Erase(children[i]));
      ItemsShallow(children, values, room - 1);
      var entries := EraseEntries(h.entries);
      assert Erase(h) == Object(entries);
      assert forall i | 0 <= i < |children| :: entries[i].value == values[i];
    }
  }

  lemma ItemsShallow(children: seq<Heap>, values: seq<Value>, room: nat)
    requires |values| == |children| && forall i | 0 <= i < |children| :: values[i] == Erase(children[i])
    ensures (forall c <- children :: JsonWriter.Shallow(Erase(c), room))
       <==> forall i | 0 <= i < |values| :: JsonWriter.Shallow(values[i], room)
  {
    hide Erase, JsonWriter.Shallow;
    InSequence(children);
    assert forall i | 0 <= i < |children| :: children[i] in children;
  }

  /** The stack after its top has been replaced by the top's children. */
  function Visited(stack: seq<Task>): seq<Task>
    requires stack != []
  {
    stack[..|stack| - 1] + Scheduled(Children(stack[|stack| - 1].value), stack[|stack| - 1].depth + 1)
  }

  lemma VisitCost(stack: seq<Task>, sizes: Sizes)
    requires stack != []
    ensures StackCost(stack, sizes) == StackCost(Visited(stack), sizes).Plus(Own(stack[|stack| - 1].value, sizes))
  {
    hide CostOf, Own, Erase, Children, CostOfAll;
    var top, below := stack[|stack| - 1], stack[..|stack| - 1];
    CostSplits(top.value, sizes);
    ScheduledCost(below, Children(top.value), top.depth + 1, sizes);
  }

  lemma VisitDepth(stack: seq<Task>, depth: nat)
    requires stack != []
    ensures StackShallow(stack, depth)
       <==> && stack[|stack| - 1].depth <= depth
            && (Children(stack[|stack| - 1].value) == [] || stack[|stack| - 1].depth < depth)
            && StackShallow(Visited(stack), depth)
  {
    hide Erase, Children, StackShallow, Scheduled, JsonWriter.Shallow;
    var top, below := stack[|stack| - 1], stack[..|stack| - 1];
    var children := Children(top.value);
    StackOfTwo(below, Scheduled(children, top.depth + 1), depth);
    StackOfTwo(below, [top], depth);
    assert stack == below + [top];
    OnlyTask(top, depth);
    if top.depth <= depth {
      ChildrenShallow(top.value, depth - top.depth);
      ScheduledShallow(children, top.depth + 1, depth);
    }
  }

  lemma NothingPending(depth: nat)
    ensures StackShallow([], depth)
  {
  }

  lemma OnlyTask(t: Task, depth: nat)
    ensures StackShallow([t], depth) <==> t.depth <= depth && JsonWriter.Shallow(Erase(t.value), depth - t.depth)
  {
    hide JsonWriter.Shallow, Erase;
    assert t in [t];
  }

  lemma StackOfTwo(a: seq<Task>, b: seq<Task>, depth: nat)
    ensures StackShallow(a + b, depth) <==> StackShallow(a, depth) && StackShallow(b, depth)
  {
    hide JsonWriter.Shallow, Erase;
    assert forall t <- a :: t in a + b;
    assert forall t <- b :: t in a + b;
  }

  lemma ScheduledShallow(children: seq<Heap>, depth: nat, limit: nat)
    requires depth <= limit + 1
    ensures StackShallow(Scheduled(children, depth), limit)
       <==> children == [] || (depth <= limit && forall c <- children :: JsonWriter.Shallow(Erase(c), limit - depth))
  {
    hide JsonWriter.Shallow, Erase;
    var tasks := Scheduled(children, depth);
    assert forall t <- tasks :: t.depth == depth && t.value in children;
    assert forall i | 0 <= i < |children| ::
             tasks[|children| - 1 - i] in tasks && tasks[|children| - 1 - i].value == children[i];
    assert children != [] ==> tasks[0] in tasks;
    assert forall c <- children :: Task(c, depth) in tasks;
  }

  method SpendKeys(entries: seq<HeapEntry>, spent: Cost, limits: Limits) returns (r: Option<Cost>)
    requires limits.Valid() && Within(spent, limits)
    ensures r == if Within(spent.Plus(KeysCost(entries)), limits) then Some(spent.Plus(KeysCost(entries))) else None
  {
    hide PrintString, Length;
    var raw: nat, heap: nat := spent.raw, spent.heap;
    assert entries[..0] == [];
    for i := 0 to |entries|
      invariant Cost(spent.below, raw, heap) == spent.Plus(KeysCost(entries[..i]))
      invariant raw <= limits.rawBytes && heap <= limits.retained
    {
      assert entries[..i + 1][..i] == entries[..i];
      KeysCostGrows(entries, i + 1);
      var encoded := BoundedStringLength(entries[i].key, limits.rawBytes);
      if encoded.None? {
        return None;
      }
      var moreRaw := AddBounded(raw, encoded.value, limits.rawBytes);
      if moreRaw.None? {
        return None;
      }
      var moreHeap := AddBounded(heap, entries[i].capacity, limits.retained);
      if moreHeap.None? {
        return None;
      }
      raw, heap := moreRaw.value, moreHeap.value;
    }
    assert entries[..|entries|] == entries;
    r := Some(Cost(spent.below, raw, heap));
  }

  lemma {:induction false} KeysCostGrows(entries: seq<HeapEntry>, i: nat)
    requires i <= |entries|
    ensures KeysCost(entries[..i]).raw <= KeysCost(entries).raw && KeysCost(entries[..i]).heap <= KeysCost(entries).heap
    decreases |entries|
  {
    if i < |entries| {
      KeysCostGrows(entries[..|entries| - 1], i);
      assert entries[..|entries| - 1][..i] == entries[..i];
    } else {
      assert entries[..i] == entries;
    }
  }

  /** What a node costs by itself, added to what is spent, unless that passes a limit. */
  method Spend(h: Heap, spent: Cost, limits: Limits, sizes: Sizes) returns (r: Option<Cost>)
    requires limits.Valid() && Within(spent, limits)
    ensures r == if Within(spent.Plus(Own(h, sizes)), limits) then Some(spent.Plus(Own(h, sizes))) else None
  {
    hide PrintString, Length, KeysCost, ObjectHeap;
    match h {
      case HeapNull => r := SpendOne(Cost(0, 4, 0), spent, limits);
      case HeapBool(b) => r := SpendOne(Cost(0, if b then 4 else 5, 0), spent, limits);
      case HeapNumber(text) =>
        r := SpendOne(Cost(0, Length(text), Max(Saturate(2 * Length(text)), sizes.word)), spent, limits);
      case HeapString(value, capacity) =>
        var encoded := BoundedStringLength(value, limits.rawBytes);
        if encoded.None? {
          return None;
        }
        r := SpendOne(Cost(0, encoded.value, capacity), spent, limits);
      case HeapArray(items, slots) =>
        r := SpendOne(Cost(|items|, Punctuation(|items|), Saturate(slots * sizes.value)), spent, limits);
      case HeapObject(entries) =>
        r := SpendOne(Cost(|entries|, Punctuation(|entries|) + |entries|, Saturate(ObjectHeap(|entries|, sizes))),
                      spent, limits);
        if r.Some? {
          r := SpendKeys(entries, r.value, limits);
        }
    }
  }

  method SpendOne(own: Cost, spent: Cost, limits: Limits) returns (r: Option<Cost>)
    requires limits.Valid() && Within(spent, limits)
    ensures r == if Within(spent.Plus(own), limits) then Some(spent.Plus(own)) else None
  {
    var raw := AddBounded(spent.raw, own.raw, limits.rawBytes);
    if raw.None? {
      return None;
    }
    var scheduled := AddBounded(1 + spent.below, own.below, limits.nodes);
    if scheduled.None? {
      return None;
    }
    var heap := AddBounded(spent.heap, own.heap, limits.retained);
    if heap.None? {
      return None;
    }
    r := Some(Cost(scheduled.value - 1, raw.value, heap.value));
  }

  /** The estimate of a diagnostic within all four limits, and nothing otherwise. */
  method HeapEstimate(diagnostic: Diagnostic, limits: Limits, sizes: Sizes) returns (r: Option<nat>)
    requires limits.Valid()
    ensures r == if diagnostic.Accepted(limits, sizes)
                 then Some(diagnostic.Strings() + CostOf(diagnostic.raw, sizes).heap) else None
  {
    hide CostOf, Own, Erase, Children, Scheduled, StackShallow;
    var estimate := diagnostic.Strings();
    if estimate > limits.retained {
      return None;
    }
    var spent := Cost(0, 0, estimate);
    var pending := [Task(diagnostic.raw, 1)];
    OnlyTask(pending[0], limits.depth);
    ghost var whole := Cost(0, 0, estimate).Plus(CostOf(diagnostic.raw, sizes));
    while pending != []
      invariant spent.Plus(StackCost(pending, sizes)) == whole
      invariant Within(spent, limits)
      invariant StackShallow(pending, limits.depth)
           <==> limits.depth > 0 && JsonWriter.Shallow(Erase(diagnostic.raw), limits.depth - 1)
      decreases StackNodes(pending)
    {
      VisitCost(pending, sizes);
      VisitDepth(pending, limits.depth);
      VisitNodes(pending);
      var top := pending[|pending| - 1];
      if top.depth > limits.depth {
        return None;
      }
      var more := Spend(top.value, spent, limits, sizes);
      if more.None? {
        return None;
      }
      var children := Children(top.value);
      if children != [] && top.depth >= limits.depth {
        return None;
      }
      spent := more.value;
      pending := pending[..|pending| - 1] + Scheduled(children, top.depth + 1);
    }
    NothingPending(limits.depth);
    r := Some(spent.heap);
  }

  // ---------------------------------------------------------------------------
  // Termination
  // ---------------------------------------------------------------------------

  function StackNodes(stack: seq<Task>): nat {
    StackCost(stack, Sizes(0, 0, 0)).below + |stack|
  }

  lemma VisitNodes(stack: seq<Task>)
    requires stack != []
    ensures StackNodes(Visited(stack)) < StackNodes(stack)
  {
    hide CostOf;
    VisitCost(stack, Sizes(0, 0, 0));
  }
}
