/**
  Indenting and outdenting the selected lines of a text, with the cursor and
  the anchor that move along.
 */
module LineEdits {
  import opened Wrappers
  import opened Lines

  /** A text with a cursor and, while something is selected, the selection's other end. */
  datatype View = View(text: string, cursor: nat, anchor: Option<nat>)
  {
    predicate InBounds() {
      cursor <= |text| && (anchor.Some? ==> anchor.value <= |text|)
    }
  }

  datatype Change = Change(line: nat, column: nat, delta: int)

  function Line(text: string, extra: set<char>, line: nat): string
    requires line < LineCount(text, extra)
  {
    var start, limit := LineStart(text, extra, line), LineLimit(text, extra, line);
    if start <= limit then text[start..limit] else ""
  }

  /** First and last line that a cursor or selection touches; a line whose start ends the selection is not touched. */
  function Selected(v: View, extra: set<char>): (range: (nat, nat))
    requires v.InBounds()
  {
    if v.anchor.None? || v.anchor.value == v.cursor then
      var line := LineOf(v.text, extra, v.cursor);
      (line, line)
    else
      var start := if v.anchor.value < v.cursor then v.anchor.value else v.cursor;
      var end := if v.anchor.value < v.cursor then v.cursor else v.anchor.value;
      var first, last := LineOf(v.text, extra, start), LineOf(v.text, extra, end);
      LineExists(v.text, extra, end);
      (first, if last > first && end == LineStart(v.text, extra, last) then last - 1 else last)
  }

  lemma SelectedExists(v: View, extra: set<char>)
    requires v.InBounds()
    ensures Selected(v, extra).0 <= Selected(v, extra).1 < LineCount(v.text, extra)
  {
    LineExists(v.text, extra, v.cursor);
    if v.anchor.Some? {
      LineExists(v.text, extra, v.anchor.value);
      if v.anchor.value < v.cursor {
        LineOfGrows(v.text, extra, v.anchor.value, v.cursor);
      } else {
        LineOfGrows(v.text, extra, v.cursor, v.anchor.value);
      }
    }
  }

  function Start(v: View): nat {
    if v.anchor.Some? && v.anchor.value < v.cursor then v.anchor.value else v.cursor
  }

  function End(v: View): nat {
    if v.anchor.Some? && v.anchor.value > v.cursor then v.anchor.value else v.cursor
  }

  /** A selection touches the lines of its characters; a cursor alone touches its own. */
  lemma SelectedIff(v: View, extra: set<char>, line: nat)
    requires v.InBounds()
    ensures Selected(v, extra).0 <= line <= Selected(v, extra).1
       <==> if Start(v) == End(v) then line == LineOf(v.text, extra, v.cursor)
            else exists o | Start(v) <= o < End(v) :: LineOf(v.text, extra, o) == line
  {
    var a, b := Start(v), End(v);
    if a < b {
      LastTouched(v.text, extra, a, b);
      hide Selected;
      var last := LineOf(v.text, extra, b - 1);
      if LineOf(v.text, extra, a) <= line <= last {
        var o := SomeOn(v.text, extra, a, b - 1, line);
      }
      forall o | a <= o < b ensures LineOf(v.text, extra, a) <= LineOf(v.text, extra, o) <= last {
        LineOfGrows(v.text, extra, a, o);
        LineOfGrows(v.text, extra, o, b - 1);
      }
      assert Selected(v, extra) == (LineOf(v.text, extra, a), last) by {
        SelectedSpans(v, extra, a, b);
      }
    }
  }

  lemma SelectedSpans(v: View, extra: set<char>, a: nat, b: nat)
    requires v.InBounds() && v.anchor.Some? && a < b
    requires (a == v.anchor.value && b == v.cursor) || (a == v.cursor && b == v.anchor.value)
    ensures Selected(v, extra) == (LineOf(v.text, extra, a), LineOf(v.text, extra, b - 1))
  {
    LineExists(v.text, extra, b);
    LastTouched(v.text, extra, a, b);
  }

  /** The last line with a character of the range: the one before, if the range ends at a line's start. */
  lemma LastTouched(text: string, extra: set<char>, a: nat, b: nat)
    requires a < b <= |text|
    ensures LineOf(text, extra, b) < LineCount(text, extra)
    ensures var first, last := LineOf(text, extra, a), LineOf(text, extra, b);
            LineOf(text, extra, b - 1) == if last > first && b == LineStart(text, extra, last) then last - 1 else last
  {
    LineExists(text, extra, b);
    LineOfGrows(text, extra, a, b - 1);
    OnLine(text, extra, LineOf(text, extra, b), b - 1);
    OnLine(text, extra, LineOf(text, extra, b), b);
  }

  /** Between two offsets every line in between has one. */
  lemma {:induction false} SomeOn(text: string, extra: set<char>, a: nat, b: nat, line: nat) returns (o: nat)
    requires a <= b <= |text| && LineOf(text, extra, a) <= line <= LineOf(text, extra, b)
    ensures a <= o <= b && LineOf(text, extra, o) == line
    decreases b - a
  {
    if LineOf(text, extra, b) == line {
      o := b;
    } else {
      LineOfGrows(text, extra, a, b);
      o := SomeOn(text, extra, a, b - 1, line);
    }
  }

  // ---------------------------------------------------------------------------
  // Moving a position along
  // ---------------------------------------------------------------------------

  function Shift(line: nat, column: nat, change: Change): int {
    if change.line < line then change.delta
    else if change.line == line then
      if change.delta >= 0 then if column >= change.column then change.delta else 0
      else if column > change.column - change.delta then change.delta
      else if column > change.column then -(column - change.column)
      else 0
    else 0
  }

  function Shifts(line: nat, column: nat, changes: seq<Change>): int {
    if changes == [] then 0
    else Shifts(line, column, changes[..|changes| - 1]) + Shift(line, column, changes[|changes| - 1])
  }

  function Column(text: string, extra: set<char>, position: nat): nat
    requires position <= |text|
  {
    LineExists(text, extra, position);
    var start := LineStart(text, extra, LineOf(text, extra, position));
    if position < start then 0 else position - start
  }

  function Adjusted(text: string, extra: set<char>, position: nat, changes: seq<Change>): nat
    requires position <= |text|
  {
    var moved := position + Shifts(LineOf(text, extra, position), Column(text, extra, position), changes);
    if moved < 0 then 0 else moved
  }

  // ---------------------------------------------------------------------------
  // The two edits
  // ---------------------------------------------------------------------------

  function Unit(width: nat, spaces: bool): string {
    if spaces then seq(if width < 1 then 1 else width, _ => ' ') else "\t"
  }

  /** Lines `first` up to, not including, `k`, each with the unit in front. */
  function IndentBlock(text: string, extra: set<char>, first: nat, k: nat, unit: string): string
    requires first <= k <= LineCount(text, extra)
  {
    if k == first then "" else IndentBlock(text, extra, first, k - 1, unit) + unit + Line(text, extra, k - 1)
  }

  function EvenChanges(first: nat, k: nat, delta: int): (changes: seq<Change>)
    requires first <= k
    ensures |changes| == k - first
  {
    if k == first then [] else EvenChanges(first, k - 1, delta) + [Change(k - 1, 0, delta)]
  }

  function Spaces(body: string, most: nat): (n: nat)
    ensures n <= |body| && n <= most
  {
    if most > 0 && body != "" && body[0] == ' ' then 1 + Spaces(body[1..], most - 1) else 0
  }

  /** A line without its LF. */
  function BodyOf(line: string): string {
    if line != "" && line[|line| - 1] == '\n' then line[..|line| - 1] else line
  }

  /** How much of a line's indentation goes. */
  function Removal(line: string, width: nat): (n: nat)
    ensures n <= |line|
  {
    var body := BodyOf(line);
    if body != "" && body[0] == '\t' then 1 else Spaces(body, if width < 1 then 1 else width)
  }

  function OutdentBlock(text: string, extra: set<char>, first: nat, k: nat, width: nat): string
    requires first <= k <= LineCount(text, extra)
  {
    if k == first then ""
    else
      var line := Line(text, extra, k - 1);
      OutdentBlock(text, extra, first, k - 1, width) + line[Removal(line, width)..]
  }

  function OutdentChanges(text: string, extra: set<char>, first: nat, k: nat, width: nat): seq<Change>
    requires first <= k <= LineCount(text, extra)
  {
    if k == first then []
    else
      var n := Removal(Line(text, extra, k - 1), width);
      OutdentChanges(text, extra, first, k - 1, width) + if n == 0 then [] else [Change(k - 1, 0, -(n as int))]
  }

  /** The text with a block in place of some lines, and positions moved along. */
  function Changed(v: View, extra: set<char>, first: nat, last: nat, block: string, changes: seq<Change>): View
    requires v.InBounds() && first <= last < LineCount(v.text, extra)
  {
    var cursor := Adjusted(v.text, extra, v.cursor, changes);
    var anchor := if v.anchor.None? then None
                  else
                    var moved := Adjusted(v.text, extra, v.anchor.value, changes);
                    if moved == cursor then None else Some(moved);
    View(v.text[..LineStart(v.text, extra, first)] + block + v.text[LineLimit(v.text, extra, last)..], cursor, anchor)
  }

  function Indent(v: View, extra: set<char>, unit: string): View
    requires v.InBounds()
  {
    SelectedExists(v, extra);
    var (first, last) := Selected(v, extra);
    Changed(v, extra, first, last, IndentBlock(v.text, extra, first, last + 1, unit),
            EvenChanges(first, last + 1, |unit|))
  }

  /** Without a change to make, nothing moves. */
  function Outdent(v: View, extra: set<char>, width: nat): View
    requires v.InBounds()
  {
    SelectedExists(v, extra);
    var (first, last) := Selected(v, extra);
    var changes := OutdentChanges(v.text, extra, first, last + 1, width);
    if changes == [] then v
    else Changed(v, extra, first, last, OutdentBlock(v.text, extra, first, last + 1, width), changes)
  }

  // ---------------------------------------------------------------------------
  // An indented text, character by character
  // ---------------------------------------------------------------------------

  /** Which lines are indented, and with what. */
  datatype Plan = Plan(extra: set<char>, first: nat, last: nat, unit: string)
  {
    predicate Valid() {
      && extra <= UNICODE_BREAKS && unit != ""
      && (forall c <- unit :: c == ' ' || c == '\t')
      && first <= last
    }
  }

  predicate StartsLine(text: string, extra: set<char>, o: nat)
    requires o <= |text|
  {
    o == 0 || BreakAt(text, extra, o - 1)
  }

  /** What goes in at an offset. */
  function Added(text: string, p: Plan, o: nat): string
    requires o <= |text|
  {
    if StartsLine(text, p.extra, o) && p.first <= LineOf(text, p.extra, o) <= p.last then p.unit else ""
  }

  /** The indented text up to what goes in at `o`. */
  function Grown(text: string, p: Plan, o: nat): string
    requires o <= |text|
  {
    if o == 0 then "" else Grown(text, p, o - 1) + Added(text, p, o - 1) + [text[o - 1]]
  }

  function Whole(text: string, p: Plan): string {
    Grown(text, p, |text|) + Added(text, p, |text|)
  }

  lemma {:induction false} GrownIsPrefix(text: string, p: Plan, a: nat, b: nat)
    requires a <= b <= |text|
    ensures Grown(text, p, a) <= Grown(text, p, b)
    ensures a < b ==> Grown(text, p, a) + Added(text, p, a) + [text[a]] <= Grown(text, p, b)
  {
    hide Added;
    if a < b {
      GrownIsPrefix(text, p, a, b - 1);
    }
  }

  /** Where the character at `o` went, and what comes right before and after it. */
  lemma GrownAt(text: string, p: Plan, o: nat)
    requires p.Valid() && o < |text|
    ensures var i := |Grown(text, p, o)| + |Added(text, p, o)|;
            && i < |Whole(text, p)| && Whole(text, p)[i] == text[o]
            && |Grown(text, p, o + 1)| == i + 1
            && (BreakAt(Whole(text, p), p.extra, i) <==> BreakAt(text, p.extra, o))
  {
    hide Added, Grown;
    var whole := Whole(text, p);
    GrownStep(text, p, o);
    GrownIsPrefix(text, p, o + 1, |text|);
    AddedIsBlank(text, p, o + 1);
    var next := Grown(text, p, o + 1) + Added(text, p, o + 1);
    if o + 1 < |text| {
      GrownStep(text, p, o + 1);
      GrownIsPrefix(text, p, o + 2, |text|);
    }
    assert next <= whole;
    var i := |Grown(text, p, o)| + |Added(text, p, o)|;
    var added := Added(text, p, o + 1);
    if added != "" {
      assert whole[i + 1] == added[0] && added[0] in added;
    } else if o + 1 < |text| {
      assert whole[i + 1] == text[o + 1];
    } else {
      assert |whole| == i + 1;
    }
  }

  lemma GrownStep(text: string, p: Plan, o: nat)
    requires o < |text|
    ensures Grown(text, p, o + 1) == Grown(text, p, o) + Added(text, p, o) + [text[o]]
  {
  }

  lemma AddedIsBlank(text: string, p: Plan, o: nat)
    requires p.Valid() && o <= |text|
    ensures forall c <- Added(text, p, o) :: c == ' ' || c == '\t'
    ensures Added(text, p, o) != "" ==> StartsLine(text, p.extra, o)
  {
  }

  /** Positions and lines of the indented text. */
  lemma {:induction false} GrownLines(text: string, p: Plan, o: nat, i: nat)
    requires p.Valid() && o <= |text| && i <= |Added(text, p, o)|
    ensures |Grown(text, p, o)| + |Added(text, p, o)| <= |Whole(text, p)|
    ensures LineOf(Whole(text, p), p.extra, |Grown(text, p, o)| + i) == LineOf(text, p.extra, o)
    ensures i == 0 ==> (StartsLine(Whole(text, p), p.extra, |Grown(text, p, o)|) <==> StartsLine(text, p.extra, o))
    decreases o, i
  {
    hide Added, Grown;
    var whole := Whole(text, p);
    AddedFits(text, p, o);
    if i > 0 {
      GrownLines(text, p, o, i - 1);
      AddedIsBlank(text, p, o);
      var at := |Grown(text, p, o)| + i - 1;
      assert whole[at] == Added(text, p, o)[i - 1] && Added(text, p, o)[i - 1] in Added(text, p, o);
      assert !BreakAt(whole, p.extra, at);
    } else if o > 0 {
      GrownAt(text, p, o - 1);
      GrownLines(text, p, o - 1, |Added(text, p, o - 1)|);
    } else {
      NothingGrown(text, p);
    }
  }

  lemma NothingGrown(text: string, p: Plan)
    ensures Grown(text, p, 0) == ""
  {
  }

  lemma AddedFits(text: string, p: Plan, o: nat)
    requires o <= |text|
    ensures Grown(text, p, o) + Added(text, p, o) <= Whole(text, p)
  {
    GrownIsPrefix(text, p, o, |text|);
  }

  lemma SameLineCount(text: string, p: Plan)
    requires p.Valid()
    ensures LineCount(Whole(text, p), p.extra) == LineCount(text, p.extra)
  {
    GrownLines(text, p, |text|, |Added(text, p, |text|)|);
  }

  /** An offset where a line starts is the start of the line it is on. */
  lemma StartIsUnique(text: string, extra: set<char>, o: nat)
    requires o <= |text| && StartsLine(text, extra, o)
    ensures LineOf(text, extra, o) < LineCount(text, extra)
    ensures LineStart(text, extra, LineOf(text, extra, o)) == o
  {
    LineExists(text, extra, o);
    OnLine(text, extra, LineOf(text, extra, o), o);
    var start := LineStart(text, extra, LineOf(text, extra, o));
    if start < o {
      LineOfGrows(text, extra, start, o - 1);
    }
  }

  /** Where the lines of the indented text start and end. */
  lemma GrownStart(text: string, p: Plan, line: nat)
    requires p.Valid() && line < LineCount(text, p.extra)
    ensures line < LineCount(Whole(text, p), p.extra)
    ensures LineStart(Whole(text, p), p.extra, line) == |Grown(text, p, LineStart(text, p.extra, line))|
  {
    hide Added, Grown, Whole;
    SameLineCount(text, p);
    var o := LineStart(text, p.extra, line);
    GrownLines(text, p, o, 0);
    StartIsUnique(Whole(text, p), p.extra, |Grown(text, p, o)|);
  }

  /** The indented text up to the end of a line. */
  function GrownLimit(text: string, p: Plan, line: nat): string
    requires line < LineCount(text, p.extra)
  {
    if line + 1 < LineCount(text, p.extra) then Grown(text, p, LineLimit(text, p.extra, line)) else Whole(text, p)
  }

  /** What goes in at the start of a line. */
  function Front(p: Plan, line: nat): string {
    if p.first <= line <= p.last then p.unit else ""
  }

  lemma AddedAtStart(text: string, p: Plan, line: nat)
    requires line < LineCount(text, p.extra)
    ensures Added(text, p, LineStart(text, p.extra, line)) == Front(p, line)
  {
  }

  lemma {:induction false} GrownAlongLine(text: string, p: Plan, line: nat, o: nat)
    requires line < LineCount(text, p.extra) && LineStart(text, p.extra, line) < o <= LineLimit(text, p.extra, line)
    ensures Grown(text, p, o)
         == Grown(text, p, LineStart(text, p.extra, line)) + (Front(p, line) + text[LineStart(text, p.extra, line)..o])
    decreases o
  {
    hide Grown, Added, LineStart, LineLimit, LineOf, Front;
    var start := LineStart(text, p.extra, line);
    GrownStep(text, p, o - 1);
    if o - 1 > start {
      GrownAlongLine(text, p, line, o - 1);
      OnLine(text, p.extra, line, o - 1);
      NotAtStart(text, p, line, o - 1);
      OneMoreAfter(Grown(text, p, start), Front(p, line), text, start, o - 1);
    } else {
      AddedAtStart(text, p, line);
      OneCharacter(Grown(text, p, start), Front(p, line), text, start);
    }
  }

  lemma OneCharacter(head: string, unit: string, text: string, a: nat)
    requires a < |text|
    ensures head + unit + [text[a]] == head + (unit + text[a..a + 1])
  {
  }

  lemma OneMoreAfter(head: string, unit: string, text: string, a: nat, b: nat)
    requires a <= b < |text|
    ensures head + (unit + text[a..b]) + "" + [text[b]] == head + (unit + text[a..b + 1])
  {
  }

  lemma OneMoreCharacter(head: string, text: string, a: nat, b: nat)
    requires a <= b < |text|
    ensures head + text[a..b] + "" + [text[b]] == head + text[a..b + 1]
  {
  }

  lemma NotAtStart(text: string, p: Plan, line: nat, o: nat)
    requires o <= |text| && LineOf(text, p.extra, o) == line < LineCount(text, p.extra)
             && LineStart(text, p.extra, line) < o
    ensures Added(text, p, o) == ""
  {
    if StartsLine(text, p.extra, o) {
      StartIsUnique(text, p.extra, o);
    }
  }

  /** A line of the indented text is the old line, with the unit in front if it is among the indented ones. */
  lemma GrownLine(text: string, p: Plan, line: nat)
    requires p.Valid() && line < LineCount(text, p.extra)
    ensures GrownLimit(text, p, line)
         == Grown(text, p, LineStart(text, p.extra, line))
            + (Front(p, line) + Line(text, p.extra, line))
  {
    hide Grown, Added, Front, LineOf;
    var start, limit := LineStart(text, p.extra, line), LineLimit(text, p.extra, line);
    OnLine(text, p.extra, line, start);
    AddedAtStart(text, p, line);
    if limit > start {
      GrownAlongLine(text, p, line, limit);
      if line + 1 == LineCount(text, p.extra) {
        OnLine(text, p.extra, line, limit);
        NotAtStart(text, p, line, limit);
      }
    }
  }

  // ---------------------------------------------------------------------------
  // The block edit makes the indented text
  // ---------------------------------------------------------------------------

  lemma {:induction false} GrownBefore(text: string, p: Plan, o: nat)
    requires p.Valid() && p.first < LineCount(text, p.extra) && o <= LineStart(text, p.extra, p.first)
    ensures Grown(text, p, o) == text[..o]
    ensures o < LineStart(text, p.extra, p.first) ==> Added(text, p, o) == ""
  {
    var first := LineStart(text, p.extra, p.first);
    if o < first {
      OnLine(text, p.extra, p.first, o);
      LineOfGrows(text, p.extra, o, first);
    }
    if o > 0 {
      GrownBefore(text, p, o - 1);
      assert text[..o] == text[..o - 1] + [text[o - 1]];
    }
  }

  lemma {:induction false} GrownAfter(text: string, p: Plan, o: nat)
    requires p.Valid() && p.last + 1 < LineCount(text, p.extra) && LineLimit(text, p.extra, p.last) <= o <= |text|
    ensures Grown(text, p, o) == GrownLimit(text, p, p.last) + text[LineLimit(text, p.extra, p.last)..o]
    ensures Added(text, p, o) == ""
  {
    hide Grown, LineStart;
    var limit := LineLimit(text, p.extra, p.last);
    LineOfGrows(text, p.extra, limit, o);
    if o > limit {
      GrownAfter(text, p, o - 1);
      GrownStep(text, p, o - 1);
      OneMoreCharacter(GrownLimit(text, p, p.last), text, limit, o - 1);
    }
  }

  lemma WholeTail(text: string, p: Plan)
    requires p.Valid() && p.last < LineCount(text, p.extra)
    ensures Whole(text, p) == GrownLimit(text, p, p.last) + text[LineLimit(text, p.extra, p.last)..]
  {
    hide Grown, Added;
    if p.last + 1 < LineCount(text, p.extra) {
      GrownAfter(text, p, |text|);
    }
  }

  lemma {:induction false} BlockIsGrown(text: string, p: Plan, k: nat)
    requires p.Valid() && p.first <= k <= p.last + 1 <= LineCount(text, p.extra)
    ensures var head := text[..LineStart(text, p.extra, p.first)] + IndentBlock(text, p.extra, p.first, k, p.unit);
            head == if k == p.first then Grown(text, p, LineStart(text, p.extra, p.first))
                    else GrownLimit(text, p, k - 1)
    decreases k
  {
    hide Grown, Line, LineStart, Whole, LineOf;
    var first := LineStart(text, p.extra, p.first);
    if k == p.first {
      GrownBefore(text, p, first);
      assert text[..first] + "" == text[..first];
    } else {
      BlockIsGrown(text, p, k - 1);
      PlanLine(text, p, k - 1);
      Regroup(text[..first], IndentBlock(text, p.extra, p.first, k - 1, p.unit), p.unit, Line(text, p.extra, k - 1));
    }
  }

  lemma PlanLine(text: string, p: Plan, line: nat)
    requires p.Valid() && p.first <= line <= p.last && line < LineCount(text, p.extra)
    ensures GrownLimit(text, p, line)
         == Grown(text, p, LineStart(text, p.extra, line)) + (p.unit + Line(text, p.extra, line))
    ensures line > p.first ==> Grown(text, p, LineStart(text, p.extra, line)) == GrownLimit(text, p, line - 1)
  {
    hide Grown, Line, LineStart;
    GrownLine(text, p, line);
  }

  lemma Regroup(a: string, b: string, c: string, d: string)
    ensures a + (b + c + d) == a + b + (c + d)
  {
  }

  // ---------------------------------------------------------------------------
  // Positions in the indented text
  // ---------------------------------------------------------------------------

  /** How many indented lines there are up to this one. */
  function Counted(p: Plan, line: nat): nat {
    if line < p.first then 0
    else if line <= p.last then line - p.first + 1
    else if p.first <= p.last then p.last - p.first + 1
    else 0
  }

  function Moved(text: string, p: Plan, o: nat): nat
    requires o <= |text|
  {
    |Grown(text, p, o)| + |Added(text, p, o)|
  }

  lemma {:induction false} MovedBy(text: string, p: Plan, o: nat)
    requires p.Valid() && o <= |text|
    ensures Moved(text, p, o) == o + |p.unit| * Counted(p, LineOf(text, p.extra, o))
  {
    var u := |p.unit|;
    if o > 0 {
      MovedBy(text, p, o - 1);
      var before, line := LineOf(text, p.extra, o - 1), LineOf(text, p.extra, o);
      Distribute(u, Counted(p, before));
      if line > before && p.first <= line <= p.last {
        assert Counted(p, line) == Counted(p, before) + 1;
      } else {
        assert Counted(p, line) == Counted(p, before);
      }
    } else if p.first == 0 {
      assert u * 1 == u;
    }
  }

  lemma Distribute(u: nat, n: nat)
    ensures u * (n + 1) == u * n + u
  {
  }

  function Times(delta: int, n: nat): int {
    if n == 0 then 0 else Times(delta, n - 1) + delta
  }

  lemma {:induction false} TimesIsProduct(delta: int, n: nat)
    ensures Times(delta, n) == delta * n
  {
    if n > 0 {
      TimesIsProduct(delta, n - 1);
    }
  }

  /** How many of the lines from `first` up to, not including, `k` lie above `line`. */
  function Above(line: nat, first: nat, k: nat): nat
    requires first <= k
  {
    if line < first then 0 else if line < k then line - first else k - first
  }

  /** The sum of the shifts of evenly changed lines. */
  lemma {:induction false} EvenShifts(line: nat, column: nat, first: nat, k: nat, delta: int)
    requires first <= k
    ensures Shifts(line, column, EvenChanges(first, k, delta))
         == Times(delta, Above(line, first, k))
            + if first <= line < k then Shift(line, column, Change(line, 0, delta)) else 0
    decreases k
  {
    hide Shift;
    if k > first {
      EvenShifts(line, column, first, k - 1, delta);
      var changes := EvenChanges(first, k, delta);
      assert changes[..|changes| - 1] == EvenChanges(first, k - 1, delta);
      if line != k - 1 {
        ShiftElsewhere(line, column, k - 1, delta);
      }
    }
  }

  lemma ShiftElsewhere(line: nat, column: nat, other: nat, delta: int)
    requires other != line
    ensures Shift(line, column, Change(other, 0, delta)) == if other < line then delta else 0
  {
  }

  /** The source's adjustment moves every position to where its character went. */
  lemma IndentMoves(text: string, p: Plan, o: nat)
    requires p.Valid() && o <= |text|
    ensures Adjusted(text, p.extra, o, EvenChanges(p.first, p.last + 1, |p.unit|)) == Moved(text, p, o)
  {
    hide LineOf, Moved, Column, EvenChanges, Shifts;
    var line, u := LineOf(text, p.extra, o), |p.unit|;
    EvenShifts(line, Column(text, p.extra, o), p.first, p.last + 1, u);
    TimesIsProduct(u, Above(line, p.first, p.last + 1));
    MovedBy(text, p, o);
    if p.first <= line <= p.last {
      Distribute(u, line - p.first);
    }
  }

  lemma {:induction false} MovedRises(text: string, p: Plan, a: nat, b: nat)
    requires a < b <= |text|
    ensures Moved(text, p, a) < |Grown(text, p, b)| <= Moved(text, p, b)
  {
    GrownIsPrefix(text, p, a, b);
  }

  lemma MovedLine(text: string, p: Plan, o: nat)
    requires p.Valid() && o <= |text|
    ensures Moved(text, p, o) <= |Whole(text, p)|
    ensures LineOf(Whole(text, p), p.extra, Moved(text, p, o)) == LineOf(text, p.extra, o)
  {
    GrownLines(text, p, o, |Added(text, p, o)|);
  }

  lemma MovedColumn(text: string, p: Plan, o: nat)
    requires p.Valid() && o <= |text|
    ensures Moved(text, p, o) <= |Whole(text, p)|
    ensures var line := LineOf(text, p.extra, o);
            Column(Whole(text, p), p.extra, Moved(text, p, o))
            == Column(text, p.extra, o) + if p.first <= line <= p.last then |p.unit| else 0
  {
    hide Whole, LineOf, Grown, Added;
    var line := LineOf(text, p.extra, o);
    LineExists(text, p.extra, o);
    OnLine(text, p.extra, line, o);
    var start := LineStart(text, p.extra, line);
    MovedLine(text, p, o);
    GrownStart(text, p, line);
    AddedAtStart(text, p, line);
    if o > start {
      GrownAlongLine(text, p, line, o);
      NotAtStart(text, p, line, o);
    }
  }

  /** Taking the unit away again moves every position back. */
  lemma OutdentMovesBack(text: string, p: Plan, o: nat)
    requires p.Valid() && o <= |text|
    ensures Moved(text, p, o) <= |Whole(text, p)|
    ensures Adjusted(Whole(text, p), p.extra, Moved(text, p, o), EvenChanges(p.first, p.last + 1, -(|p.unit| as int)))
         == o
  {
    hide LineOf, Moved, Column, EvenChanges, Shifts, Whole;
    var line, u := LineOf(text, p.extra, o), |p.unit|;
    MovedLine(text, p, o);
    MovedColumn(text, p, o);
    MovedBy(text, p, o);
    EvenShifts(line, Column(Whole(text, p), p.extra, Moved(text, p, o)), p.first, p.last + 1, -(u as int));
    TimesIsProduct(-(u as int), Above(line, p.first, p.last + 1));
    if p.first <= line <= p.last {
      Distribute(u, line - p.first);
      Negate(u, line - p.first);
    } else if line > p.last {
      Negate(u, p.last + 1 - p.first);
    }
  }

  lemma Negate(u: nat, n: nat)
    ensures -(u as int) * n == -(u * n)
  {
  }

  // ---------------------------------------------------------------------------
  // Outdenting the indented text
  // ---------------------------------------------------------------------------

  /** What a line loses: its first tab, or else as many of its first spaces as the width allows, and no line break. */
  lemma RemovalMeans(line: string, width: nat)
    ensures var n, body := Removal(line, width), BodyOf(line);
            if body != "" && body[0] == '\t' then n == 1
            else
              && n <= |body| && n <= (if width < 1 then 1 else width)
              && (forall i | 0 <= i < n :: body[i] == ' ')
              && (n == (if width < 1 then 1 else width) || n == |body| || body[n] != ' ')
  {
    SpacesMean(BodyOf(line), if width < 1 then 1 else width);
  }

  lemma {:induction false} SpacesMean(body: string, most: nat)
    ensures var n := Spaces(body, most);
            && (forall i | 0 <= i < n :: body[i] == ' ')
            && (n == most || n == |body| || body[n] != ' ')
  {
    if most > 0 && body != "" && body[0] == ' ' {
      SpacesMean(body[1..], most - 1);
      var n := Spaces(body, most);
      assert forall i | 0 < i < n :: body[i] == body[1..][i - 1];
    }
  }

  lemma UnitIsBlank(width: nat, spaces: bool)
    ensures var unit := Unit(width, spaces);
            && unit != "" && (forall c <- unit :: c == ' ' || c == '\t')
            && if spaces then |unit| == (if width < 1 then 1 else width) && (forall c <- unit :: c == ' ')
               else unit == "\t"
  {
  }

  lemma {:induction false} SpacesOfUnit(unit: string, rest: string)
    requires forall c <- unit :: c == ' '
    ensures Spaces(unit + rest, |unit|) == |unit|
  {
    if unit != "" {
      assert unit[0] in unit && forall c <- unit[1..] :: c in unit;
      SpacesOfUnit(unit[1..], rest);
      assert (unit + rest)[1..] == unit[1..] + rest;
    }
  }

  /** Outdenting takes exactly the unit from a line that starts with it. */
  lemma RemovalOfUnit(width: nat, spaces: bool, line: string)
    ensures Removal(Unit(width, spaces) + line, width) == |Unit(width, spaces)|
  {
    UnitIsBlank(width, spaces);
    var unit := Unit(width, spaces);
    var body := BodyOf(unit + line);
    assert unit[|unit| - 1] in unit && unit[0] in unit;
    assert line == "" ==> unit + line == unit;
    assert body == unit + BodyOf(line);
    SpacesOfUnit(if spaces then unit else "", BodyOf(line));
  }

  lemma WholeLine(text: string, p: Plan, line: nat)
    requires p.Valid() && p.first <= line <= p.last && line < LineCount(text, p.extra)
    ensures line < LineCount(Whole(text, p), p.extra)
    ensures Line(Whole(text, p), p.extra, line) == p.unit + Line(text, p.extra, line)
    ensures LineLimit(Whole(text, p), p.extra, line) == |GrownLimit(text, p, line)| <= |Whole(text, p)|
  {
    hide Grown, Added, Whole, LineStart, LineLimit, GrownLimit, LineOf;
    GrownStart(text, p, line);
    WholeLimit(text, p, line);
    GrownLine(text, p, line);
    LimitIsPrefix(text, p, line);
    var start, limit := Grown(text, p, LineStart(text, p.extra, line)), GrownLimit(text, p, line);
    Slice(start, p.unit + Line(text, p.extra, line), limit, Whole(text, p));
  }

  lemma WholeLimit(text: string, p: Plan, line: nat)
    requires p.Valid() && line < LineCount(text, p.extra)
    ensures line < LineCount(Whole(text, p), p.extra)
    ensures LineLimit(Whole(text, p), p.extra, line) == |GrownLimit(text, p, line)|
  {
    hide Grown, Added, Whole, LineStart, LineOf;
    SameLineCount(text, p);
    if line + 1 < LineCount(text, p.extra) {
      GrownStart(text, p, line + 1);
    }
  }

  lemma Slice(head: string, middle: string, both: string, whole: string)
    requires both == head + middle && both <= whole
    ensures |head| <= |both| && whole[|head|..|both|] == middle
  {
  }

  lemma LimitIsPrefix(text: string, p: Plan, line: nat)
    requires line < LineCount(text, p.extra)
    ensures GrownLimit(text, p, line) <= Whole(text, p)
  {
    GrownIsPrefix(text, p, LineLimit(text, p.extra, line), |text|);
  }

  lemma {:induction false} OutdentBlockIsPlain(text: string, p: Plan, k: nat, width: nat, spaces: bool)
    requires p.Valid() && p.unit == Unit(width, spaces) && p.first <= k <= p.last + 1 <= LineCount(text, p.extra)
    ensures LineCount(Whole(text, p), p.extra) == LineCount(text, p.extra)
    ensures OutdentChanges(Whole(text, p), p.extra, p.first, k, width) == EvenChanges(p.first, k, -(|p.unit| as int))
    ensures OutdentBlock(Whole(text, p), p.extra, p.first, k, width) == PlainBlock(text, p.extra, p.first, k)
    decreases k
  {
    hide Line, Whole, Removal, LineCount;
    SameLineCount(text, p);
    if k > p.first {
      OutdentBlockIsPlain(text, p, k - 1, width, spaces);
      WholeLine(text, p, k - 1);
      RemovalOfUnit(width, spaces, Line(text, p.extra, k - 1));
      assert (p.unit + Line(text, p.extra, k - 1))[|p.unit|..] == Line(text, p.extra, k - 1);
    }
  }

  /** Lines `first` up to, not including, `k` as they are. */
  function PlainBlock(text: string, extra: set<char>, first: nat, k: nat): string
    requires first <= k <= LineCount(text, extra)
  {
    if k == first then "" else PlainBlock(text, extra, first, k - 1) + Line(text, extra, k - 1)
  }

  lemma {:induction false} PlainBlockIsText(text: string, extra: set<char>, first: nat, k: nat)
    requires first < k <= LineCount(text, extra)
    ensures LineStart(text, extra, first) <= LineLimit(text, extra, k - 1)
    ensures PlainBlock(text, extra, first, k) == text[LineStart(text, extra, first)..LineLimit(text, extra, k - 1)]
    decreases k
  {
    hide LineStart, LineOf, LineLimit;
    var start, limit := LineStart(text, extra, k - 1), LineLimit(text, extra, k - 1);
    StartBeforeLimit(text, extra, k - 1);
    if k - 1 > first {
      PlainBlockIsText(text, extra, first, k - 1);
      LimitIsNextStart(text, extra, k - 2);
      Joined(text, LineStart(text, extra, first), start, limit);
    } else {
      assert PlainBlock(text, extra, first, first) == "";
    }
  }

  lemma StartBeforeLimit(text: string, extra: set<char>, line: nat)
    requires line < LineCount(text, extra)
    ensures LineStart(text, extra, line) <= LineLimit(text, extra, line) <= |text|
  {
    OnLine(text, extra, line, LineStart(text, extra, line));
  }

  lemma LimitIsNextStart(text: string, extra: set<char>, line: nat)
    requires line + 1 < LineCount(text, extra)
    ensures LineLimit(text, extra, line) == LineStart(text, extra, line + 1)
  {
  }

  lemma Joined(text: string, a: nat, b: nat, c: nat)
    requires a <= b <= c <= |text|
    ensures text[a..b] + text[b..c] == text[a..c]
  {
  }

  /** The plan of indenting what a view selects. */
  function PlanFor(v: View, extra: set<char>, unit: string): Plan
    requires v.InBounds()
  {
    Plan(extra, Selected(v, extra).0, Selected(v, extra).1, unit)
  }

  /** What indenting does to a view, in terms of where each character goes. */
  lemma IndentIsWhole(v: View, extra: set<char>, unit: string)
    requires v.InBounds() && PlanFor(v, extra, unit).Valid()
    ensures var p := PlanFor(v, extra, unit);
            var after := Indent(v, extra, unit);
            && after.text == Whole(v.text, p)
            && after.cursor == Moved(v.text, p, v.cursor)
            && after.anchor == (if v.anchor.None? || v.anchor.value == v.cursor then None
                                else Some(Moved(v.text, p, v.anchor.value)))
  {
    hide Adjusted, Moved, Whole, IndentBlock, Selected, GrownLimit, Grown;
    var p := PlanFor(v, extra, unit);
    SelectedExists(v, extra);
    BlockIsGrown(v.text, p, p.last + 1);
    WholeTail(v.text, p);
    IndentMoves(v.text, p, v.cursor);
    if v.anchor.Some? {
      var a := v.anchor.value;
      IndentMoves(v.text, p, a);
      MovedApart(v.text, p, a, v.cursor);
    }
  }

  lemma MovedApart(text: string, p: Plan, a: nat, b: nat)
    requires a <= |text| && b <= |text|
    ensures a < b <==> Moved(text, p, a) < Moved(text, p, b)
    ensures a == b <==> Moved(text, p, a) == Moved(text, p, b)
  {
    hide Moved;
    if a < b {
      MovedRises(text, p, a, b);
    } else if b < a {
      MovedRises(text, p, b, a);
    }
  }

  lemma SelectedWhole(v: View, extra: set<char>, unit: string)
    requires v.InBounds() && PlanFor(v, extra, unit).Valid()
    ensures var after := Indent(v, extra, unit);
            after.InBounds() && Selected(after, extra) == Selected(v, extra)
  {
    hide Adjusted, Moved, Whole, Indent, LineOf, LineStart;
    var p := PlanFor(v, extra, unit);
    IndentIsWhole(v, extra, unit);
    MovedLine(v.text, p, v.cursor);
    if v.anchor.Some? && v.anchor.value != v.cursor {
      var a := v.anchor.value;
      MovedLine(v.text, p, a);
      MovedApart(v.text, p, a, v.cursor);
      var end := if a < v.cursor then v.cursor else a;
      LineExists(v.text, extra, end);
      EndAtStart(v.text, p, end);
      SameLineCount(v.text, p);
    }
  }

  /** An offset stands at the start of a line that is not indented exactly when it still does after indenting. */
  lemma EndAtStart(text: string, p: Plan, end: nat)
    requires p.Valid() && end <= |text|
    ensures var line := LineOf(text, p.extra, end);
            && line < LineCount(text, p.extra) && line < LineCount(Whole(text, p), p.extra)
            && (line > p.last || line < p.first ==>
                  (Moved(text, p, end) == LineStart(Whole(text, p), p.extra, line)
               <==> end == LineStart(text, p.extra, line)))
            && (p.first <= line <= p.last ==> Moved(text, p, end) != LineStart(Whole(text, p), p.extra, line))
  {
    hide Grown, Added, Whole, LineOf, LineStart, Moved;
    var line := LineOf(text, p.extra, end);
    LineExists(text, p.extra, end);
    OnLine(text, p.extra, line, end);
    var start := LineStart(text, p.extra, line);
    GrownStart(text, p, line);
    MovedStart(text, p, line);
    if start < end {
      MovedRises(text, p, start, end);
    }
  }

  lemma MovedStart(text: string, p: Plan, line: nat)
    requires line < LineCount(text, p.extra)
    ensures var start := LineStart(text, p.extra, line);
            Moved(text, p, start) == |Grown(text, p, start)| + |Front(p, line)|
  {
    AddedAtStart(text, p, line);
  }

  /**
    Outdenting right after indenting, with the same width, gives text, cursor
    and selection back; an anchor at the cursor, which selects nothing, is
    dropped.
   */
  lemma OutdentUndoesIndent(v: View, extra: set<char>, width: nat, spaces: bool)
    requires v.InBounds() && extra <= UNICODE_BREAKS
    ensures var unit := Unit(width, spaces);
            && Indent(v, extra, unit).InBounds()
            && Outdent(Indent(v, extra, unit), extra, width)
               == v.(anchor := if v.anchor == Some(v.cursor) then None else v.anchor)
  {
    hide Adjusted, Moved, Whole, Indent, Selected, OutdentBlock, OutdentChanges, EvenChanges;
    hide LineStart, LineLimit, LineOf, GrownLimit, Grown;
    var unit := Unit(width, spaces);
    UnitIsBlank(width, spaces);
    SelectedExists(v, extra);
    var p := PlanFor(v, extra, unit);
    var after := Indent(v, extra, unit);
    IndentIsWhole(v, extra, unit);
    SelectedWhole(v, extra, unit);
    OutdentBlockIsPlain(v.text, p, p.last + 1, width, spaces);
    SomeChanges(p.first, p.last + 1, -(|unit| as int));
    OutdentMovesBack(v.text, p, v.cursor);
    if v.anchor.Some? {
      OutdentMovesBack(v.text, p, v.anchor.value);
    }
    PlainInPlace(v.text, p);
  }

  lemma SomeChanges(first: nat, k: nat, delta: int)
    requires first < k
    ensures EvenChanges(first, k, delta) != []
  {
  }

  lemma PlainInPlace(text: string, p: Plan)
    requires p.Valid() && p.last < LineCount(text, p.extra)
    ensures p.last < LineCount(Whole(text, p), p.extra)
    ensures Whole(text, p)[..LineStart(Whole(text, p), p.extra, p.first)]
            + PlainBlock(text, p.extra, p.first, p.last + 1)
            + Whole(text, p)[LineLimit(Whole(text, p), p.extra, p.last)..] == text
  {
    hide Grown, Added, Whole, LineStart, LineLimit, PlainBlock, LineOf, LineCount;
    FrontKept(text, p);
    BackKept(text, p);
    PlainBlockIsText(text, p.extra, p.first, p.last + 1);
    StartBeforeLimit(text, p.extra, p.last);
    Thirds(text, LineStart(text, p.extra, p.first), LineLimit(text, p.extra, p.last));
  }

  lemma FrontKept(text: string, p: Plan)
    requires p.Valid() && p.first < LineCount(text, p.extra)
    ensures p.first < LineCount(Whole(text, p), p.extra)
    ensures Whole(text, p)[..LineStart(Whole(text, p), p.extra, p.first)] == text[..LineStart(text, p.extra, p.first)]
  {
    hide Grown, Added, Whole, LineStart, LineOf;
    var first := LineStart(text, p.extra, p.first);
    GrownStart(text, p, p.first);
    GrownBefore(text, p, first);
    StartIsPrefix(text, p, first);
    Prefixed(text[..first], Whole(text, p));
  }

  lemma BackKept(text: string, p: Plan)
    requires p.Valid() && p.last < LineCount(text, p.extra)
    ensures p.last < LineCount(Whole(text, p), p.extra)
    ensures Whole(text, p)[LineLimit(Whole(text, p), p.extra, p.last)..] == text[LineLimit(text, p.extra, p.last)..]
  {
    hide Grown, Added, Whole, LineStart, LineLimit, LineOf, GrownLimit;
    WholeLine(text, p, p.last);
    WholeTail(text, p);
    Suffix(GrownLimit(text, p, p.last), text[LineLimit(text, p.extra, p.last)..]);
  }

  lemma Suffix(a: string, b: string)
    ensures (a + b)[|a|..] == b
  {
  }

  lemma Prefixed(a: string, b: string)
    requires a <= b
    ensures b[..|a|] == a
  {
  }

  lemma Thirds(text: string, a: nat, b: nat)
    requires a <= b <= |text|
    ensures text[..a] + text[a..b] + text[b..] == text
  {
  }

  lemma StartIsPrefix(text: string, p: Plan, o: nat)
    requires o <= |text|
    ensures Grown(text, p, o) <= Whole(text, p)
  {
    GrownIsPrefix(text, p, o, |text|);
  }

  // ---------------------------------------------------------------------------
  // Outdenting any text
  // ---------------------------------------------------------------------------

  function Least(a: nat, b: nat): nat { if a < b then a else b }

  /** A position moves back by what went from the lines above, and on its own line not beyond the line's start. */
  lemma {:induction false} OutdentShifts(
      text: string, extra: set<char>, line: nat, column: nat, first: nat, k: nat, width: nat)
    requires first <= k <= LineCount(text, extra)
    ensures Shifts(line, column, OutdentChanges(text, extra, first, k, width))
         == if line < first then 0
            else if line >= k then |OutdentBlock(text, extra, first, k, width)| - |PlainBlock(text, extra, first, k)|
            else |OutdentBlock(text, extra, first, line, width)| - |PlainBlock(text, extra, first, line)|
                 - Least(column, Removal(Line(text, extra, line), width))
    decreases k
  {
    hide Line, Removal, LineCount, Shifts, Shift;
    if k == first {
      NothingShifts(line, column);
    } else {
      OutdentShifts(text, extra, line, column, first, k - 1, width);
      var before := OutdentChanges(text, extra, first, k - 1, width);
      var n := Removal(Line(text, extra, k - 1), width);
      if n == 0 {
        assert before + [] == before;
      } else {
        OneMoreShift(line, column, before, k - 1, n);
      }
    }
  }

  lemma NothingShifts(line: nat, column: nat)
    ensures Shifts(line, column, []) == 0
  {
  }

  lemma OneMoreShift(line: nat, column: nat, before: seq<Change>, other: nat, n: nat)
    requires n > 0
    ensures Shifts(line, column, before + [Change(other, 0, -(n as int))])
         == Shifts(line, column, before) - if other < line then n else if other == line then Least(column, n) else 0
  {
    var changes := before + [Change(other, 0, -(n as int))];
    assert changes[..|changes| - 1] == before;
  }

  /** Outdenting changes the text exactly when some line loses something. */
  lemma {:induction false} OutdentChangesText(text: string, extra: set<char>, first: nat, k: nat, width: nat)
    requires first <= k <= LineCount(text, extra)
    ensures |OutdentBlock(text, extra, first, k, width)| <= |PlainBlock(text, extra, first, k)|
    ensures OutdentChanges(text, extra, first, k, width) == []
       <==> OutdentBlock(text, extra, first, k, width) == PlainBlock(text, extra, first, k)
    ensures OutdentChanges(text, extra, first, k, width) != []
        ==> |OutdentBlock(text, extra, first, k, width)| < |PlainBlock(text, extra, first, k)|
    decreases k
  {
    hide Line, Removal, LineCount;
    if k > first {
      OutdentChangesText(text, extra, first, k - 1, width);
      var line := Line(text, extra, k - 1);
      assert line[0..] == line;
    }
  }

  lemma NothingPlain(text: string, extra: set<char>, first: nat)
    requires first <= LineCount(text, extra)
    ensures PlainBlock(text, extra, first, first) == "" && OutdentBlock(text, extra, first, first, 0) == ""
    ensures forall width: nat :: OutdentBlock(text, extra, first, first, width) == ""
  {
  }

  lemma LineStartsRise(text: string, extra: set<char>, a: nat, b: nat)
    requires a < b < LineCount(text, extra)
    ensures LineLimit(text, extra, a) <= LineStart(text, extra, b)
  {
    hide LineStart;
    OnLine(text, extra, b, LineStart(text, extra, b));
    OnLine(text, extra, a, LineStart(text, extra, b));
    if LineStart(text, extra, b) < LineLimit(text, extra, a) {
      OnLine(text, extra, a, LineStart(text, extra, a));
      LineOfGrows(text, extra, LineStart(text, extra, b), LineLimit(text, extra, a) - 1);
      OnLine(text, extra, a, LineLimit(text, extra, a) - 1);
    }
  }

  /** Which lines are outdented, and by how much at most. */
  datatype Reach = Reach(extra: set<char>, first: nat, last: nat, width: nat)

  /** The character is in the indentation that goes. */
  predicate Leaves(text: string, r: Reach, i: nat)
    requires i < |text|
  {
    LineExists(text, r.extra, i);
    var line := LineOf(text, r.extra, i);
    r.first <= line <= r.last && i < LineStart(text, r.extra, line) + Removal(Line(text, r.extra, line), r.width)
  }

  /** The characters before `o` that stay. */
  function Staying(text: string, r: Reach, o: nat): string
    requires o <= |text|
  {
    if o == 0 then ""
    else Staying(text, r, o - 1) + if Leaves(text, r, o - 1) then "" else [text[o - 1]]
  }

  lemma {:induction false} StayingRises(text: string, r: Reach, a: nat, b: nat)
    requires a <= b <= |text|
    ensures |Staying(text, r, a)| <= |Staying(text, r, b)|
  {
    hide Leaves;
    if a < b {
      StayingRises(text, r, a, b - 1);
    }
  }

  lemma {:induction false} StayingBefore(text: string, r: Reach, o: nat)
    requires r.first < LineCount(text, r.extra) && o <= LineStart(text, r.extra, r.first)
    ensures Staying(text, r, o) == text[..o]
  {
    hide Removal, Line, LineStart;
    if o > 0 {
      OnLine(text, r.extra, r.first, o - 1);
      LineOfGrows(text, r.extra, o - 1, LineStart(text, r.extra, r.first));
      StayingBefore(text, r, o - 1);
      assert text[..o] == text[..o - 1] + [text[o - 1]];
    }
  }

  lemma StayingStep(text: string, r: Reach, line: nat, o: nat)
    requires r.first <= line <= r.last && line < LineCount(text, r.extra)
    requires LineStart(text, r.extra, line) <= o < LineLimit(text, r.extra, line)
    ensures Staying(text, r, o + 1)
         == Staying(text, r, o)
            + if o < LineStart(text, r.extra, line) + Removal(Line(text, r.extra, line), r.width) then ""
              else [text[o]]
  {
    hide Removal, Line, LineStart, LineLimit;
    OnLine(text, r.extra, line, o);
    LastLimit(text, r.extra, line);
  }

  lemma KeptGrows(text: string, start: nat, n: nat, o: nat)
    requires start <= o < |text|
    ensures text[start + Least(o + 1 - start, n)..o + 1]
         == text[start + Least(o - start, n)..o] + if o < start + n then "" else [text[o]]
  {
  }

  /** Along an outdented line everything stays but the front of it. */
  lemma {:induction false} StayingAlong(text: string, r: Reach, line: nat, o: nat)
    requires r.first <= line <= r.last && line < LineCount(text, r.extra)
    requires LineStart(text, r.extra, line) <= o <= LineLimit(text, r.extra, line)
    ensures var start := LineStart(text, r.extra, line);
            var n := Least(o - start, Removal(Line(text, r.extra, line), r.width));
            Staying(text, r, o) == Staying(text, r, start) + text[start + n..o]
  {
    hide Removal, Line, LineStart, LineLimit, LineOf, Staying;
    var start, n := LineStart(text, r.extra, line), Removal(Line(text, r.extra, line), r.width);
    if o == start {
      assert text[start..start] == "";
      assert Staying(text, r, start) + "" == Staying(text, r, start);
    } else {
      StayingAlong(text, r, line, o - 1);
      StayingStep(text, r, line, o - 1);
      KeptGrows(text, start, n, o - 1);
      Assoc(Staying(text, r, start), text[start + Least(o - 1 - start, n)..o - 1],
            if o - 1 < start + n then "" else [text[o - 1]]);
    }
  }

  lemma LastLimit(text: string, extra: set<char>, line: nat)
    requires line < LineCount(text, extra)
    ensures line + 1 == LineCount(text, extra) ==> LineLimit(text, extra, line) == |text|
    ensures LineLimit(text, extra, line) <= |text|
  {
  }

  lemma {:induction false} StayingAfter(text: string, r: Reach, o: nat)
    requires r.last < LineCount(text, r.extra) && LineLimit(text, r.extra, r.last) <= o <= |text|
    ensures Staying(text, r, o)
         == Staying(text, r, LineLimit(text, r.extra, r.last)) + text[LineLimit(text, r.extra, r.last)..o]
  {
    hide Removal, Line, LineStart, LineLimit;
    var limit := LineLimit(text, r.extra, r.last);
    if o > limit {
      StayingAfter(text, r, o - 1);
      BehindLine(text, r.extra, r.last, o - 1);
      OneMoreCharacter(Staying(text, r, limit), text, limit, o - 1);
    } else {
      assert text[limit..o] == "";
    }
  }

  lemma StayingToEnd(text: string, r: Reach)
    requires r.last < LineCount(text, r.extra)
    ensures var limit := LineLimit(text, r.extra, r.last);
            Staying(text, r, |text|) == Staying(text, r, limit) + text[limit..]
  {
    hide LineOf, LineLimit, Staying;
    var limit := LineLimit(text, r.extra, r.last);
    StayingAfter(text, r, |text|);
    assert text[limit..|text|] == text[limit..];
  }

  lemma BehindLine(text: string, extra: set<char>, line: nat, o: nat)
    requires line < LineCount(text, extra) && LineLimit(text, extra, line) <= o < |text|
    ensures LineOf(text, extra, o) > line
  {
    hide LineStart;
    if line + 1 < LineCount(text, extra) {
      LineOfGrows(text, extra, LineStart(text, extra, line + 1), o);
    }
  }

  lemma LineStays(text: string, r: Reach, line: nat)
    requires r.first <= line <= r.last && line < LineCount(text, r.extra)
    ensures var kept := Line(text, r.extra, line)[Removal(Line(text, r.extra, line), r.width)..];
            Staying(text, r, LineLimit(text, r.extra, line)) == Staying(text, r, LineStart(text, r.extra, line)) + kept
  {
    hide Removal, LineStart, LineLimit, LineOf, Staying;
    StartBeforeLimit(text, r.extra, line);
    StayingAlong(text, r, line, LineLimit(text, r.extra, line));
  }

  /** Up to the end of an outdented line, what stays is the front of the text and the block. */
  lemma {:induction false} BlockIsStaying(text: string, r: Reach, k: nat)
    requires r.first <= r.last < LineCount(text, r.extra) && r.first <= k <= r.last + 1
    ensures text[..LineStart(text, r.extra, r.first)] + OutdentBlock(text, r.extra, r.first, k, r.width)
         == Staying(text, r, if k == r.first then LineStart(text, r.extra, r.first)
                                else LineLimit(text, r.extra, k - 1))
    decreases k
  {
    hide Removal, Line, LineStart, LineLimit, LineOf, Staying;
    var first := LineStart(text, r.extra, r.first);
    if k == r.first {
      StayingBefore(text, r, first);
      assert text[..first] + "" == text[..first];
    } else {
      BlockIsStaying(text, r, k - 1);
      if k - 1 > r.first {
        LimitIsNextStart(text, r.extra, k - 2);
      }
      LineStays(text, r, k - 1);
      var line := Line(text, r.extra, k - 1);
      Assoc(text[..first], OutdentBlock(text, r.extra, r.first, k - 1, r.width), line[Removal(line, r.width)..]);
    }
  }

  lemma Assoc(a: string, b: string, c: string)
    ensures a + b + c == a + (b + c)
  {
  }

  /** A position moves to where what stays before it ends. */
  lemma OutdentMoves(text: string, r: Reach, o: nat)
    requires r.first <= r.last < LineCount(text, r.extra) && o <= |text|
    ensures Adjusted(text, r.extra, o, OutdentChanges(text, r.extra, r.first, r.last + 1, r.width))
         == |Staying(text, r, o)|
  {
    hide OutdentChanges, OutdentBlock, LineOf, LineStart, PlainBlock, Removal, Shifts, Staying, Line, LineLimit;
    var line := LineOf(text, r.extra, o);
    LineExists(text, r.extra, o);
    OnLine(text, r.extra, line, o);
    LastLimit(text, r.extra, line);
    var start, first := LineStart(text, r.extra, line), LineStart(text, r.extra, r.first);
    OutdentShifts(text, r.extra, line, Column(text, r.extra, o), r.first, r.last + 1, r.width);
    StartBeforeLimit(text, r.extra, r.first);
    if line < r.first {
      LineStartsRise(text, r.extra, line, r.first);
      StayingBefore(text, r, o);
    } else if line <= r.last {
      if line > r.first {
        PlainBlockIsText(text, r.extra, r.first, line);
        LimitIsNextStart(text, r.extra, line - 1);
      } else {
        NothingPlain(text, r.extra, r.first);
      }
      BlockIsStaying(text, r, line);
      StayingAlong(text, r, line, o);
    } else {
      LineStartsRise(text, r.extra, r.last, line);
      PlainBlockIsText(text, r.extra, r.first, r.last + 1);
      BlockIsStaying(text, r, r.last + 1);
      StayingAfter(text, r, o);
    }
  }

  /** The lines a view selects. */
  function ReachFor(v: View, extra: set<char>, width: nat): Reach
    requires v.InBounds()
  {
    Reach(extra, Selected(v, extra).0, Selected(v, extra).1, width)
  }

  lemma Between(a: string, b: string, c: string, d: string)
    ensures a + b + d == a + c + d <==> b == c
  {
    if a + b + d == a + c + d {
      assert (a + b + d)[|a|..|a| + |b|] == b && (a + c + d)[|a|..|a| + |c|] == c;
    }
  }

  lemma OutdentedText(text: string, r: Reach)
    requires r.first <= r.last < LineCount(text, r.extra)
    ensures text[..LineStart(text, r.extra, r.first)] + OutdentBlock(text, r.extra, r.first, r.last + 1, r.width)
            + text[LineLimit(text, r.extra, r.last)..] == Staying(text, r, |text|)
  {
    hide OutdentBlock, LineOf, LineStart, LineLimit, LineCount, Staying;
    BlockIsStaying(text, r, r.last + 1);
    StayingToEnd(text, r);
  }

  lemma NothingGoes(text: string, r: Reach)
    requires r.first <= r.last < LineCount(text, r.extra)
    ensures OutdentChanges(text, r.extra, r.first, r.last + 1, r.width) == [] <==> Staying(text, r, |text|) == text
  {
    hide OutdentChanges, OutdentBlock, LineOf, LineStart, LineLimit, PlainBlock, Staying;
    var first, limit := LineStart(text, r.extra, r.first), LineLimit(text, r.extra, r.last);
    OutdentedText(text, r);
    StartBeforeLimit(text, r.extra, r.last);
    PlainBlockIsText(text, r.extra, r.first, r.last + 1);
    Thirds(text, first, limit);
    OutdentChangesText(text, r.extra, r.first, r.last + 1, r.width);
    Between(text[..first], OutdentBlock(text, r.extra, r.first, r.last + 1, r.width),
            PlainBlock(text, r.extra, r.first, r.last + 1), text[limit..]);
  }

  /**
    Outdenting any text takes away the indentation that goes and nothing else,
    and moves cursor and anchor to where what stays before them ends.  An anchor
    that meets the cursor is dropped, unless nothing went at all.
   */
  lemma OutdentIsWhole(v: View, extra: set<char>, width: nat)
    requires v.InBounds()
    ensures var r := ReachFor(v, extra, width);
            var after := Outdent(v, extra, width);
            && after.InBounds()
            && after.text == Staying(v.text, r, |v.text|)
            && after.cursor == |Staying(v.text, r, v.cursor)|
            && after.anchor == (
                 if v.anchor.None? then None
                 else if |Staying(v.text, r, v.anchor.value)| == after.cursor && after.text != v.text then None
                 else Some(|Staying(v.text, r, v.anchor.value)|))
  {
    hide Adjusted, OutdentChanges, OutdentBlock, LineStart, LineOf, LineLimit, Selected, Staying;
    var r := ReachFor(v, extra, width);
    SelectedExists(v, extra);
    OutdentedText(v.text, r);
    NothingGoes(v.text, r);
    OutdentMoves(v.text, r, v.cursor);
    StayingRises(v.text, r, v.cursor, |v.text|);
    if v.anchor.Some? {
      OutdentMoves(v.text, r, v.anchor.value);
      StayingRises(v.text, r, v.anchor.value, |v.text|);
    }
    NothingAdjusts(v.text, extra);
  }

  lemma NothingAdjusts(text: string, extra: set<char>)
    ensures forall o: nat | o <= |text| :: Adjusted(text, extra, o, []) == o
  {
  }

  lemma {:induction false} IndentGrowsText(text: string, extra: set<char>, first: nat, k: nat, unit: string)
    requires first <= k <= LineCount(text, extra)
    ensures |IndentBlock(text, extra, first, k, unit)|
         >= |PlainBlock(text, extra, first, k)| + if k > first then |unit| else 0
    decreases k
  {
    hide Line, LineCount;
    if k > first {
      IndentGrowsText(text, extra, first, k - 1, unit);
    }
  }
}
