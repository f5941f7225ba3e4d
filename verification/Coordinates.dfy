/**
  Between scalar offsets and UTF-16 positions (LSP 3.17, "Position"), strictly:
  what has no exact counterpart is an error.
 */
module Coordinates {
  import opened Lines

  datatype Position = Position(line: nat, character: nat)

  datatype CoordinateError =
    | CharOutOfBounds(offset: nat, length: nat)
    | CursorInsideLineEnding(offset: nat)
    | LineOutOfBounds(line: nat, lineCount: nat)
    | Utf16InsideSurrogatePair(line: nat, character: nat)
    | Utf16OutOfBounds(line: nat, character: nat, lineLength: nat)

  datatype Result<T> = Ok(value: T) | Err(error: CoordinateError)

  function Units(c: char): nat { if c < '\U{10000}' then 1 else 2 }

  /** UTF-16 units of the text between two offsets. */
  function Utf16(text: string, from: nat, to: nat): nat
    requires from <= to <= |text|
  {
    if from == to then 0 else Utf16(text, from, to - 1) + Units(text[to - 1])
  }

  /** A character in UTF-16: one code unit, or a surrogate pair. */
  function CodeUnits(c: char): seq<int> {
    var n := c as int;
    if n < 0x1_0000 then [n] else [0xd800 + (n - 0x1_0000) / 0x400, 0xdc00 + (n - 0x1_0000) % 0x400]
  }

  function InUtf16(text: string): seq<int> {
    if text == "" then [] else InUtf16(text[..|text| - 1]) + CodeUnits(text[|text| - 1])
  }

  /** The character that code units begin with. */
  function FirstOf(units: seq<int>): int
    requires units != []
  {
    if 0xd800 <= units[0] < 0xdc00 && |units| > 1 then 0x1_0000 + (units[0] - 0xd800) * 0x400 + (units[1] - 0xdc00)
    else units[0]
  }

  lemma UnitsComeBack(c: char)
    ensures FirstOf(CodeUnits(c)) == c as int && |CodeUnits(c)| == Units(c)
    ensures forall u <- CodeUnits(c) :: 0 <= u < 0x1_0000
  {
  }

  /** The length counted is that of the text in UTF-16. */
  lemma {:induction false} Utf16IsLength(text: string, from: nat, to: nat)
    requires from <= to <= |text|
    ensures Utf16(text, from, to) == |InUtf16(text[from..to])|
  {
    if from < to {
      Utf16IsLength(text, from, to - 1);
      UnitsComeBack(text[to - 1]);
      var s := text[from..to];
      assert s[..|s| - 1] == text[from..to - 1] && s[|s| - 1] == text[to - 1];
    }
  }

  /** Where a line ends without its LF or CR LF. */
  function ContentEnd(text: string, extra: set<char>, line: nat): (end: nat)
    requires line < LineCount(text, extra)
    ensures end <= |text|
  {
    var start, limit := LineStart(text, extra, line), LineLimit(text, extra, line);
    if limit > start && text[limit - 1] == '\n' then
      if limit - 1 > start && text[limit - 2] == '\r' then limit - 2 else limit - 1
    else limit
  }

  function ToPosition(text: string, extra: set<char>, offset: nat): Result<Position> {
    if offset > |text| then Err(CharOutOfBounds(offset, |text|))
    else
      LineExists(text, extra, offset);
      var line := LineOf(text, extra, offset);
      OnLine(text, extra, line, offset);
      if offset > ContentEnd(text, extra, line) then Err(CursorInsideLineEnding(offset))
      else Ok(Position(line, Utf16(text, LineStart(text, extra, line), offset)))
  }

  /** Walking along a line from `at`, `units` of which are passed, to the wanted character. */
  function Walk(text: string, p: Position, at: nat, end: nat, units: nat): Result<nat>
    requires at <= end <= |text|
    decreases end - at
  {
    if units == p.character then Ok(at)
    else if at == end then Err(Utf16OutOfBounds(p.line, p.character, units))
    else if p.character < units + Units(text[at]) then Err(Utf16InsideSurrogatePair(p.line, p.character))
    else Walk(text, p, at + 1, end, units + Units(text[at]))
  }

  lemma StartBeforeContentEnd(text: string, extra: set<char>, line: nat)
    requires line < LineCount(text, extra)
    ensures LineStart(text, extra, line) <= ContentEnd(text, extra, line) <= LineLimit(text, extra, line)
  {
    OnLine(text, extra, line, LineStart(text, extra, line));
  }

  function FromPosition(text: string, extra: set<char>, p: Position): Result<nat> {
    if p.line >= LineCount(text, extra) then Err(LineOutOfBounds(p.line, LineCount(text, extra)))
    else
      StartBeforeContentEnd(text, extra, p.line);
      Walk(text, p, LineStart(text, extra, p.line), ContentEnd(text, extra, p.line), 0)
  }

  method PositionToChar(text: string, extra: set<char>, p: Position) returns (r: Result<nat>)
    ensures r == FromPosition(text, extra, p)
  {
    var lineCount := LineCount(text, extra);
    if p.line >= lineCount {
      return Err(LineOutOfBounds(p.line, lineCount));
    }
    var start := LineStart(text, extra, p.line);
    var end := ContentEnd(text, extra, p.line);
    StartBeforeContentEnd(text, extra, p.line);
    var utf16: nat := 0;
    if p.character == 0 {
      return Ok(start);
    }
    for offset := start to end
      invariant utf16 != p.character
      invariant FromPosition(text, extra, p) == Walk(text, p, offset, end, utf16)
    {
      var next := utf16 + Units(text[offset]);
      if p.character < next {
        return Err(Utf16InsideSurrogatePair(p.line, p.character));
      }
      utf16 := next;
      if p.character == utf16 {
        return Ok(offset + 1);
      }
    }
    r := Err(Utf16OutOfBounds(p.line, p.character, utf16));
  }

  // ---------------------------------------------------------------------------
  // What is accepted
  // ---------------------------------------------------------------------------

  predicate InsideCrLf(text: string, o: nat) {
    0 < o < |text| && text[o - 1] == '\r' && text[o] == '\n'
  }

  /** The only offsets in range without a position lie between CR and LF. */
  lemma OffsetAccepted(text: string, extra: set<char>, o: nat)
    ensures ToPosition(text, extra, o).Ok? <==> o <= |text| && !InsideCrLf(text, o)
  {
    if o <= |text| {
      LineExists(text, extra, o);
      var line := LineOf(text, extra, o);
      var start, limit := LineStart(text, extra, line), LineLimit(text, extra, line);
      OnLine(text, extra, line, o);
      if InsideCrLf(text, o) {
        BreakEndsLine(text, extra, o);
        assert start != o;
      } else if o > ContentEnd(text, extra, line) {
        LastLineHasNoBreak(text, extra, line);
      }
    }
  }

  /** An offset is rejected as out of bounds or as inside a line ending, whichever it is. */
  lemma OffsetRejected(text: string, extra: set<char>, o: nat)
    ensures ToPosition(text, extra, o) == Err(CharOutOfBounds(o, |text|)) <==> o > |text|
    ensures ToPosition(text, extra, o) == Err(CursorInsideLineEnding(o)) <==> o <= |text| && InsideCrLf(text, o)
  {
    OffsetAccepted(text, extra, o);
  }

  /** The character after which a line ends is the last of its line. */
  lemma BreakEndsLine(text: string, extra: set<char>, i: nat)
    requires i < |text| && BreakAt(text, extra, i)
    ensures var line := LineOf(text, extra, i);
            line + 1 < LineCount(text, extra) && LineLimit(text, extra, line) == i + 1
  {
    var line := LineOf(text, extra, i);
    assert LineOf(text, extra, i + 1) == line + 1;
    LineExists(text, extra, i + 1);
    hide StartBelow, LineStart, LineOf, BreakAt, LineCount;
    OnLine(text, extra, line, i);
    OnLine(text, extra, line + 1, i + 1);
  }

  lemma LastLineHasNoBreak(text: string, extra: set<char>, line: nat)
    requires line + 1 == LineCount(text, extra)
    ensures ContentEnd(text, extra, line) == |text|
  {
    if LineStart(text, extra, line) < |text| {
      LineOfGrows(text, extra, LineStart(text, extra, line), |text| - 1);
    }
  }

  lemma {:induction false} Utf16Grows(text: string, from: nat, a: nat, b: nat)
    requires from <= a <= b <= |text|
    ensures Utf16(text, from, b) >= Utf16(text, from, a) + (b - a)
  {
    if a < b {
      Utf16Grows(text, from, a, b - 1);
    }
  }

  /** Which offset, if any, a walk ends at. */
  lemma {:induction false} WalkFinds(text: string, p: Position, start: nat, at: nat, end: nat, o: nat)
    requires start <= at <= end <= |text| && Utf16(text, start, at) <= p.character
    ensures Walk(text, p, at, end, Utf16(text, start, at)) == Ok(o)
       <==> at <= o <= end && Utf16(text, start, o) == p.character
    decreases end - at
  {
    if at <= o <= end {
      Utf16Grows(text, start, at, o);
    }
    if at < end && p.character >= Utf16(text, start, at + 1) {
      WalkFinds(text, p, start, at + 1, end, o);
    }
    if at + 1 <= o <= end {
      Utf16Grows(text, start, at + 1, o);
    }
  }

  /** A position is accepted exactly when its line exists and some offset on the line's content has its column. */
  lemma PositionAccepted(text: string, extra: set<char>, p: Position, o: nat)
    ensures FromPosition(text, extra, p) == Ok(o)
       <==> p.line < LineCount(text, extra)
            && LineStart(text, extra, p.line) <= o <= ContentEnd(text, extra, p.line)
            && Utf16(text, LineStart(text, extra, p.line), o) == p.character
  {
    if p.line < LineCount(text, extra) {
      StartBeforeContentEnd(text, extra, p.line);
      var start := LineStart(text, extra, p.line);
      WalkFinds(text, p, start, start, ContentEnd(text, extra, p.line), o);
    }
  }

  /** Between the two halves of the surrogate pair at `k`. */
  predicate Splits(text: string, start: nat, character: nat, k: nat)
    requires start <= k < |text|
  {
    Utf16(text, start, k) < character < Utf16(text, start, k + 1)
  }

  lemma {:induction false} WalkRejects(text: string, p: Position, start: nat, at: nat, end: nat)
    requires start <= at <= end <= |text| && Utf16(text, start, at) <= p.character
    ensures var r := Walk(text, p, at, end, Utf16(text, start, at));
            && (r.Err? ==> !r.error.LineOutOfBounds?)
            && (r == Err(Utf16OutOfBounds(p.line, p.character, Utf16(text, start, end)))
               <==> p.character > Utf16(text, start, end))
            && (r == Err(Utf16InsideSurrogatePair(p.line, p.character))
               <==> exists k | at <= k < end :: Splits(text, start, p.character, k))
    decreases end - at
  {
    Utf16Grows(text, start, at, end);
    if Utf16(text, start, at) < p.character && at < end {
      if p.character >= Utf16(text, start, at + 1) {
        WalkRejects(text, p, start, at + 1, end);
      } else {
        assert Splits(text, start, p.character, at);
        Utf16Grows(text, start, at + 1, end);
      }
    } else {
      forall k | at <= k < end ensures !Splits(text, start, p.character, k) {
        Utf16Grows(text, start, at, k);
      }
    }
  }

  /** The only positions rejected are past the last line, past the end of their line, or inside a surrogate pair. */
  lemma PositionRejected(text: string, extra: set<char>, p: Position)
    ensures FromPosition(text, extra, p) == Err(LineOutOfBounds(p.line, LineCount(text, extra)))
       <==> p.line >= LineCount(text, extra)
    ensures p.line < LineCount(text, extra) ==>
              var start, end := LineStart(text, extra, p.line), ContentEnd(text, extra, p.line);
              && start <= end
              && (FromPosition(text, extra, p) == Err(Utf16OutOfBounds(p.line, p.character, Utf16(text, start, end)))
                 <==> p.character > Utf16(text, start, end))
              && (FromPosition(text, extra, p) == Err(Utf16InsideSurrogatePair(p.line, p.character))
                 <==> exists k | start <= k < end :: Splits(text, start, p.character, k))
  {
    if p.line < LineCount(text, extra) {
      StartBeforeContentEnd(text, extra, p.line);
      WalkRejects(text, p, LineStart(text, extra, p.line), LineStart(text, extra, p.line),
                  ContentEnd(text, extra, p.line));
    }
  }

  // ---------------------------------------------------------------------------
  // There and back
  // ---------------------------------------------------------------------------

  /** Every accepted offset comes back from its position. */
  lemma OffsetRoundTrip(text: string, extra: set<char>, o: nat)
    requires ToPosition(text, extra, o).Ok?
    ensures FromPosition(text, extra, ToPosition(text, extra, o).value) == Ok(o)
  {
    LineExists(text, extra, o);
    OnLine(text, extra, LineOf(text, extra, o), o);
    PositionAccepted(text, extra, ToPosition(text, extra, o).value, o);
  }

  /** Behind a line break that is neither LF nor CR LF: the same offset as the start of the next line. */
  predicate AtForeignBreak(text: string, extra: set<char>, p: Position)
    requires p.line < LineCount(text, extra)
  {
    && p.line + 1 < LineCount(text, extra)
    && ContentEnd(text, extra, p.line) == LineLimit(text, extra, p.line)
    && LineStart(text, extra, p.line) <= ContentEnd(text, extra, p.line)
    && p.character == Utf16(text, LineStart(text, extra, p.line), ContentEnd(text, extra, p.line))
  }

  /** Every accepted position comes back from its offset, unless it stands behind a foreign line break. */
  lemma PositionRoundTrip(text: string, extra: set<char>, p: Position)
    requires FromPosition(text, extra, p).Ok?
    ensures p.line < LineCount(text, extra)
    ensures ToPosition(text, extra, FromPosition(text, extra, p).value) == Ok(p) <==> !AtForeignBreak(text, extra, p)
  {
    var o := FromPosition(text, extra, p).value;
    PositionAccepted(text, extra, p, o);
    var start, end := LineStart(text, extra, p.line), ContentEnd(text, extra, p.line);
    StartBeforeContentEnd(text, extra, p.line);
    OnLine(text, extra, p.line, o);
    if o < end {
      Utf16Grows(text, start, o, end);
    }
    LineExists(text, extra, o);
    OnLine(text, extra, LineOf(text, extra, o), o);
  }

  /** A position behind a line separator comes back as the start of the next line. */
  lemma SeparatorIsForeign(extra: set<char>)
    requires '\U{2028}' in extra
    ensures FromPosition("\U{2028}", extra, Position(0, 1)) == Ok(1)
    ensures ToPosition("\U{2028}", extra, 1) == Ok(Position(1, 0))
  {
    var text := "\U{2028}";
    assert LineOf(text, extra, 0) == 0 && LineOf(text, extra, 1) == 1;
    OnLine(text, extra, 0, 0);
    OnLine(text, extra, 1, 1);
    PositionAccepted(text, extra, Position(0, 1), 1);
  }

  /** Without foreign line breaks there is no exception. */
  lemma PositionRoundTripPlain(text: string, p: Position)
    requires FromPosition(text, {}, p).Ok?
    ensures ToPosition(text, {}, FromPosition(text, {}, p).value) == Ok(p)
  {
    PositionRoundTrip(text, {}, p);
    if p.line + 1 < LineCount(text, {}) {
      var start, limit := LineStart(text, {}, p.line), LineLimit(text, {}, p.line);
      OnLine(text, {}, p.line, start);
      assert BreakAt(text, {}, limit - 1);
    }
  }

  predicate Before(p: Position, q: Position) {
    p.line < q.line || (p.line == q.line && p.character < q.character)
  }

  /** Later offsets have later positions. */
  lemma OrderKept(text: string, extra: set<char>, a: nat, b: nat)
    requires ToPosition(text, extra, a).Ok? && ToPosition(text, extra, b).Ok?
    ensures a < b <==> Before(ToPosition(text, extra, a).value, ToPosition(text, extra, b).value)
  {
    OneWay(text, extra, a, b);
    OneWay(text, extra, b, a);
  }

  lemma OneWay(text: string, extra: set<char>, a: nat, b: nat)
    requires ToPosition(text, extra, a).Ok? && ToPosition(text, extra, b).Ok?
    ensures a < b ==> Before(ToPosition(text, extra, a).value, ToPosition(text, extra, b).value)
  {
    if a < b {
      LineOfGrows(text, extra, a, b);
      if LineOf(text, extra, a) == LineOf(text, extra, b) {
        OnLine(text, extra, LineOf(text, extra, a), a);
        Utf16Grows(text, LineStart(text, extra, LineOf(text, extra, a)), a, b);
      }
    }
  }
}
