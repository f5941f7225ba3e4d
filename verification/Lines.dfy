/**
  The lines of a text.  LF ends a line, alone or after CR; a rope may be built
  to see further line breaks, and every module that depends on lines takes the
  set of those as a parameter `extra`.  A CR before LF never ends a line.
 */
module Lines {

  /** Unicode line breaks other than LF: VT, FF, CR, NEL, LS and PS. */
  const UNICODE_BREAKS: set<char> := {'\U{0b}', '\U{0c}', '\r', '\U{85}', '\U{2028}', '\U{2029}'}

  /** Whether a line ends after the character at `i`. */
  predicate BreakAt(text: string, extra: set<char>, i: nat)
    requires i < |text|
  {
    text[i] == '\n' || (text[i] in extra && !(text[i] == '\r' && i + 1 < |text| && text[i + 1] == '\n'))
  }

  /** How many lines end before `o`: the index of the line that `o` is on. */
  function LineOf(text: string, extra: set<char>, o: nat): nat
    requires o <= |text|
  {
    if o == 0 then 0 else LineOf(text, extra, o - 1) + if BreakAt(text, extra, o - 1) then 1 else 0
  }

  function LineCount(text: string, extra: set<char>): (n: nat)
    ensures n > 0
  {
    LineOf(text, extra, |text|) + 1
  }

  /** Where a line starts. */
  function LineStart(text: string, extra: set<char>, line: nat): (o: nat)
    requires line < LineCount(text, extra)
    ensures o <= |text| && LineOf(text, extra, o) == line && (o > 0 ==> BreakAt(text, extra, o - 1))
  {
    StartBelow(text, extra, line, |text|)
  }

  function StartBelow(text: string, extra: set<char>, line: nat, n: nat): (o: nat)
    requires n <= |text| && line <= LineOf(text, extra, n)
    ensures o <= n && LineOf(text, extra, o) == line && (o > 0 ==> BreakAt(text, extra, o - 1))
  {
    if n == 0 then 0
    else if line <= LineOf(text, extra, n - 1) then StartBelow(text, extra, line, n - 1)
    else n
  }

  /** Where a line ends, its line break included. */
  function LineLimit(text: string, extra: set<char>, line: nat): (o: nat)
    requires line < LineCount(text, extra)
    ensures o <= |text|
  {
    if line + 1 < LineCount(text, extra) then LineStart(text, extra, line + 1) else |text|
  }

  lemma {:induction false} LineOfGrows(text: string, extra: set<char>, a: nat, b: nat)
    requires a <= b <= |text|
    ensures LineOf(text, extra, a) <= LineOf(text, extra, b)
  {
    if a < b {
      LineOfGrows(text, extra, a, b - 1);
    }
  }

  lemma {:induction false} StartIsLeast(text: string, extra: set<char>, line: nat, n: nat, o: nat)
    requires n <= |text| && o <= n && LineOf(text, extra, o) == line && line <= LineOf(text, extra, n)
    ensures StartBelow(text, extra, line, n) <= o
  {
    if n > 0 && line <= LineOf(text, extra, n - 1) {
      if o == n {
        LineOfGrows(text, extra, n - 1, n);
        assert StartBelow(text, extra, line, n) <= n - 1;
      } else {
        StartIsLeast(text, extra, line, n - 1, o);
      }
    } else if n > 0 && o < n {
      LineOfGrows(text, extra, o, n - 1);
    }
  }

  /** An offset is on a line exactly from the line's start up to, not including, the start of the next. */
  lemma OnLine(text: string, extra: set<char>, line: nat, o: nat)
    requires line < LineCount(text, extra) && o <= |text|
    ensures LineOf(text, extra, o) == line
       <==> LineStart(text, extra, line) <= o
            && (if line + 1 < LineCount(text, extra) then o < LineLimit(text, extra, line)
                else o <= LineLimit(text, extra, line))
  {
    var start := LineStart(text, extra, line);
    if LineOf(text, extra, o) == line {
      LineOfGrows(text, extra, o, |text|);
      StartIsLeast(text, extra, line, |text|, o);
    } else if o >= start {
      LineOfGrows(text, extra, start, o);
      LineOfGrows(text, extra, o, |text|);
    }
    if line + 1 < LineCount(text, extra) {
      var next := LineStart(text, extra, line + 1);
      if o < next {
        LineOfGrows(text, extra, o, next - 1);
      } else {
        LineOfGrows(text, extra, next, o);
      }
    }
  }

  lemma LineExists(text: string, extra: set<char>, o: nat)
    requires o <= |text|
    ensures LineOf(text, extra, o) < LineCount(text, extra)
  {
    LineOfGrows(text, extra, o, |text|);
  }
}
