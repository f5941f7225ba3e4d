/**
  The header of a frame as its fields, however they are spelled: names in any
  case, blanks around names and values, fields in any order.
 */
module FrameHeaders {
  import opened Wrappers
  import opened Machine
  import opened Utf8
  import opened Decimals
  import opened Framing

  predicate Blank(s: string) { forall c <- s :: c as int == 0x20 || 0x09 <= c as int <= 0x0c }

  predicate NameCharacter(c: char) {
    var n := c as int;
    0x30 <= n <= 0x39 || 0x41 <= n <= 0x5a || 0x61 <= n <= 0x7a || n == 0x2d
  }

  /** The same letter, or an upper-case letter and its lower-case form. */
  predicate Spells(c: char, small: char) {
    c == small || (0x41 <= c as int <= 0x5a && c as int + 0x20 == small as int)
  }

  const CONTENT_LENGTH: string := "content-length"

  datatype Field = Field(left: string, name: string, right: string, before: string, value: string, after: string)
  {
    function Line(): string {
      left + name + right + ":" + (before + value + after)
    }

    predicate Valid() {
      && Blank(left) && Blank(right) && Blank(before) && Blank(after)
      && name != "" && (forall c <- name :: NameCharacter(c))
      && (forall c <- value :: c as int < 0x80 && c != '\r')
      && (value != "" ==> !Blank([value[0]]) && !Blank([value[|value| - 1]]))
    }

    predicate IsLength() {
      |name| == |CONTENT_LENGTH| && forall i | 0 <= i < |name| :: Spells(name[i], CONTENT_LENGTH[i])
    }

    predicate Gives(n: nat) {
      value != "" && Digits(value) && Amount(value) == n && n <= USIZE_MAX
    }
  }

  function Joined(fields: seq<Field>): string {
    if fields == [] then ""
    else fields[0].Line() + (if |fields| == 1 then "" else "\r\n" + Joined(fields[1..]))
  }

  // ---------------------------------------------------------------------------
  // One field
  // ---------------------------------------------------------------------------

  lemma BlankIsSpace(c: char)
    ensures Blank([c]) ==> IsSpace(c) && c != '\r'
    ensures IsSpace(c) && c != '\r' ==> Blank([c])
  {
    assert c in [c];
  }

  lemma {:induction false} TrimStartSkips(blank: string, s: string)
    requires Blank(blank)
    ensures TrimStart(blank + s) == TrimStart(s)
  {
    if blank == "" {
      assert blank + s == s;
    } else {
      assert blank[0] in blank && forall c <- blank[1..] :: c in blank;
      assert (blank + s)[1..] == blank[1..] + s;
      TrimStartSkips(blank[1..], s);
    }
  }

  lemma BlankInTwo(a: string, b: string)
    ensures Blank(a + b) <==> Blank(a) && Blank(b)
  {
    assert forall c :: c in a + b <==> c in a || c in b;
  }

  lemma {:induction false} TrimEndSkips(s: string, blank: string)
    requires Blank(blank)
    ensures TrimEnd(s + blank) == TrimEnd(s)
    decreases |blank|
  {
    if blank == "" {
      assert s + blank == s;
    } else {
      var last := blank[|blank| - 1];
      var front := blank[..|blank| - 1];
      assert blank == front + [last];
      BlankInTwo(front, [last]);
      BlankIsSpace(last);
      assert (s + blank)[..|s + blank| - 1] == s + front;
      TrimEndSkips(s, front);
    }
  }

  lemma TrimFinds(left: string, s: string, right: string)
    requires Blank(left) && Blank(right)
    requires s != "" ==> !IsSpace(s[0]) && !IsSpace(s[|s| - 1])
    ensures Trim(left + s + right) == s
  {
    assert left + s + right == left + (s + right);
    TrimStartSkips(left, s + right);
    if s == "" {
      assert s + right == right;
      TrimEndSkips("", right);
      TrimStartSkips(right, "");
      assert right + "" == right;
      assert TrimEnd("") == "";
    } else {
      assert TrimStart(s + right) == s + right;
      TrimEndSkips(s, right);
    }
  }

  lemma NameIsNoSpace(name: string)
    requires name != "" && forall c <- name :: NameCharacter(c)
    ensures !IsSpace(name[0]) && !IsSpace(name[|name| - 1])
    ensures ':' !in name && forall c <- name :: IsNameCharacter(c)
  {
    assert name[0] in name && name[|name| - 1] in name;
  }

  lemma ColonFound(f: Field)
    requires f.Valid()
    ensures var line := f.Line(); ':' in line && Colon(line) == Some(|f.left + f.name + f.right|)
  {
    var front, line := f.left + f.name + f.right, f.Line();
    NameIsNoSpace(f.name);
    assert line[|front|] == ':' && line[..|front|] == front;
    assert ':' !in front;
    FirstColon(line, |front|);
  }

  /** A field is read with its name and value, the blanks around them left out. */
  lemma FieldRead(f: Field)
    requires f.Valid()
    ensures IsField(f.Line()) && Name(f.Line()) == f.name && Value(f.Line()) == f.value
    ensures IsLengthField(f.Line()) <==> f.IsLength()
  {
    hide Trim, Colon, TrimStart, TrimEnd;
    var front, line := f.left + f.name + f.right, f.Line();
    ColonFound(f);
    assert line[..|front|] == front && line[|front| + 1..] == f.before + f.value + f.after;
    NameIsNoSpace(f.name);
    TrimFinds(f.left, f.name, f.right);
    if f.value != "" {
      assert f.value[0] in f.value && f.value[|f.value| - 1] in f.value;
      BlankIsSpace(f.value[0]);
      BlankIsSpace(f.value[|f.value| - 1]);
    }
    TrimFinds(f.before, f.value, f.after);
    LengthName(f.name);
  }

  lemma LengthName(name: string)
    ensures SameIgnoringCase(name, "Content-Length")
       <==> |name| == |CONTENT_LENGTH| && forall i | 0 <= i < |name| :: Spells(name[i], CONTENT_LENGTH[i])
  {
    forall c: char, i | 0 <= i < 14 ensures Lower(c) == Lower("Content-Length"[i]) <==> Spells(c, CONTENT_LENGTH[i]) {
      SmallLetter(i);
      LowerSpells(c, CONTENT_LENGTH[i]);
    }
  }

  lemma SmallLetter(i: nat)
    requires i < 14
    ensures Lower("Content-Length"[i]) == CONTENT_LENGTH[i]
    ensures CONTENT_LENGTH[i] == '-' || 'a' <= CONTENT_LENGTH[i] <= 'z'
  {
  }

  lemma LowerSpells(c: char, small: char)
    requires small == '-' || 'a' <= small <= 'z'
    ensures Lower(c) == small <==> Spells(c, small)
  {
  }

  // ---------------------------------------------------------------------------
  // The whole header
  // ---------------------------------------------------------------------------

  lemma LineIsPlain(f: Field)
    requires f.Valid()
    ensures IsAscii(f.Line()) && '\r' !in f.Line()
  {
    var line := f.Line();
    forall c <- line ensures c as int < 0x80 && c != '\r' {
      PieceOf(f, c);
    }
    assert forall i | 0 <= i < |line| :: line[i] in line;
  }

  lemma PieceOf(f: Field, c: char)
    requires c in f.Line()
    ensures c == ':' || c in f.left || c in f.name || c in f.right || c in f.before || c in f.value || c in f.after
  {
  }

  lemma {:induction false} LineSplit(line: string, rest: string)
    requires '\r' !in line
    ensures Lines(line + "\r\n" + rest) == [line] + Lines(rest)
  {
    var s := line + "\r\n" + rest;
    if line == "" {
      assert s[2..] == rest;
    } else {
      assert line[0] in line && forall c <- line[1..] :: c in line;
      assert s[1..] == line[1..] + "\r\n" + rest;
      LineSplit(line[1..], rest);
      assert line == [line[0]] + line[1..];
    }
  }

  function LinesOf(fields: seq<Field>): seq<string> {
    seq(|fields|, i requires 0 <= i < |fields| => fields[i].Line())
  }

  lemma {:induction false} JoinedLines(fields: seq<Field>)
    requires fields != [] && forall f <- fields :: f.Valid()
    ensures Lines(Joined(fields)) == LinesOf(fields) && IsAscii(Joined(fields))
  {
    hide Field.Valid, Field.Line, Lines, IsAscii;
    var f := fields[0];
    LineIsPlain(f);
    if |fields| == 1 {
      assert f.Line() + "" == f.Line();
      OneLine(f.Line());
      assert LinesOf(fields) == [f.Line()];
    } else {
      JoinedLines(fields[1..]);
      LineSplit(f.Line(), Joined(fields[1..]));
      assert Joined(fields) == f.Line() + "\r\n" + Joined(fields[1..]);
      assert LinesOf(fields) == [f.Line()] + LinesOf(fields[1..]);
      StillAscii(f.Line(), Joined(fields[1..]));
    }
  }

  lemma StillAscii(line: string, rest: string)
    requires IsAscii(line) && IsAscii(rest)
    ensures IsAscii(line + "\r\n" + rest)
  {
  }

  /** The only field that gives a length, and which. */
  ghost predicate GivenOnce(fields: seq<Field>, n: nat) {
    exists i :: GivenAt(fields, i, n)
  }

  ghost predicate GivenAt(fields: seq<Field>, i: int, n: nat) {
    && 0 <= i < |fields| && fields[i].Gives(n)
    && forall j | 0 <= j < |fields| :: fields[j].IsLength() <==> j == i
  }

  lemma GivenIsDeclared(fields: seq<Field>, i: int, n: nat)
    requires forall f <- fields :: f.Valid()
    ensures GivenAt(fields, i, n) <==> Declares(LinesOf(fields), i, n)
  {
    hide Value, Name, SameIgnoringCase, Field.IsLength, Field.Line, Field.Valid, Digits, Amount, IsNameCharacter;
    forall j | 0 <= j < |fields|
      ensures var line := LinesOf(fields)[j];
              IsField(line) && Value(line) == fields[j].value && (IsLengthField(line) <==> fields[j].IsLength())
    {
      assert fields[j] in fields;
      FieldRead(fields[j]);
    }
  }

  /**
    A header of fields, however spelled, declares `n` exactly when one field and
    only one is named Content-Length, in any case, and gives it in digits.
   */
  lemma FieldsRead(fields: seq<Field>, n: nat)
    requires fields != [] && forall f <- fields :: f.Valid()
    ensures ContentLength(Encode(Joined(fields))) == Ok(n) <==> GivenOnce(fields, n)
  {
    hide Declares, GivenAt, Field.Valid, Lines, ContentLength;
    var text := Joined(fields);
    JoinedLines(fields);
    EncodeAscii(text);
    assert AllAscii(Encode(text)) && AsText(Encode(text)) == text;
    HeaderAccepted(Encode(text), n);
    if i :| GivenAt(fields, i, n) {
      GivenIsDeclared(fields, i, n);
    }
    if i :| Declares(LinesOf(fields), i, n) {
      GivenIsDeclared(fields, i, n);
    }
  }

  /** What becomes of a buffer with a header that declares `n`, by the body behind it. */
  lemma DeclaredBody(limits: Limits, b: seq<Byte>, n: nat)
    requires FindHeaderEnd(b).Some? && FindHeaderEnd(b).value <= limits.maxHeader
    requires ContentLength(b[..FindHeaderEnd(b).value]) == Ok(n)
    ensures var start, r := FindHeaderEnd(b).value + 4, Next(limits, b).result;
            && (r == Failed(ContentTooLarge(n, limits.maxContent)) <==> n > limits.maxContent)
            && (n <= limits.maxContent && start + n <= USIZE_MAX ==>
                  && (r.Incomplete? <==> |b| < start + n)
                  && (|b| >= start + n ==>
                        if exists text: string :: Encode(text) == b[start..start + n]
                        then r.Message? && Encode(r.text) == b[start..start + n]
                        else r == Failed(BodyNotUtf8(ValidUpTo(b[start..start + n])))))
            && (n <= limits.maxContent && start + n > USIZE_MAX ==> r == Failed(ContentLengthOverflow))
  {
    hide FindHeaderEnd, ContentLength, Encode, Decode, ValidUpTo;
    var start := FindHeaderEnd(b).value + 4;
    if start + n <= |b| {
      var body := b[start..start + n];
      forall text: string | Encode(text) == body ensures Decode(body) == Some(text) {
        DecodeEncode(text);
      }
      if Decode(body).Some? {
        EncodeDecode(body);
      }
    }
  }

  // ---------------------------------------------------------------------------
  // Which error
  // ---------------------------------------------------------------------------

  /** What is wrong with a line, given whether a length has been declared before it. */
  function Problem(line: string, declared: bool): Option<FrameError> {
    if !IsField(line) then Some(MalformedHeader(line))
    else if !IsLengthField(line) then None
    else if declared then Some(DuplicateContentLength)
    else if Value(line) == "" || !Digits(Value(line)) then Some(InvalidContentLength(Value(line)))
    else if Amount(Value(line)) > USIZE_MAX then Some(ContentLengthOverflow)
    else None
  }

  predicate DeclaredBefore(lines: seq<string>, i: nat)
    requires i <= |lines|
  {
    exists j | 0 <= j < i :: IsLengthField(lines[j])
  }

  predicate FirstProblem(lines: seq<string>, i: nat, declared: bool)
    requires i < |lines|
  {
    && Problem(lines[i], declared || DeclaredBefore(lines, i)).Some?
    && forall j | 0 <= j < i :: Problem(lines[j], declared || DeclaredBefore(lines, j)).None?
  }

  /** The error reported is that of the first line in error; and a header without error and length misses one. */
  lemma {:induction false} ErrorIsFirst(lines: seq<string>, found: Option<nat>)
    ensures forall i | 0 <= i < |lines| && FirstProblem(lines, i, found.Some?) ::
              LengthIn(lines, found)
              == Err(Problem(lines[i], found.Some? || DeclaredBefore(lines, i)).value)
    ensures (forall i | 0 <= i < |lines| :: Problem(lines[i], found.Some? || DeclaredBefore(lines, i)).None?) ==>
              if found.None? && !DeclaredBefore(lines, |lines|) then LengthIn(lines, found) == Err(MissingContentLength)
              else LengthIn(lines, found).Ok?
    decreases |lines|
  {
    hide Value, Name, SameIgnoringCase, IsNameCharacter, Digits, Amount;
    if lines != [] && Problem(lines[0], found.Some?).None? {
      var rest := lines[1..];
      var next := if IsLengthField(lines[0]) then Some(Amount(Value(lines[0]))) else found;
      ErrorIsFirst(rest, next);
      forall j: nat | 0 < j <= |lines|
        ensures found.Some? || DeclaredBefore(lines, j) <==> next.Some? || DeclaredBefore(rest, j - 1)
      {
        DeclaredMoves(lines, j);
      }
      assert forall j | 0 < j < |lines| :: rest[j - 1] == lines[j];
      hide Problem, DeclaredBefore;
      assert LengthIn(lines, found) == LengthIn(rest, next);
      forall i | 0 < i < |lines| && FirstProblem(lines, i, found.Some?) ensures FirstProblem(rest, i - 1, next.Some?) {
        assert forall j | 0 <= j < i - 1 :: rest[j] == lines[j + 1];
      }
    }
  }

  lemma DeclaredMoves(lines: seq<string>, j: nat)
    requires 0 < j <= |lines|
    ensures DeclaredBefore(lines, j) <==> IsLengthField(lines[0]) || DeclaredBefore(lines[1..], j - 1)
  {
    hide IsLengthField;
    var rest := lines[1..];
    assert forall k | 0 < k < |lines| :: rest[k - 1] == lines[k];
    if k :| 0 < k < j && IsLengthField(lines[k]) {
      assert IsLengthField(rest[k - 1]);
    }
    if k :| 0 <= k < j - 1 && IsLengthField(rest[k]) {
      assert IsLengthField(lines[k + 1]);
    }
  }
}
