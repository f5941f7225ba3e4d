/**
  `Content-Length` framing (LSP 3.17, "Base Protocol"): the encoder, the header
  parser, and the incremental decoder.

  `Next` and `DecodeAll` say what a buffer holds; the class is the decoder as
  the source runs it, over a buffer that its methods change.
 */
module Framing {
  import opened Wrappers
  import opened Machine
  import opened Utf8
  import opened Decimals

  /** The longest a byte vector can grow. */
  const ISIZE_MAX: nat := 0x7FFF_FFFF_FFFF_FFFF

  datatype Limits = Limits(maxHeader: nat, maxContent: nat)

  datatype FrameError =
    | HeaderTooLarge(max: nat)
    | HeaderNotAscii
    | MalformedHeader(line: string)
    | MissingContentLength
    | DuplicateContentLength
    | InvalidContentLength(value: string)
    | ContentLengthOverflow
    | ContentTooLarge(length: nat, max: nat)
    | BodyNotUtf8(validUpTo: nat)

  datatype LengthResult = Ok(length: nat) | Err(error: FrameError)

  // ---------------------------------------------------------------------------
  // The header
  // ---------------------------------------------------------------------------

  predicate DelimiterAt(b: seq<Byte>, i: nat) {
    i + 4 <= |b| && b[i] == 13 && b[i + 1] == 10 && b[i + 2] == 13 && b[i + 3] == 10
  }

  /** Where the first blank line starts. */
  function FindHeaderEnd(b: seq<Byte>): (r: Option<nat>)
    ensures r.Some? ==> DelimiterAt(b, r.value) && forall i: nat | i < r.value :: !DelimiterAt(b, i)
    ensures r.None? ==> forall i: nat :: !DelimiterAt(b, i)
  {
    if |b| < 4 then None
    else if DelimiterAt(b, 0) then Some(0)
    else
      assert forall i: nat | i > 0 :: DelimiterAt(b, i) <==> DelimiterAt(b[1..], i - 1);
      match FindHeaderEnd(b[1..])
      case None => None
      case Some(k) => Some(k + 1)
  }

  predicate AllAscii(b: seq<Byte>) { forall i | 0 <= i < |b| :: b[i] < 0x80 }

  function AsText(b: seq<Byte>): (s: string)
    requires AllAscii(b)
    ensures |s| == |b| && forall i | 0 <= i < |b| :: s[i] == b[i] as char
  {
    seq(|b|, i requires 0 <= i < |b| => b[i] as char)
  }

  /** The lines that CR LF separates. */
  function Lines(s: string): (lines: seq<string>)
    ensures lines != []
  {
    if |s| < 2 then [s]
    else if s[0] == '\r' && s[1] == '\n' then [""] + Lines(s[2..])
    else
      var rest := Lines(s[1..]);
      [[s[0]] + rest[0]] + rest[1..]
  }

  const COLON: char := ':'

  function Colon(line: string): (r: Option<nat>)
    ensures r.Some? ==> r.value < |line| && line[r.value] == COLON && COLON !in line[..r.value]
    ensures r.None? ==> COLON !in line
  {
    if line == "" then None
    else if line[0] == ':' then Some(0)
    else
      match Colon(line[1..])
      case None => None
      case Some(k) =>
        assert line[..k + 1] == [line[0]] + line[1..][..k];
        Some(k + 1)
  }

  predicate IsSpace(c: char) { c == ' ' || '\t' <= c <= '\r' }

  function TrimStart(s: string): string {
    if s != "" && IsSpace(s[0]) then TrimStart(s[1..]) else s
  }

  function TrimEnd(s: string): string {
    if s != "" && IsSpace(s[|s| - 1]) then TrimEnd(s[..|s| - 1]) else s
  }

  function Trim(s: string): string { TrimEnd(TrimStart(s)) }

  predicate IsNameCharacter(c: char) { IsDigit(c) || 'a' <= c <= 'z' || 'A' <= c <= 'Z' || c == '-' }

  function Lower(c: char): char {
    if 'A' <= c <= 'Z' then c - 'A' + 'a' else c
  }

  predicate SameIgnoringCase(a: string, b: string) {
    |a| == |b| && forall i | 0 <= i < |a| :: Lower(a[i]) == Lower(b[i])
  }

  function Name(line: string): string
    requires ':' in line
  {
    Trim(line[..Colon(line).value])
  }

  function Value(line: string): string
    requires ':' in line
  {
    Trim(line[Colon(line).value + 1..])
  }

  predicate IsField(line: string) {
    ':' in line && Name(line) != "" && forall c <- Name(line) :: IsNameCharacter(c)
  }

  predicate IsLengthField(line: string) {
    IsField(line) && SameIgnoringCase(Name(line), "Content-Length")
  }

  /** The lines from some point on, given the length that earlier ones declared. */
  function LengthIn(lines: seq<string>, found: Option<nat>): LengthResult {
    if lines == [] then
      match found
      case None => Err(MissingContentLength)
      case Some(n) => Ok(n)
    else if !IsField(lines[0]) then Err(MalformedHeader(lines[0]))
    else if !IsLengthField(lines[0]) then LengthIn(lines[1..], found)
    else if found.Some? then Err(DuplicateContentLength)
    else if Value(lines[0]) == "" || !Digits(Value(lines[0])) then Err(InvalidContentLength(Value(lines[0])))
    else if Amount(Value(lines[0])) > USIZE_MAX then Err(ContentLengthOverflow)
    else LengthIn(lines[1..], Some(Amount(Value(lines[0]))))
  }

  function ContentLength(header: seq<Byte>): LengthResult {
    if !AllAscii(header) then Err(HeaderNotAscii) else LengthIn(Lines(AsText(header)), None)
  }

  method ParseContentLength(header: seq<Byte>) returns (r: LengthResult)
    ensures r == ContentLength(header)
  {
    if !AllAscii(header) {
      return Err(HeaderNotAscii);
    }
    var lines := Lines(AsText(header));
    var contentLength: Option<nat> := None;
    for i := 0 to |lines|
      invariant LengthIn(lines, None) == LengthIn(lines[i..], contentLength)
    {
      var line := lines[i];
      assert lines[i..][0] == line && lines[i..][1..] == lines[i + 1..];
      if !IsField(line) {
        return Err(MalformedHeader(line));
      }
      if SameIgnoringCase(Name(line), "Content-Length") {
        if contentLength.Some? {
          return Err(DuplicateContentLength);
        }
        var value := Value(line);
        if value == "" || !Digits(value) {
          return Err(InvalidContentLength(value));
        }
        if Amount(value) > USIZE_MAX {
          return Err(ContentLengthOverflow);
        }
        contentLength := Some(Amount(value));
      }
    }
    r := if contentLength.Some? then Ok(contentLength.value) else Err(MissingContentLength);
  }

  /** The only length line of these, declaring `n`. */
  ghost predicate Declares(lines: seq<string>, i: int, n: nat) {
    && 0 <= i < |lines|
    && (forall j | 0 <= j < |lines| :: IsField(lines[j]) && (IsLengthField(lines[j]) <==> j == i))
    && var value := Value(lines[i]);
       value != "" && Digits(value) && Amount(value) == n && n <= USIZE_MAX
  }

  ghost predicate DeclaresOnce(lines: seq<string>, n: nat) {
    exists i :: Declares(lines, i, n)
  }

  lemma {:induction false} FoundIsKept(lines: seq<string>, found: nat, n: nat)
    ensures LengthIn(lines, Some(found)) == Ok(n)
       <==> found == n && forall j | 0 <= j < |lines| :: IsField(lines[j]) && !IsLengthField(lines[j])
  {
    hide IsField, IsLengthField, Amount, Digits, Value;
    if lines != [] {
      FoundIsKept(lines[1..], found, n);
      assert forall j | 1 <= j < |lines| :: lines[j] == lines[1..][j - 1];
    }
  }

  lemma DeclaredFirst(lines: seq<string>, n: nat)
    requires lines != [] && IsLengthField(lines[0])
    ensures LengthIn(lines, None) == Ok(n) <==> Declares(lines, 0, n)
  {
    var value := Value(lines[0]);
    if value != "" && Digits(value) {
      FoundIsKept(lines[1..], Amount(value), n);
      assert forall j | 1 <= j < |lines| :: lines[j] == lines[1..][j - 1];
    }
  }

  lemma DeclaresMoves(lines: seq<string>, i: int, n: nat)
    requires lines != [] && IsField(lines[0]) && !IsLengthField(lines[0])
    ensures Declares(lines, i, n) <==> Declares(lines[1..], i - 1, n)
  {
    hide IsField, IsLengthField, Amount, Digits, Value;
    assert forall j | 1 <= j < |lines| :: lines[j] == lines[1..][j - 1];
    if Declares(lines[1..], i - 1, n) {
      assert forall j | 0 <= j < |lines| :: IsField(lines[j]) && (IsLengthField(lines[j]) <==> j == i);
    }
    if Declares(lines, i, n) {
      assert forall j | 0 <= j < |lines| - 1 :: lines[1..][j] == lines[j + 1];
    }
  }

  lemma {:induction false} LengthInIff(lines: seq<string>, n: nat)
    ensures LengthIn(lines, None) == Ok(n) <==> DeclaresOnce(lines, n)
  {
    if lines != [] {
      hide Declares, IsField, IsLengthField, Amount, Digits, Value;
      if !IsField(lines[0]) {
        NotDeclared(lines, n);
      } else if IsLengthField(lines[0]) {
        DeclaredFirst(lines, n);
        OnlyFirst(lines, n);
      } else {
        LengthInIff(lines[1..], n);
        if i :| Declares(lines[1..], i, n) {
          DeclaresMoves(lines, i + 1, n);
        }
        if i :| Declares(lines, i, n) {
          DeclaresMoves(lines, i, n);
        }
      }
    }
  }

  lemma NotDeclared(lines: seq<string>, n: nat)
    requires lines != [] && !IsField(lines[0])
    ensures !exists i :: Declares(lines, i, n)
  {
  }

  lemma OnlyFirst(lines: seq<string>, n: nat)
    requires lines != [] && IsLengthField(lines[0])
    ensures forall i | Declares(lines, i, n) :: i == 0
  {
  }

  /** A header is accepted exactly when it is all fields and exactly one declares a length that fits a word. */
  lemma HeaderAccepted(header: seq<Byte>, n: nat)
    ensures ContentLength(header) == Ok(n)
       <==> AllAscii(header) && DeclaresOnce(Lines(AsText(header)), n)
  {
    hide DeclaresOnce, Lines, LengthIn;
    if AllAscii(header) {
      var lines := Lines(AsText(header));
      LengthInIff(lines, n);
    }
  }

  // ---------------------------------------------------------------------------
  // One message
  // ---------------------------------------------------------------------------

  datatype Polled = Message(text: string) | Incomplete | Failed(error: FrameError)

  /** What polling a buffer gives, and the buffer it leaves. */
  datatype Step = Step(result: Polled, rest: seq<Byte>)

  function Next(limits: Limits, b: seq<Byte>): Step {
    match FindHeaderEnd(b)
    case None => Step(if |b| > limits.maxHeader + 3 then Failed(HeaderTooLarge(limits.maxHeader)) else Incomplete, b)
    case Some(end) =>
      if end > limits.maxHeader then Step(Failed(HeaderTooLarge(limits.maxHeader)), b)
      else
        match ContentLength(b[..end])
        case Err(error) => Step(Failed(error), b)
        case Ok(length) => Body(limits, b, end + 4, length)
  }

  function Body(limits: Limits, b: seq<Byte>, start: nat, length: nat): Step
    requires start <= |b|
  {
    if length > limits.maxContent then Step(Failed(ContentTooLarge(length, limits.maxContent)), b)
    else if start + length > USIZE_MAX then Step(Failed(ContentLengthOverflow), b)
    else if |b| < start + length then Step(Incomplete, b)
    else
      var body := b[start..start + length];
      match Decode(body)
      case None => Step(Failed(BodyNotUtf8(ValidUpTo(body))), b)
      case Some(text) => Step(Message(text), b[start + length..])
  }

  lemma HeaderEndStays(b: seq<Byte>, more: seq<Byte>)
    ensures FindHeaderEnd(b).Some? ==> FindHeaderEnd(b + more) == FindHeaderEnd(b)
    ensures FindHeaderEnd(b).None? && FindHeaderEnd(b + more).Some? ==> FindHeaderEnd(b + more).value + 4 > |b|
  {
    assert forall i: nat | i + 4 <= |b| :: DelimiterAt(b + more, i) <==> DelimiterAt(b, i);
  }

  lemma BodyStays(limits: Limits, b: seq<Byte>, start: nat, length: nat, more: seq<Byte>)
    requires start <= |b|
    ensures var s := Body(limits, b, start, length);
            var t := Body(limits, b + more, start, length);
            && (s.result.Message? ==> t == Step(s.result, s.rest + more))
            && (s.result.Failed? ==> t == Step(s.result, b + more))
  {
    if start + length <= |b| {
      assert (b + more)[start..start + length] == b[start..start + length];
      assert (b + more)[start + length..] == b[start + length..] + more;
    }
  }

  /** Bytes that arrive later change neither a complete message nor a verdict. */
  lemma NextStays(limits: Limits, b: seq<Byte>, more: seq<Byte>)
    ensures Next(limits, b).result.Message? ==>
              Next(limits, b + more) == Step(Next(limits, b).result, Next(limits, b).rest + more)
    ensures Next(limits, b).result.Failed? ==> Next(limits, b + more) == Step(Next(limits, b).result, b + more)
  {
    hide ContentLength, Body;
    HeaderEndStays(b, more);
    if FindHeaderEnd(b).Some? {
      var end := FindHeaderEnd(b).value;
      assert (b + more)[..end] == b[..end];
      if ContentLength(b[..end]).Ok? {
        BodyStays(limits, b, end + 4, ContentLength(b[..end]).length, more);
      }
    }
  }

  lemma NextShrinks(limits: Limits, b: seq<Byte>)
    ensures if Next(limits, b).result.Message? then |Next(limits, b).rest| + 4 <= |b| else Next(limits, b).rest == b
  {
  }

  /** A buffer still waiting is no longer than one partial frame within the limits. */
  lemma WaitingIsBounded(limits: Limits, b: seq<Byte>)
    requires Next(limits, b).result.Incomplete?
    ensures |b| <= limits.maxHeader + 3 + limits.maxContent
  {
  }

  // ---------------------------------------------------------------------------
  // A whole buffer
  // ---------------------------------------------------------------------------

  datatype Decoded = Decoded(messages: seq<string>, pending: seq<Byte>, error: Option<FrameError>)

  function DecodeAll(limits: Limits, b: seq<Byte>): Decoded
    decreases |b|
  {
    NextShrinks(limits, b);
    var s := Next(limits, b);
    match s.result
    case Incomplete => Decoded([], b, None)
    case Failed(error) => Decoded([], b, Some(error))
    case Message(text) =>
      var d := DecodeAll(limits, s.rest);
      Decoded([text] + d.messages, d.pending, d.error)
  }

  lemma DecodeNext(limits: Limits, b: seq<Byte>)
    ensures var s := Next(limits, b);
            match s.result
            case Incomplete => s.rest == b && DecodeAll(limits, b) == Decoded([], b, None)
            case Failed(error) => s.rest == b && DecodeAll(limits, b) == Decoded([], b, Some(error))
            case Message(text) =>
              var d := DecodeAll(limits, s.rest);
              |s.rest| < |b| && DecodeAll(limits, b) == Decoded([text] + d.messages, d.pending, d.error)
  {
    hide Next;
    NextShrinks(limits, b);
  }

  /** Decoding can be cut anywhere: first what came, then the rest after what was left over. */
  lemma {:induction false} DecodeInTwo(limits: Limits, b: seq<Byte>, more: seq<Byte>)
    ensures var first := DecodeAll(limits, b);
            var second := DecodeAll(limits, first.pending + more);
            && DecodeAll(limits, b + more) == Decoded(first.messages + second.messages, second.pending, second.error)
            && (first.error.Some? ==> second == Decoded([], first.pending + more, first.error))
    decreases |b|
  {
    hide Next;
    NextShrinks(limits, b);
    NextStays(limits, b, more);
    var s := Next(limits, b);
    if s.result.Message? {
      DecodeInTwo(limits, s.rest, more);
      var first := DecodeAll(limits, s.rest);
      var second := DecodeAll(limits, first.pending + more);
      assert [s.result.text] + (first.messages + second.messages) == [s.result.text] + first.messages + second.messages;
    }
  }

  lemma {:induction false} PendingIsFinal(limits: Limits, b: seq<Byte>)
    ensures var d := DecodeAll(limits, b);
            Next(limits, d.pending) == Step(if d.error.Some? then Failed(d.error.value) else Incomplete, d.pending)
    decreases |b|
  {
    hide Next;
    NextShrinks(limits, b);
    if Next(limits, b).result.Message? {
      PendingIsFinal(limits, Next(limits, b).rest);
    }
  }

  // ---------------------------------------------------------------------------
  // Any schedule of feeding and polling
  // ---------------------------------------------------------------------------

  datatype Event = Feed(chunk: seq<Byte>) | Poll

  function Fed(events: seq<Event>): seq<Byte> {
    if events == [] then []
    else
      var last := events[|events| - 1];
      Fed(events[..|events| - 1]) + (if last.Feed? then last.chunk else [])
  }

  datatype Progress = Progress(buffer: seq<Byte>, results: seq<Polled>)

  function Run(limits: Limits, events: seq<Event>): Progress {
    if events == [] then Progress([], [])
    else
      var p := Run(limits, events[..|events| - 1]);
      match events[|events| - 1]
      case Feed(chunk) => Progress(p.buffer + chunk, p.results)
      case Poll =>
        var s := Next(limits, p.buffer);
        Progress(s.rest, p.results + [s.result])
  }

  /** The results other than "not yet". */
  function Visible(results: seq<Polled>): seq<Polled> {
    if results == [] then []
    else
      var last := results[|results| - 1];
      Visible(results[..|results| - 1]) + (if last.Incomplete? then [] else [last])
  }

  /** The results a stream has to show: its messages, then its error for ever. */
  predicate Shows(d: Decoded, visible: seq<Polled>) {
    && (|visible| > |d.messages| ==> d.error.Some?)
    && forall i | 0 <= i < |visible| ::
      visible[i] == if i < |d.messages| then Message(d.messages[i])
                    else if d.error.Some? then Failed(d.error.value)
                    else Incomplete
  }

  /** What was shown and what the buffer still holds make up what the bytes hold. */
  ghost predicate Consistent(limits: Limits, fed: seq<Byte>, p: Progress) {
    var whole, left, seen := DecodeAll(limits, fed), DecodeAll(limits, p.buffer), Visible(p.results);
    && Shows(whole, seen)
    && left.pending == whole.pending && left.error == whole.error
    && if |seen| <= |whole.messages| then left.messages == whole.messages[|seen|..] else left.messages == []
  }

  lemma FeedKeepsConsistent(limits: Limits, fed: seq<Byte>, p: Progress, chunk: seq<Byte>)
    requires Consistent(limits, fed, p)
    ensures Consistent(limits, fed + chunk, Progress(p.buffer + chunk, p.results))
  {
    hide DecodeAll, Visible;
    DecodeInTwo(limits, fed, chunk);
    DecodeInTwo(limits, p.buffer, chunk);
    var whole, seen := DecodeAll(limits, fed), Visible(p.results);
    var later := DecodeAll(limits, whole.pending + chunk);
    if |seen| <= |whole.messages| {
      assert (whole.messages + later.messages)[|seen|..] == whole.messages[|seen|..] + later.messages;
    }
  }

  lemma PollKeepsConsistent(limits: Limits, fed: seq<Byte>, p: Progress)
    requires Consistent(limits, fed, p)
    ensures Consistent(limits, fed, Progress(Next(limits, p.buffer).rest, p.results + [Next(limits, p.buffer).result]))
  {
    hide Next;
    NextShrinks(limits, p.buffer);
    var s := Next(limits, p.buffer);
    assert (p.results + [s.result])[..|p.results|] == p.results;
  }

  lemma {:induction false} RunIsConsistent(limits: Limits, events: seq<Event>)
    ensures Consistent(limits, Fed(events), Run(limits, events))
  {
    hide Next, DecodeAll, Consistent;
    if events == [] {
      NothingIsConsistent(limits);
    } else {
      var before := events[..|events| - 1];
      RunIsConsistent(limits, before);
      var p := Run(limits, before);
      match events[|events| - 1]
      case Feed(chunk) => FeedKeepsConsistent(limits, Fed(before), p, chunk);
      case Poll =>
        PollKeepsConsistent(limits, Fed(before), p);
        assert Fed(before) + [] == Fed(before);
    }
  }

  lemma NothingIsConsistent(limits: Limits)
    ensures Consistent(limits, [], Progress([], []))
  {
  }

  /**
    However the bytes are cut and whenever the decoder is polled, the n-th
    result is the n-th result of the whole stream decoded at once; and once a
    poll finds nothing complete, everything has been shown and what is left is
    what decoding the whole stream leaves.
   */
  lemma ChunkingIsInvisible(limits: Limits, events: seq<Event>)
    ensures var d, p := DecodeAll(limits, Fed(events)), Run(limits, events);
            && Shows(d, Visible(p.results))
            && (Next(limits, p.buffer).result.Incomplete? ==>
                  p.buffer == d.pending && d.error.None? && Visible(p.results) == MessagesOf(d.messages))
  {
    hide Next, DecodeAll, Run, Fed, Visible, MessagesOf;
    RunIsConsistent(limits, events);
    var d, p := DecodeAll(limits, Fed(events)), Run(limits, events);
    if Next(limits, p.buffer).result.Incomplete? {
      NothingComplete(limits, p.buffer);
      AllShown(d, Visible(p.results));
    }
  }

  /** One poll more, after any schedule. */
  lemma PollSchedule(limits: Limits, events: seq<Event>)
    ensures var s, now := Next(limits, Run(limits, events).buffer), events + [Poll];
            && Run(limits, now) == Progress(s.rest, Run(limits, events).results + [s.result])
            && Fed(now) == Fed(events)
            && Visible(Run(limits, now).results)
               == Visible(Run(limits, events).results) + (if s.result.Incomplete? then [] else [s.result])
            && Shows(DecodeAll(limits, Fed(now)), Visible(Run(limits, now).results))
            && (s.result.Incomplete? ==>
                  Visible(Run(limits, now).results) == MessagesOf(DecodeAll(limits, Fed(now)).messages))
  {
    hide Next, DecodeAll, MessagesOf, Shows;
    var s, now := Next(limits, Run(limits, events).buffer), events + [Poll];
    assert now[..|now| - 1] == events;
    assert Fed(events) + [] == Fed(events);
    var results := Run(limits, events).results;
    assert (results + [s.result])[..|results|] == results;
    NextShrinks(limits, Run(limits, events).buffer);
    ChunkingIsInvisible(limits, events);
    ChunkingIsInvisible(limits, now);
  }

  function MessagesOf(texts: seq<string>): (messages: seq<Polled>)
    ensures |messages| == |texts| && forall i | 0 <= i < |texts| :: messages[i] == Message(texts[i])
  {
    seq(|texts|, i requires 0 <= i < |texts| => Message(texts[i]))
  }

  lemma NothingComplete(limits: Limits, b: seq<Byte>)
    requires Next(limits, b).result.Incomplete?
    ensures DecodeAll(limits, b) == Decoded([], b, None)
  {
    hide Next;
  }

  lemma AllShown(d: Decoded, seen: seq<Polled>)
    requires Shows(d, seen) && d.error.None?
    requires |seen| <= |d.messages| ==> d.messages[|seen|..] == []
    ensures seen == MessagesOf(d.messages)
  {
  }

  /** Two schedules of the same bytes never show different things. */
  lemma SchedulesAgree(limits: Limits, one: seq<Event>, other: seq<Event>, i: nat)
    requires Fed(one) == Fed(other)
    requires i < |Visible(Run(limits, one).results)| && i < |Visible(Run(limits, other).results)|
    ensures Visible(Run(limits, one).results)[i] == Visible(Run(limits, other).results)[i]
  {
    hide Next, DecodeAll, Run, Visible, Fed;
    ChunkingIsInvisible(limits, one);
    ChunkingIsInvisible(limits, other);
  }

  // ---------------------------------------------------------------------------
  // Encoding
  // ---------------------------------------------------------------------------

  function Header(length: nat): string { "Content-Length: " + Decimal(length) }

  function EncodeFrame(json: string): seq<Byte> {
    Encode(Header(Length(json)) + "\r\n\r\n") + Encode(json)
  }

  lemma NoBreakInHeader(length: nat)
    ensures IsAscii(Header(length)) && forall c <- Header(length) :: c != '\r'
  {
    var digits := Decimal(length);
    assert forall i | 0 <= i < |digits| :: digits[i] in digits;
  }

  lemma {:induction false} OneLine(s: string)
    requires forall c <- s :: c != '\r'
    ensures Lines(s) == [s]
  {
    if |s| >= 2 {
      assert s[0] in s;
      assert forall c <- s[1..] :: c in s;
      OneLine(s[1..]);
      assert s == [s[0]] + s[1..];
    }
  }

  lemma TrimDigits(s: string)
    requires s != "" && Digits(s)
    ensures Trim(" " + s) == s && Trim(s) == s
  {
    assert s[0] in s && s[|s| - 1] in s;
    assert (" " + s)[1..] == s;
    assert TrimStart(s) == s && TrimStart(" " + s) == TrimStart(s);
  }

  lemma NameIsTrimmed()
    ensures Trim("Content-Length") == "Content-Length"
    ensures forall c <- "Content-Length" :: IsNameCharacter(c)
  {
  }

  lemma FirstColon(line: string, k: nat)
    requires k < |line| && line[k] == ':' && ':' !in line[..k]
    ensures Colon(line) == Some(k)
  {
    if k > 0 {
      assert line[0] in line[..k];
      assert forall c <- line[1..][..k - 1] :: c in line[..k];
      FirstColon(line[1..], k - 1);
    }
  }

  lemma HeaderFields(length: nat)
    ensures var line := Header(length);
            IsLengthField(line) && Value(line) == Decimal(length)
  {
    hide Trim, IsNameCharacter, Lower;
    var line := Header(length);
    assert line[14] == ':' && line[..14] == "Content-Length";
    assert ':' in line;
    FirstColon(line, 14);
    assert line[15..] == " " + Decimal(length);
    TrimDigits(Decimal(length));
    NameIsTrimmed();
  }

  lemma EncodedHeader(length: nat)
    requires length <= USIZE_MAX
    ensures ContentLength(Encode(Header(length))) == Ok(length)
  {
    hide IsField, Value, IsLengthField;
    var line := Header(length);
    NoBreakInHeader(length);
    EncodeAscii(line);
    assert AsText(Encode(line)) == line;
    OneLine(line);
    HeaderFields(length);
    AmountOfDecimal(length);
    LengthFieldIsField(line);
    assert LengthIn([line], None) == LengthIn([], Some(length));
  }

  lemma LengthFieldIsField(line: string)
    requires IsLengthField(line)
    ensures IsField(line)
  {
  }

  lemma DelimiterBytes()
    ensures Encode("\r\n\r\n") == [13, 10, 13, 10]
  {
    EncodeAscii("\r\n\r\n");
  }

  /** A delimiter behind bytes without CR is the first. */
  lemma FirstDelimiter(front: seq<Byte>, tail: seq<Byte>)
    requires 13 !in front
    ensures var b := front + ([13, 10, 13, 10] + tail);
            FindHeaderEnd(b) == Some(|front|) && b[..|front|] == front && b[|front| + 4..] == tail
  {
    var b := front + ([13, 10, 13, 10] + tail);
    assert DelimiterAt(b, |front|);
    assert forall i: nat | i < |front| :: b[i] in front && !DelimiterAt(b, i);
  }

  lemma Regroup(a: seq<Byte>, b: seq<Byte>, c: seq<Byte>, d: seq<Byte>)
    ensures a + b + c + d == a + (b + (c + d))
  {
  }

  lemma HeaderHasNoBreak(length: nat)
    ensures 13 !in Encode(Header(length)) && |Encode(Header(length))| == |Header(length)|
  {
    hide Header;
    NoBreakInHeader(length);
    EncodeAscii(Header(length));
    assert forall i | 0 <= i < |Header(length)| :: Header(length)[i] in Header(length);
  }

  lemma EncodedHeaderEnd(json: string, more: seq<Byte>)
    ensures var header := Header(Length(json));
            && FindHeaderEnd(EncodeFrame(json) + more) == Some(|header|)
            && (EncodeFrame(json) + more)[..|header|] == Encode(header)
            && (EncodeFrame(json) + more)[|header| + 4..] == Encode(json) + more
  {
    var header := Header(Length(json));
    EncodeAppend(header, "\r\n\r\n");
    DelimiterBytes();
    HeaderHasNoBreak(Length(json));
    FirstDelimiter(Encode(header), Encode(json) + more);
    hide Header, Encode, FindHeaderEnd;
    Regroup(Encode(header), [13, 10, 13, 10], Encode(json), more);
  }

  ghost predicate WithinLimits(limits: Limits, json: string) {
    && |Header(Length(json))| <= limits.maxHeader
    && Length(json) <= limits.maxContent
    && |EncodeFrame(json)| <= USIZE_MAX
  }

  lemma FrameLength(json: string)
    ensures |EncodeFrame(json)| == |Header(Length(json))| + 4 + Length(json)
  {
    EncodedHeaderEnd(json, []);
    assert EncodeFrame(json) + [] == EncodeFrame(json);
  }

  /** An encoded frame is read back, and exactly it is consumed, precisely when it is within the decoder's limits. */
  lemma FrameRoundTrip(limits: Limits, json: string, more: seq<Byte>)
    requires |EncodeFrame(json)| <= USIZE_MAX
    ensures Next(limits, EncodeFrame(json) + more) == Step(Message(json), more) <==> WithinLimits(limits, json)
  {
    hide ContentLength, Encode, Decode, Header, FindHeaderEnd;
    var b := EncodeFrame(json) + more;
    var start := |Header(Length(json))| + 4;
    FrameLength(json);
    EncodedHeaderEnd(json, more);
    EncodedHeader(Length(json));
    DecodeEncode(json);
    assert b[start..start + Length(json)] == Encode(json) by {
      assert b[start..][..Length(json)] == Encode(json);
    }
    assert b[start + Length(json)..] == b[start..][Length(json)..] == more;
  }

  function EncodeFrames(bodies: seq<string>): seq<Byte> {
    if bodies == [] then [] else EncodeFrame(bodies[0]) + EncodeFrames(bodies[1..])
  }

  /** Encoded frames decode to the original bodies, with nothing left over. */
  lemma {:induction false} FramesRoundTrip(limits: Limits, bodies: seq<string>)
    requires forall json <- bodies :: WithinLimits(limits, json)
    ensures DecodeAll(limits, EncodeFrames(bodies)) == Decoded(bodies, [], None)
  {
    hide Next, EncodeFrame, WithinLimits;
    if bodies == [] {
      EmptyIsIncomplete(limits);
    } else {
      var more := EncodeFrames(bodies[1..]);
      assert bodies[0] in bodies;
      LimitsBoundFrames(limits, bodies[0]);
      FrameRoundTrip(limits, bodies[0], more);
      FramesRoundTrip(limits, bodies[1..]);
      assert bodies == [bodies[0]] + bodies[1..];
    }
  }

  lemma EmptyIsIncomplete(limits: Limits)
    ensures Next(limits, []) == Step(Incomplete, [])
  {
  }

  lemma LimitsBoundFrames(limits: Limits, json: string)
    requires WithinLimits(limits, json)
    ensures |EncodeFrame(json)| <= USIZE_MAX
  {
  }

  // ---------------------------------------------------------------------------
  // The decoder
  // ---------------------------------------------------------------------------

  lemma OneMessageMore(before: seq<string>, text: string, left: seq<string>)
    ensures before + ([text] + left) == before + [text] + left
  {
  }

  datatype PushResult = Messages(messages: seq<string>) | PushFailed(error: FrameError)

  class FrameDecoder {
    const limits: Limits
    var buffer: seq<Byte>
    /** What was fed and asked since the decoder was new or last cleared. */
    ghost var events: seq<Event>

    ghost predicate Bounded()
      reads this
    {
      limits.maxHeader <= USIZE_MAX && limits.maxContent <= USIZE_MAX && |buffer| <= ISIZE_MAX
    }

    ghost predicate Valid()
      reads this
    {
      Bounded() && Run(limits, events).buffer == buffer
    }

    /** What the polls have shown so far. */
    ghost function Shown(): seq<Polled>
      reads this
    {
      Visible(Run(limits, events).results)
    }

    constructor (maxHeader: nat, maxContent: nat)
      requires maxHeader <= USIZE_MAX && maxContent <= USIZE_MAX
      ensures Valid() && limits == Limits(maxHeader, maxContent) && buffer == [] && events == []
    {
      limits := Limits(maxHeader, maxContent);
      buffer := [];
      events := [];
    }

    method FeedBytes(bytes: seq<Byte>)
      requires Valid() && |buffer| + |bytes| <= ISIZE_MAX
      modifies this
      ensures Valid() && buffer == old(buffer) + bytes
      ensures events == old(events) + [Feed(bytes)] && Fed(events) == old(Fed(events)) + bytes
      ensures Shown() == old(Shown())
    {
      hide Next, Visible;
      buffer := buffer + bytes;
      events := events + [Feed(bytes)];
      assert events[..|events| - 1] == old(events);
    }

    /** Everything complete is returned at once; an error takes the messages before it along. */
    method Push(bytes: seq<Byte>) returns (result: PushResult)
      requires Valid() && |buffer| + |bytes| <= ISIZE_MAX
      modifies this
      ensures Valid() && Fed(events) == old(Fed(events)) + bytes
      ensures var d := DecodeAll(limits, old(buffer) + bytes);
              && buffer == d.pending
              && result == if d.error.Some? then PushFailed(d.error.value) else Messages(d.messages)
      ensures result.Messages? ==> |buffer| <= limits.maxHeader + 3 + limits.maxContent
    {
      hide Next, Run, Fed, Visible, Shows, MessagesOf, DecodeAll;
      FeedBytes(bytes);
      ghost var d := DecodeAll(limits, buffer);
      var messages: seq<string> := [];
      while true
        invariant Valid() && Fed(events) == old(Fed(events)) + bytes
        invariant var left := DecodeAll(limits, buffer);
                  d == Decoded(messages + left.messages, left.pending, left.error)
        decreases |buffer|
      {
        DecodeNext(limits, buffer);
        ghost var before := messages;
        var next := NextMessage();
        if next.Failed? {
          return PushFailed(next.error);
        }
        if next.Incomplete? {
          WaitingIsBounded(limits, buffer);
          return Messages(messages);
        }
        messages := messages + [next.text];
        OneMessageMore(before, next.text, DecodeAll(limits, buffer).messages);
      }
    }

    /** The next result that the stream fed so far has to show, whatever the feeds and polls before. */
    method NextMessage() returns (result: Polled)
      requires Valid()
      modifies this
      ensures Valid() && Step(result, buffer) == Next(limits, old(buffer))
      ensures events == old(events) + [Poll] && Fed(events) == old(Fed(events))
      ensures Shown() == if result.Incomplete? then old(Shown()) else old(Shown()) + [result]
      ensures Shows(DecodeAll(limits, Fed(events)), Shown())
      ensures result.Incomplete? ==>
                Shown() == MessagesOf(DecodeAll(limits, Fed(events)).messages)
    {
      hide ContentLength, Body, FindHeaderEnd;
      events := events + [Poll];
      PollSchedule(limits, old(events));
      var end := FindHeaderEnd(buffer);
      if end.None? {
        var threshold := if limits.maxHeader <= USIZE_MAX - 3 then limits.maxHeader + 3 else USIZE_MAX;
        return if |buffer| > threshold then Failed(HeaderTooLarge(limits.maxHeader)) else Incomplete;
      }
      if end.value > limits.maxHeader {
        return Failed(HeaderTooLarge(limits.maxHeader));
      }
      var parsed := ParseContentLength(buffer[..end.value]);
      if parsed.Err? {
        return Failed(parsed.error);
      }
      result := NextBody(end.value + 4, parsed.length);
    }

    /** The body behind a header, once it is all there. */
    method NextBody(bodyStart: nat, length: nat) returns (result: Polled)
      requires Bounded() && bodyStart <= |buffer|
      modifies this`buffer
      ensures Bounded() && Step(result, buffer) == Body(limits, old(buffer), bodyStart, length)
    {
      hide Decode, ValidUpTo;
      if length > limits.maxContent {
        return Failed(ContentTooLarge(length, limits.maxContent));
      }
      if length > USIZE_MAX - bodyStart {
        return Failed(ContentLengthOverflow);
      }
      var frameEnd := bodyStart + length;
      if |buffer| < frameEnd {
        return Incomplete;
      }
      var body := buffer[bodyStart..frameEnd];
      var text := Decode(body);
      if text.None? {
        return Failed(BodyNotUtf8(ValidUpTo(body)));
      }
      buffer := buffer[frameEnd..];
      result := Message(text.value);
    }

    method Clear()
      requires Valid()
      modifies this
      ensures Valid() && buffer == [] && events == []
    {
      buffer := [];
      events := [];
    }
  }

  // ---------------------------------------------------------------------------
  // Pushing chunk by chunk
  // ---------------------------------------------------------------------------

  /** The messages that pushing the chunks one by one returns, and the buffer left. */
  datatype Pushed = Pushed(returned: seq<string>, buffer: seq<Byte>)

  function PushAll(limits: Limits, chunks: seq<seq<Byte>>): Pushed {
    if chunks == [] then Pushed([], [])
    else
      var p := PushAll(limits, chunks[..|chunks| - 1]);
      var d := DecodeAll(limits, p.buffer + chunks[|chunks| - 1]);
      Pushed(p.returned + (if d.error.Some? then [] else d.messages), d.pending)
  }

  function Flat(chunks: seq<seq<Byte>>): seq<Byte> {
    if chunks == [] then [] else Flat(chunks[..|chunks| - 1]) + chunks[|chunks| - 1]
  }

  /** The messages that the chunk which brings the error completes first: `push` drops them. */
  function Dropped(limits: Limits, chunks: seq<seq<Byte>>): seq<string> {
    if chunks == [] then []
    else
      var before := chunks[..|chunks| - 1];
      var d := DecodeAll(limits, PushAll(limits, before).buffer + chunks[|chunks| - 1]);
      Dropped(limits, before) + (if d.error.Some? then d.messages else [])
  }

  /**
    Pushing returns all messages of the stream but those that arrive in the
    same chunk as, and before, the error.
   */
  lemma {:induction false} PushLosesOnlyDropped(limits: Limits, chunks: seq<seq<Byte>>)
    ensures var d, p := DecodeAll(limits, Flat(chunks)), PushAll(limits, chunks);
            && d.messages == p.returned + Dropped(limits, chunks)
            && d.pending == p.buffer
            && (d.error.None? ==> Dropped(limits, chunks) == [])
  {
    hide DecodeAll;
    if chunks == [] {
      EmptyDecodes(limits);
    } else {
      var before, chunk := chunks[..|chunks| - 1], chunks[|chunks| - 1];
      PushLosesOnlyDropped(limits, before);
      DecodeInTwo(limits, Flat(before), chunk);
    }
  }

  /** After the first `k` chunks every message of the stream is complete, and no error has shown. */
  ghost predicate CompleteAfter(limits: Limits, chunks: seq<seq<Byte>>, k: nat)
    requires k <= |chunks|
  {
    var d := DecodeAll(limits, Flat(chunks[..k]));
    d.error.None? && d.messages == DecodeAll(limits, Flat(chunks)).messages
  }

  lemma {:induction false} FewerChunks(limits: Limits, chunks: seq<seq<Byte>>, k: nat)
    requires k <= |chunks|
    ensures var d, all := DecodeAll(limits, Flat(chunks[..k])), DecodeAll(limits, Flat(chunks));
            && d.messages <= all.messages
            && (d.error.Some? ==> all.error.Some? && all.messages == d.messages)
    decreases |chunks| - k
  {
    hide DecodeAll;
    if k == |chunks| {
      assert chunks[..k] == chunks;
    } else {
      assert chunks[..k + 1][..k] == chunks[..k];
      DecodeInTwo(limits, Flat(chunks[..k]), chunks[k]);
      FewerChunks(limits, chunks, k + 1);
    }
  }

  /** Nothing is dropped exactly when the stream can be cut between its last message and its error, if it has one. */
  lemma {:induction false} NothingDroppedIff(limits: Limits, chunks: seq<seq<Byte>>)
    ensures Dropped(limits, chunks) == [] <==> exists k | 0 <= k <= |chunks| :: CompleteAfter(limits, chunks, k)
  {
    hide DecodeAll, CompleteAfter, PushAll;
    assert chunks[..|chunks|] == chunks;
    PushLosesOnlyDropped(limits, chunks);
    if chunks == [] {
      EmptyDecodes(limits);
      CompleteMeans(limits, chunks, 0);
    } else if DecodeAll(limits, Flat(chunks)).error.None? {
      CompleteMeans(limits, chunks, |chunks|);
    } else {
      var before := chunks[..|chunks| - 1];
      NothingDroppedIff(limits, before);
      PushLosesOnlyDropped(limits, before);
      DecodeInTwo(limits, Flat(before), chunks[|chunks| - 1]);
      if Dropped(limits, chunks) == [] {
        var k :| 0 <= k <= |before| && CompleteAfter(limits, before, k);
        CompleteMeans(limits, before, k);
        CompleteMeans(limits, chunks, k);
        assert before[..k] == chunks[..k];
      }
      forall k | 0 <= k <= |chunks| && CompleteAfter(limits, chunks, k) ensures Dropped(limits, chunks) == [] {
        CompleteMeans(limits, chunks, k);
        CompleteMeans(limits, before, if k <= |before| then k else 0);
        assert k <= |before| && before[..k] == chunks[..k];
        FewerChunks(limits, before, k);
      }
    }
  }

  lemma CompleteMeans(limits: Limits, chunks: seq<seq<Byte>>, k: nat)
    requires k <= |chunks|
    ensures CompleteAfter(limits, chunks, k)
       <==> && DecodeAll(limits, Flat(chunks[..k])).error.None?
            && DecodeAll(limits, Flat(chunks[..k])).messages == DecodeAll(limits, Flat(chunks)).messages
  {
    hide DecodeAll, Flat;
  }

  /**
    Pushing chunk by chunk returns every message of the stream if and only if
    some number of chunks completes all of them before the error shows.
   */
  lemma PushReturnsAllIff(limits: Limits, chunks: seq<seq<Byte>>)
    ensures PushAll(limits, chunks).returned == DecodeAll(limits, Flat(chunks)).messages
       <==> exists k | 0 <= k <= |chunks| :: CompleteAfter(limits, chunks, k)
  {
    hide DecodeAll, CompleteAfter, PushAll, Dropped;
    PushLosesOnlyDropped(limits, chunks);
    NothingDroppedIff(limits, chunks);
  }

  /** A blank line where a header should be: the shortest tail that fails. */
  lemma BlankLineFails(limits: Limits)
    ensures Next(limits, [13, 10, 13, 10]) == Step(Failed(MalformedHeader("")), [13, 10, 13, 10])
  {
    var b: seq<Byte> := [13, 10, 13, 10];
    assert DelimiterAt(b, 0);
    assert b[..0] == [] && AsText([]) == "" && Lines("") == [""];
  }

  /** Dropping happens: the same bytes in one push return nothing, and in two the message. */
  lemma PushDependsOnCut(limits: Limits, json: string)
    requires WithinLimits(limits, json)
    ensures PushAll(limits, [EncodeFrame(json) + [13, 10, 13, 10]]).returned == []
    ensures PushAll(limits, [EncodeFrame(json), [13, 10, 13, 10]]).returned == [json]
  {
    hide Next, EncodeFrame;
    var bad: seq<Byte> := [13, 10, 13, 10];
    BlankLineFails(limits);
    LimitsBoundFrames(limits, json);
    FrameRoundTrip(limits, json, bad);
    FramesRoundTrip(limits, [json]);
    EmptyIsIncomplete(limits);
    assert EncodeFrames([json]) == EncodeFrame(json) + EncodeFrames([]) == EncodeFrame(json);
    var once, twice := [EncodeFrame(json) + bad], [EncodeFrame(json), bad];
    assert once[..0] == [] && twice[..1] == [EncodeFrame(json)];
    assert once[0] == EncodeFrame(json) + bad;
    assert [] + (EncodeFrame(json) + bad) == EncodeFrame(json) + bad;
    assert DecodeAll(limits, bad).error.Some?;
    assert DecodeAll(limits, EncodeFrame(json) + bad).error.Some?;
    assert PushAll(limits, []) == Pushed([], []);
    assert [] + bad == bad && [] + EncodeFrame(json) == EncodeFrame(json);
  }

  lemma EmptyDecodes(limits: Limits)
    ensures DecodeAll(limits, []) == Decoded([], [], None)
  {
  }
}
