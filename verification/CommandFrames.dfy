/**
  The messages the client sends, from the writer of each command to the bytes
  of its frame: one pass counts the length under the message limit, a second
  builds the text, and only then is anything written.
 */
module CommandFrames {
  import opened Wrappers
  import opened Machine
  import opened Utf8
  import opened Decimals
  import opened Json
  import opened JsonWriter
  import Framing

  datatype Position = Position(line: nat, character: nat)

  datatype ClientCommand =
    | DidOpen(uri: string, languageId: string, version: nat, text: string)
    | DidChange(uri: string, version: nat, previousEnd: Option<Position>, text: string)
    | DidSave(uri: string, saved: Option<string>)
    | DidClose(uri: string)
    | Request(id: nat, name: string, params: Value)
    | CancelRequest(id: nat)
    | Shutdown(id: nat)
  {
    /** Only the parameters of a request can be nested too deeply to be written. */
    predicate Writable() {
      Request? ==> Shallow(params, MAX_JSON_DEPTH)
    }
  }

  // ---------------------------------------------------------------------------
  // The text of each command, appended to what is there already
  // ---------------------------------------------------------------------------

  const HEAD: string := "{" + "\"jsonrpc\":" + "\"2.0\"" + ","
  const DOCUMENT: string := "," + "\"params\":" + "{" + "\"textDocument\":" + "{" + "\"uri\":"
  const DID_OPEN: string := "\"method\":" + "\"textDocument/didOpen\"" + DOCUMENT
  const DID_CHANGE: string := "\"method\":" + "\"textDocument/didChange\"" + DOCUMENT
  const DID_SAVE: string := "\"method\":" + "\"textDocument/didSave\"" + DOCUMENT
  const DID_CLOSE: string := "\"method\":" + "\"textDocument/didClose\"" + DOCUMENT
  const CANCEL: string := "\"method\":" + "\"$/cancelRequest\"" + "," + "\"params\":" + "{" + "\"id\":"
  const SHUTDOWN: string := "," + "\"method\":" + "\"shutdown\"" + "," + "\"params\":" + "null" + "}"
  const RANGE: string := "\"range\":" + "{" + "\"start\":"
  const ORIGIN: string := "{" + "\"line\":" + "0" + "," + "\"character\":" + "0" + "}"
  const RANGE_START: string := RANGE + ORIGIN + "," + "\"end\":" + "{" + "\"line\":"
  const CHARACTER: string := "," + "\"character\":"
  const CHANGES: string := "}" + "," + "\"contentChanges\":" + "[" + "{"
  const LANGUAGE: string := "," + "\"languageId\":"
  const VERSION: string := "," + "\"version\":"
  const NEXT_TEXT: string := "," + "\"text\":"
  const TEXT: string := "\"text\":"
  const METHOD: string := "," + "\"method\":"
  const PARAMS: string := "," + "\"params\":"
  const ID: string := "\"id\":"

  function DidOpenText(w: string, uri: string, languageId: string, version: nat, text: string): string {
    w + DID_OPEN + PrintString(uri)
    + LANGUAGE + PrintString(languageId) + VERSION + Decimal(version)
    + NEXT_TEXT + PrintString(text) + "}}}"
  }

  function RangeText(w: string, end: Option<Position>): string {
    match end
    case None => w
    case Some(p) =>
      w + RANGE_START + Decimal(p.line)
      + CHARACTER + Decimal(p.character) + "}},"
  }

  lemma RangeIsLonger(w: string, end: Option<Position>)
    ensures Length(w) <= Length(RangeText(w, end))
  {
    hide Length, Decimal, RANGE_START, CHARACTER;
    PrefixesAreShorter();
  }

  function DidChangeText(w: string, uri: string, version: nat, end: Option<Position>, text: string): string {
    RangeText(w + DID_CHANGE + PrintString(uri)
              + VERSION + Decimal(version) + CHANGES, end)
    + TEXT + PrintString(text) + "}]}}"
  }

  function SavedText(w: string, saved: Option<string>): string {
    match saved
    case None => w
    case Some(text) => w + NEXT_TEXT + PrintString(text)
  }

  function DidSaveText(w: string, uri: string, saved: Option<string>): string {
    SavedText(w + DID_SAVE + PrintString(uri) + "}", saved)
    + "}}"
  }

  function DidCloseText(w: string, uri: string): string {
    w + DID_CLOSE + PrintString(uri) + "}}}"
  }

  function RequestText(w: string, id: nat, name: string, params: Value): string {
    w + ID + Decimal(id) + METHOD + PrintString(name) + PARAMS + Print(params) + "}"
  }

  function CancelText(w: string, id: nat): string {
    w + CANCEL + Decimal(id) + "}}"
  }

  function ShutdownText(w: string, id: nat): string {
    w + ID + Decimal(id) + SHUTDOWN
  }

  function CommandText(c: ClientCommand): string {
    match c
    case DidOpen(uri, languageId, version, text) => DidOpenText(HEAD, uri, languageId, version, text)
    case DidChange(uri, version, previousEnd, text) => DidChangeText(HEAD, uri, version, previousEnd, text)
    case DidSave(uri, saved) => DidSaveText(HEAD, uri, saved)
    case DidClose(uri) => DidCloseText(HEAD, uri)
    case Request(id, name, params) => RequestText(HEAD, id, name, params)
    case CancelRequest(id) => CancelText(HEAD, id)
    case Shutdown(id) => ShutdownText(HEAD, id)
  }

  lemma PrefixesAreShorter()
    ensures forall s: string, t: string :: Length(s) <= Length(s + t)
  {
    forall s: string, t: string ensures Length(s) <= Length(s + t) {
      PrefixIsShorter(s, t);
    }
  }

  // ---------------------------------------------------------------------------
  // The writers
  // ---------------------------------------------------------------------------

  method WriteDidOpen(output: Output, uri: string, languageId: string, version: nat, text: string)
    returns (outcome: Outcome)
    requires output.Valid()
    modifies output
    ensures output.Valid()
    ensures outcome.Done? <==> output.Holds(DidOpenText(old(output.written), uri, languageId, version, text))
    ensures outcome.Done? ==> output.written == DidOpenText(old(output.written), uri, languageId, version, text)
  {
    hide Length, PrintString, Decimal, DID_OPEN, LANGUAGE, VERSION, NEXT_TEXT;
    PrefixesAreShorter();
    :- output.Push(DID_OPEN);
    :- output.WriteString(uri);
    :- output.Push(LANGUAGE);
    :- output.WriteString(languageId);
    :- output.Push(VERSION);
    :- output.Push(Decimal(version));
    :- output.Push(NEXT_TEXT);
    :- output.WriteString(text);
    outcome := output.Push("}}}");
  }

  method WriteRange(output: Output, end: Option<Position>) returns (outcome: Outcome)
    requires output.Valid()
    modifies output
    ensures output.Valid()
    ensures if outcome.Done? then output.written == RangeText(old(output.written), end)
            else !output.Holds(RangeText(old(output.written), end))
  {
    hide Length, Decimal, RANGE_START, CHARACTER;
    PrefixesAreShorter();
    if end.Some? {
      :- output.Push(RANGE_START);
      :- output.Push(Decimal(end.value.line));
      :- output.Push(CHARACTER);
      :- output.Push(Decimal(end.value.character));
      :- output.Push("}},");
    }
    outcome := Done;
  }

  method WriteDidChange(output: Output, uri: string, version: nat, end: Option<Position>, text: string)
    returns (outcome: Outcome)
    requires output.Valid()
    modifies output
    ensures output.Valid()
    ensures outcome.Done? <==> output.Holds(DidChangeText(old(output.written), uri, version, end, text))
    ensures outcome.Done? ==> output.written == DidChangeText(old(output.written), uri, version, end, text)
  {
    hide Length, PrintString, Decimal, DID_CHANGE, VERSION, CHANGES, TEXT, RangeText;
    PrefixesAreShorter();
    RangeIsLonger(output.written + DID_CHANGE + PrintString(uri) + VERSION + Decimal(version) + CHANGES, end);
    :- output.Push(DID_CHANGE);
    :- output.WriteString(uri);
    :- output.Push(VERSION);
    :- output.Push(Decimal(version));
    :- output.Push(CHANGES);
    :- WriteRange(output, end);
    :- output.Push(TEXT);
    :- output.WriteString(text);
    outcome := output.Push("}]}}");
  }

  method WriteDidSave(output: Output, uri: string, saved: Option<string>) returns (outcome: Outcome)
    requires output.Valid()
    modifies output
    ensures output.Valid()
    ensures outcome.Done? <==> output.Holds(DidSaveText(old(output.written), uri, saved))
    ensures outcome.Done? ==> output.written == DidSaveText(old(output.written), uri, saved)
  {
    hide Length, PrintString, DID_SAVE, NEXT_TEXT;
    PrefixesAreShorter();
    :- output.Push(DID_SAVE);
    :- output.WriteString(uri);
    :- output.Push("}");
    if saved.Some? {
      :- output.Push(NEXT_TEXT);
      :- output.WriteString(saved.value);
    }
    outcome := output.Push("}}");
  }

  method WriteDidClose(output: Output, uri: string) returns (outcome: Outcome)
    requires output.Valid()
    modifies output
    ensures output.Valid()
    ensures outcome.Done? <==> output.Holds(DidCloseText(old(output.written), uri))
    ensures outcome.Done? ==> output.written == DidCloseText(old(output.written), uri)
  {
    hide Length, PrintString, DID_CLOSE;
    PrefixesAreShorter();
    :- output.Push(DID_CLOSE);
    :- output.WriteString(uri);
    outcome := output.Push("}}}");
  }

  method WriteRequest(output: Output, id: nat, name: string, params: Value) returns (outcome: Outcome)
    requires output.Valid()
    modifies output
    ensures output.Valid()
    ensures outcome.Done?
       <==> Shallow(params, MAX_JSON_DEPTH) && output.Holds(RequestText(old(output.written), id, name, params))
    ensures outcome.Done? ==> output.written == RequestText(old(output.written), id, name, params)
  {
    hide Length, PrintString, Decimal, Print, Shallow, ID, METHOD, PARAMS;
    PrefixesAreShorter();
    :- output.Push(ID);
    :- output.Push(Decimal(id));
    :- output.Push(METHOD);
    :- output.WriteString(name);
    :- output.Push(PARAMS);
    :- output.WriteValue(params, 0);
    outcome := output.Push("}");
  }

  method WriteCancel(output: Output, id: nat) returns (outcome: Outcome)
    requires output.Valid()
    modifies output
    ensures output.Valid()
    ensures outcome.Done? <==> output.Holds(CancelText(old(output.written), id))
    ensures outcome.Done? ==> output.written == CancelText(old(output.written), id)
  {
    hide Length, Decimal, CANCEL;
    PrefixesAreShorter();
    :- output.Push(CANCEL);
    :- output.Push(Decimal(id));
    outcome := output.Push("}}");
  }

  method WriteShutdown(output: Output, id: nat) returns (outcome: Outcome)
    requires output.Valid()
    modifies output
    ensures output.Valid()
    ensures outcome.Done? <==> output.Holds(ShutdownText(old(output.written), id))
    ensures outcome.Done? ==> output.written == ShutdownText(old(output.written), id)
  {
    hide Length, Decimal, ID, SHUTDOWN;
    PrefixesAreShorter();
    :- output.Push(ID);
    :- output.Push(Decimal(id));
    outcome := output.Push(SHUTDOWN);
  }

  lemma HeadIsShorter(c: ClientCommand)
    ensures Length(HEAD) <= Length(CommandText(c))
  {
    hide Length, PrintString, Decimal, Print, HEAD, DID_OPEN, LANGUAGE, VERSION, NEXT_TEXT, RANGE_START, CHARACTER;
    hide DID_CHANGE, CHANGES, TEXT, DID_SAVE, DID_CLOSE, ID, METHOD, PARAMS, CANCEL, SHUTDOWN;
    PrefixesAreShorter();
  }

  method WriteCommand(c: ClientCommand, output: Output) returns (outcome: Outcome)
    requires output.Valid() && output.written == ""
    modifies output
    ensures output.Valid()
    ensures outcome.Done? <==> c.Writable() && output.Holds(CommandText(c))
    ensures outcome.Done? ==> output.written == CommandText(c)
  {
    hide Length, Shallow, HEAD;
    hide DidOpenText, DidChangeText, DidSaveText, DidCloseText, RequestText, CancelText, ShutdownText;
    HeadIsShorter(c);
    assert "" + HEAD == HEAD;
    :- output.Push(HEAD);
    match c {
      case DidOpen(uri, languageId, version, text) => outcome := WriteDidOpen(output, uri, languageId, version, text);
      case DidChange(uri, version, previousEnd, text) =>
        outcome := WriteDidChange(output, uri, version, previousEnd, text);
      case DidSave(uri, saved) => outcome := WriteDidSave(output, uri, saved);
      case DidClose(uri) => outcome := WriteDidClose(output, uri);
      case Request(id, name, params) => outcome := WriteRequest(output, id, name, params);
      case CancelRequest(id) => outcome := WriteCancel(output, id);
      case Shutdown(id) => outcome := WriteShutdown(output, id);
    }
  }

  // ---------------------------------------------------------------------------
  // Counting first, then framing
  // ---------------------------------------------------------------------------

  /** The commands that may be sent under a limit. */
  predicate Sendable(c: ClientCommand, max: nat) {
    c.Writable() && Length(CommandText(c)) <= max
  }

  /** The length preflight is exact. */
  method CommandLength(c: ClientCommand, max: nat) returns (length: Option<nat>)
    requires max <= USIZE_MAX
    ensures length == if Sendable(c, max) then Some(Length(CommandText(c))) else None
  {
    hide Length, CommandText;
    var output := new Output(Some(max));
    var outcome := WriteCommand(c, output);
    length := if outcome.Done? then Some(output.bytes) else None;
  }

  /** The length of an opening notification, without building the command. */
  method DidOpenLength(uri: string, languageId: string, version: nat, text: string, max: nat)
    returns (length: Option<nat>)
    requires max <= USIZE_MAX
    ensures var c := DidOpen(uri, languageId, version, text);
            length == if Sendable(c, max) then Some(Length(CommandText(c))) else None
  {
    hide Length, DidOpenText;
    HeadIsShorter(DidOpen(uri, languageId, version, text));
    var output := new Output(Some(max));
    assert "" + HEAD == HEAD;
    var head := output.Push(HEAD);
    if head.Refused? {
      return None;
    }
    var outcome := WriteDidOpen(output, uri, languageId, version, text);
    length := if outcome.Done? then Some(output.bytes) else None;
  }

  /** The server's end of the pipe. */
  class Pipe {
    var bytes: seq<Byte>

    constructor ()
      ensures bytes == []
    {
      bytes := [];
    }

    method Write(more: seq<Byte>)
      modifies this
      ensures bytes == old(bytes) + more
    {
      bytes := bytes + more;
    }

    /** One whole frame if the command may be sent, and nothing at all if not. */
    method SendCommand(c: ClientCommand, max: nat) returns (sent: bool)
      requires max <= USIZE_MAX
      modifies this
      ensures sent == Sendable(c, max)
      ensures bytes == Sent(old(bytes), c, max)
    {
      hide Length, CommandText, Encode, Framing.Header, ClientCommand.Writable;
      var length := CommandLength(c, max);
      if length.None? {
        assert bytes + [] == bytes;
        return false;
      }
      var json := new Output(None);
      var outcome := WriteCommand(c, json);
      assert outcome.Done? && Length(json.text) == length.value;
      Write(Encode(Framing.Header(Length(json.text)) + "\r\n\r\n"));
      Write(Encode(json.text));
      sent := true;
    }
  }

  // ---------------------------------------------------------------------------
  // What the server reads
  // ---------------------------------------------------------------------------

  /** One whole frame more if the command may be sent, and nothing at all if not. */
  function Sent(bytes: seq<Byte>, c: ClientCommand, max: nat): seq<Byte> {
    bytes + if Sendable(c, max) then Framing.EncodeFrame(CommandText(c)) else []
  }

  /** What is on the pipe after sending the commands one by one. */
  function SentAll(commands: seq<ClientCommand>, max: nat): seq<Byte> {
    if commands == [] then [] else Sent(SentAll(commands[..|commands| - 1], max), commands[|commands| - 1], max)
  }

  function SentTexts(commands: seq<ClientCommand>, max: nat): seq<string> {
    if commands == [] then []
    else
      var last := commands[|commands| - 1];
      SentTexts(commands[..|commands| - 1], max) + if Sendable(last, max) then [CommandText(last)] else []
  }

  lemma {:induction false} EncodeOneMore(bodies: seq<string>, json: string)
    ensures Framing.EncodeFrames(bodies + [json]) == Framing.EncodeFrames(bodies) + Framing.EncodeFrame(json)
  {
    hide Framing.EncodeFrame;
    if bodies == [] {
      assert bodies + [json] == [json];
    } else {
      EncodeOneMore(bodies[1..], json);
      assert (bodies + [json])[1..] == bodies[1..] + [json];
    }
  }

  lemma {:induction false} SentAllIsFrames(commands: seq<ClientCommand>, max: nat)
    ensures SentAll(commands, max) == Framing.EncodeFrames(SentTexts(commands, max))
  {
    hide CommandText, Length;
    if commands != [] {
      var before, last := commands[..|commands| - 1], commands[|commands| - 1];
      SentAllIsFrames(before, max);
      EncodeOneMore(SentTexts(before, max), CommandText(last));
      assert SentTexts(before, max) + [] == SentTexts(before, max);
    }
  }

  lemma {:induction false} DecimalGrows(n: nat, m: nat)
    requires n <= m
    ensures |Decimal(n)| <= |Decimal(m)|
  {
    if n >= 10 {
      DecimalGrows(n / 10, m / 10);
    }
  }

  lemma FitsUnder(limits: Framing.Limits, json: string, max: nat)
    requires Length(json) <= max <= limits.maxContent
    requires |Framing.Header(max)| <= limits.maxHeader && |Framing.Header(max)| + 4 + max <= USIZE_MAX
    ensures Framing.WithinLimits(limits, json)
  {
    hide Length, Framing.EncodeFrame;
    DecimalGrows(Length(json), max);
    Framing.FrameLength(json);
  }

  lemma {:induction false} SentTextsFit(commands: seq<ClientCommand>, max: nat)
    ensures forall json <- SentTexts(commands, max) :: Length(json) <= max
  {
    hide CommandText, Length;
    if commands != [] {
      SentTextsFit(commands[..|commands| - 1], max);
    }
  }

  /**
    A server that decodes what was sent reads the text of exactly the commands
    that fitted, in order, and no refused command leaves a trace.
   */
  lemma SentCommandsAreRead(limits: Framing.Limits, commands: seq<ClientCommand>, max: nat)
    requires max <= limits.maxContent
    requires |Framing.Header(max)| <= limits.maxHeader && |Framing.Header(max)| + 4 + max <= USIZE_MAX
    ensures Framing.DecodeAll(limits, SentAll(commands, max))
         == Framing.Decoded(SentTexts(commands, max), [], None)
  {
    hide CommandText, Length, SentAll, SentTexts;
    hide Framing.WithinLimits, Framing.Header, Framing.EncodeFrames, Framing.DecodeAll;
    SentTextsFit(commands, max);
    SentAllIsFrames(commands, max);
    forall json <- SentTexts(commands, max) ensures Framing.WithinLimits(limits, json) {
      FitsUnder(limits, json, max);
    }
    Framing.FramesRoundTrip(limits, SentTexts(commands, max));
  }
}
