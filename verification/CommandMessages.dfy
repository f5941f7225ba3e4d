/**
  What the text of a command says: each one, put together piece by piece, is
  the JSON text of the message it stands for.
 */
module CommandMessages {
  import opened Wrappers
  import opened Decimals
  import opened Json
  import opened JsonRoundTrip
  import opened CommandFrames
  import opened Machine
  import Framing

  // ---------------------------------------------------------------------------
  // The messages
  // ---------------------------------------------------------------------------

  function Integer(n: nat): Value {
    Number(Decimal(n))
  }

  function Notification(name: string, params: Value): Value {
    Object([Entry("jsonrpc", String("2.0")), Entry("method", String(name)), Entry("params", params)])
  }

  function Call(id: nat, name: string, params: Value): Value {
    Object([Entry("id", Integer(id)), Entry("jsonrpc", String("2.0")), Entry("method", String(name)),
            Entry("params", params)])
  }

  function DocumentOf(members: seq<Entry>): Value {
    Object([Entry("textDocument", Object(members))])
  }

  function PositionOf(p: Position): Value {
    Object([Entry("character", Integer(p.character)), Entry("line", Integer(p.line))])
  }

  /** A replacement of everything up to `end`, or of the whole text. */
  function ChangeOf(end: Option<Position>, text: string): Value {
    Object((if end.Some?
            then [Entry("range",
                           Object([Entry("end", PositionOf(end.value)), Entry("start", PositionOf(Position(0, 0)))]))]
            else [])
           + [Entry("text", String(text))])
  }

  /** The JSON-RPC message a command stands for, members in key order. */
  function MessageOf(c: ClientCommand): Value {
    match c
    case DidOpen(uri, languageId, version, text) =>
      Notification("textDocument/didOpen",
        DocumentOf([Entry("languageId", String(languageId)), Entry("text", String(text)), Entry("uri", String(uri)),
                    Entry("version", Integer(version))]))
    case DidChange(uri, version, previousEnd, text) =>
      Notification("textDocument/didChange",
        Object([Entry("contentChanges", Array([ChangeOf(previousEnd, text)])),
                Entry("textDocument", Object([Entry("uri", String(uri)), Entry("version", Integer(version))]))]))
    case DidSave(uri, saved) =>
      Notification("textDocument/didSave",
        Object((if saved.Some? then [Entry("text", String(saved.value))] else [])
               + [Entry("textDocument", Object([Entry("uri", String(uri))]))]))
    case DidClose(uri) => Notification("textDocument/didClose", DocumentOf([Entry("uri", String(uri))]))
    case Request(id, name, params) => Call(id, name, params)
    case CancelRequest(id) => Notification("$/cancelRequest", Object([Entry("id", Integer(id))]))
    case Shutdown(id) => Call(id, "shutdown", Null)
  }

  // ---------------------------------------------------------------------------
  // The same messages with their members in the order they are written
  // ---------------------------------------------------------------------------

  function CallWritten(id: nat, name: string, params: Value): Value {
    Object([Entry("jsonrpc", String("2.0")), Entry("id", Integer(id)), Entry("method", String(name)),
            Entry("params", params)])
  }

  function PositionWritten(p: Position): Value {
    Object([Entry("line", Integer(p.line)), Entry("character", Integer(p.character))])
  }

  function RangeWritten(end: Position): Value {
    Object([Entry("start", PositionWritten(Position(0, 0))), Entry("end", PositionWritten(end))])
  }

  function ChangeWritten(end: Option<Position>, text: string): Value {
    Object((if end.Some? then [Entry("range", RangeWritten(end.value))] else []) + [Entry("text", String(text))])
  }

  function OpenedWritten(uri: string, languageId: string, version: nat, text: string): Value {
    Object([Entry("uri", String(uri)), Entry("languageId", String(languageId)), Entry("version", Integer(version)),
            Entry("text", String(text))])
  }

  function ChangesWritten(uri: string, version: nat, end: Option<Position>, text: string): Value {
    Object([Entry("textDocument", Object([Entry("uri", String(uri)), Entry("version", Integer(version))])),
            Entry("contentChanges", Array([ChangeWritten(end, text)]))])
  }

  function SavedWritten(uri: string, saved: Option<string>): Value {
    Object([Entry("textDocument", Object([Entry("uri", String(uri))]))]
           + (if saved.Some? then [Entry("text", String(saved.value))] else []))
  }

  function Written(c: ClientCommand): Value {
    match c
    case DidOpen(uri, languageId, version, text) =>
      Notification("textDocument/didOpen",
                   Object([Entry("textDocument", OpenedWritten(uri, languageId, version, text))]))
    case DidChange(uri, version, previousEnd, text) =>
      Notification("textDocument/didChange", ChangesWritten(uri, version, previousEnd, text))
    case DidSave(uri, saved) => Notification("textDocument/didSave", SavedWritten(uri, saved))
    case DidClose(uri) => Notification("textDocument/didClose", DocumentOf([Entry("uri", String(uri))]))
    case Request(id, name, params) => CallWritten(id, name, params)
    case CancelRequest(id) => Notification("$/cancelRequest", Object([Entry("id", Integer(id))]))
    case Shutdown(id) => CallWritten(id, "shutdown", Null)
  }

  // ---------------------------------------------------------------------------
  // Pieces of text
  // ---------------------------------------------------------------------------

  predicate Plain(c: char) { c > '\U{1f}' && c != '"' && c != '\\' }

  lemma {:induction false} PlainEscapes(s: string)
    requires forall c <- s :: Plain(c)
    ensures Escape(s) == s
  {
    if s != "" {
      PlainEscapes(s[1..]);
      assert s[0] in s;
      assert s == [s[0]] + s[1..];
    }
  }

  function Key(name: string): string {
    PrintString(name) + ":"
  }

  lemma PlainQuoted(s: string, quoted: string)
    requires (forall c <- s :: Plain(c)) && "\"" + s + "\"" == quoted
    ensures PrintString(s) == quoted
  {
    PlainEscapes(s);
  }

  lemma PlainKey(s: string, key: string)
    requires (forall c <- s :: Plain(c)) && "\"" + s + "\":" == key
    ensures Key(s) == key
  {
    PlainEscapes(s);
    hide Escape;
  }

  lemma VersionKey()
    ensures Key("jsonrpc") == "\"jsonrpc\":"
    ensures PrintString("2.0") == "\"2.0\""
  {
    hide Key, PrintString;
    PlainKey("jsonrpc", "\"jsonrpc\":");
    PlainQuoted("2.0", "\"2.0\"");
  }

  lemma EnvelopeKeys()
    ensures Key("id") == "\"id\":"
    ensures Key("method") == "\"method\":"
    ensures Key("params") == "\"params\":"
  {
    hide Key, PrintString;
    PlainKey("id", "\"id\":");
    PlainKey("method", "\"method\":");
    PlainKey("params", "\"params\":");
  }

  lemma DocumentKeys()
    ensures Key("textDocument") == "\"textDocument\":"
    ensures Key("uri") == "\"uri\":"
    ensures Key("text") == "\"text\":"
  {
    hide Key, PrintString;
    PlainKey("textDocument", "\"textDocument\":");
    PlainKey("uri", "\"uri\":");
    PlainKey("text", "\"text\":");
  }

  lemma VersionKeys()
    ensures Key("languageId") == "\"languageId\":"
    ensures Key("version") == "\"version\":"
  {
    hide Key, PrintString;
    PlainKey("languageId", "\"languageId\":");
    PlainKey("version", "\"version\":");
  }

  lemma ChangeKeys()
    ensures Key("contentChanges") == "\"contentChanges\":"
    ensures Key("range") == "\"range\":"
  {
    hide Key, PrintString;
    PlainKey("contentChanges", "\"contentChanges\":");
    PlainKey("range", "\"range\":");
  }

  lemma RangeKeys()
    ensures Key("start") == "\"start\":"
    ensures Key("end") == "\"end\":"
  {
    hide Key, PrintString;
    PlainKey("start", "\"start\":");
    PlainKey("end", "\"end\":");
  }

  lemma PositionKeys()
    ensures Key("line") == "\"line\":"
    ensures Key("character") == "\"character\":"
  {
    hide Key, PrintString;
    PlainKey("line", "\"line\":");
    PlainKey("character", "\"character\":");
  }

  lemma OpenIsPlain()
    ensures forall c <- "textDocument/didOpen" :: Plain(c)
  {
  }

  lemma OpenName()
    ensures PrintString("textDocument/didOpen") == "\"textDocument/didOpen\""
  {
    hide PrintString, Plain;
    OpenIsPlain();
    PlainQuoted("textDocument/didOpen", "\"textDocument/didOpen\"");
  }

  lemma ChangeIsPlain()
    ensures forall c <- "textDocument/didChange" :: Plain(c)
  {
  }

  lemma ChangeName()
    ensures PrintString("textDocument/didChange") == "\"textDocument/didChange\""
  {
    hide PrintString, Plain;
    ChangeIsPlain();
    PlainQuoted("textDocument/didChange", "\"textDocument/didChange\"");
  }

  lemma SaveIsPlain()
    ensures forall c <- "textDocument/didSave" :: Plain(c)
  {
  }

  lemma SaveName()
    ensures PrintString("textDocument/didSave") == "\"textDocument/didSave\""
  {
    hide PrintString, Plain;
    SaveIsPlain();
    PlainQuoted("textDocument/didSave", "\"textDocument/didSave\"");
  }

  lemma CloseIsPlain()
    ensures forall c <- "textDocument/didClose" :: Plain(c)
  {
  }

  lemma CloseName()
    ensures PrintString("textDocument/didClose") == "\"textDocument/didClose\""
  {
    hide PrintString, Plain;
    CloseIsPlain();
    PlainQuoted("textDocument/didClose", "\"textDocument/didClose\"");
  }

  lemma CancelName()
    ensures PrintString("$/cancelRequest") == "\"$/cancelRequest\""
  {
    hide Key, PrintString;
    PlainQuoted("$/cancelRequest", "\"$/cancelRequest\"");
  }

  lemma ShutdownName()
    ensures PrintString("shutdown") == "\"shutdown\""
  {
    hide Key, PrintString;
    PlainQuoted("shutdown", "\"shutdown\"");
  }

  function Member(e: Entry): string {
    Key(e.key) + Print(e.value)
  }

  lemma LastMember(e: Entry)
    ensures PrintEntries([e]) == Member(e)
  {
    hide PrintString;
  }

  lemma OneMoreMember(e: Entry, rest: seq<Entry>)
    requires rest != []
    ensures PrintEntries([e] + rest) == Member(e) + "," + PrintEntries(rest)
  {
    hide PrintString;
    assert ([e] + rest)[1..] == rest;
  }

  lemma PrintOne(a: Entry)
    ensures Print(Object([a])) == "{" + Member(a) + "}"
  {
    hide Member, PrintEntries;
    LastMember(a);
  }

  lemma PrintTwo(a: Entry, b: Entry)
    ensures PrintEntries([a, b]) == Member(a) + "," + Member(b)
    ensures Print(Object([a, b])) == "{" + Member(a) + "," + Member(b) + "}"
  {
    hide Member, PrintEntries;
    LastMember(b);
    OneMoreMember(a, [b]);
    assert [a] + [b] == [a, b];
  }

  lemma PrintThree(a: Entry, b: Entry, c: Entry)
    ensures PrintEntries([a, b, c]) == Member(a) + "," + (Member(b) + "," + Member(c))
    ensures Print(Object([a, b, c])) == "{" + Member(a) + "," + Member(b) + "," + Member(c) + "}"
  {
    hide Member, PrintEntries;
    PrintTwo(b, c);
    OneMoreMember(a, [b, c]);
    assert [a] + [b, c] == [a, b, c];
  }

  lemma PrintFour(a: Entry, b: Entry, c: Entry, d: Entry)
    ensures Print(Object([a, b, c, d])) == "{" + Member(a) + "," + Member(b) + "," + Member(c) + "," + Member(d) + "}"
  {
    hide Member, PrintEntries;
    PrintThree(b, c, d);
    OneMoreMember(a, [b, c, d]);
    assert [a] + [b, c, d] == [a, b, c, d];
  }

  lemma Closers()
    ensures "}}" == "}" + "}" && "}}}" == "}}" + "}" && "}}," == "}}" + "," && "}]}}" == "}" + "]" + "}}"
  {
  }

  // ---------------------------------------------------------------------------
  // The text of a command is the printed message
  // ---------------------------------------------------------------------------

  lemma HeadSpelled()
    ensures HEAD == "{" + Member(Entry("jsonrpc", String("2.0"))) + ","
  {
    hide Key, PrintString;
    VersionKey();
  }

  lemma EnvelopeSpelled()
    ensures ID == Key("id") && METHOD == "," + Key("method") && PARAMS == "," + Key("params")
  {
    hide Key;
    EnvelopeKeys();
  }

  lemma StringMember(key: string, s: string)
    ensures Member(Entry(key, String(s))) == Key(key) + PrintString(s)
  {
  }

  lemma IntegerMember(key: string, n: nat)
    ensures Member(Entry(key, Integer(n))) == Key(key) + Decimal(n)
  {
  }

  lemma NotificationText(name: string, params: Value)
    ensures Print(Notification(name, params))
         == HEAD + Key("method") + PrintString(name) + PARAMS + Print(params) + "}"
  {
    hide Key, PrintString, Print, HEAD, PARAMS, METHOD, ID;
    HeadSpelled();
    EnvelopeSpelled();
    PrintThree(Entry("jsonrpc", String("2.0")), Entry("method", String(name)), Entry("params", params));
    StringMember("method", name);
  }

  lemma CallText(id: nat, name: string, params: Value)
    ensures Print(CallWritten(id, name, params)) == RequestText(HEAD, id, name, params)
  {
    hide Key, PrintString, Print, HEAD, PARAMS, METHOD, ID, Decimal;
    HeadSpelled();
    EnvelopeSpelled();
    PrintFour(Entry("jsonrpc", String("2.0")), Entry("id", Integer(id)), Entry("method", String(name)),
              Entry("params", params));
    IntegerMember("id", id);
    StringMember("method", name);
  }

  lemma ShutdownSpelled()
    ensures SHUTDOWN == METHOD + PrintString("shutdown") + PARAMS + Print(Null) + "}"
  {
    hide PrintString;
    ShutdownName();
  }

  lemma ShutdownIsCall(id: nat)
    ensures ShutdownText(HEAD, id) == RequestText(HEAD, id, "shutdown", Null)
  {
    hide PrintString, Print, HEAD, PARAMS, METHOD, ID, Decimal, SHUTDOWN;
    ShutdownSpelled();
  }

  lemma CancelSpelled()
    ensures CANCEL == Key("method") + PrintString("$/cancelRequest") + PARAMS + "{" + Key("id")
  {
    hide PrintString, Key;
    CancelName();
    EnvelopeKeys();
  }

  lemma CancelIsNotification(id: nat)
    ensures CancelText(HEAD, id) == Print(Notification("$/cancelRequest", Object([Entry("id", Integer(id))])))
  {
    hide PrintString, Key, Print, HEAD, PARAMS, Decimal, CANCEL, Member;
    CancelSpelled();
    Closers();
    PrintOne(Entry("id", Integer(id)));
    IntegerMember("id", id);
    NotificationText("$/cancelRequest", Object([Entry("id", Integer(id))]));
  }

  lemma DocumentSpelled()
    ensures DOCUMENT == PARAMS + "{" + Key("textDocument") + "{" + Key("uri")
  {
    hide Key;
    EnvelopeKeys();
    DocumentKeys();
  }

  /** The document notifications begin alike. */
  lemma DocumentNotification(name: string, params: Value, rest: string)
    requires Print(params) == "{" + Key("textDocument") + "{" + Key("uri") + rest
    ensures Print(Notification(name, params)) == HEAD + (Key("method") + PrintString(name) + DOCUMENT) + rest + "}"
  {
    hide PrintString, Key, Print, HEAD, PARAMS, DOCUMENT;
    NotificationText(name, params);
    DocumentSpelled();
  }

  lemma NamesSpelled()
    ensures DID_OPEN == Key("method") + PrintString("textDocument/didOpen") + DOCUMENT
    ensures DID_CHANGE == Key("method") + PrintString("textDocument/didChange") + DOCUMENT
    ensures DID_SAVE == Key("method") + PrintString("textDocument/didSave") + DOCUMENT
    ensures DID_CLOSE == Key("method") + PrintString("textDocument/didClose") + DOCUMENT
  {
    hide PrintString, Key, DOCUMENT;
    EnvelopeKeys();
    OpenName();
    ChangeName();
    SaveName();
    CloseName();
  }

  lemma MembersSpelled()
    ensures LANGUAGE == "," + Key("languageId") && VERSION == "," + Key("version")
    ensures NEXT_TEXT == "," + Key("text") && TEXT == Key("text") && CHARACTER == "," + Key("character")
  {
    hide Key;
    DocumentKeys();
    VersionKeys();
    PositionKeys();
  }

  lemma CloseText(uri: string)
    ensures DidCloseText(HEAD, uri)
         == Print(Notification("textDocument/didClose", DocumentOf([Entry("uri", String(uri))])))
  {
    hide PrintString, Key, Print, HEAD, DID_OPEN, DID_CHANGE, DID_SAVE, DID_CLOSE, DOCUMENT, Member;
    NamesSpelled();
    Closers();
    var members := Object([Entry("uri", String(uri))]);
    PrintOne(Entry("uri", String(uri)));
    StringMember("uri", uri);
    PrintOne(Entry("textDocument", members));
    ValueMember("textDocument", members);
    DocumentNotification("textDocument/didClose", DocumentOf([Entry("uri", String(uri))]),
                         PrintString(uri) + "}" + "}");
  }

  lemma ValueMember(key: string, v: Value)
    ensures Member(Entry(key, v)) == Key(key) + Print(v)
  {
  }

  lemma OpenedText(uri: string, languageId: string, version: nat, text: string)
    ensures Print(OpenedWritten(uri, languageId, version, text))
         == "{" + Key("uri") + PrintString(uri) + LANGUAGE + PrintString(languageId) + VERSION + Decimal(version)
            + NEXT_TEXT + PrintString(text) + "}"
  {
    hide PrintString, Key, Print, Decimal, LANGUAGE, VERSION, NEXT_TEXT, TEXT, CHARACTER, Member;
    MembersSpelled();
    PrintFour(Entry("uri", String(uri)), Entry("languageId", String(languageId)), Entry("version", Integer(version)),
              Entry("text", String(text)));
    StringMember("uri", uri);
    StringMember("languageId", languageId);
    IntegerMember("version", version);
    StringMember("text", text);
  }

  lemma OpenText(uri: string, languageId: string, version: nat, text: string)
    ensures DidOpenText(HEAD, uri, languageId, version, text) == Print(Written(DidOpen(uri, languageId, version, text)))
  {
    hide PrintString, Key, Print, HEAD, DID_OPEN, DID_CHANGE, DID_SAVE, DID_CLOSE, DOCUMENT, Member;
    hide Decimal, LANGUAGE, VERSION, NEXT_TEXT, OpenedWritten;
    var members := OpenedWritten(uri, languageId, version, text);
    var body := PrintString(uri) + LANGUAGE + PrintString(languageId) + VERSION + Decimal(version)
                + NEXT_TEXT + PrintString(text);
    OpenedText(uri, languageId, version, text);
    assert Print(members) == "{" + Key("uri") + body + "}";
    assert DidOpenText(HEAD, uri, languageId, version, text) == HEAD + DID_OPEN + body + "}}}";
    OneDocument("textDocument/didOpen", members, body);
    NamesSpelled();
  }

  /** A notification whose only parameter is the document. */
  lemma OneDocument(name: string, members: Value, body: string)
    requires Print(members) == "{" + Key("uri") + body + "}"
    ensures Print(Notification(name, Object([Entry("textDocument", members)])))
         == HEAD + (Key("method") + PrintString(name) + DOCUMENT) + body + "}}}"
  {
    hide PrintString, Key, Print, HEAD, DOCUMENT, Member;
    Closers();
    PrintOne(Entry("textDocument", members));
    ValueMember("textDocument", members);
    DocumentNotification(name, Object([Entry("textDocument", members)]), body + "}" + "}");
  }

  lemma SavedParams(uri: string, saved: Option<string>)
    ensures Print(SavedWritten(uri, saved))
         == "{" + Key("textDocument") + "{" + Key("uri") + (SavedText(PrintString(uri) + "}", saved) + "}")
  {
    hide PrintString, Key, Print, Member, NEXT_TEXT;
    var document := Entry("textDocument", Object([Entry("uri", String(uri))]));
    PrintOne(Entry("uri", String(uri)));
    StringMember("uri", uri);
    ValueMember("textDocument", document.value);
    if saved.Some? {
      var text := Entry("text", String(saved.value));
      NextTextSpelled();
      PrintTwo(document, text);
      StringMember("text", saved.value);
      assert [document] + [text] == [document, text];
      SavedRegrouped("{", Key("textDocument"), Key("uri"), PrintString(uri), "}", ",", Key("text"),
                     PrintString(saved.value));
    } else {
      PrintOne(document);
      assert [document] + [] == [document];
    }
  }

  lemma SavedRegrouped(open: string, document: string, key: string, uri: string, close: string, comma: string,
                       textKey: string, text: string)
    ensures open + (document + (open + (key + uri) + close)) + comma + (textKey + text) + close
         == open + document + open + key + (uri + close + (comma + textKey) + text + close)
  {
  }

  lemma NextTextSpelled()
    ensures NEXT_TEXT == "," + Key("text")
  {
    hide Key;
    DocumentKeys();
  }

  lemma SavedAfter(w: string, saved: Option<string>)
    ensures SavedText(w, saved) == w + SavedText("", saved)
  {
    hide PrintString, NEXT_TEXT;
    if saved.Some? {
      assert "" + NEXT_TEXT == NEXT_TEXT;
    }
  }

  lemma SaveText(uri: string, saved: Option<string>)
    ensures DidSaveText(HEAD, uri, saved) == Print(Written(DidSave(uri, saved)))
  {
    hide PrintString, Key, Print, HEAD, DID_OPEN, DID_CHANGE, DID_SAVE, DID_CLOSE, DOCUMENT, SavedText, SavedWritten;
    SavedParams(uri, saved);
    DocumentNotification("textDocument/didSave", SavedWritten(uri, saved),
                         SavedText(PrintString(uri) + "}", saved) + "}");
    NamesSpelled();
    SavedAfter(PrintString(uri) + "}", saved);
    SavedAfter(HEAD + DID_SAVE + PrintString(uri) + "}", saved);
    Closers();
  }

  lemma PositionText(p: Position)
    ensures Print(PositionWritten(p)) == "{" + Key("line") + Decimal(p.line) + CHARACTER + Decimal(p.character) + "}"
  {
    hide Key, PrintString, Print, Decimal, Member, CHARACTER;
    CharacterSpelled();
    PrintTwo(Entry("line", Integer(p.line)), Entry("character", Integer(p.character)));
    IntegerMember("line", p.line);
    IntegerMember("character", p.character);
  }

  lemma OriginSpelled()
    ensures Decimal(0) == "0" && RANGE == Key("range") + "{" + Key("start")
    ensures ORIGIN == "{" + Key("line") + "0" + CHARACTER + "0" + "}"
  {
    hide Key;
    ChangeKeys();
    RangeKeys();
    PositionKeys();
  }

  lemma RangeStartSpelled()
    ensures RANGE_START == RANGE + ORIGIN + "," + Key("end") + "{" + Key("line")
  {
    hide Key, RANGE, ORIGIN;
    RangeKeys();
    PositionKeys();
  }

  lemma CharacterSpelled()
    ensures CHARACTER == "," + Key("character")
  {
    hide Key;
    PositionKeys();
  }

  lemma RangeParts(end: Position)
    ensures Print(RangeWritten(end))
         == "{" + Key("start") + ORIGIN + "," + Key("end") + Print(PositionWritten(end)) + "}"
  {
    hide Key, PrintString, Print, Decimal, Member, RANGE, ORIGIN, CHARACTER, PositionWritten;
    PositionText(Position(0, 0));
    OriginSpelled();
    assert Print(PositionWritten(Position(0, 0))) == ORIGIN;
    PrintTwo(Entry("start", PositionWritten(Position(0, 0))), Entry("end", PositionWritten(end)));
    ValueMember("start", PositionWritten(Position(0, 0)));
    ValueMember("end", PositionWritten(end));
  }

  lemma RangeIs(end: Position)
    ensures RangeText("", Some(end)) == Key("range") + Print(RangeWritten(end)) + ","
  {
    hide Key, PrintString, Print, Decimal, RANGE_START, RANGE, ORIGIN, CHARACTER, RangeWritten, PositionWritten;
    PositionText(end);
    RangeParts(end);
    OriginSpelled();
    RangeStartSpelled();
    Closers();
    assert "" + RANGE_START == RANGE_START;
    RangeRegrouped("{", Key("line"), Decimal(end.line), CHARACTER, Decimal(end.character), Key("range"), Key("start"),
                   ORIGIN, ",", Key("end"), "}");
  }

  lemma RangeRegrouped(open: string, line: string, m: string, character: string, n: string, range: string,
                       start: string, origin: string, comma: string, end: string, close: string)
    ensures range + open + start + origin + comma + end + open + line + m + character + n + (close + close + comma)
         == range + (open + start + origin + comma + end + (open + line + m + character + n + close) + close) + comma
  {
  }

  /** The range, when there is one, before the text of a change. */
  lemma RangeAfter(w: string, end: Option<Position>)
    ensures RangeText(w, end) == w + RangeText("", end)
  {
    hide Decimal, RANGE_START, CHARACTER;
    if end.Some? {
      assert "" + RANGE_START == RANGE_START;
    }
  }

  lemma ChangeText(end: Option<Position>, text: string)
    ensures Print(ChangeWritten(end, text)) == "{" + RangeText("", end) + Key("text") + PrintString(text) + "}"
  {
    hide Key, PrintString, Print, RangeText, RangeWritten, Member;
    StringMember("text", text);
    var last := Entry("text", String(text));
    if end.Some? {
      var range := Entry("range", RangeWritten(end.value));
      RangeIs(end.value);
      assert [range] + [last] == [range, last];
      PrintTwo(range, last);
      ValueMember("range", RangeWritten(end.value));
    } else {
      assert [] + [last] == [last];
      PrintOne(last);
      assert RangeText("", end) == "" by {
        NoRange();
      }
      assert "{" + "" == "{";
    }
  }

  lemma NoRange()
    ensures RangeText("", None) == ""
  {
  }

  lemma ChangesSpelled()
    ensures CHANGES == "}" + "," + Key("contentChanges") + "[" + "{"
  {
    hide Key;
    ChangeKeys();
  }

  lemma OneChange(change: Value)
    ensures Print(Array([change])) == "[" + Print(change) + "]"
  {
  }

  lemma VersionedText(uri: string, version: nat)
    ensures Print(Object([Entry("uri", String(uri)), Entry("version", Integer(version))]))
         == "{" + Key("uri") + (PrintString(uri) + VERSION + Decimal(version)) + "}"
  {
    hide Key, PrintString, Print, Decimal, Member, LANGUAGE, VERSION, NEXT_TEXT, TEXT, CHARACTER;
    MembersSpelled();
    PrintTwo(Entry("uri", String(uri)), Entry("version", Integer(version)));
    StringMember("uri", uri);
    IntegerMember("version", version);
  }

  lemma ChangesParams(uri: string, version: nat, end: Option<Position>, text: string)
    ensures Print(ChangesWritten(uri, version, end, text))
         == "{" + Key("textDocument") + "{" + Key("uri")
            + ((PrintString(uri) + VERSION + Decimal(version)) + CHANGES
               + (RangeText("", end) + Key("text") + PrintString(text)) + "}" + "]" + "}")
  {
    hide Key, PrintString, Print, Decimal, Member, VERSION, CHANGES, RangeText, ChangeWritten;
    var document := Object([Entry("uri", String(uri)), Entry("version", Integer(version))]);
    var changes := Array([ChangeWritten(end, text)]);
    VersionedText(uri, version);
    ChangeText(end, text);
    OneChange(ChangeWritten(end, text));
    PrintTwo(Entry("textDocument", document), Entry("contentChanges", changes));
    ValueMember("textDocument", document);
    ValueMember("contentChanges", changes);
    ChangesSpelled();
  }

  lemma ChangedText(uri: string, version: nat, end: Option<Position>, text: string)
    ensures DidChangeText(HEAD, uri, version, end, text) == Print(Written(DidChange(uri, version, end, text)))
  {
    hide PrintString, Key, Print, HEAD, DID_OPEN, DID_CHANGE, DID_SAVE, DID_CLOSE, DOCUMENT, Decimal;
    hide VERSION, CHANGES, TEXT, RangeText, ChangesWritten;
    var body := PrintString(uri) + VERSION + Decimal(version);
    var change := RangeText("", end) + Key("text") + PrintString(text);
    ChangesParams(uri, version, end, text);
    DocumentNotification("textDocument/didChange", ChangesWritten(uri, version, end, text),
                         body + CHANGES + change + "}" + "]" + "}");
    NamesSpelled();
    TextSpelled();
    RangeAfter(HEAD + DID_CHANGE + PrintString(uri) + VERSION + Decimal(version) + CHANGES, end);
    Closers();
  }

  lemma TextSpelled()
    ensures TEXT == Key("text")
  {
    hide Key;
    DocumentKeys();
  }

  /** What is written for a command is the printed form of its message, members in writing order. */
  lemma TextIsPrinted(c: ClientCommand)
    ensures CommandText(c) == Print(Written(c))
  {
    hide DidOpenText, DidChangeText, DidSaveText, DidCloseText, RequestText, CancelText, ShutdownText, Print, HEAD;
    match c
    case DidOpen(uri, languageId, version, text) => OpenText(uri, languageId, version, text);
    case DidChange(uri, version, previousEnd, text) => ChangedText(uri, version, previousEnd, text);
    case DidSave(uri, saved) => SaveText(uri, saved);
    case DidClose(uri) => CloseText(uri);
    case Request(id, name, params) => CallText(id, name, params);
    case CancelRequest(id) => CancelIsNotification(id);
    case Shutdown(id) =>
      ShutdownIsCall(id);
      CallText(id, "shutdown", Null);
  }

  // ---------------------------------------------------------------------------
  // What a reader makes of the writing order
  // ---------------------------------------------------------------------------

  lemma {:induction false} PlaceIs(entries: seq<Entry>, key: string, k: nat)
    requires k <= |entries| && forall i | 0 <= i < k :: Less(entries[i].key, key)
    requires k < |entries| ==> Less(key, entries[k].key)
    ensures Place(entries, key) == k
  {
    hide Less;
    if k < |entries| {
      LessTotal(entries[k].key, key);
    }
    if k > 0 {
      PlaceIs(entries[1..], key, k - 1);
    }
  }

  /** An entry goes before the first larger key. */
  lemma InsertAt(before: seq<Entry>, e: Entry, after: seq<Entry>)
    requires forall x <- before :: Less(x.key, e.key)
    requires after != [] ==> Less(e.key, after[0].key)
    ensures Insert(before + after, e) == Some(before + [e] + after)
  {
    hide Less, Place;
    PlaceIs(before + after, e.key, |before|);
    if after != [] {
      LessTotal(e.key, after[0].key);
    }
  }

  /** One member more is read: `v` is what its value settles to. */
  lemma SettleNext(e: Entry, v: Value, more: seq<Entry>, before: seq<Entry>, after: seq<Entry>)
    requires Settled(e.value) == Some(v)
    requires forall x <- before :: Less(x.key, e.key)
    requires after != [] ==> Less(e.key, after[0].key)
    ensures SettledEntries([e] + more, before + after)
         == SettledEntries(more, before + [Entry(e.key, v)] + after)
  {
    hide Less, Insert, Settled;
    InsertAt(before, Entry(e.key, v), after);
    assert ([e] + more)[1..] == more;
  }

  lemma SettleFirst(e: Entry, v: Value, more: seq<Entry>)
    requires Settled(e.value) == Some(v)
    ensures SettledEntries([e] + more, []) == SettledEntries(more, [Entry(e.key, v)])
  {
    hide Less, Insert, Settled, SettledEntries;
    var none: seq<Entry> := [];
    assert none + none == none && none + [Entry(e.key, v)] + none == [Entry(e.key, v)];
    SettleNext(e, v, more, none, none);
  }

  lemma SettledEnd(sofar: seq<Entry>)
    ensures SettledEntries([], sofar) == Some(sofar)
  {
  }

  lemma SettleOne(a: Entry, va: Value)
    requires Settled(a.value) == Some(va)
    ensures Settled(Object([a])) == Some(Object([Entry(a.key, va)]))
  {
    hide Less, SettledEntries;
    assert [a] + [] == [a];
    SettleFirst(a, va, []);
    SettledEnd([Entry(a.key, va)]);
  }

  /** Two members, in order or not. */
  lemma SettleTwo(a: Entry, va: Value, b: Entry, vb: Value)
    requires Settled(a.value) == Some(va) && Settled(b.value) == Some(vb) && (Less(a.key, b.key) || Less(b.key, a.key))
    ensures Settled(Object([a, b]))
         == Some(Object(if Less(a.key, b.key) then [Entry(a.key, va), Entry(b.key, vb)]
                        else [Entry(b.key, vb), Entry(a.key, va)]))
  {
    hide Less, SettledEntries;
    var x, y := Entry(a.key, va), Entry(b.key, vb);
    assert [a] + [b] == [a, b] && [b] + [] == [b];
    SettleFirst(a, va, [b]);
    if Less(a.key, b.key) {
      SettleNext(b, vb, [], [x], []);
      assert [x] + [] == [x] && [x] + [y] + [] == [x, y];
      SettledEnd([x, y]);
    } else {
      SettleNext(b, vb, [], [], [x]);
      assert [] + [x] == [x] && [] + [y] + [x] == [y, x];
      SettledEnd([y, x]);
    }
  }

  lemma EnvelopeOrder()
    ensures Less("id", "jsonrpc") && Less("jsonrpc", "method") && Less("method", "params") && Less("jsonrpc", "params")
  {
  }

  lemma DocumentOrder()
    ensures Less("languageId", "uri") && Less("uri", "version") && Less("languageId", "version")
    ensures Less("languageId", "text") && Less("text", "uri") && Less("contentChanges", "textDocument")
  {
  }

  lemma RangeOrder()
    ensures Less("end", "start") && Less("character", "line") && Less("range", "text")
  {
  }

  lemma {:induction false} PrefixIsLess(a: string, b: string)
    requires b != ""
    ensures Less(a, a + b)
  {
    if a != "" {
      assert (a + b)[1..] == a[1..] + b;
      PrefixIsLess(a[1..], b);
    }
  }

  lemma TextOrder()
    ensures Less("text", "textDocument")
  {
    PrefixIsLess("text", "Document");
    assert "text" + "Document" == "textDocument";
  }

  lemma SettleNotification(name: string, params: Value, settled: Value)
    requires Settled(params) == Some(settled)
    ensures Settled(Notification(name, params)) == Some(Notification(name, settled))
  {
    hide Less, SettledEntries;
    EnvelopeOrder();
    var a, b, c, z := Entry("jsonrpc", String("2.0")), Entry("method", String(name)), Entry("params", params),
                      Entry("params", settled);
    assert [a] + [b, c] == [a, b, c] && [b] + [c] == [b, c] && [c] + [] == [c];
    SettleFirst(a, a.value, [b, c]);
    assert [a] == [a] + [];
    SettleNext(b, b.value, [c], [a], []);
    assert [a] + [b] + [] == [a, b] == [a, b] + [];
    SettleNext(c, settled, [], [a, b], []);
    assert [a, b] + [z] + [] == [a, b, z];
    SettledEnd([a, b, z]);
  }

  lemma SettleCall(id: nat, name: string, params: Value)
    requires Settled(params) == Some(params)
    ensures Settled(CallWritten(id, name, params)) == Some(Call(id, name, params))
  {
    hide Less, SettledEntries, Decimal;
    EnvelopeOrder();
    var a, n, b, c := Entry("jsonrpc", String("2.0")), Entry("id", Integer(id)), Entry("method", String(name)),
                      Entry("params", params);
    assert [a] + [n, b, c] == [a, n, b, c] && [n] + [b, c] == [n, b, c] && [b] + [c] == [b, c] && [c] + [] == [c];
    SettleFirst(a, a.value, [n, b, c]);
    assert [a] == [] + [a];
    SettleNext(n, n.value, [b, c], [], [a]);
    assert [] + [n] + [a] == [n, a] == [n, a] + [];
    IdBeforeMethod();
    SettleNext(b, b.value, [c], [n, a], []);
    assert [n, a] + [b] + [] == [n, a, b] == [n, a, b] + [];
    SettleNext(c, params, [], [n, a, b], []);
    assert [n, a, b] + [c] + [] == [n, a, b, c];
    SettledEnd([n, a, b, c]);
  }

  lemma IdBeforeMethod()
    ensures Less("id", "method") && Less("id", "params")
  {
  }

  lemma SettleOpened(uri: string, languageId: string, version: nat, text: string)
    ensures Settled(OpenedWritten(uri, languageId, version, text))
         == Some(Object([Entry("languageId", String(languageId)), Entry("text", String(text)),
                         Entry("uri", String(uri)),
                         Entry("version", Integer(version))]))
  {
    hide Less, SettledEntries, Decimal;
    DocumentOrder();
    var u, l, v, t := Entry("uri", String(uri)), Entry("languageId", String(languageId)),
                      Entry("version", Integer(version)), Entry("text", String(text));
    assert [u] + [l, v, t] == [u, l, v, t] && [l] + [v, t] == [l, v, t] && [v] + [t] == [v, t] && [t] + [] == [t];
    SettleFirst(u, u.value, [l, v, t]);
    assert [u] == [] + [u];
    SettleNext(l, l.value, [v, t], [], [u]);
    assert [] + [l] + [u] == [l, u] == [l, u] + [];
    SettleNext(v, v.value, [t], [l, u], []);
    assert [l, u] + [v] + [] == [l, u, v] == [l] + [u, v];
    SettleNext(t, t.value, [], [l], [u, v]);
    assert [l] + [t] + [u, v] == [l, t, u, v];
    SettledEnd([l, t, u, v]);
  }

  lemma SettlePosition(p: Position)
    ensures Settled(PositionWritten(p)) == Some(PositionOf(p))
  {
    hide Less, SettledEntries, Decimal;
    RangeOrder();
    LessTotal("line", "character");
    SettleTwo(Entry("line", Integer(p.line)), Integer(p.line),
              Entry("character", Integer(p.character)), Integer(p.character));
  }

  lemma SettleRange(end: Position)
    ensures Settled(RangeWritten(end))
         == Some(Object([Entry("end", PositionOf(end)), Entry("start", PositionOf(Position(0, 0)))]))
  {
    hide Less, SettledEntries, PositionWritten, PositionOf;
    RangeOrder();
    LessTotal("start", "end");
    SettlePosition(Position(0, 0));
    SettlePosition(end);
    SettleTwo(Entry("start", PositionWritten(Position(0, 0))), PositionOf(Position(0, 0)),
              Entry("end", PositionWritten(end)), PositionOf(end));
  }

  lemma SettleChange(end: Option<Position>, text: string)
    ensures Settled(ChangeWritten(end, text)) == Some(ChangeOf(end, text))
  {
    hide Less, SettledEntries, RangeWritten, PositionOf;
    var t := Entry("text", String(text));
    if end.Some? {
      RangeOrder();
      SettleRange(end.value);
      var range := Object([Entry("end", PositionOf(end.value)), Entry("start", PositionOf(Position(0, 0)))]);
      SettleTwo(Entry("range", RangeWritten(end.value)), range, t, t.value);
      assert [Entry("range", RangeWritten(end.value))] + [t] == [Entry("range", RangeWritten(end.value)), t];
      assert [Entry("range", range)] + [t] == [Entry("range", range), t];
    } else {
      SettleOne(t, t.value);
      assert [] + [t] == [t];
    }
  }

  lemma SettleItem(v: Value, settled: Value)
    requires Settled(v) == Some(settled)
    ensures Settled(Array([v])) == Some(Array([settled]))
  {
    OneItemSettles([v]);
  }

  lemma SettleChanges(uri: string, version: nat, end: Option<Position>, text: string)
    ensures Settled(ChangesWritten(uri, version, end, text))
         == Some(Object([Entry("contentChanges", Array([ChangeOf(end, text)])),
                         Entry("textDocument",
                               Object([Entry("uri", String(uri)), Entry("version", Integer(version))]))]))
  {
    hide Less, SettledEntries, SettledItems, ChangeWritten, ChangeOf, Decimal;
    DocumentOrder();
    LessTotal("textDocument", "contentChanges");
    var document := Object([Entry("uri", String(uri)), Entry("version", Integer(version))]);
    SettleTwo(Entry("uri", String(uri)), String(uri), Entry("version", Integer(version)), Integer(version));
    SettleChange(end, text);
    SettleItem(ChangeWritten(end, text), ChangeOf(end, text));
    SettleTwo(Entry("textDocument", document), document,
              Entry("contentChanges", Array([ChangeWritten(end, text)])), Array([ChangeOf(end, text)]));
  }

  lemma SettleSaved(uri: string, saved: Option<string>)
    ensures Settled(SavedWritten(uri, saved))
         == Some(Object((if saved.Some? then [Entry("text", String(saved.value))] else [])
                        + [Entry("textDocument", Object([Entry("uri", String(uri))]))]))
  {
    hide Less, SettledEntries;
    var document := Entry("textDocument", Object([Entry("uri", String(uri))]));
    SettleOne(Entry("uri", String(uri)), String(uri));
    if saved.Some? {
      var text := Entry("text", String(saved.value));
      TextOrder();
      LessTotal("textDocument", "text");
      SettleTwo(document, document.value, text, text.value);
      assert [document] + [text] == [document, text] && [text] + [document] == [text, document];
    } else {
      SettleOne(document, document.value);
      assert [document] + [] == [document] == [] + [document];
    }
  }

  lemma SettledWritten(c: ClientCommand)
    requires c.Request? ==> Settled(c.params) == Some(c.params)
    ensures Settled(Written(c)) == Some(MessageOf(c))
  {
    hide SettledEntries, Less, Decimal, Notification, CallWritten, Call, OpenedWritten,
         ChangesWritten, SavedWritten, ChangeOf;
    match c
    case DidOpen(uri, languageId, version, text) =>
      SettleOpened(uri, languageId, version, text);
      var written := OpenedWritten(uri, languageId, version, text);
      var document := Settled(written).value;
      SettleOne(Entry("textDocument", written), document);
      SettleNotification("textDocument/didOpen", Object([Entry("textDocument", written)]),
                         Object([Entry("textDocument", document)]));
    case DidChange(uri, version, previousEnd, text) =>
      SettleChanges(uri, version, previousEnd, text);
      SettleNotification("textDocument/didChange", ChangesWritten(uri, version, previousEnd, text),
                         Settled(ChangesWritten(uri, version, previousEnd, text)).value);
    case DidSave(uri, saved) =>
      SettleSaved(uri, saved);
      SettleNotification("textDocument/didSave", SavedWritten(uri, saved), Settled(SavedWritten(uri, saved)).value);
    case DidClose(uri) =>
      SettleOne(Entry("uri", String(uri)), String(uri));
      var document := Object([Entry("uri", String(uri))]);
      SettleOne(Entry("textDocument", document), document);
      SettleNotification("textDocument/didClose", Object([Entry("textDocument", document)]),
                         Object([Entry("textDocument", document)]));
    case Request(id, name, params) => SettleCall(id, name, params);
    case CancelRequest(id) =>
      SettleOne(Entry("id", Integer(id)), Integer(id));
      SettleNotification("$/cancelRequest", Object([Entry("id", Integer(id))]), Object([Entry("id", Integer(id))]));
    case Shutdown(id) => SettleCall(id, "shutdown", Null);
  }

  // ---------------------------------------------------------------------------
  // Which commands are read
  // ---------------------------------------------------------------------------

  lemma DecimalIsNumber(n: nat)
    ensures IsNumber(Decimal(n))
  {
    var p := NumberParts(false, Decimal(n), None, None);
    assert p.Text() == Decimal(n);
    assert p.Valid();
  }

  lemma LegibleMembers(entries: seq<Entry>, room: nat)
    requires room > 0 && forall e <- entries :: Legible(e.value, room - 1)
    ensures Legible(Object(entries), room)
  {
    assert forall i | 0 <= i < |entries| :: entries[i] in entries;
  }

  lemma LegibleIntegers(room: nat)
    ensures forall n: nat :: Legible(Integer(n), room)
  {
    forall n: nat ensures Legible(Integer(n), room) {
      DecimalIsNumber(n);
    }
  }

  lemma LegibleStrings(room: nat)
    ensures forall s: string :: Legible(String(s), room)
  {
  }

  lemma LegiblePosition(p: Position, room: nat)
    requires room > 0
    ensures Legible(PositionWritten(p), room)
  {
    hide Legible, Integer;
    LegibleIntegers(room - 1);
    LegibleTwo(Entry("line", Integer(p.line)), Entry("character", Integer(p.character)), room);
  }

  lemma LegibleChange(end: Option<Position>, text: string, room: nat)
    requires room > 2
    ensures Legible(ChangeWritten(end, text), room)
  {
    hide Legible, PositionWritten;
    LegibleStrings(room - 1);
    if end.Some? {
      LegiblePosition(Position(0, 0), room - 2);
      LegiblePosition(end.value, room - 2);
      LegibleTwo(Entry("start", PositionWritten(Position(0, 0))), Entry("end", PositionWritten(end.value)), room - 1);
    }
    LegibleMembers(ChangeWritten(end, text).entries, room);
  }

  lemma LegibleDocument(members: seq<Entry>, room: nat)
    requires room > 0 && forall e <- members :: e.value.String? || exists n: nat :: e.value == Integer(n)
    ensures Legible(Object(members), room)
  {
    hide Legible, Integer;
    LegibleStrings(room - 1);
    LegibleIntegers(room - 1);
    LegibleMembers(members, room);
  }

  lemma LegibleItem(v: Value, room: nat)
    requires room > 0 && Legible(v, room - 1)
    ensures Legible(Array([v]), room)
  {
  }

  lemma LegibleNull(room: nat)
    ensures Legible(Null, room)
  {
  }

  lemma LegibleOne(a: Entry, room: nat)
    requires room > 0 && Legible(a.value, room - 1)
    ensures Legible(Object([a]), room)
  {
  }

  lemma LegibleTwo(a: Entry, b: Entry, room: nat)
    requires room > 0 && Legible(a.value, room - 1) && Legible(b.value, room - 1)
    ensures Legible(Object([a, b]), room)
  {
  }

  lemma LegibleNotification(name: string, params: Value)
    requires Legible(params, MAX_JSON_DEPTH - 1)
    ensures Legible(Notification(name, params), MAX_JSON_DEPTH)
  {
  }

  lemma LegibleCall(id: nat, name: string, params: Value)
    requires Legible(params, MAX_JSON_DEPTH - 1)
    ensures Legible(CallWritten(id, name, params), MAX_JSON_DEPTH)
  {
    hide Legible, Integer;
    LegibleStrings(MAX_JSON_DEPTH - 1);
    LegibleIntegers(MAX_JSON_DEPTH - 1);
    LegibleMembers([Entry("jsonrpc", String("2.0")), Entry("id", Integer(id)), Entry("method", String(name)),
                    Entry("params", params)], MAX_JSON_DEPTH);
  }

  lemma LegibleOpened(uri: string, languageId: string, version: nat, text: string, room: nat)
    requires room > 1
    ensures Legible(Object([Entry("textDocument", OpenedWritten(uri, languageId, version, text))]), room)
  {
    hide Legible, Integer;
    LegibleDocument([Entry("uri", String(uri)), Entry("languageId", String(languageId)),
                     Entry("version", Integer(version)), Entry("text", String(text))], room - 1);
    LegibleOne(Entry("textDocument", OpenedWritten(uri, languageId, version, text)), room);
  }

  lemma LegibleChanges(uri: string, version: nat, end: Option<Position>, text: string, room: nat)
    requires room > 4
    ensures Legible(ChangesWritten(uri, version, end, text), room)
  {
    hide Legible, Integer, ChangeWritten;
    var document := Object([Entry("uri", String(uri)), Entry("version", Integer(version))]);
    var changes := Array([ChangeWritten(end, text)]);
    LegibleStrings(room - 2);
    LegibleIntegers(room - 2);
    LegibleTwo(Entry("uri", String(uri)), Entry("version", Integer(version)), room - 1);
    LegibleChange(end, text, room - 2);
    LegibleItem(ChangeWritten(end, text), room - 1);
    LegibleTwo(Entry("textDocument", document), Entry("contentChanges", changes), room);
  }

  lemma LegibleSaved(uri: string, saved: Option<string>, room: nat)
    requires room > 1
    ensures Legible(SavedWritten(uri, saved), room)
  {
  }

  lemma LegibleCommand(c: ClientCommand)
    requires c.Request? ==> Legible(c.params, MAX_JSON_DEPTH - 1)
    ensures Legible(Written(c), MAX_JSON_DEPTH)
  {
    hide Legible, Integer, OpenedWritten, ChangesWritten, SavedWritten, Notification, CallWritten;
    var room: nat := MAX_JSON_DEPTH - 1;
    match c
    case DidOpen(uri, languageId, version, text) =>
      LegibleOpened(uri, languageId, version, text, room);
      LegibleNotification("textDocument/didOpen",
                          Object([Entry("textDocument", OpenedWritten(uri, languageId, version, text))]));
    case DidChange(uri, version, end, text) =>
      LegibleChanges(uri, version, end, text, room);
      LegibleNotification("textDocument/didChange", ChangesWritten(uri, version, end, text));
    case DidSave(uri, saved) =>
      LegibleSaved(uri, saved, room);
      LegibleNotification("textDocument/didSave", SavedWritten(uri, saved));
    case DidClose(uri) =>
      LegibleStrings(room - 2);
      LegibleOne(Entry("uri", String(uri)), room - 1);
      LegibleOne(Entry("textDocument", Object([Entry("uri", String(uri))])), room);
      LegibleNotification("textDocument/didClose", DocumentOf([Entry("uri", String(uri))]));
    case Request(id, name, params) => LegibleCall(id, name, params);
    case CancelRequest(id) =>
      LegibleIntegers(room - 1);
      LegibleOne(Entry("id", Integer(id)), room);
      LegibleNotification("$/cancelRequest", Object([Entry("id", Integer(id))]));
    case Shutdown(id) =>
      LegibleNull(room);
      LegibleCall(id, "shutdown", Null);
  }

  /** The parser takes nothing deeper than its limit, and the message adds one level to the parameters. */
  lemma PrintableCall(id: nat, name: string, params: Value)
    requires Printable(Call(id, name, params), MAX_JSON_DEPTH)
    ensures Printable(params, MAX_JSON_DEPTH - 1)
  {
    assert Call(id, name, params).entries[3].value == params;
  }

  lemma DocumentIsPrintable(s: string)
    requires ParseDocument(s).Some?
    ensures Printable(ParseDocument(s).value, MAX_JSON_DEPTH)
  {
    hide ParseValue, Printable;
    ParsedIsPrintable(SkipWhitespace(s), 0);
  }

  /**
    The text of a command, parsed, is its message: for a request exactly when
    the parameters are printable within one level less than the parser's
    limit, and for every other command always.
   */
  lemma CommandIsRead(c: ClientCommand)
    ensures ParseDocument(CommandText(c)) == Some(MessageOf(c))
       <==> (c.Request? ==> Printable(c.params, MAX_JSON_DEPTH - 1))
  {
    hide ParseDocument, CommandText, Print, Printable, Settled, Legible, Written;
    TextIsPrinted(c);
    if c.Request? && ParseDocument(CommandText(c)) == Some(MessageOf(c)) {
      DocumentIsPrintable(CommandText(c));
      PrintableCall(c.id, c.name, c.params);
    }
    if c.Request? ==> Printable(c.params, MAX_JSON_DEPTH - 1) {
      if c.Request? {
        PrintableIsSettled(c.params, MAX_JSON_DEPTH - 1);
      }
      LegibleCommand(c);
      SettledWritten(c);
      PrintedInAnyOrder(Written(c));
    }
  }

  // ---------------------------------------------------------------------------
  // The requests the client builds
  // ---------------------------------------------------------------------------

  datatype Feature =
    | Completion(at: Position) | Hover(at: Position) | Definition(at: Position)
    | References(at: Position, includeDeclaration: bool)
    | DocumentSymbols
    | WorkspaceSymbols(query: string)
    | Formatting(tabSize: nat, insertSpaces: bool)

  function MethodOf(f: Feature): string {
    match f
    case Completion(_) => "textDocument/completion"
    case Hover(_) => "textDocument/hover"
    case Definition(_) => "textDocument/definition"
    case References(_, _) => "textDocument/references"
    case DocumentSymbols => "textDocument/documentSymbol"
    case WorkspaceSymbols(_) => "workspace/symbol"
    case Formatting(_, _) => "textDocument/formatting"
  }

  function FeatureMembers(f: Feature): seq<Entry> {
    match f
    case References(at, declaration) =>
      [Entry("context", Object([Entry("includeDeclaration", Bool(declaration))])), Entry("position", PositionOf(at))]
    case DocumentSymbols => []
    case WorkspaceSymbols(query) => [Entry("query", String(query))]
    case Formatting(tabSize, insertSpaces) =>
      [Entry("options", Object([Entry("insertSpaces", Bool(insertSpaces)), Entry("tabSize", Integer(tabSize))]))]
    case _ => [Entry("position", PositionOf(f.at))]
  }

  /** Requests about a document name it beside what the feature asks for. */
  function FeatureRequest(id: nat, uri: string, f: Feature): ClientCommand {
    Request(id, MethodOf(f),
            Object(FeatureMembers(f)
                   + (if f.WorkspaceSymbols? then []
                      else [Entry("textDocument", Object([Entry("uri", String(uri))]))])))
  }

  lemma PrintableMembers(entries: seq<Entry>, room: nat)
    requires room > 0 && Sorted(entries) && forall e <- entries :: Printable(e.value, room - 1)
    ensures Printable(Object(entries), room)
  {
    assert forall i | 0 <= i < |entries| :: entries[i] in entries;
  }

  lemma PrintableLeaves(room: nat)
    ensures forall n: nat :: Printable(Integer(n), room)
    ensures forall s: string :: Printable(String(s), room)
    ensures forall b: bool :: Printable(Bool(b), room)
  {
    forall n: nat ensures Printable(Integer(n), room) {
      DecimalIsNumber(n);
    }
  }

  lemma FeatureOrder()
    ensures Less("context", "position") && Less("context", "textDocument") && Less("position", "textDocument")
    ensures Less("options", "textDocument") && Less("insertSpaces", "tabSize") && Less("character", "line")
  {
  }

  lemma PrintablePosition(p: Position, room: nat)
    requires room > 0
    ensures Printable(PositionOf(p), room)
  {
    hide Printable, Integer, Less;
    FeatureOrder();
    PrintableLeaves(room - 1);
    PrintableMembers([Entry("character", Integer(p.character)), Entry("line", Integer(p.line))], room);
  }

  lemma PrintableFeature(f: Feature, room: nat)
    requires room > 1
    ensures forall e <- FeatureMembers(f) :: Printable(e.value, room)
  {
    hide Printable, Integer, Less, PositionOf;
    FeatureOrder();
    PrintableLeaves(room - 1);
    PrintableLeaves(room);
    match f
    case References(at, declaration) =>
      PrintableMembers([Entry("includeDeclaration", Bool(declaration))], room);
      PrintablePosition(at, room);
    case DocumentSymbols =>
    case WorkspaceSymbols(query) =>
    case Formatting(tabSize, insertSpaces) =>
      PrintableMembers([Entry("insertSpaces", Bool(insertSpaces)), Entry("tabSize", Integer(tabSize))], room);
    case _ => PrintablePosition(f.at, room);
  }

  lemma PrintableRequest(id: nat, uri: string, f: Feature)
    ensures Printable(FeatureRequest(id, uri, f).params, MAX_JSON_DEPTH - 1)
  {
    hide Printable, Less, PositionOf, Integer;
    var room: nat := MAX_JSON_DEPTH - 2;
    FeatureOrder();
    PrintableFeature(f, room);
    PrintableLeaves(room - 1);
    PrintableMembers([Entry("uri", String(uri))], room);
    PrintableMembers(FeatureRequest(id, uri, f).params.entries, MAX_JSON_DEPTH - 1);
  }

  /** Whatever feature is asked for, the request is read back as its message. */
  lemma FeatureIsRead(id: nat, uri: string, f: Feature)
    ensures ParseDocument(CommandText(FeatureRequest(id, uri, f))) == Some(MessageOf(FeatureRequest(id, uri, f)))
  {
    hide ParseDocument, CommandText, Printable, MessageOf;
    PrintableRequest(id, uri, f);
    CommandIsRead(FeatureRequest(id, uri, f));
  }

  // ---------------------------------------------------------------------------
  // From the pipe to the messages
  // ---------------------------------------------------------------------------

  /** The commands that fitted. */
  function SentCommands(commands: seq<ClientCommand>, max: nat): seq<ClientCommand> {
    if commands == [] then []
    else
      var last := commands[|commands| - 1];
      SentCommands(commands[..|commands| - 1], max) + if Sendable(last, max) then [last] else []
  }

  lemma {:induction false} SentTextsAre(commands: seq<ClientCommand>, max: nat)
    ensures |SentTexts(commands, max)| == |SentCommands(commands, max)|
    ensures forall i | 0 <= i < |SentCommands(commands, max)| ::
              && SentTexts(commands, max)[i] == CommandText(SentCommands(commands, max)[i])
              && SentCommands(commands, max)[i] in commands
  {
    hide CommandText, Sendable;
    if commands != [] {
      SentTextsAre(commands[..|commands| - 1], max);
    }
  }

  /** A server that unframes and parses what was sent has the messages of the commands that fitted, in order. */
  lemma MessagesArrive(limits: Framing.Limits, commands: seq<ClientCommand>, max: nat)
    requires max <= limits.maxContent
    requires |Framing.Header(max)| <= limits.maxHeader && |Framing.Header(max)| + 4 + max <= USIZE_MAX
    requires forall c <- commands :: c.Request? ==> Printable(c.params, MAX_JSON_DEPTH - 1)
    ensures var texts, sent := Framing.DecodeAll(limits, SentAll(commands, max)).messages, SentCommands(commands, max);
            && |texts| == |sent|
            && forall i | 0 <= i < |sent| :: ParseDocument(texts[i]) == Some(MessageOf(sent[i]))
  {
    hide ParseDocument, CommandText, MessageOf, Printable, SentAll, SentTexts, SentCommands;
    hide Framing.Header, Framing.DecodeAll;
    SentCommandsAreRead(limits, commands, max);
    SentTextsAre(commands, max);
    var sent := SentCommands(commands, max);
    forall i | 0 <= i < |sent| ensures ParseDocument(CommandText(sent[i])) == Some(MessageOf(sent[i])) {
      CommandIsRead(sent[i]);
    }
  }
}
