/**
  What a call of the public API tells its caller: a granted one has queued its
  command and nothing else, a refused one has left no trace, and the reason it
  gives is true.
 */
module LspCalls {
  import opened Machine
  import opened Wrappers
  import opened LspProtocol

  /** What a call is about: a document, a version, how many may be open, and the verdicts on size and queue. */
  datatype Asked = Asked(uri: Uri, version: nat, maxOpen: nat, tooLarge: bool, send: SendOutcome)

  /** The reason for a refusal holds in the state the call met; a change asks for a newer version than the held one. */
  predicate True(e: ApiError, s: ClientState, q: Asked, newer: bool) {
    match e
    case NotReady => s.loop.lifecycle.Starting?
    case ShuttingDownError => s.loop.lifecycle.ShuttingDown?
    case StoppedError => s.loop.lifecycle.Stopped? || q.send.Disconnected?
    case QueueFull => q.send.Full?
    case RequestIdExhausted => s.nextRequestId >= U64_MAX
    case IncarnationExhausted => s.nextIncarnation.None?
    case DocumentAlreadyOpen => q.uri in s.open
    case DocumentNotOpen => q.uri !in s.open
    case OpenDocumentLimit => |s.open| >= q.maxOpen
    case StaleVersion(current) =>
      && q.uri in s.open && s.open[q.uri].version == current
      && (if newer then q.version <= current else q.version != current)
    case VersionOutOfRange => q.version > I32_MAX
    case TooLarge => q.tooLarge
  }

  /** The command has gone to the end of the queue and of the log, and the rest is as it was. */
  ghost predicate Queued(s: ClientState, t: ClientState, c: Command) {
    && t.queue == s.queue + [ClientCommand(c)] && t.accepted == s.accepted + [c]
    && t.documents == s.documents && t.processed == s.processed && t.loop == s.loop && t.shutdownCall == s.shutdownCall
  }

  predicate MayCall(s: ClientState, q: Asked) {
    s.loop.lifecycle.ReadyState? && !q.tooLarge && q.send.Accepted?
  }

  /** A document is opened exactly when nothing stands against it, under an incarnation of its own. */
  lemma OpenGrantedIff(s: ClientState, q: Asked)
    ensures var (t, r) := CallDidOpen(s, q.uri, q.version, q.maxOpen, q.tooLarge, q.send);
            && (r.Opened? <==> MayCall(s, q) && q.version <= I32_MAX && q.uri !in s.open && |s.open| < q.maxOpen
                               && s.nextIncarnation.Some?)
            && (if r.Opened? then
                  var doc := Doc(q.version, r.incarnation);
                  && s.nextIncarnation == Some(r.incarnation) && t.nextIncarnation != s.nextIncarnation
                  && Queued(s, t, DidOpen(q.uri, doc)) && t.open == s.open[q.uri := doc]
                else t == s && r.Refused? && True(r.error, s, q, false))
  {
  }

  lemma ChangeGrantedIff(s: ClientState, q: Asked)
    ensures var (t, r) := CallDidChange(s, q.uri, q.version, q.tooLarge, q.send);
            && (r.Sent? <==> MayCall(s, q) && q.version <= I32_MAX && q.uri in s.open
                             && q.version > s.open[q.uri].version)
            && (if r.Sent? then
                  && Queued(s, t, DidChange(q.uri, q.version)) && t.nextIncarnation == s.nextIncarnation
                  && t.open == s.open[q.uri := Doc(q.version, s.open[q.uri].incarnation)]
                else t == s && r.Refused? && True(r.error, s, q, true))
  {
  }

  lemma SaveGrantedIff(s: ClientState, q: Asked)
    ensures var (t, r) := CallDidSave(s, q.uri, q.version, q.tooLarge, q.send);
            && (r.Sent? <==> MayCall(s, q) && q.uri in s.open && q.version == s.open[q.uri].version)
            && (if r.Sent? then Queued(s, t, DidSave(q.uri)) && t.open == s.open
                else t == s && r.Refused? && True(r.error, s, q, false))
  {
  }

  lemma CloseGrantedIff(s: ClientState, q: Asked)
    ensures var (t, r) := CallDidClose(s, q.uri, q.tooLarge, q.send);
            && (r.Sent? <==> MayCall(s, q) && q.uri in s.open)
            && (if r.Sent? then Queued(s, t, DidClose(q.uri)) && t.open == s.open - {q.uri}
                else t == s && r.Refused? && True(r.error, s, q, false))
  {
  }

  /** An identifier is spent by every request that gets as far, granted or not. */
  lemma RequestGrantedIff(s: ClientState, operation: Operation, q: Asked)
    ensures var (t, r) := CallRequest(s, operation, q.uri, q.version, q.tooLarge, q.send);
            && (r.Requested? <==> MayCall(s, q) && q.uri in s.open && q.version == s.open[q.uri].version
                                  && s.nextRequestId < U64_MAX)
            && t.open == s.open
            && (if r.Requested? then
                  && r.id == s.nextRequestId && t.nextRequestId == r.id + 1
                  && Queued(s, t, Request(r.id, operation, DocumentScope(q.uri, s.open[q.uri])))
                else t.(nextRequestId := s.nextRequestId) == s && r.Refused? && True(r.error, s, q, false))
  {
  }

  lemma WorkspaceGrantedIff(s: ClientState, q: Asked)
    ensures var (t, r) := CallWorkspaceSymbols(s, q.tooLarge, q.send);
            && (r.Requested? <==> MayCall(s, q) && s.nextRequestId < U64_MAX)
            && t.open == s.open
            && (if r.Requested? then
                  && r.id == s.nextRequestId && t.nextRequestId == r.id + 1
                  && Queued(s, t, Request(r.id, WorkspaceSymbols, WorkspaceScope))
                else t.(nextRequestId := s.nextRequestId) == s && r.Refused? && True(r.error, s, q, false))
  {
  }

  lemma CancelGrantedIff(s: ClientState, id: RequestId, q: Asked)
    ensures var (t, r) := CallCancel(s, id, q.tooLarge, q.send);
            && (r.Sent? <==> MayCall(s, q))
            && (if r.Sent? then Queued(s, t, CancelRequest(id)) && t.open == s.open
                else t == s && r.Refused? && True(r.error, s, q, false))
  {
  }

  // ---------------------------------------------------------------------------
  // All of them
  // ---------------------------------------------------------------------------

  /** The calls that queue a command or nothing; `shutdown` is two steps. */
  predicate IsCall(a: Action) {
    a.DoOpen? || a.DoChange? || a.DoSave? || a.DoClose? || a.DoRequest? || a.DoWorkspaceSymbols? || a.DoCancel?
  }

  function Answer(s: ClientState, a: Action): (ClientState, ApiResult)
    requires IsCall(a)
  {
    match a
    case DoOpen(uri, version, maxOpen, tooLarge, send) => CallDidOpen(s, uri, version, maxOpen, tooLarge, send)
    case DoChange(uri, version, tooLarge, send) => CallDidChange(s, uri, version, tooLarge, send)
    case DoSave(uri, version, tooLarge, send) => CallDidSave(s, uri, version, tooLarge, send)
    case DoClose(uri, tooLarge, send) => CallDidClose(s, uri, tooLarge, send)
    case DoRequest(operation, uri, version, tooLarge, send) => CallRequest(s, operation, uri, version, tooLarge, send)
    case DoWorkspaceSymbols(tooLarge, send) => CallWorkspaceSymbols(s, tooLarge, send)
    case DoCancel(id, tooLarge, send) => CallCancel(s, id, tooLarge, send)
  }

  function AskedBy(a: Action): Asked
    requires IsCall(a)
  {
    match a
    case DoOpen(uri, version, maxOpen, tooLarge, send) => Asked(uri, version, maxOpen, tooLarge, send)
    case DoChange(uri, version, tooLarge, send) => Asked(uri, version, 0, tooLarge, send)
    case DoSave(uri, version, tooLarge, send) => Asked(uri, version, 0, tooLarge, send)
    case DoClose(uri, tooLarge, send) => Asked(uri, 0, 0, tooLarge, send)
    case DoRequest(_, uri, version, tooLarge, send) => Asked(uri, version, 0, tooLarge, send)
    case DoWorkspaceSymbols(tooLarge, send) => Asked("", 0, 0, tooLarge, send)
    case DoCancel(_, tooLarge, send) => Asked("", 0, 0, tooLarge, send)
  }

  /** What the caller wants the server to hear. */
  ghost predicate Wants(s: ClientState, a: Action, c: Command) {
    match a
    case DoOpen(uri, version, _, _, _) => c.DidOpen? && c.uri == uri && c.doc.version == version
    case DoChange(uri, version, _, _) => c == DidChange(uri, version)
    case DoSave(uri, _, _, _) => c == DidSave(uri)
    case DoClose(uri, _, _) => c == DidClose(uri)
    case DoRequest(operation, uri, version, _, _) =>
      c.Request? && c.operation == operation && c.scope.DocumentScope? && c.scope.uri == uri
      && c.scope.doc.version == version && Lookup(s.open, uri) == Some(c.scope.doc)
    case DoWorkspaceSymbols(_, _) => c.Request? && c.operation.WorkspaceSymbols? && c.scope.WorkspaceScope?
    case DoCancel(id, _, _) => c == CancelRequest(id)
    case _ => false
  }

  /**
    Whatever is called, a granted call has queued what its caller wanted and a
    refused one has changed nothing, but for an identifier it may have spent,
    and gives a reason that is true.
   */
  lemma CallIsHonest(s: ClientState, a: Action)
    requires Enabled(s, a) && IsCall(a)
    ensures var (t, r) := Answer(s, a);
            && t == Step(s, a)
            && (if r.Refused? then
                  t.(nextRequestId := s.nextRequestId) == s && True(r.error, s, AskedBy(a), a.DoChange?)
                else exists c :: Queued(s, t, c) && Wants(s, a, c))
  {
    hide CallDidOpen, CallDidChange, CallDidSave, CallDidClose, CallRequest, CallWorkspaceSymbols, CallCancel;
    hide True, Queued;
    var q := AskedBy(a);
    var (t, r) := Answer(s, a);
    match a
    case DoOpen(uri, version, _, _, _) =>
      OpenGrantedIff(s, q);
      assert r.Opened? ==> Wants(s, a, DidOpen(uri, Doc(version, r.incarnation)));
    case DoChange(uri, version, _, _) => ChangeGrantedIff(s, q);
    case DoSave(uri, _, _, _) => SaveGrantedIff(s, q);
    case DoClose(uri, _, _) => CloseGrantedIff(s, q);
    case DoRequest(operation, uri, _, _, _) =>
      RequestGrantedIff(s, operation, q);
      assert r.Requested? ==> Wants(s, a, Request(r.id, operation, DocumentScope(uri, s.open[uri])));
    case DoWorkspaceSymbols(_, _) =>
      WorkspaceGrantedIff(s, q);
      assert r.Requested? ==> Wants(s, a, Request(r.id, WorkspaceSymbols, WorkspaceScope));
    case DoCancel(id, _, _) => CancelGrantedIff(s, id, q);
  }

  /**
    A shutdown that nothing comes between queues its request and leaves
    SHUTTING_DOWN behind; one that cannot be queued gives a READY client back as
    it was but for the identifier, and leaves a STARTING one SHUTTING_DOWN.
   */
  lemma ShutdownInOne(s: ClientState, q: Asked)
    requires s.shutdownCall.None? && (s.loop.lifecycle.ReadyState? || s.loop.lifecycle.Starting?)
    requires s.nextRequestId < U64_MAX
    ensures var (begun, first) := BeginShutdown(s);
            && first.Sent? && begun.shutdownCall.Some? && begun.loop.lifecycle.ShuttingDown?
            && EnsureReady(begun) == Some(ShuttingDownError)
            && var (t, r) := FinishShutdown(begun, q.tooLarge, q.send);
               if !q.tooLarge && q.send.Accepted? then
                 && r.Sent? && Queued(WithLifecycle(s, ShuttingDown), t, ShutdownRequest(s.nextRequestId))
               else
                 && r.Refused? && True(r.error, s, q, false)
                 && t == (if s.loop.lifecycle.ReadyState? then s else WithLifecycle(s, ShuttingDown))
                           .(nextRequestId := s.nextRequestId + 1)
  {
  }

  /** A second shutdown has nothing to do, and a stopped client says so. */
  lemma ShutdownAgain(s: ClientState)
    requires s.loop.lifecycle.ShuttingDown? || s.loop.lifecycle.Stopped?
    ensures BeginShutdown(s) == (s, if s.loop.lifecycle.Stopped? then Refused(StoppedError) else Sent)
  {
  }
}
