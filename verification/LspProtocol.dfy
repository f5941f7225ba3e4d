/**
  The live language-server client as a transition system.

  One `ClientState` holds everything the two sides of the client share: the
  table the public API advances when it accepts a command (`open`), the table
  the protocol thread advances when it dequeues one (`documents`), the FIFO
  between them, the pending-request table, the lifecycle word, and the frames
  and events produced so far.  `accepted` and `processed` are logs: the
  commands the API has queued and the ones the protocol thread has taken off.

  Payload text never decides a branch of the protocol except through its size,
  so a call carries the verdict of its size checks (`tooLarge`) and the verdict
  of the bounded queue (`send`) instead of the payload; a dequeue carries the
  outcome of the writes it may perform.
 */
module LspProtocol {
  import opened Machine
  import opened Wrappers

  const I32_MAX: nat := 0x7FFF_FFFF
  const MAX_PENDING_REQUESTS: nat := 128

  type Uri = string
  type RequestId = nat

  datatype Doc = Doc(version: nat, incarnation: nat)
  type Table = map<Uri, Doc>

  datatype Operation =
    | Initialize | Completion | Hover | Definition | References
    | DocumentSymbols | WorkspaceSymbols | Formatting | Shutdown
  {
    /** The operations a caller asks for, as opposed to the two lifecycle requests. */
    predicate IsFeature() { !Initialize? && !Shutdown? }
  }

  datatype Scope = DocumentScope(uri: Uri, doc: Doc) | WorkspaceScope

  datatype Command =
    | DidOpen(uri: Uri, doc: Doc)
    | DidChange(uri: Uri, version: nat)
    | DidSave(uri: Uri)
    | DidClose(uri: Uri)
    | Request(id: RequestId, operation: Operation, scope: Scope)
    | CancelRequest(id: RequestId)
    | ShutdownRequest(id: RequestId)

  datatype Pending = Pending(operation: Operation, scope: Option<Scope>, cancelRequested: bool, sent: bool)
  type PendingTable = map<RequestId, Pending>

  datatype IdField = NoId | NumericId(id: RequestId) | OtherId
  datatype ErrorField = NoError | BadError | GoodError

  /** The parts of a server message that the client branches on. */
  datatype Message =
    | NotJsonObject
    | Rpc(versionOk: bool, rpcMethod: Option<RpcMethod>, id: IdField, hasResult: bool, error: ErrorField)
  datatype RpcMethod = PublishDiagnostics(body: DiagnosticsBody) | OtherMethod
  datatype DiagnosticsBody = Malformed | Publication(uri: Uri, version: Option<nat>)

  datatype Input =
    | ClientCommand(command: Command)
    | ServerMessage(message: Message)
    | Stderr | StderrTruncated | TransportFailed | ServerGone | ForceStop

  datatype Frame =
    | InitializeFrame | InitializedFrame | CommandFrame(command: Command) | ErrorReplyFrame | ExitFrame

  datatype FailureReason = PendingLimit | InvalidResponse | ServerError
  datatype Event =
    | Ready
    | Diagnostics(uri: Uri, supplied: Option<nat>, observed: Option<Doc>)
    | StaleDiagnostics(uri: Uri, received: nat, held: nat)
    | DiagnosticsRejected
    | FeatureResult(id: RequestId, operation: Operation, uri: Uri, version: nat)
    | WorkspaceResult(id: RequestId)
    | RequestFailed(id: RequestId, operation: Operation, reason: FailureReason)
    | StaleResponse(id: RequestId, operation: Operation, uri: Uri, requested: nat, current: Option<nat>)
    | ServerNotification | ServerRequestRejected | StderrOutput | StderrOutputTruncated
    | ProtocolError | TransportError | ShutdownComplete | ServerClosed

  datatype Lifecycle = Starting | ReadyState | ShuttingDown | Stopped

  /** Between the compare-exchange of `shutdown` and the send that follows it. */
  datatype ShutdownCall = ShutdownCall(id: RequestId, previous: Lifecycle)

  /** What handling an input may change besides the protocol-side table. */
  datatype Loop = Loop(
    pending: PendingTable,
    lifecycle: Lifecycle,
    wire: seq<Frame>,
    events: seq<Event>,
    running: bool)

  datatype ClientState = ClientState(
    open: Table,
    nextIncarnation: Option<nat>,
    nextRequestId: RequestId,
    shutdownCall: Option<ShutdownCall>,
    queue: seq<Input>,
    documents: Table,
    loop: Loop,
    accepted: seq<Command>,
    processed: seq<Command>)

  datatype SendOutcome = Accepted | Full | Disconnected

  datatype ApiError =
    | NotReady | ShuttingDownError | StoppedError | QueueFull | RequestIdExhausted | IncarnationExhausted
    | DocumentAlreadyOpen | DocumentNotOpen | OpenDocumentLimit | StaleVersion(current: nat)
    | VersionOutOfRange | TooLarge
  datatype ApiResult = Opened(incarnation: nat) | Sent | Requested(id: RequestId) | Refused(error: ApiError)

  // ---------------------------------------------------------------------------
  // Document tables
  // ---------------------------------------------------------------------------

  function Lookup(t: Table, uri: Uri): Option<Doc> {
    if uri in t then Some(t[uri]) else None
  }

  /** What dequeuing a command does to the protocol-side table. */
  function Apply(t: Table, c: Command): Table {
    match c
    case DidOpen(uri, doc) => t[uri := doc]
    case DidChange(uri, version) =>
      if uri in t && version > t[uri].version then t[uri := t[uri].(version := version)] else t
    case DidClose(uri) => t - {uri}
    case _ => t
  }

  function Replay(log: seq<Command>): Table {
    if log == [] then map[] else Apply(Replay(log[..|log| - 1]), log[|log| - 1])
  }

  function ApplyAll(t: Table, log: seq<Command>): Table
    decreases |log|
  {
    if log == [] then t else ApplyAll(Apply(t, log[0]), log[1..])
  }

  function Commands(queue: seq<Input>): seq<Command> {
    if queue == [] then []
    else (if queue[0].ClientCommand? then [queue[0].command] else []) + Commands(queue[1..])
  }

  // ---------------------------------------------------------------------------
  // Calls of the public API
  // ---------------------------------------------------------------------------

  /** The queue takes the command or refuses it; the caller rolls back on a refusal. */
  function Enqueue(s: ClientState, c: Command, send: SendOutcome): ClientState {
    if send.Accepted? then s.(queue := s.queue + [ClientCommand(c)], accepted := s.accepted + [c]) else s
  }

  function SendResult(send: SendOutcome, ok: ApiResult): ApiResult {
    match send
    case Accepted => ok
    case Full => Refused(QueueFull)
    case Disconnected => Refused(StoppedError)
  }

  function EnsureReady(s: ClientState): Option<ApiError> {
    match s.loop.lifecycle
    case ReadyState => None
    case Starting => Some(NotReady)
    case ShuttingDown => Some(ShuttingDownError)
    case Stopped => Some(StoppedError)
  }

  function CallDidOpen(s: ClientState, uri: Uri, version: nat, maxOpen: nat, tooLarge: bool, send: SendOutcome)
    : (ClientState, ApiResult)
  {
    if EnsureReady(s).Some? then (s, Refused(EnsureReady(s).value))
    else if version > I32_MAX then (s, Refused(VersionOutOfRange))
    else if tooLarge then (s, Refused(TooLarge))
    else if uri in s.open then (s, Refused(DocumentAlreadyOpen))
    else if |s.open| >= maxOpen then (s, Refused(OpenDocumentLimit))
    else if s.nextIncarnation.None? then (s, Refused(IncarnationExhausted))
    else
      var doc := Doc(version, s.nextIncarnation.value);
      var sent := Enqueue(s, DidOpen(uri, doc), send);
      if send.Accepted? then
        (sent.(open := s.open[uri := doc],
               nextIncarnation := if doc.incarnation < U64_MAX then Some(doc.incarnation + 1) else None),
         Opened(doc.incarnation))
      else (sent, SendResult(send, Sent))
  }

  function CallDidChange(s: ClientState, uri: Uri, version: nat, tooLarge: bool, send: SendOutcome)
    : (ClientState, ApiResult)
  {
    if EnsureReady(s).Some? then (s, Refused(EnsureReady(s).value))
    else if version > I32_MAX then (s, Refused(VersionOutOfRange))
    else if uri !in s.open then (s, Refused(DocumentNotOpen))
    else if version <= s.open[uri].version then (s, Refused(StaleVersion(s.open[uri].version)))
    else if tooLarge then (s, Refused(TooLarge))
    else
      var sent := Enqueue(s, DidChange(uri, version), send);
      (if send.Accepted? then sent.(open := s.open[uri := Doc(version, s.open[uri].incarnation)]) else sent,
       SendResult(send, Sent))
  }

  function CallDidSave(s: ClientState, uri: Uri, version: nat, tooLarge: bool, send: SendOutcome)
    : (ClientState, ApiResult)
  {
    if EnsureReady(s).Some? then (s, Refused(EnsureReady(s).value))
    else if uri !in s.open then (s, Refused(DocumentNotOpen))
    else if version != s.open[uri].version then (s, Refused(StaleVersion(s.open[uri].version)))
    else if tooLarge then (s, Refused(TooLarge))
    else (Enqueue(s, DidSave(uri), send), SendResult(send, Sent))
  }

  function CallDidClose(s: ClientState, uri: Uri, tooLarge: bool, send: SendOutcome): (ClientState, ApiResult) {
    if EnsureReady(s).Some? then (s, Refused(EnsureReady(s).value))
    else if uri !in s.open then (s, Refused(DocumentNotOpen))
    else if tooLarge then (s, Refused(TooLarge))
    else
      var sent := Enqueue(s, DidClose(uri), send);
      (if send.Accepted? then sent.(open := s.open - {uri}) else sent, SendResult(send, Sent))
  }

  /** A request for one document, made with the version the caller believes current. */
  function CallRequest(s: ClientState, operation: Operation, uri: Uri, version: nat, tooLarge: bool, send: SendOutcome)
    : (ClientState, ApiResult)
  {
    if EnsureReady(s).Some? then (s, Refused(EnsureReady(s).value))
    else if uri !in s.open then (s, Refused(DocumentNotOpen))
    else if version != s.open[uri].version then (s, Refused(StaleVersion(s.open[uri].version)))
    else SendRequest(s, operation, DocumentScope(uri, s.open[uri]), tooLarge, send)
  }

  function CallWorkspaceSymbols(s: ClientState, tooLarge: bool, send: SendOutcome): (ClientState, ApiResult) {
    if EnsureReady(s).Some? then (s, Refused(EnsureReady(s).value))
    else SendRequest(s, WorkspaceSymbols, WorkspaceScope, tooLarge, send)
  }

  /** The identifier is spent even when the command is then refused. */
  function SendRequest(s: ClientState, operation: Operation, scope: Scope, tooLarge: bool, send: SendOutcome)
    : (ClientState, ApiResult)
  {
    if s.nextRequestId >= U64_MAX then (s, Refused(RequestIdExhausted))
    else
      var id := s.nextRequestId;
      var spent := s.(nextRequestId := id + 1);
      if tooLarge then (spent, Refused(TooLarge))
      else (Enqueue(spent, Request(id, operation, scope), send), SendResult(send, Requested(id)))
  }

  function CallCancel(s: ClientState, id: RequestId, tooLarge: bool, send: SendOutcome): (ClientState, ApiResult) {
    if EnsureReady(s).Some? then (s, Refused(EnsureReady(s).value))
    else if tooLarge then (s, Refused(TooLarge))
    else (Enqueue(s, CancelRequest(id), send), SendResult(send, Sent))
  }

  function WithLifecycle(s: ClientState, lifecycle: Lifecycle): ClientState {
    s.(loop := s.loop.(lifecycle := lifecycle))
  }

  /** `shutdown` up to and including its compare-exchange. */
  function BeginShutdown(s: ClientState): (ClientState, ApiResult) {
    if s.loop.lifecycle.Stopped? then (s, Refused(StoppedError))
    else if s.loop.lifecycle.ShuttingDown? then (s, Sent)
    else if s.nextRequestId >= U64_MAX then (s, Refused(RequestIdExhausted))
    else
      (WithLifecycle(s, ShuttingDown)
         .(nextRequestId := s.nextRequestId + 1,
           shutdownCall := Some(ShutdownCall(s.nextRequestId, s.loop.lifecycle))),
       Sent)
  }

  /**
    The rest of `shutdown`: the control send, and the roll-back of a failed one.
    Only a client that had published READY goes back to it.
   */
  function FinishShutdown(s: ClientState, tooLarge: bool, send: SendOutcome): (ClientState, ApiResult)
    requires s.shutdownCall.Some?
  {
    var call := s.shutdownCall.value;
    var done := s.(shutdownCall := None);
    if !tooLarge && send.Accepted? then (Enqueue(done, ShutdownRequest(call.id), send), Sent)
    else
      (if call.previous.ReadyState? && s.loop.lifecycle.ShuttingDown? then WithLifecycle(done, ReadyState) else done,
       if tooLarge then Refused(TooLarge) else SendResult(send, Sent))
  }

  // ---------------------------------------------------------------------------
  // The protocol thread
  // ---------------------------------------------------------------------------

  /** Which of the writes one dequeued input may perform succeed. */
  datatype Writes = Writes(first: bool, second: bool)

  function Emit(s: Loop, e: Event): Loop {
    s.(events := s.events + [e])
  }

  function Stop(s: Loop): Loop {
    s.(running := false)
  }

  /** A frame goes out, or the failed write ends the loop. */
  function Send(s: Loop, f: Frame, ok: bool): Loop {
    if ok then s.(wire := s.wire + [f]) else Stop(Emit(s, TransportError))
  }

  /** Everything but the change to `documents`, which is `Apply`. */
  function HandleCommand(s: Loop, documents: Table, c: Command, ok: bool): Loop {
    match c
    case DidOpen(_, _) => Send(s, CommandFrame(c), ok)
    case DidChange(uri, version) =>
      if uri in documents && version > documents[uri].version then Send(s, CommandFrame(c), ok) else s
    case DidSave(_) => Send(s, CommandFrame(c), ok)
    case DidClose(_) => Send(s, CommandFrame(c), ok)
    case Request(id, operation, scope) => HandleRequest(s, documents, id, operation, scope, ok)
    case CancelRequest(id) =>
      if id !in s.pending || s.pending[id].cancelRequested || !s.pending[id].operation.IsFeature() then s
      else Send(s.(pending := s.pending[id := s.pending[id].(cancelRequested := true)]), CommandFrame(c), ok)
    case ShutdownRequest(id) => HandleShutdown(s, id, ok)
  }

  function HandleRequest(s: Loop, documents: Table, id: RequestId, operation: Operation, scope: Scope, ok: bool): Loop {
    if scope.DocumentScope? && Lookup(documents, scope.uri) != Some(scope.doc) then
      Emit(s, StaleResponse(id, operation, scope.uri, scope.doc.version, VersionOf(Lookup(documents, scope.uri))))
    else if |s.pending| >= MAX_PENDING_REQUESTS - 1 then
      Emit(s, RequestFailed(id, operation, PendingLimit))
    else
      Send(s.(pending := s.pending[id := Pending(operation, Some(scope), false, true)]),
           CommandFrame(Request(id, operation, scope)), ok)
  }

  function VersionOf(d: Option<Doc>): Option<nat> {
    if d.Some? then Some(d.value.version) else None
  }

  predicate InitializePending(p: PendingTable) {
    exists id <- p.Keys :: p[id].operation.Initialize?
  }

  /** A shutdown accepted before initialization finished waits for the initialize response. */
  function HandleShutdown(s: Loop, id: RequestId, ok: bool): Loop {
    if |s.pending| >= MAX_PENDING_REQUESTS then
      Stop(Emit(s, RequestFailed(id, Shutdown, PendingLimit)))
    else if InitializePending(s.pending) then
      s.(pending := s.pending[id := Pending(Shutdown, None, false, false)])
    else
      Send(s.(pending := s.pending[id := Pending(Shutdown, None, false, true)]), CommandFrame(ShutdownRequest(id)), ok)
  }

  /** A malformed response is still terminal for the request it answers. */
  function CorrelatedFailure(s: Loop, id: RequestId, operation: Operation, ok: bool): Loop {
    var failed := Emit(s, RequestFailed(id, operation, InvalidResponse));
    match operation
    case Initialize => Stop(failed)
    case Shutdown => Stop(Send(failed, ExitFrame, ok))
    case _ => failed
  }

  ghost function HandleMessage(s: Loop, open: Table, documents: Table, m: Message, w: Writes): Loop {
    if m.NotJsonObject? then Emit(s, ProtocolError)
    else if !m.versionOk then
      if (m.hasResult || !m.error.NoError?) && m.rpcMethod.None? && m.id.NumericId? && m.id.id in s.pending
      then CorrelatedFailure(Settle(s, m.id.id), m.id.id, s.pending[m.id.id].operation, w.first)
      else Emit(s, ProtocolError)
    else if m.rpcMethod.Some? then
      if !m.id.NoId? then
        var replied := Send(s, ErrorReplyFrame, w.first);
        if w.first then Emit(replied, ServerRequestRejected) else replied
      else if m.rpcMethod.value.PublishDiagnostics? then HandleDiagnostics(s, documents, m.rpcMethod.value.body)
      else Emit(s, ServerNotification)
    else if !m.id.NumericId? || m.id.id !in s.pending then Emit(s, ProtocolError)
    else HandleResponse(Settle(s, m.id.id), open, m.id.id, s.pending[m.id.id], m.hasResult, m.error, w)
  }

  /** The request leaves the pending table. */
  function Settle(s: Loop, id: RequestId): Loop {
    s.(pending := s.pending - {id})
  }

  function HandleDiagnostics(s: Loop, documents: Table, body: DiagnosticsBody): Loop {
    match body
    case Malformed => Emit(s, DiagnosticsRejected)
    case Publication(uri, version) =>
      var current := Lookup(documents, uri);
      if version.Some? && current.Some? && current.value.version != version.value
      then Emit(s, StaleDiagnostics(uri, version.value, current.value.version))
      else Emit(s, Diagnostics(uri, version, current))
  }

  /** A response to request `id`, which `Settle` has just taken off the table. */
  ghost function HandleResponse(
    s: Loop, open: Table, id: RequestId, p: Pending, hasResult: bool, error: ErrorField, w: Writes): Loop
  {
    if !p.sent || hasResult == !error.NoError? || error.BadError? then CorrelatedFailure(s, id, p.operation, w.first)
    else if error.GoodError? then
      var failed := Emit(s, RequestFailed(id, p.operation, ServerError));
      match p.operation
      case Shutdown => Stop(if w.first then Send(failed, ExitFrame, true) else failed)
      case Initialize => Stop(failed)
      case _ => failed
    else HandleResult(s, open, id, p, w)
  }

  ghost function HandleResult(s: Loop, open: Table, id: RequestId, p: Pending, w: Writes): Loop {
    match p.operation
    case Initialize => HandleInitialized(s, w)
    case Shutdown =>
      var exited := Send(s, ExitFrame, w.first);
      Stop(if w.first then Emit(exited, ShutdownComplete) else exited)
    case WorkspaceSymbols =>
      if p.scope == Some(WorkspaceScope) then Emit(s, WorkspaceResult(id))
      else CorrelatedFailure(s, id, p.operation, w.first)
    case _ =>
      if p.scope.None? || !p.scope.value.DocumentScope? then CorrelatedFailure(s, id, p.operation, w.first)
      else DeliverResult(s, open, id, p.operation, p.scope.value.uri, p.scope.value.doc)
  }

  /** The delivery check reads the table the public API advances. */
  function DeliverResult(s: Loop, open: Table, id: RequestId, operation: Operation, uri: Uri, doc: Doc): Loop {
    if Lookup(open, uri) != Some(doc)
    then Emit(s, StaleResponse(id, operation, uri, doc.version, VersionOf(Lookup(open, uri))))
    else Emit(s, FeatureResult(id, operation, uri, doc.version))
  }

  function Deferred(p: PendingTable): set<RequestId> {
    set id | id in p && p[id].operation.Shutdown? && !p[id].sent
  }

  /** The source takes whichever its hash table yields first; `LspPending.OneShutdown` shows there is one. */
  ghost function PickDeferred(p: PendingTable): (id: RequestId)
    requires Deferred(p) != {}
    ensures id in Deferred(p)
  {
    var id :| id in Deferred(p);
    id
  }

  /** `initialized` goes out first, then a shutdown that was waiting for it, then READY is published. */
  ghost function HandleInitialized(s: Loop, w: Writes): Loop {
    var greeted := Send(s, InitializedFrame, w.first);
    if !w.first then greeted
    else if Deferred(s.pending) == {} then PublishReady(greeted)
    else
      var id := PickDeferred(s.pending);
      var sent := Send(greeted, CommandFrame(ShutdownRequest(id)), w.second);
      if !w.second then sent
      else PublishReady(sent.(pending := s.pending[id := s.pending[id].(sent := true)]))
  }

  function PublishReady(s: Loop): Loop {
    if s.lifecycle.Starting? then Emit(s.(lifecycle := ReadyState), Ready) else s
  }

  ghost function HandleInput(s: Loop, open: Table, documents: Table, input: Input, w: Writes): Loop {
    match input
    case ClientCommand(c) => HandleCommand(s, documents, c, w.first)
    case ServerMessage(m) => HandleMessage(s, open, documents, m, w)
    case Stderr => Emit(s, StderrOutput)
    case StderrTruncated => Emit(s, StderrOutputTruncated)
    case TransportFailed => Stop(Emit(s, TransportError))
    case ServerGone => Stop(Emit(s, ServerClosed))
    case ForceStop => Stop(s)
  }

  /** The thread takes the oldest input off the queue and handles it. */
  ghost function Dequeue(s: ClientState, w: Writes): ClientState
    requires s.queue != []
  {
    var input := s.queue[0];
    var handled := s.(queue := s.queue[1..], loop := HandleInput(s.loop, s.open, s.documents, input, w));
    if input.ClientCommand?
    then handled.(documents := Apply(s.documents, input.command), processed := s.processed + [input.command])
    else handled
  }

  // ---------------------------------------------------------------------------
  // Runs
  // ---------------------------------------------------------------------------

  datatype Action =
    | DoOpen(uri: Uri, version: nat, maxOpen: nat, tooLarge: bool, send: SendOutcome)
    | DoChange(uri: Uri, version: nat, tooLarge: bool, send: SendOutcome)
    | DoSave(uri: Uri, version: nat, tooLarge: bool, send: SendOutcome)
    | DoClose(uri: Uri, tooLarge: bool, send: SendOutcome)
    | DoRequest(operation: Operation, uri: Uri, version: nat, tooLarge: bool, send: SendOutcome)
    | DoWorkspaceSymbols(tooLarge: bool, send: SendOutcome)
    | DoCancel(id: RequestId, tooLarge: bool, send: SendOutcome)
    | DoBeginShutdown
    | DoFinishShutdown(tooLarge: bool, send: SendOutcome)
    | Arrive(input: Input)
    | Handle(writes: Writes)
    | PublishStopped

  /** The public document operations that `request_feature` is called with. */
  predicate IsDocumentOperation(operation: Operation) {
    operation.IsFeature() && !operation.WorkspaceSymbols?
  }

  /**
    Methods of the client take it exclusively, so no call starts while a
    `shutdown` is between its two halves; the protocol thread and the reader
    threads step at any time.
   */
  predicate Enabled(s: ClientState, a: Action) {
    match a
    case DoRequest(operation, _, _, _, _) => s.shutdownCall.None? && IsDocumentOperation(operation)
    case DoFinishShutdown(_, _) => s.shutdownCall.Some?
    case Arrive(input) => !input.ClientCommand?
    case Handle(_) => s.loop.running && s.queue != []
    case PublishStopped => !s.loop.running
    case _ => s.shutdownCall.None?
  }

  ghost function Step(s: ClientState, a: Action): ClientState
    requires Enabled(s, a)
  {
    match a
    case DoOpen(uri, version, maxOpen, tooLarge, send) => CallDidOpen(s, uri, version, maxOpen, tooLarge, send).0
    case DoChange(uri, version, tooLarge, send) => CallDidChange(s, uri, version, tooLarge, send).0
    case DoSave(uri, version, tooLarge, send) => CallDidSave(s, uri, version, tooLarge, send).0
    case DoClose(uri, tooLarge, send) => CallDidClose(s, uri, tooLarge, send).0
    case DoRequest(operation, uri, version, tooLarge, send) =>
      CallRequest(s, operation, uri, version, tooLarge, send).0
    case DoWorkspaceSymbols(tooLarge, send) => CallWorkspaceSymbols(s, tooLarge, send).0
    case DoCancel(id, tooLarge, send) => CallCancel(s, id, tooLarge, send).0
    case DoBeginShutdown => BeginShutdown(s).0
    case DoFinishShutdown(tooLarge, send) => FinishShutdown(s, tooLarge, send).0
    case Arrive(input) => s.(queue := s.queue + [input])
    case Handle(writes) => Dequeue(s, writes)
    case PublishStopped => WithLifecycle(s, Stopped)
  }

  /** The protocol thread has written `initialize`, which is request 1. */
  const INITIAL: ClientState :=
    ClientState(map[], Some(1), 2, None, [], map[],
                Loop(map[1 := Pending(Initialize, None, false, true)], Starting, [InitializeFrame], [], true), [], [])

  /** `initialize` could not be written: the thread ends before taking any input. */
  const FAILED_START: ClientState := INITIAL.(loop := Loop(map[], Starting, [], [TransportError], false))

  ghost predicate IsRun(states: seq<ClientState>, actions: seq<Action>) {
    && |states| == |actions| + 1
    && (states[0] == INITIAL || states[0] == FAILED_START)
    && forall k | 0 <= k < |actions| :: Enabled(states[k], actions[k]) && states[k + 1] == Step(states[k], actions[k])
  }
}
