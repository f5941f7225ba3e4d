/**
  The client as an object: the fields its two threads share, updated in place
  the way the source updates them.  Every public method, every arrival and
  every turn of the protocol loop is a step of `LspProtocol`, recorded in a
  ghost run, so what is proved of runs holds of the object.
 */
module LspClient {
  import opened Machine
  import opened Wrappers
  import opened LspProtocol
  import opened LspPending
  import opened LspTables
  import opened LspWire

  /** At most one shutdown waits for `initialize` to be answered. */
  predicate OneWaiting(p: PendingTable) {
    forall a <- Deferred(p), b <- Deferred(p) :: a == b
  }

  class Client {
    var documentVersions: Table
    var nextDocumentIncarnation: Option<nat>
    var nextRequestId: RequestId
    var lifecycle: Lifecycle
    var shutdownCall: Option<ShutdownCall>
    var queue: seq<Input>
    var running: bool
    var pending: PendingTable
    var documents: Table
    ghost var wire: seq<Frame>
    ghost var events: seq<Event>
    ghost var accepted: seq<Command>
    ghost var processed: seq<Command>
    ghost var states: seq<ClientState>
    ghost var actions: seq<Action>

    ghost function LoopState(): Loop
      reads this
    {
      Loop(pending, lifecycle, wire, events, running)
    }

    ghost function State(): ClientState
      reads this
    {
      ClientState(documentVersions, nextDocumentIncarnation, nextRequestId, shutdownCall, queue, documents,
                  LoopState(), accepted, processed)
    }

    /** The object is at the end of a run. */
    ghost predicate Valid()
      reads this
    {
      IsRun(states, actions) && states[|actions|] == State()
    }

    /** The protocol thread writes `initialize` before anything else; if it cannot, it ends. */
    constructor (written: bool)
      ensures Valid() && State() == if written then INITIAL else FAILED_START
    {
      documentVersions, documents := map[], map[];
      nextDocumentIncarnation, nextRequestId := Some(1), 2;
      lifecycle, shutdownCall, queue, running := Starting, None, [], written;
      pending := if written then map[1 := Pending(Initialize, None, false, true)] else map[];
      wire := if written then [InitializeFrame] else [];
      events := if written then [] else [TransportError];
      accepted, processed := [], [];
      states, actions := [if written then INITIAL else FAILED_START], [];
    }

    /** The invariant of all runs holds of the fields. */
    lemma Session()
      requires Valid()
      ensures SessionOk(State()) && OneWaiting(pending)
    {
      hide Step, SessionOk, Deferred;
      SessionOkOnRuns(states, actions, |actions|);
      forall a <- Deferred(pending), b <- Deferred(pending) ensures a == b {
        Waits(a);
        Waits(b);
        OneShutdown(states, actions, |actions|, a, b);
      }
    }

    lemma Waits(id: RequestId)
      requires id in Deferred(pending)
      ensures id in pending && pending[id].operation.Shutdown?
    {
    }

    /** An identifier not handed out yet belongs to no request and no waiting entry. */
    lemma NextIdIsNew()
      requires Valid()
      ensures RequestCount(accepted, nextRequestId) == 0 && nextRequestId !in pending
    {
      hide Step, SessionOk, TablesAgree, IdsRise, Balanced, CancelsOnce, Bounded;
      PendingOkOnRuns(states, actions, |actions|);
      CountBelow(accepted, nextRequestId, nextRequestId);
      assert processed <= accepted by {
        TablesMeanPrefix(State());
      }
      assert forall c <- processed :: c in accepted;
      NotYetIssued(LoopState(), processed, nextRequestId);
    }

    /** The step the body is about to perform. */
    ghost method Take(a: Action)
      requires Valid() && Enabled(State(), a)
      modifies this`states, this`actions
      ensures IsRun(states, actions) && states[|actions|] == Step(State(), a)
    {
      hide Step;
      states := states + [Step(State(), a)];
      actions := actions + [a];
    }

    // -------------------------------------------------------------------------
    // The public API
    // -------------------------------------------------------------------------

    /** Hands a command to the bounded queue, whose verdict is `send`. */
    method EnqueueCommand(c: Command, send: SendOutcome) returns (sent: bool)
      modifies this`queue, this`accepted
      ensures sent == send.Accepted?
      ensures State() == Enqueue(old(State()), c, send)
    {
      sent := send.Accepted?;
      if sent {
        queue := queue + [ClientCommand(c)];
        accepted := accepted + [c];
      }
    }

    method Ready() returns (error: Option<ApiError>)
      ensures error == EnsureReady(State())
    {
      match lifecycle
      case ReadyState => error := None;
      case Starting => error := Some(NotReady);
      case ShuttingDown => error := Some(ShuttingDownError);
      case Stopped => error := Some(StoppedError);
    }

    ghost method TakeOpen(uri: Uri, version: nat, maxOpen: nat, tooLarge: bool, send: SendOutcome)
      requires Valid() && shutdownCall.None?
      modifies this`states, this`actions
      ensures IsRun(states, actions)
      ensures states[|actions|] == CallDidOpen(State(), uri, version, maxOpen, tooLarge, send).0
    {
      hide IsRun, CallDidOpen;
      Take(DoOpen(uri, version, maxOpen, tooLarge, send));
    }

    /** The entry goes in before the send, under the same lock, and comes out again if the send fails. */
    method DidOpen(uri: Uri, version: nat, maxOpen: nat, tooLarge: bool, send: SendOutcome) returns (result: ApiResult)
      requires Valid() && shutdownCall.None?
      modifies this
      ensures Valid()
      ensures (State(), result) == CallDidOpen(old(State()), uri, version, maxOpen, tooLarge, send)
    {
      hide IsRun;
      TakeOpen(uri, version, maxOpen, tooLarge, send);
      var notReady := Ready();
      if notReady.Some? { return Refused(notReady.value); }
      if version > I32_MAX { return Refused(VersionOutOfRange); }
      if tooLarge { return Refused(TooLarge); }
      if uri in documentVersions { return Refused(DocumentAlreadyOpen); }
      if |documentVersions| >= maxOpen { return Refused(OpenDocumentLimit); }
      if nextDocumentIncarnation.None? { return Refused(IncarnationExhausted); }
      var incarnation := nextDocumentIncarnation.value;
      ghost var before := documentVersions;
      documentVersions := documentVersions[uri := Doc(version, incarnation)];
      var sent := EnqueueCommand(Command.DidOpen(uri, Doc(version, incarnation)), send);
      if !sent {
        documentVersions := documentVersions - {uri};
        assert documentVersions == before;
        return SendResult(send, Sent);
      }
      nextDocumentIncarnation := if incarnation < U64_MAX then Some(incarnation + 1) else None;
      result := Opened(incarnation);
    }

    method DidChange(uri: Uri, version: nat, tooLarge: bool, send: SendOutcome) returns (result: ApiResult)
      requires Valid() && shutdownCall.None?
      modifies this
      ensures Valid()
      ensures (State(), result) == CallDidChange(old(State()), uri, version, tooLarge, send)
    {
      hide IsRun;
      Take(DoChange(uri, version, tooLarge, send));
      var notReady := Ready();
      if notReady.Some? { return Refused(notReady.value); }
      if version > I32_MAX { return Refused(VersionOutOfRange); }
      if uri !in documentVersions { return Refused(DocumentNotOpen); }
      var current := documentVersions[uri];
      if version <= current.version { return Refused(StaleVersion(current.version)); }
      if tooLarge { return Refused(TooLarge); }
      ghost var before := documentVersions;
      documentVersions := documentVersions[uri := Doc(version, current.incarnation)];
      var sent := EnqueueCommand(Command.DidChange(uri, version), send);
      if !sent {
        documentVersions := documentVersions[uri := current];
        assert documentVersions == before;
      }
      result := SendResult(send, Sent);
    }

    method DidClose(uri: Uri, tooLarge: bool, send: SendOutcome) returns (result: ApiResult)
      requires Valid() && shutdownCall.None?
      modifies this
      ensures Valid()
      ensures (State(), result) == CallDidClose(old(State()), uri, tooLarge, send)
    {
      hide IsRun;
      Take(DoClose(uri, tooLarge, send));
      var notReady := Ready();
      if notReady.Some? { return Refused(notReady.value); }
      if uri !in documentVersions { return Refused(DocumentNotOpen); }
      if tooLarge { return Refused(TooLarge); }
      var previous := documentVersions[uri];
      ghost var before := documentVersions;
      documentVersions := documentVersions - {uri};
      var sent := EnqueueCommand(Command.DidClose(uri), send);
      if !sent {
        documentVersions := documentVersions[uri := previous];
        assert documentVersions == before;
      }
      result := SendResult(send, Sent);
    }

    method DidSave(uri: Uri, version: nat, tooLarge: bool, send: SendOutcome) returns (result: ApiResult)
      requires Valid() && shutdownCall.None?
      modifies this
      ensures Valid()
      ensures (State(), result) == CallDidSave(old(State()), uri, version, tooLarge, send)
    {
      hide IsRun;
      Take(DoSave(uri, version, tooLarge, send));
      var notReady := Ready();
      if notReady.Some? { return Refused(notReady.value); }
      if uri !in documentVersions { return Refused(DocumentNotOpen); }
      var current := documentVersions[uri];
      if version != current.version { return Refused(StaleVersion(current.version)); }
      if tooLarge { return Refused(TooLarge); }
      var _ := EnqueueCommand(Command.DidSave(uri), send);
      result := SendResult(send, Sent);
    }

    /**
      A granted request is queued with the document state it was made for, under
      an identifier that no request before it and no waiting entry has.
     */
    method RequestFeature(operation: Operation, uri: Uri, version: nat, tooLarge: bool, send: SendOutcome)
      returns (result: ApiResult)
      requires Valid() && shutdownCall.None? && IsDocumentOperation(operation)
      modifies this
      ensures Valid()
      ensures (State(), result) == CallRequest(old(State()), operation, uri, version, tooLarge, send)
      ensures result.Requested? ==>
                && uri in documentVersions && documentVersions[uri].version == version
                && accepted == old(accepted)
                               + [Request(result.id, operation, DocumentScope(uri, documentVersions[uri]))]
                && RequestCount(old(accepted), result.id) == 0 && result.id !in pending
      ensures !result.Requested? ==> accepted == old(accepted) && queue == old(queue)
    {
      hide IsRun;
      NextIdIsNew();
      Take(DoRequest(operation, uri, version, tooLarge, send));
      var notReady := Ready();
      if notReady.Some? { return Refused(notReady.value); }
      if uri !in documentVersions { return Refused(DocumentNotOpen); }
      var current := documentVersions[uri];
      if version != current.version { return Refused(StaleVersion(current.version)); }
      if nextRequestId >= U64_MAX { return Refused(RequestIdExhausted); }
      var id := nextRequestId;
      nextRequestId := nextRequestId + 1;
      if tooLarge { return Refused(TooLarge); }
      var _ := EnqueueCommand(Request(id, operation, DocumentScope(uri, current)), send);
      result := SendResult(send, Requested(id));
    }

    method RequestWorkspaceSymbols(tooLarge: bool, send: SendOutcome) returns (result: ApiResult)
      requires Valid() && shutdownCall.None?
      modifies this
      ensures Valid()
      ensures (State(), result) == CallWorkspaceSymbols(old(State()), tooLarge, send)
    {
      hide IsRun;
      Take(DoWorkspaceSymbols(tooLarge, send));
      var notReady := Ready();
      if notReady.Some? { return Refused(notReady.value); }
      if nextRequestId >= U64_MAX { return Refused(RequestIdExhausted); }
      var id := nextRequestId;
      nextRequestId := nextRequestId + 1;
      if tooLarge { return Refused(TooLarge); }
      var _ := EnqueueCommand(Request(id, WorkspaceSymbols, WorkspaceScope), send);
      result := SendResult(send, Requested(id));
    }

    method Cancel(id: RequestId, tooLarge: bool, send: SendOutcome) returns (result: ApiResult)
      requires Valid() && shutdownCall.None?
      modifies this
      ensures Valid()
      ensures (State(), result) == CallCancel(old(State()), id, tooLarge, send)
    {
      hide IsRun;
      Take(DoCancel(id, tooLarge, send));
      var notReady := Ready();
      if notReady.Some? { return Refused(notReady.value); }
      if tooLarge { return Refused(TooLarge); }
      var _ := EnqueueCommand(CancelRequest(id), send);
      result := SendResult(send, Sent);
    }

    /** `shutdown` up to its compare-exchange. */
    method ShutdownExchange() returns (result: ApiResult)
      requires Valid() && shutdownCall.None?
      modifies this
      ensures Valid()
      ensures (State(), result) == BeginShutdown(old(State()))
    {
      hide IsRun;
      Take(DoBeginShutdown);
      if lifecycle.Stopped? { return Refused(StoppedError); }
      if lifecycle.ShuttingDown? { return Sent; }
      if nextRequestId >= U64_MAX { return Refused(RequestIdExhausted); }
      shutdownCall := Some(ShutdownCall(nextRequestId, lifecycle));
      nextRequestId := nextRequestId + 1;
      lifecycle := ShuttingDown;
      result := Sent;
    }

    /** The control send of `shutdown`, and its roll-back. */
    method ShutdownSend(tooLarge: bool, send: SendOutcome) returns (result: ApiResult)
      requires Valid() && shutdownCall.Some?
      modifies this
      ensures Valid()
      ensures (State(), result) == FinishShutdown(old(State()), tooLarge, send)
    {
      hide IsRun;
      Take(DoFinishShutdown(tooLarge, send));
      var call := shutdownCall.value;
      shutdownCall := None;
      var sent := false;
      if !tooLarge {
        sent := EnqueueCommand(ShutdownRequest(call.id), send);
      }
      if sent { return Sent; }
      if call.previous.ReadyState? && lifecycle.ShuttingDown? {
        lifecycle := ReadyState;
      }
      result := if tooLarge then Refused(TooLarge) else SendResult(send, Sent);
    }

    // -------------------------------------------------------------------------
    // What other threads do
    // -------------------------------------------------------------------------

    /** A reader thread, or the client being dropped, puts an input on the queue. */
    method Deliver(input: Input)
      requires Valid() && !input.ClientCommand?
      modifies this
      ensures Valid() && State() == old(State()).(queue := old(queue) + [input])
    {
      hide IsRun;
      Take(Arrive(input));
      queue := queue + [input];
    }

    /** The protocol thread has left its loop. */
    method MarkStopped()
      requires Valid() && !running
      modifies this
      ensures Valid() && State() == WithLifecycle(old(State()), Stopped)
    {
      hide IsRun;
      Take(PublishStopped);
      lifecycle := Stopped;
    }

    // -------------------------------------------------------------------------
    // The protocol thread
    // -------------------------------------------------------------------------

    method EmitEvent(e: Event)
      modifies this`events
      ensures events == old(events) + [e]
    {
      events := events + [e];
    }

    /** Writes one frame; a failed write is reported and ends the loop. */
    method WriteFrame(f: Frame, ok: bool) returns (keepRunning: bool)
      modifies this`wire, this`events
      ensures keepRunning == ok
      ensures Send(old(LoopState()), f, ok) == LoopState().(running := if ok then running else false)
    {
      if ok {
        wire := wire + [f];
      } else {
        EmitEvent(TransportError);
      }
      keepRunning := ok;
    }

    method HandleClientCommand(c: Command, ok: bool) returns (keepRunning: bool)
      requires running
      modifies this`documents, this`pending, this`wire, this`events
      ensures documents == Apply(old(documents), c)
      ensures LoopState().(running := keepRunning) == HandleCommand(old(LoopState()), old(documents), c, ok)
    {
      match c {
        case DidOpen(uri, doc) =>
          documents := documents[uri := doc];
        case DidChange(uri, version) =>
          if uri !in documents || version <= documents[uri].version { return true; }
          documents := documents[uri := documents[uri].(version := version)];
        case DidClose(uri) =>
          documents := documents - {uri};
        case Request(id, operation, scope) =>
          if scope.DocumentScope? && Lookup(documents, scope.uri) != Some(scope.doc) {
            EmitEvent(StaleResponse(id, operation, scope.uri, scope.doc.version,
                                    VersionOf(Lookup(documents, scope.uri))));
            return true;
          }
          if |pending| >= MAX_PENDING_REQUESTS - 1 {
            EmitEvent(RequestFailed(id, operation, PendingLimit));
            return true;
          }
          pending := pending[id := Pending(operation, Some(scope), false, true)];
        case CancelRequest(id) =>
          if id !in pending { return true; }
          if pending[id].cancelRequested || !pending[id].operation.IsFeature() { return true; }
          pending := pending[id := pending[id].(cancelRequested := true)];
        case ShutdownRequest(id) =>
          if |pending| >= MAX_PENDING_REQUESTS {
            EmitEvent(RequestFailed(id, Shutdown, PendingLimit));
            return false;
          }
          var deferred := InitializePending(pending);
          pending := pending[id := Pending(Shutdown, None, false, !deferred)];
          if deferred { return true; }
        case DidSave(_) =>
      }
      keepRunning := WriteFrame(CommandFrame(c), ok);
    }

    method HandleCorrelatedProtocolFailure(id: RequestId, operation: Operation, ok: bool) returns (keepRunning: bool)
      requires running
      modifies this`wire, this`events
      ensures LoopState().(running := keepRunning) == CorrelatedFailure(old(LoopState()), id, operation, ok)
    {
      EmitEvent(RequestFailed(id, operation, InvalidResponse));
      match operation {
        case Initialize => keepRunning := false;
        case Shutdown =>
          var _ := WriteFrame(ExitFrame, ok);
          keepRunning := false;
        case _ => keepRunning := true;
      }
    }

    /** The initialize response: `initialized`, a shutdown that waited for it, then READY. */
    method HandleInitializeResult(w: Writes) returns (keepRunning: bool)
      requires running && OneWaiting(pending)
      modifies this`pending, this`lifecycle, this`wire, this`events
      ensures LoopState().(running := keepRunning) == HandleInitialized(old(LoopState()), w)
    {
      keepRunning := WriteFrame(InitializedFrame, w.first);
      if !keepRunning { return; }
      var deferred := Deferred(pending);
      if deferred != {} {
        var id :| id in deferred;
        assert id == PickDeferred(pending);
        keepRunning := WriteFrame(CommandFrame(ShutdownRequest(id)), w.second);
        if !keepRunning { return; }
        pending := pending[id := pending[id].(sent := true)];
      }
      if lifecycle.Starting? {
        lifecycle := ReadyState;
        EmitEvent(Event.Ready);
      }
    }

    /** A response whose request has just been taken off the table. */
    method HandleServerResponse(id: RequestId, p: Pending, hasResult: bool, error: ErrorField, w: Writes)
      returns (keepRunning: bool)
      requires running && OneWaiting(pending)
      modifies this`pending, this`lifecycle, this`wire, this`events
      ensures LoopState().(running := keepRunning)
           == HandleResponse(old(LoopState()), documentVersions, id, p, hasResult, error, w)
    {
      if !p.sent || hasResult == !error.NoError? || error.BadError? {
        keepRunning := HandleCorrelatedProtocolFailure(id, p.operation, w.first);
        return;
      }
      if error.GoodError? {
        EmitEvent(RequestFailed(id, p.operation, ServerError));
        if p.operation.Shutdown? {
          if w.first { wire := wire + [ExitFrame]; }
          return false;
        }
        return !p.operation.Initialize?;
      }
      keepRunning := HandleServerResult(id, p, w);
    }

    method HandleServerResult(id: RequestId, p: Pending, w: Writes) returns (keepRunning: bool)
      requires running && OneWaiting(pending)
      modifies this`pending, this`lifecycle, this`wire, this`events
      ensures LoopState().(running := keepRunning) == HandleResult(old(LoopState()), documentVersions, id, p, w)
    {
      match p.operation {
        case Initialize => keepRunning := HandleInitializeResult(w);
        case Shutdown =>
          var written := WriteFrame(ExitFrame, w.first);
          if written { EmitEvent(ShutdownComplete); }
          keepRunning := false;
        case WorkspaceSymbols =>
          if p.scope != Some(WorkspaceScope) {
            keepRunning := HandleCorrelatedProtocolFailure(id, p.operation, w.first);
          } else {
            EmitEvent(WorkspaceResult(id));
            keepRunning := true;
          }
        case _ =>
          if p.scope.None? || !p.scope.value.DocumentScope? {
            keepRunning := HandleCorrelatedProtocolFailure(id, p.operation, w.first);
          } else {
            var uri, doc := p.scope.value.uri, p.scope.value.doc;
            var current := Lookup(documentVersions, uri);
            if current != Some(doc) {
              EmitEvent(StaleResponse(id, p.operation, uri, doc.version, VersionOf(current)));
            } else {
              EmitEvent(FeatureResult(id, p.operation, uri, doc.version));
            }
            keepRunning := true;
          }
      }
    }

    method HandleServerMessage(m: Message, w: Writes) returns (keepRunning: bool)
      requires running && OneWaiting(pending)
      modifies this`pending, this`lifecycle, this`wire, this`events
      ensures LoopState().(running := keepRunning)
           == HandleMessage(old(LoopState()), documentVersions, documents, m, w)
    {
      if m.NotJsonObject? {
        EmitEvent(ProtocolError);
        return true;
      }
      if !m.versionOk {
        if (m.hasResult || !m.error.NoError?) && m.rpcMethod.None? && m.id.NumericId? && m.id.id in pending {
          var operation := pending[m.id.id].operation;
          pending := pending - {m.id.id};
          keepRunning := HandleCorrelatedProtocolFailure(m.id.id, operation, w.first);
        } else {
          EmitEvent(ProtocolError);
          keepRunning := true;
        }
        return;
      }
      if m.rpcMethod.Some? {
        if !m.id.NoId? {
          keepRunning := WriteFrame(ErrorReplyFrame, w.first);
          if keepRunning { EmitEvent(ServerRequestRejected); }
        } else {
          if m.rpcMethod.value.PublishDiagnostics? {
            HandlePublishedDiagnostics(m.rpcMethod.value.body);
          } else {
            EmitEvent(ServerNotification);
          }
          keepRunning := true;
        }
        return;
      }
      if !m.id.NumericId? || m.id.id !in pending {
        EmitEvent(ProtocolError);
        return true;
      }
      var p := pending[m.id.id];
      ghost var before := Deferred(pending);
      pending := pending - {m.id.id};
      assert Deferred(pending) <= before;
      keepRunning := HandleServerResponse(m.id.id, p, m.hasResult, m.error, w);
    }

    method HandlePublishedDiagnostics(body: DiagnosticsBody)
      modifies this`events
      ensures LoopState() == HandleDiagnostics(old(LoopState()), documents, body)
    {
      match body {
        case Malformed => EmitEvent(DiagnosticsRejected);
        case Publication(uri, version) =>
          var current := Lookup(documents, uri);
          if version.Some? && current.Some? && current.value.version != version.value {
            EmitEvent(StaleDiagnostics(uri, version.value, current.value.version));
          } else {
            EmitEvent(Diagnostics(uri, version, current));
          }
      }
    }

    method HandleProtocolInput(input: Input, w: Writes) returns (keepRunning: bool)
      requires running && OneWaiting(pending)
      modifies this`documents, this`pending, this`lifecycle, this`wire, this`events
      ensures documents == if input.ClientCommand? then Apply(old(documents), input.command) else old(documents)
      ensures LoopState().(running := keepRunning)
           == HandleInput(old(LoopState()), documentVersions, old(documents), input, w)
    {
      hide HandleMessage, HandleCommand;
      keepRunning := true;
      match input {
        case ClientCommand(c) => keepRunning := HandleClientCommand(c, w.first);
        case ServerMessage(m) => keepRunning := HandleServerMessage(m, w);
        case Stderr => EmitEvent(StderrOutput);
        case StderrTruncated => EmitEvent(StderrOutputTruncated);
        case TransportFailed =>
          EmitEvent(TransportError);
          keepRunning := false;
        case ServerGone =>
          EmitEvent(ServerClosed);
          keepRunning := false;
        case ForceStop => keepRunning := false;
      }
    }

    ghost method TakeTurn(w: Writes)
      requires Valid() && running && queue != []
      modifies this`states, this`actions
      ensures IsRun(states, actions) && states[|actions|] == Dequeue(State(), w)
    {
      hide IsRun, Dequeue;
      Take(Handle(w));
    }

    /** One turn of the protocol loop. */
    method ReceiveAndHandle(w: Writes)
      requires Valid() && running && queue != []
      modifies this
      ensures Valid() && State() == Dequeue(old(State()), w)
    {
      hide IsRun, Dequeue, OneWaiting, SessionOk;
      Session();
      TakeTurn(w);
      running := HandleNext(w);
    }

    method HandleNext(w: Writes) returns (keepRunning: bool)
      requires running && queue != [] && OneWaiting(pending)
      modifies this`queue, this`processed, this`documents, this`pending, this`lifecycle, this`wire, this`events
      ensures State().(loop := LoopState().(running := keepRunning)) == Dequeue(old(State()), w)
    {
      hide HandleInput, OneWaiting;
      var input := queue[0];
      queue := queue[1..];
      if input.ClientCommand? {
        processed := processed + [input.command];
      }
      keepRunning := HandleProtocolInput(input, w);
    }
  }
}
