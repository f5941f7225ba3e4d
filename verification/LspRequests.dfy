/**
  What the server hears of requests, cancellations and shutdown: every one
  taken off the queue, against the frames on the wire.
 */
module LspRequests {
  import opened Wrappers
  import opened LspProtocol
  import opened LspTables
  import opened LspPending
  import opened LspWire

  /** The commands among the frames written. */
  function CommandsOn(wire: seq<Frame>): seq<Command> {
    if wire == [] then []
    else
      var f := wire[|wire| - 1];
      CommandsOn(wire[..|wire| - 1]) + (if f.CommandFrame? then [f.command] else [])
  }

  /** How often a feature request was refused for want of a slot. */
  function Refusals(events: seq<Event>, id: RequestId): nat {
    if events == [] then 0
    else
      var e := events[|events| - 1];
      Refusals(events[..|events| - 1], id)
      + (if e.RequestFailed? && e.id == id && e.operation.IsFeature() && e.reason.PendingLimit? then 1 else 0)
  }

  /** A cancellation was taken off the queue after the request. */
  predicate CancelledIn(log: seq<Command>, id: RequestId) {
    log != []
    && (CancelledIn(log[..|log| - 1], id)
        || (log[|log| - 1] == CancelRequest(id) && RequestCount(log[..|log| - 1], id) > 0))
  }

  /**
    What was sent says all that was taken off: nothing else is sent, every
    request is sent once unless it was refused, a waiting request has its
    cancellation sent exactly if one was asked for, and a waiting shutdown is
    sent exactly if the table says so.
   */
  ghost predicate Heard(pending: PendingTable, sent: seq<Command>, events: seq<Event>, processed: seq<Command>) {
    && (forall c <- sent :: c in processed)
    && (forall id: RequestId :: RequestCount(sent, id) + Refusals(events, id) == RequestCount(processed, id))
    && (forall id: RequestId :: CancelRequest(id) in sent ==> RequestCount(processed, id) > 0)
    && (forall id <- pending | pending[id].operation.IsFeature() :: CancelHeard(pending[id], id, sent, processed))
    && (forall id <- pending | pending[id].operation.Shutdown? ::
          multiset(sent)[ShutdownRequest(id)] == if pending[id].sent then 1 else 0)
  }

  ghost predicate CancelHeard(p: Pending, id: RequestId, sent: seq<Command>, processed: seq<Command>) {
    && multiset(sent)[CancelRequest(id)] == (if p.cancelRequested then 1 else 0)
    && (p.cancelRequested <==> CancelledIn(processed, id))
  }

  /** Once the loop has stopped, the frame of the last command may be missing: its own write failed. */
  ghost predicate Delivered(loop: Loop, processed: seq<Command>) {
    || Heard(loop.pending, CommandsOn(loop.wire), loop.events, processed)
    || (!loop.running && processed != []
        && Heard(loop.pending, CommandsOn(loop.wire) + [processed[|processed| - 1]], loop.events, processed))
  }

  // ---------------------------------------------------------------------------
  // One more of each
  // ---------------------------------------------------------------------------

  lemma SentSnoc(wire: seq<Frame>, f: Frame)
    ensures CommandsOn(wire + [f]) == CommandsOn(wire) + (if f.CommandFrame? then [f.command] else [])
  {
    assert (wire + [f])[..|wire|] == wire;
  }

  lemma RefusalSnoc(events: seq<Event>, e: Event)
    ensures forall id: RequestId ::
      Refusals(events + [e], id)
      == Refusals(events, id)
         + (if e.RequestFailed? && e.id == id && e.operation.IsFeature() && e.reason.PendingLimit? then 1 else 0)
  {
    assert (events + [e])[..|events|] == events;
  }

  lemma CancelledSnoc(log: seq<Command>, c: Command)
    ensures forall id: RequestId ::
      CancelledIn(log + [c], id) <==> CancelledIn(log, id) || (c == CancelRequest(id) && RequestCount(log, id) > 0)
  {
    assert (log + [c])[..|log|] == log;
  }

  lemma {:induction false} CancelledWasRequested(log: seq<Command>, id: RequestId)
    requires CancelledIn(log, id)
    ensures RequestCount(log, id) > 0
    decreases |log|
  {
    if CancelledIn(log[..|log| - 1], id) {
      CancelledWasRequested(log[..|log| - 1], id);
    }
  }

  lemma {:induction false} Counted(log: seq<Command>, c: Command)
    requires c in log && c.Request?
    ensures RequestCount(log, c.id) > 0
    decreases |log|
  {
    if log[|log| - 1] != c {
      Counted(log[..|log| - 1], c);
    }
  }

  // ---------------------------------------------------------------------------
  // Commands
  // ---------------------------------------------------------------------------

  /** Neither table, wire nor refusals change, and the command is none of a waiting entry. */
  lemma UnheardKeeps(
      pending: PendingTable, sent: seq<Command>, events: seq<Event>, processed: seq<Command>, c: Command)
    requires Heard(pending, sent, events, processed)
    requires !c.Request?
    requires c.CancelRequest? && c.id in pending && pending[c.id].operation.IsFeature() ==>
               CancelledIn(processed, c.id)
    ensures Heard(pending, sent, events, processed + [c])
  {
    hide Refusals, RequestCount, ShutdownCount, CancelledIn;
    LogCounts(processed, c);
    CancelledSnoc(processed, c);
  }

  /** A notification on the wire. */
  lemma NotificationHeard(
      pending: PendingTable, sent: seq<Command>, events: seq<Event>, processed: seq<Command>, c: Command)
    requires Heard(pending, sent, events, processed) && IsSync(c)
    ensures Heard(pending, sent + [c], events, processed + [c])
  {
    hide Refusals, RequestCount, ShutdownCount, CancelledIn;
    LogCounts(processed, c);
    LogCounts(sent, c);
    CancelledSnoc(processed, c);
  }

  lemma RefusedHeard(
      pending: PendingTable, sent: seq<Command>, events: seq<Event>, processed: seq<Command>, c: Command, e: Event)
    requires Heard(pending, sent, events, processed) && c.Request? && c.operation.IsFeature()
    requires e == RequestFailed(c.id, c.operation, PendingLimit)
    ensures Heard(pending, sent, events + [e], processed + [c])
  {
    hide Refusals, RequestCount, ShutdownCount, CancelledIn;
    LogCounts(processed, c);
    RefusalSnoc(events, e);
    CancelledSnoc(processed, c);
  }

  lemma RequestHeard(
      pending: PendingTable, sent: seq<Command>, events: seq<Event>, processed: seq<Command>, c: Command, p: Pending)
    requires Heard(pending, sent, events, processed)
    requires c.Request? && c.operation.IsFeature() && p == Pending(c.operation, Some(c.scope), false, true)
    requires RequestCount(processed, c.id) == 0
    ensures Heard(pending[c.id := p], sent + [c], events, processed + [c])
  {
    hide Refusals, RequestCount, ShutdownCount, CancelledIn;
    LogCounts(processed, c);
    LogCounts(sent, c);
    CancelledSnoc(processed, c);
    if CancelledIn(processed, c.id) {
      CancelledWasRequested(processed, c.id);
    }
    assert CancelRequest(c.id) !in sent;
  }

  lemma CancellationHeard(
      pending: PendingTable, sent: seq<Command>, events: seq<Event>, processed: seq<Command>, c: Command)
    requires Heard(pending, sent, events, processed) && c.CancelRequest?
    requires c.id in pending && pending[c.id].operation.IsFeature() && !pending[c.id].cancelRequested
    requires RequestCount(processed, c.id) > 0
    ensures Heard(pending[c.id := pending[c.id].(cancelRequested := true)], sent + [c], events, processed + [c])
  {
    hide Refusals, RequestCount, ShutdownCount, CancelledIn;
    LogCounts(processed, c);
    LogCounts(sent, c);
    CancelledSnoc(processed, c);
  }

  lemma ShutdownHeard(
      pending: PendingTable, sent: seq<Command>, events: seq<Event>, processed: seq<Command>, c: Command, now: bool)
    requires Heard(pending, sent, events, processed) && c.ShutdownRequest? && c !in processed
    ensures Heard(pending[c.id := Pending(Shutdown, None, false, now)], if now then sent + [c] else sent, events,
                  processed + [c])
  {
    hide Refusals, RequestCount, ShutdownCount, CancelledIn;
    LogCounts(processed, c);
    LogCounts(sent, c);
    CancelledSnoc(processed, c);
  }

  /** The write of the last command's frame, or its failure. */
  lemma WrittenOrStopped(s: Loop, c: Command, ok: bool, processed: seq<Command>)
    requires processed != [] && processed[|processed| - 1] == c
    requires Heard(s.pending, CommandsOn(s.wire) + [c], s.events, processed)
    ensures Delivered(Send(s, CommandFrame(c), ok), processed)
  {
    hide Heard, CommandsOn;
    SentSnoc(s.wire, CommandFrame(c));
    if !ok {
      QuietEvent(s.pending, CommandsOn(s.wire) + [c], s.events, processed, TransportError);
    }
  }

  /** Events other than a refusal say nothing here. */
  lemma QuietEvent(pending: PendingTable, sent: seq<Command>, events: seq<Event>, processed: seq<Command>, e: Event)
    requires Heard(pending, sent, events, processed)
    requires e.RequestFailed? && e.operation.IsFeature() ==> !e.reason.PendingLimit?
    ensures Heard(pending, sent, events + [e], processed)
  {
    hide Refusals, RequestCount, ShutdownCount, CancelledIn;
    RefusalSnoc(events, e);
  }

  lemma CommandDelivered(s: Loop, documents: Table, processed: seq<Command>, c: Command, ok: bool)
    requires s.running && Heard(s.pending, CommandsOn(s.wire), s.events, processed)
    requires AllIssued(s, processed) && Fits(documents, c)
    requires c.Request? || c.ShutdownRequest? ==> 2 <= c.id && IdsBelow(processed, c.id)
    requires c.Request? ==> c.operation.IsFeature()
    ensures Delivered(HandleCommand(s, documents, c, ok), processed + [c])
  {
    hide Heard, CommandsOn, Refusals, RequestCount, AllIssued, IdsBelow, Delivered, Send;
    var sent, log := CommandsOn(s.wire), processed + [c];
    match c
    case Request(id, operation, scope) => RequestDelivered(s, documents, processed, c, ok);
    case CancelRequest(id) => CancelDelivered(s, documents, processed, c, ok);
    case ShutdownRequest(id) => ShutdownDelivered(s, documents, processed, c, ok);
    case _ =>
      NotificationHeard(s.pending, sent, s.events, processed, c);
      WrittenOrStopped(s, c, ok, log);
  }

  lemma RequestDelivered(s: Loop, documents: Table, processed: seq<Command>, c: Command, ok: bool)
    requires s.running && Heard(s.pending, CommandsOn(s.wire), s.events, processed) && Fits(documents, c)
    requires c.Request? && IdsBelow(processed, c.id) && c.operation.IsFeature()
    ensures Delivered(HandleCommand(s, documents, c, ok), processed + [c])
  {
    hide Heard, CommandsOn, Refusals, RequestCount, IdsBelow, Send;
    var sent, log := CommandsOn(s.wire), processed + [c];
    CountBelow(processed, c.id, c.id);
    if |s.pending| >= MAX_PENDING_REQUESTS - 1 {
      RefusedHeard(s.pending, sent, s.events, processed, c, RequestFailed(c.id, c.operation, PendingLimit));
    } else {
      hide Delivered;
      var p := Pending(c.operation, Some(c.scope), false, true);
      RequestHeard(s.pending, sent, s.events, processed, c, p);
      WrittenOrStopped(s.(pending := s.pending[c.id := p]), c, ok, log);
    }
  }

  lemma CancelDelivered(s: Loop, documents: Table, processed: seq<Command>, c: Command, ok: bool)
    requires s.running && Heard(s.pending, CommandsOn(s.wire), s.events, processed)
    requires AllIssued(s, processed) && c.CancelRequest?
    ensures Delivered(HandleCommand(s, documents, c, ok), processed + [c])
  {
    hide CommandsOn, Refusals, RequestCount, Send, CancelledIn;
    var sent, log, id := CommandsOn(s.wire), processed + [c], c.id;
    if id !in s.pending || s.pending[id].cancelRequested || !s.pending[id].operation.IsFeature() {
      UnheardKeeps(s.pending, sent, s.events, processed, c);
    } else {
      hide Delivered;
      assert Issued(processed, id, s.pending[id]);
      Counted(processed, Request(id, s.pending[id].operation, s.pending[id].scope.value));
      CancellationHeard(s.pending, sent, s.events, processed, c);
      WrittenOrStopped(s.(pending := s.pending[id := s.pending[id].(cancelRequested := true)]), c, ok, log);
    }
  }

  lemma ShutdownDelivered(s: Loop, documents: Table, processed: seq<Command>, c: Command, ok: bool)
    requires s.running && Heard(s.pending, CommandsOn(s.wire), s.events, processed)
    requires c.ShutdownRequest? && IdsBelow(processed, c.id)
    ensures Delivered(HandleCommand(s, documents, c, ok), processed + [c])
  {
    hide Heard, CommandsOn, Refusals, RequestCount, Send, InitializePending;
    var sent, log, id := CommandsOn(s.wire), processed + [c], c.id;
    assert c !in processed;
    if |s.pending| >= MAX_PENDING_REQUESTS {
      UnheardKeeps(s.pending, sent, s.events, processed, c);
      QuietEvent(s.pending, sent, s.events, log, RequestFailed(id, Shutdown, PendingLimit));
    } else if InitializePending(s.pending) {
      ShutdownHeard(s.pending, sent, s.events, processed, c, false);
    } else {
      hide Delivered;
      ShutdownHeard(s.pending, sent, s.events, processed, c, true);
      WrittenOrStopped(s.(pending := s.pending[id := Pending(Shutdown, None, false, true)]), c, ok, log);
    }
  }

  // ---------------------------------------------------------------------------
  // Messages
  // ---------------------------------------------------------------------------

  /** From `s` to `t` no command was written, none refused, and no entry changed or came in. */
  ghost predicate Silent(s: Loop, t: Loop) {
    && CommandsOn(t.wire) == CommandsOn(s.wire)
    && (forall id: RequestId :: Refusals(t.events, id) == Refusals(s.events, id))
    && (forall id <- t.pending :: id in s.pending && t.pending[id] == s.pending[id])
  }

  lemma SilentKeeps(s: Loop, t: Loop, processed: seq<Command>)
    requires Heard(s.pending, CommandsOn(s.wire), s.events, processed) && Silent(s, t)
    ensures Heard(t.pending, CommandsOn(t.wire), t.events, processed)
  {
    hide CommandsOn, Refusals, RequestCount, CancelledIn;
  }

  lemma SilentEmit(s: Loop, e: Event)
    requires e.RequestFailed? ==> !e.reason.PendingLimit?
    ensures Silent(s, Emit(s, e))
  {
    hide CommandsOn, Refusals;
    RefusalSnoc(s.events, e);
  }

  lemma SilentSend(s: Loop, f: Frame, ok: bool)
    requires !f.CommandFrame?
    ensures Silent(s, Send(s, f, ok))
  {
    hide CommandsOn, Refusals;
    SentSnoc(s.wire, f);
    RefusalSnoc(s.events, TransportError);
  }

  lemma SilentThen(s: Loop, t: Loop, u: Loop)
    requires Silent(s, t) && Silent(t, u)
    ensures Silent(s, u)
  {
    hide CommandsOn, Refusals;
  }

  lemma SilentFailure(s: Loop, id: RequestId, operation: Operation, ok: bool)
    ensures Silent(s, CorrelatedFailure(s, id, operation, ok))
  {
    hide Silent, Send;
    var failed := Emit(s, RequestFailed(id, operation, InvalidResponse));
    SilentEmit(s, RequestFailed(id, operation, InvalidResponse));
    SilentSend(failed, ExitFrame, ok);
    SilentThen(s, failed, Send(failed, ExitFrame, ok));
    SilentStop(s, failed);
    SilentStop(s, Send(failed, ExitFrame, ok));
  }

  lemma SilentStop(s: Loop, t: Loop)
    requires Silent(s, t)
    ensures Silent(s, Stop(t))
  {
  }

  lemma SilentResponse(
      s: Loop, open: Table, id: RequestId, p: Pending, hasResult: bool, error: ErrorField, w: Writes)
    requires !p.operation.Initialize?
    ensures Silent(s, HandleResponse(s, open, id, p, hasResult, error, w))
  {
    hide Silent, CorrelatedFailure, HandleResult;
    SilentFailure(s, id, p.operation, w.first);
    if !p.sent || hasResult == !error.NoError? || error.BadError? {
    } else if error.GoodError? {
      SilentServerError(s, id, p, w);
    } else {
      SilentResult(s, open, id, p, w);
    }
  }

  lemma SilentServerError(s: Loop, id: RequestId, p: Pending, w: Writes)
    ensures var failed := Emit(s, RequestFailed(id, p.operation, ServerError));
            && Silent(s, failed) && Silent(s, Stop(failed)) && Silent(s, Stop(Send(failed, ExitFrame, true)))
  {
    hide Silent, Send;
    var failed := Emit(s, RequestFailed(id, p.operation, ServerError));
    SilentEmit(s, RequestFailed(id, p.operation, ServerError));
    SilentSend(failed, ExitFrame, true);
    SilentThen(s, failed, Send(failed, ExitFrame, true));
    SilentStop(s, failed);
    SilentStop(s, Send(failed, ExitFrame, true));
  }

  lemma SilentResult(s: Loop, open: Table, id: RequestId, p: Pending, w: Writes)
    requires !p.operation.Initialize?
    ensures Silent(s, HandleResult(s, open, id, p, w))
  {
    hide Silent, CorrelatedFailure, Send, HandleInitialized;
    SilentFailure(s, id, p.operation, w.first);
    if p.operation.Shutdown? {
      var exited := Send(s, ExitFrame, w.first);
      SilentSend(s, ExitFrame, w.first);
      SilentEmit(exited, ShutdownComplete);
      SilentThen(s, exited, Emit(exited, ShutdownComplete));
      SilentStop(s, exited);
      SilentStop(s, Emit(exited, ShutdownComplete));
    } else if p.operation.WorkspaceSymbols? {
      SilentEmit(s, WorkspaceResult(id));
    } else if p.scope.Some? && p.scope.value.DocumentScope? {
      var uri, doc := p.scope.value.uri, p.scope.value.doc;
      SilentEmit(s, StaleResponse(id, p.operation, uri, doc.version, VersionOf(Lookup(open, uri))));
      SilentEmit(s, FeatureResult(id, p.operation, uri, doc.version));
    }
  }

  lemma SilentSettle(s: Loop, id: RequestId)
    ensures Silent(s, Settle(s, id))
  {
  }

  lemma SilentPublish(s: Loop)
    ensures Silent(s, PublishReady(s))
  {
    hide CommandsOn, Refusals;
    RefusalSnoc(s.events, Ready);
  }

  /** A deferred shutdown is marked in the table exactly when its frame goes out. */
  lemma InitializedDelivered(s: Loop, w: Writes, processed: seq<Command>)
    requires Heard(s.pending, CommandsOn(s.wire), s.events, processed)
    requires forall id <- Deferred(s.pending) :: ShutdownRequest(id) in processed
    ensures var t := HandleInitialized(s, w); Heard(t.pending, CommandsOn(t.wire), t.events, processed)
  {
    hide Silent, Send, Heard, CommandsOn, Deferred, PublishReady;
    var greeted := Send(s, InitializedFrame, w.first);
    SilentSend(s, InitializedFrame, w.first);
    SilentKeeps(s, greeted, processed);
    if w.first {
      if Deferred(s.pending) == {} {
        SilentPublish(greeted);
        SilentKeeps(greeted, PublishReady(greeted), processed);
      } else {
        var id := PickDeferred(s.pending);
        assert greeted.pending == s.pending by {
          SendKeepsTable(s, InitializedFrame, w.first);
        }
        DeferredEntry(s.pending, id);
        SendKeepsTable(greeted, CommandFrame(ShutdownRequest(id)), w.second);
        DeferredDelivered(greeted, id, w.second, processed);
        var marked := s.pending[id := s.pending[id].(sent := true)];
        var told := Send(greeted, CommandFrame(ShutdownRequest(id)), w.second).(pending := marked);
        SilentPublish(told);
        if w.second {
          SilentKeeps(told, PublishReady(told), processed);
        }
      }
    }
  }

  lemma DeferredEntry(p: PendingTable, id: RequestId)
    requires id in Deferred(p)
    ensures id in p && p[id].operation.Shutdown? && !p[id].sent
  {
  }

  lemma DeferredDelivered(s: Loop, id: RequestId, ok: bool, processed: seq<Command>)
    requires Heard(s.pending, CommandsOn(s.wire), s.events, processed)
    requires id in Deferred(s.pending) && ShutdownRequest(id) in processed
    ensures var t := Send(s, CommandFrame(ShutdownRequest(id)), ok);
            Heard(if ok then s.pending[id := s.pending[id].(sent := true)] else s.pending, CommandsOn(t.wire), t.events,
                  processed)
  {
    hide CommandsOn, Refusals, CancelledIn, RequestCount;
    var sent := CommandsOn(s.wire);
    SentSnoc(s.wire, CommandFrame(ShutdownRequest(id)));
    RefusalSnoc(s.events, TransportError);
    LogCounts(sent, ShutdownRequest(id));
  }

  lemma MessageDelivered(s: Loop, open: Table, documents: Table, processed: seq<Command>, m: Message, w: Writes)
    requires Heard(s.pending, CommandsOn(s.wire), s.events, processed) && AllIssued(s, processed)
    ensures var t := HandleMessage(s, open, documents, m, w); Heard(t.pending, CommandsOn(t.wire), t.events, processed)
  {
    hide Silent, Heard, CorrelatedFailure, HandleResponse, HandleDiagnostics, CommandsOn, AllIssued;
    match SettledBy(s.pending, m)
    case None =>
      SilentMessage(s, open, documents, m, w);
      SilentKeeps(s, HandleMessage(s, open, documents, m, w), processed);
    case Some(id) =>
      var settled, p := Settle(s, id), s.pending[id];
      SilentSettle(s, id);
      SilentKeeps(s, settled, processed);
      SilentFailure(settled, id, p.operation, w.first);
      SilentKeeps(settled, CorrelatedFailure(settled, id, p.operation, w.first), processed);
      ResponseDelivered(settled, open, processed, id, p, m.hasResult, m.error, w);
      DeferredIssued(s, id, processed);
  }

  lemma DeferredIssued(s: Loop, id: RequestId, processed: seq<Command>)
    requires AllIssued(s, processed)
    ensures forall i <- Deferred(s.pending - {id}) :: ShutdownRequest(i) in processed
  {
    forall i <- Deferred(s.pending - {id}) ensures ShutdownRequest(i) in processed {
      assert Issued(processed, i, s.pending[i]);
    }
  }

  lemma ResponseDelivered(
      s: Loop, open: Table, processed: seq<Command>, id: RequestId, p: Pending, hasResult: bool, error: ErrorField,
      w: Writes)
    requires Heard(s.pending, CommandsOn(s.wire), s.events, processed)
    ensures (forall i <- Deferred(s.pending) :: ShutdownRequest(i) in processed) ==>
              var t := HandleResponse(s, open, id, p, hasResult, error, w);
              Heard(t.pending, CommandsOn(t.wire), t.events, processed)
  {
    hide Silent, Heard, CorrelatedFailure, HandleInitialized, CommandsOn;
    if !p.operation.Initialize? {
      SilentResponse(s, open, id, p, hasResult, error, w);
      SilentKeeps(s, HandleResponse(s, open, id, p, hasResult, error, w), processed);
    } else {
      SilentFailure(s, id, p.operation, w.first);
      SilentKeeps(s, CorrelatedFailure(s, id, p.operation, w.first), processed);
      SilentServerError(s, id, p, w);
      SilentKeeps(s, Stop(Emit(s, RequestFailed(id, p.operation, ServerError))), processed);
      if forall i <- Deferred(s.pending) :: ShutdownRequest(i) in processed {
        InitializedDelivered(s, w, processed);
      }
    }
  }

  lemma SilentMessage(s: Loop, open: Table, documents: Table, m: Message, w: Writes)
    requires SettledBy(s.pending, m).None?
    ensures Silent(s, HandleMessage(s, open, documents, m, w))
  {
    hide Silent, CorrelatedFailure, HandleResponse, HandleDiagnostics, Send;
    SilentEmit(s, ProtocolError);
    SilentEmit(s, ServerNotification);
    var replied := Send(s, ErrorReplyFrame, w.first);
    SilentSend(s, ErrorReplyFrame, w.first);
    SilentEmit(replied, ServerRequestRejected);
    SilentThen(s, replied, Emit(replied, ServerRequestRejected));
    if m.Rpc? && m.rpcMethod.Some? && m.rpcMethod.value.PublishDiagnostics? {
      SilentDiagnostics(s, documents, m.rpcMethod.value.body);
    }
  }

  lemma SilentDiagnostics(s: Loop, documents: Table, body: DiagnosticsBody)
    ensures Silent(s, HandleDiagnostics(s, documents, body))
  {
    hide Silent;
    var t := HandleDiagnostics(s, documents, body);
    SilentEmit(s, t.events[|s.events|]);
  }

  // ---------------------------------------------------------------------------
  // Runs
  // ---------------------------------------------------------------------------

  lemma HandleDelivers(s: ClientState, w: Writes)
    requires PendingOk(s) && s.loop.running && s.queue != [] && Delivered(s.loop, s.processed)
    ensures Delivered(Dequeue(s, w).loop, Dequeue(s, w).processed)
  {
    hide HandleCommand, HandleMessage, Heard, CommandsOn, IdsOk, Balanced, CancelsOnce, Bounded, TablesAgree, IdsBelow;
    match s.queue[0]
    case ClientCommand(c) =>
      HeadIds(s);
      hide Delivered;
      CommandDelivered(s.loop, s.documents, s.processed, c, w.first);
    case ServerMessage(m) => MessageDelivered(s.loop, s.open, s.documents, s.processed, m, w);
    case _ => LooseDelivers(s, w);
  }

  lemma LooseDelivers(s: ClientState, w: Writes)
    requires s.queue != [] && !s.queue[0].ClientCommand? && !s.queue[0].ServerMessage?
    requires Heard(s.loop.pending, CommandsOn(s.loop.wire), s.loop.events, s.processed)
    ensures Delivered(Dequeue(s, w).loop, s.processed)
  {
    hide Heard, Silent, CommandsOn, HandleCommand, HandleMessage;
    var e := match s.queue[0]
             case StderrTruncated => StderrOutputTruncated
             case TransportFailed => TransportError
             case ServerGone => ServerClosed
             case _ => StderrOutput;
    SilentEmit(s.loop, e);
    SilentKeeps(s.loop, Emit(s.loop, e), s.processed);
  }

  lemma StepDelivers(s: ClientState, a: Action)
    requires PendingOk(s) && Enabled(s, a) && Delivered(s.loop, s.processed)
    ensures Delivered(Step(s, a).loop, Step(s, a).processed)
  {
    hide Dequeue, PendingOk, Heard, CommandsOn;
    if a.Handle? {
      HandleDelivers(s, a.writes);
    }
  }

  /**
    In every run: nothing is written that was not taken off the queue, each
    request taken off is written once or refused with an event, and of a
    request still waiting the cancellation is written exactly if one was taken
    off after it.  Only the frame of the last command may be missing, its own
    write having failed, and then the loop has stopped.
   */
  lemma {:induction false} RequestsReachTheWire(states: seq<ClientState>, actions: seq<Action>, k: nat)
    requires IsRun(states, actions) && k < |states|
    ensures Delivered(states[k].loop, states[k].processed)
  {
    hide Step, PendingOk;
    if k == 0 {
      NothingHeard(states[0]);
    } else {
      RequestsReachTheWire(states, actions, k - 1);
      PendingOkOnRuns(states, actions, k - 1);
      hide Delivered;
      StepDelivers(states[k - 1], actions[k - 1]);
    }
  }

  lemma NothingHeard(s: ClientState)
    requires s == INITIAL || s == FAILED_START
    ensures Delivered(s.loop, s.processed)
  {
    assert CommandsOn([InitializeFrame]) == CommandsOn([]) == [] by {
      SentSnoc([], InitializeFrame);
    }
    RefusalSnoc([], TransportError);
    assert [] + [TransportError] == [TransportError];
    assert forall id: RequestId :: Refusals(s.loop.events, id) == 0;
  }

  // ---------------------------------------------------------------------------
  // What is on the wire for an entry of the table
  // ---------------------------------------------------------------------------

  lemma {:induction false} OnlyRequest(log: seq<Command>, c: Command)
    requires c.Request? && RequestCount(log, c.id) <= 1 && c in log
    ensures forall d <- log :: d.Request? && d.id == c.id ==> d == c
    decreases |log|
  {
    var init, last := log[..|log| - 1], log[|log| - 1];
    assert log == init + [last];
    if last.Request? && last.id == c.id {
      forall d <- init ensures !(d.Request? && d.id == c.id) {
        if d.Request? && d.id == c.id {
          Counted(init, d);
        }
      }
    } else {
      OnlyRequest(init, c);
    }
  }

  lemma {:induction false} CopiesCounted(log: seq<Command>, c: Command)
    requires c.Request? && forall d <- log :: d.Request? && d.id == c.id ==> d == c
    ensures multiset(log)[c] == RequestCount(log, c.id)
    decreases |log|
  {
    if log != [] {
      var init, last := log[..|log| - 1], log[|log| - 1];
      assert log == init + [last];
      CopiesCounted(init, c);
    }
  }

  lemma {:induction false} RefusedIsAnswered(events: seq<Event>, id: RequestId)
    ensures Refusals(events, id) <= AnswerCount(events, id)
    decreases |events|
  {
    if events != [] {
      RefusedIsAnswered(events[..|events| - 1], id);
    }
  }

  /**
    While the loop runs, each waiting request is on the wire exactly once, as it
    was taken off; its cancellation once if one has been asked for and not
    otherwise; and a waiting shutdown once if it counts as sent and not
    otherwise.
   */
  lemma EntryIsWritten(states: seq<ClientState>, actions: seq<Action>, k: nat, id: RequestId)
    requires IsRun(states, actions) && k < |states| && states[k].loop.running && id in states[k].loop.pending
    ensures var s, sent := states[k], CommandsOn(states[k].loop.wire);
            var p := s.loop.pending[id];
            && (p.operation.IsFeature() ==>
                  && p.scope.Some? && multiset(sent)[Request(id, p.operation, p.scope.value)] == 1
                  && RequestCount(sent, id) == 1
                  && multiset(sent)[CancelRequest(id)] == (if CancelledIn(s.processed, id) then 1 else 0))
            && (p.operation.Shutdown? ==>
                  multiset(sent)[ShutdownRequest(id)] == if p.sent then 1 else 0)
  {
    hide Step, CommandsOn, Refusals, TablesAgree, IdsOk, CancelsOnce, Bounded, AnswerCount, CancelledIn;
    RequestsReachTheWire(states, actions, k);
    PendingOkOnRuns(states, actions, k);
    var s, sent := states[k], CommandsOn(states[k].loop.wire);
    var p := s.loop.pending[id];
    if p.operation.IsFeature() {
      assert Issued(s.processed, id, p);
      var c := Request(id, p.operation, p.scope.value);
      PendingBalances(s);
      RefusedIsAnswered(s.loop.events, id);
      Counted(s.processed, c);
      OnlyRequest(s.processed, c);
      CopiesCounted(sent, c);
    }
  }
}
