/**
  What reaches the server, and in which order.
 */
module LspWire {
  import opened Wrappers
  import opened LspProtocol
  import opened LspTables
  import opened LspLifecycle
  import opened LspPending

  /**
    Client commands only after `initialized`; `initialized` once; `exit` once
    and nothing behind it; `initialize` first if anything is written at all.
   */
  ghost predicate WireOrdered(wire: seq<Frame>) {
    && (wire != [] ==> wire[0] == InitializeFrame)
    && (forall i | 0 <= i < |wire| && wire[i].CommandFrame? :: InitializedFrame in wire[..i])
    && (forall i | 0 <= i < |wire| && wire[i].InitializedFrame? :: InitializedFrame !in wire[..i])
    && (forall i | 0 <= i < |wire| - 1 :: !wire[i].ExitFrame?)
  }

  /** The ordering together with where the loop stands. */
  ghost predicate WireOk(loop: Loop) {
    && WireOrdered(loop.wire)
    && (loop.running ==>
          && loop.wire != [] && ExitFrame !in loop.wire
          && (InitializePending(loop.pending) <==> InitializedFrame !in loop.wire)
          && (Deferred(loop.pending) != {} ==> InitializePending(loop.pending)))
  }

  /** READY has been published only on top of a written `initialized`. */
  ghost predicate Announced(s: ClientState) {
    && (s.loop.lifecycle.ReadyState? ==> InitializedFrame in s.loop.wire)
    && (s.shutdownCall.Some? && s.shutdownCall.value.previous.ReadyState? ==> InitializedFrame in s.loop.wire)
    && (forall c <- s.accepted :: c.ShutdownRequest? || InitializedFrame in s.loop.wire)
  }

  lemma OrderedSnoc(wire: seq<Frame>, f: Frame)
    requires WireOrdered(wire) && wire != [] && ExitFrame !in wire && !f.InitializeFrame?
    requires f.CommandFrame? ==> InitializedFrame in wire
    requires f.InitializedFrame? ==> InitializedFrame !in wire
    ensures WireOrdered(wire + [f])
  {
    assert forall i | 0 <= i < |wire| :: (wire + [f])[..i] == wire[..i];
    assert (wire + [f])[..|wire|] == wire;
  }

  /** A frame that is not a greeting: sent by a running loop, it keeps the order. */
  lemma SendKeepsWire(s: Loop, f: Frame, ok: bool)
    requires WireOk(s) && s.running
    requires f.ErrorReplyFrame? || (f.CommandFrame? && InitializedFrame in s.wire)
    ensures WireOk(Send(s, f, ok))
  {
    if ok {
      OrderedSnoc(s.wire, f);
    }
  }

  lemma ExitKeepsWire(s: Loop, ok: bool)
    requires WireOrdered(s.wire) && s.wire != [] && ExitFrame !in s.wire
    ensures WireOk(Stop(Send(s, ExitFrame, ok)))
  {
    OrderedSnoc(s.wire, ExitFrame);
  }

  lemma StoppedKeepsWire(s: Loop, t: Loop)
    requires WireOrdered(s.wire) && t.wire == s.wire && !t.running
    ensures WireOk(t)
  {
  }

  // ---------------------------------------------------------------------------
  // Messages
  // ---------------------------------------------------------------------------

  /** Taking off a request that is not `initialize` does not change who waits for initialization. */
  lemma SettleKeepsWire(s: Loop, id: RequestId)
    requires WireOk(s) && s.running && id in s.pending && !s.pending[id].operation.Initialize?
    ensures WireOk(Settle(s, id)) && Settle(s, id).running
  {
    var q := s.pending - {id};
    if InitializePending(s.pending) {
      var i :| i in s.pending && s.pending[i].operation.Initialize?;
      assert i in q;
    }
    assert Deferred(q) <= Deferred(s.pending);
  }

  lemma CorrelatedFailureKeepsWire(s: Loop, id: RequestId, operation: Operation, ok: bool)
    requires WireOrdered(s.wire) && s.wire != [] && ExitFrame !in s.wire
    requires !operation.Initialize? ==> WireOk(s)
    ensures WireOk(CorrelatedFailure(s, id, operation, ok))
  {
    var failed := Emit(s, RequestFailed(id, operation, InvalidResponse));
    if operation.Shutdown? {
      ExitKeepsWire(failed, ok);
    }
  }

  /** `initialized` goes out exactly when `initialize` has left the table, before any shutdown that waited. */
  lemma InitializedKeepsWire(s: Loop, w: Writes)
    requires WireOrdered(s.wire) && s.wire != [] && ExitFrame !in s.wire && s.running
    requires !InitializePending(s.pending) && InitializedFrame !in s.wire
    requires forall a <- Deferred(s.pending), b <- Deferred(s.pending) :: a == b
    ensures WireOk(HandleInitialized(s, w))
  {
    var greeted := Send(s, InitializedFrame, w.first);
    if w.first {
      OrderedSnoc(s.wire, InitializedFrame);
      if Deferred(s.pending) != {} {
        var id := PickDeferred(s.pending);
        OrderedSnoc(greeted.wire, CommandFrame(ShutdownRequest(id)));
        var marked := s.pending[id := s.pending[id].(sent := true)];
        assert forall a <- Deferred(marked) :: a in Deferred(s.pending) && a != id;
        assert !InitializePending(marked);
      }
    }
  }

  lemma ResponseKeepsWire(
      s: Loop, open: Table, id: RequestId, p: Pending, hasResult: bool, error: ErrorField, w: Writes)
    requires WireOrdered(s.wire) && s.wire != [] && ExitFrame !in s.wire && s.running
    requires !p.operation.Initialize? ==> WireOk(s)
    requires p.operation.Initialize? ==> !InitializePending(s.pending) && InitializedFrame !in s.wire
    requires forall a <- Deferred(s.pending), b <- Deferred(s.pending) :: a == b
    ensures WireOk(HandleResponse(s, open, id, p, hasResult, error, w))
  {
    hide CorrelatedFailure, HandleInitialized, WireOrdered, Deferred, InitializePending, HandleResult;
    if !p.sent || hasResult == !error.NoError? || error.BadError? {
      CorrelatedFailureKeepsWire(s, id, p.operation, w.first);
    } else if error.GoodError? {
      var failed := Emit(s, RequestFailed(id, p.operation, ServerError));
      if p.operation.Shutdown? {
        ExitKeepsWire(failed, true);
      }
    } else {
      ResultKeepsWire(s, open, id, p, w);
    }
  }

  lemma ResultKeepsWire(s: Loop, open: Table, id: RequestId, p: Pending, w: Writes)
    requires WireOrdered(s.wire) && s.wire != [] && ExitFrame !in s.wire && s.running
    requires !p.operation.Initialize? ==> WireOk(s)
    requires p.operation.Initialize? ==> !InitializePending(s.pending) && InitializedFrame !in s.wire
    requires forall a <- Deferred(s.pending), b <- Deferred(s.pending) :: a == b
    ensures WireOk(HandleResult(s, open, id, p, w))
  {
    hide CorrelatedFailure, HandleInitialized, WireOrdered, Deferred, InitializePending;
    match p.operation
    case Initialize => InitializedKeepsWire(s, w);
    case Shutdown =>
      ExitKeepsWire(s, w.first);
      var exited := Send(s, ExitFrame, w.first);
      StoppedKeepsWire(Stop(exited), Stop(Emit(exited, ShutdownComplete)));
    case _ => CorrelatedFailureKeepsWire(s, id, p.operation, w.first);
  }

  lemma SettleInitialize(s: Loop, processed: seq<Command>, id: RequestId)
    requires AllIssued(s, processed) && id in s.pending && s.pending[id].operation.Initialize?
    ensures !InitializePending(s.pending - {id})
  {
  }

  lemma OneDeferred(s: Loop, processed: seq<Command>)
    requires AllIssued(s, processed) && ShutdownCount(processed) <= 1
    ensures forall a <- Deferred(s.pending), b <- Deferred(s.pending) :: a == b
  {
    forall a <- Deferred(s.pending), b <- Deferred(s.pending) ensures a == b {
      TwoShutdowns(processed, a, b);
    }
  }

  lemma MessageKeepsWire(s: Loop, open: Table, documents: Table, processed: seq<Command>, m: Message, w: Writes)
    requires WireOk(s) && s.running && AllIssued(s, processed) && ShutdownCount(processed) <= 1
    ensures WireOk(HandleMessage(s, open, documents, m, w))
  {
    hide CorrelatedFailure, HandleResponse, HandleDiagnostics, WireOrdered, AllIssued, ShutdownCount;
    match SettledBy(s.pending, m)
    case Some(id) => SettlingKeepsWire(s, open, documents, processed, m, w, id);
    case None =>
      SendKeepsWire(s, ErrorReplyFrame, w.first);
      if m.Rpc? && m.rpcMethod.Some? && m.rpcMethod.value.PublishDiagnostics? {
        DiagnosticsOnlyEmit(s, documents, m.rpcMethod.value.body);
      }
  }

  lemma DiagnosticsOnlyEmit(s: Loop, documents: Table, body: DiagnosticsBody)
    ensures HandleDiagnostics(s, documents, body) == s.(events := HandleDiagnostics(s, documents, body).events)
  {
  }

  lemma SettlingKeepsWire(
      s: Loop, open: Table, documents: Table, processed: seq<Command>, m: Message, w: Writes, id: RequestId)
    requires WireOk(s) && s.running && AllIssued(s, processed) && ShutdownCount(processed) <= 1
    requires SettledBy(s.pending, m) == Some(id)
    ensures WireOk(HandleMessage(s, open, documents, m, w))
  {
    hide CorrelatedFailure, HandleResponse, HandleDiagnostics, WireOrdered, AllIssued, ShutdownCount;
    var p, settled := s.pending[id], Settle(s, id);
    OneDeferred(s, processed);
    assert Deferred(settled.pending) <= Deferred(s.pending);
    if p.operation.Initialize? {
      SettleInitialize(s, processed, id);
      assert InitializePending(s.pending);
    } else {
      SettleKeepsWire(s, id);
    }
    CorrelatedFailureKeepsWire(settled, id, p.operation, w.first);
    ResponseKeepsWire(settled, open, id, p, m.hasResult, m.error, w);
  }

  // ---------------------------------------------------------------------------
  // Commands and calls
  // ---------------------------------------------------------------------------

  lemma CommandKeepsWire(s: Loop, documents: Table, c: Command, ok: bool)
    requires WireOk(s) && s.running && (c.ShutdownRequest? || InitializedFrame in s.wire)
    requires c.Request? || c.ShutdownRequest? ==> c.id !in s.pending
    requires c.Request? ==> c.operation.IsFeature()
    ensures WireOk(HandleCommand(s, documents, c, ok))
  {
    hide WireOrdered;
    match c
    case Request(id, operation, scope) =>
      RequestEntersWire(s, id, Pending(operation, Some(scope), false, true));
      SendKeepsWire(s.(pending := s.pending[id := Pending(operation, Some(scope), false, true)]), CommandFrame(c), ok);
    case ShutdownRequest(id) => ShutdownKeepsWire(s, id, ok);
    case CancelRequest(id) =>
      if id in s.pending {
        MarkedKeepsWire(s, id);
        SendKeepsWire(s.(pending := s.pending[id := s.pending[id].(cancelRequested := true)]), CommandFrame(c), ok);
      }
    case _ => SendKeepsWire(s, CommandFrame(c), ok);
  }

  lemma RequestEntersWire(s: Loop, id: RequestId, p: Pending)
    requires WireOk(s) && id !in s.pending && !p.operation.Initialize? && p.sent
    ensures WireOk(s.(pending := s.pending[id := p]))
  {
    var q := s.pending[id := p];
    assert Deferred(q) == Deferred(s.pending);
    PendingInitializeSame(s.pending, q);
  }

  lemma PendingInitializeSame(p: PendingTable, q: PendingTable)
    requires forall i <- p :: i in q && q[i].operation == p[i].operation
    requires forall i <- q :: i !in p ==> !q[i].operation.Initialize?
    ensures InitializePending(p) <==> InitializePending(q)
  {
    if InitializePending(p) {
      var i :| i in p && p[i].operation.Initialize?;
      assert i in q;
    }
  }

  lemma MarkedKeepsWire(s: Loop, id: RequestId)
    requires WireOk(s) && id in s.pending
    ensures WireOk(s.(pending := s.pending[id := s.pending[id].(cancelRequested := true)]))
  {
    var q := s.pending[id := s.pending[id].(cancelRequested := true)];
    assert Deferred(q) == Deferred(s.pending);
    PendingInitializeSame(s.pending, q);
  }

  /** Shutdown is written only once initialization is over; otherwise it waits in the table. */
  lemma ShutdownKeepsWire(s: Loop, id: RequestId, ok: bool)
    requires WireOk(s) && s.running && id !in s.pending
    ensures WireOk(HandleShutdown(s, id, ok))
  {
    hide WireOrdered;
    if |s.pending| >= MAX_PENDING_REQUESTS {
    } else if InitializePending(s.pending) {
      var q := s.pending[id := Pending(Shutdown, None, false, false)];
      PendingInitializeSame(s.pending, q);
    } else {
      RequestEntersWire(s, id, Pending(Shutdown, None, false, true));
      SendKeepsWire(s.(pending := s.pending[id := Pending(Shutdown, None, false, true)]),
                    CommandFrame(ShutdownRequest(id)), ok);
    }
  }

  // ---------------------------------------------------------------------------
  // READY stands on a written `initialized`
  // ---------------------------------------------------------------------------

  /** Output is only ever added, and READY is published only together with `initialized`. */
  ghost predicate Grows(s: Loop, t: Loop) {
    && s.wire <= t.wire
    && (t.lifecycle.ReadyState? ==> s.lifecycle.ReadyState? || InitializedFrame in t.wire)
  }

  lemma CommandGrows(s: Loop, documents: Table, c: Command, ok: bool)
    ensures Grows(s, HandleCommand(s, documents, c, ok))
  {
  }

  lemma CorrelatedFailureGrows(s: Loop, id: RequestId, operation: Operation, ok: bool)
    ensures Grows(s, CorrelatedFailure(s, id, operation, ok))
  {
  }

  lemma InitializedGrows(s: Loop, w: Writes)
    ensures Grows(s, HandleInitialized(s, w))
  {
    var greeted := Send(s, InitializedFrame, w.first);
    if w.first {
      assert greeted.wire[|s.wire|] == InitializedFrame;
    }
  }

  lemma ResponseGrows(
      s: Loop, open: Table, id: RequestId, p: Pending, hasResult: bool, error: ErrorField, w: Writes)
    ensures Grows(s, HandleResponse(s, open, id, p, hasResult, error, w))
  {
    hide CorrelatedFailure, HandleInitialized;
    CorrelatedFailureGrows(s, id, p.operation, w.first);
    InitializedGrows(s, w);
  }

  lemma MessageGrows(s: Loop, open: Table, documents: Table, m: Message, w: Writes)
    ensures Grows(s, HandleMessage(s, open, documents, m, w))
  {
    hide CorrelatedFailure, HandleResponse;
    if m.Rpc? && m.id.NumericId? && m.id.id in s.pending {
      var id := m.id.id;
      CorrelatedFailureGrows(Settle(s, id), id, s.pending[id].operation, w.first);
      ResponseGrows(Settle(s, id), open, id, s.pending[id], m.hasResult, m.error, w);
    }
  }

  lemma DequeueGrows(s: ClientState, w: Writes)
    requires s.queue != []
    ensures Grows(s.loop, Dequeue(s, w).loop)
  {
    hide HandleCommand, HandleMessage;
    match s.queue[0]
    case ClientCommand(c) => CommandGrows(s.loop, s.documents, c, w.first);
    case ServerMessage(m) => MessageGrows(s.loop, s.open, s.documents, m, w);
    case _ =>
  }

  lemma HandleKeepsAnnounced(s: ClientState, w: Writes)
    requires Announced(s) && s.queue != []
    ensures Announced(Dequeue(s, w))
  {
    hide HandleCommand, HandleMessage;
    DequeueGrows(s, w);
    var t := Dequeue(s, w);
    assert InitializedFrame in s.loop.wire ==> InitializedFrame in t.loop.wire;
  }

  lemma CallKeepsAnnounced(s: ClientState, a: Action)
    requires Announced(s) && Enabled(s, a) && !a.Handle?
    ensures Announced(Step(s, a))
  {
    var t := Step(s, a);
    if |t.accepted| > |s.accepted| {
      assert t.accepted == s.accepted + [t.accepted[|s.accepted|]];
    }
  }

  // ---------------------------------------------------------------------------
  // Runs
  // ---------------------------------------------------------------------------

  ghost predicate SessionOk(s: ClientState) {
    PendingOk(s) && WireOk(s.loop) && Announced(s)
  }

  lemma HandleKeepsWire(s: ClientState, w: Writes)
    requires SessionOk(s) && s.loop.running && s.queue != []
    ensures WireOk(Dequeue(s, w).loop)
  {
    hide HandleCommand, HandleMessage, WireOrdered, IdsOk, TablesAgree, Balanced, CancelsOnce, Bounded;
    match s.queue[0]
    case ClientCommand(c) =>
      HeadIds(s);
      if c.Request? || c.ShutdownRequest? {
        NotYetIssued(s.loop, s.processed, c.id);
      }
      CommandKeepsWire(s.loop, s.documents, c, w.first);
    case ServerMessage(m) =>
      ProcessedShutdowns(s);
      MessageKeepsWire(s.loop, s.open, s.documents, s.processed, m, w);
    case _ => LooseKeepsWire(s, w);
  }

  lemma ProcessedShutdowns(s: ClientState)
    requires TablesAgree(s) && IdsOk(s)
    ensures ShutdownCount(s.processed) <= 1
  {
    CountsAppend(s.processed, s.accepted[|s.processed|..], 0);
    assert s.accepted == s.processed + s.accepted[|s.processed|..];
  }

  lemma LooseKeepsWire(s: ClientState, w: Writes)
    requires WireOk(s.loop) && s.queue != [] && !s.queue[0].ClientCommand? && !s.queue[0].ServerMessage?
    ensures WireOk(Dequeue(s, w).loop)
  {
    hide WireOrdered, InitializePending, Deferred;
  }

  lemma CallKeepsWire(s: ClientState, a: Action)
    requires WireOk(s.loop) && Enabled(s, a) && !a.Handle?
    ensures WireOk(Step(s, a).loop)
  {
    hide WireOk;
    var t := Step(s, a);
    assert t.loop == s.loop.(lifecycle := t.loop.lifecycle);
    WireIgnoresLifecycle(s.loop, t.loop.lifecycle);
  }

  lemma WireIgnoresLifecycle(s: Loop, lifecycle: Lifecycle)
    requires WireOk(s)
    ensures WireOk(s.(lifecycle := lifecycle))
  {
  }

  lemma StepKeepsSession(s: ClientState, a: Action)
    requires SessionOk(s) && Enabled(s, a)
    ensures SessionOk(Step(s, a))
  {
    hide PendingOk, WireOk, Announced, Dequeue;
    StepKeepsPending(s, a);
    if a.Handle? {
      HandleKeepsWire(s, a.writes);
      HandleKeepsAnnounced(s, a.writes);
    } else {
      CallKeepsWire(s, a);
      CallKeepsAnnounced(s, a);
    }
  }

  lemma {:induction false} SessionOkOnRuns(states: seq<ClientState>, actions: seq<Action>, k: nat)
    requires IsRun(states, actions) && k < |states|
    ensures SessionOk(states[k])
  {
    hide Step, PendingOk;
    if k == 0 {
      PendingAtStart(states[0]);
      assert 1 in INITIAL.loop.pending;
    } else {
      SessionOkOnRuns(states, actions, k - 1);
      hide SessionOk;
      StepKeepsSession(states[k - 1], actions[k - 1]);
    }
  }

  /**
    On the wire of any run: `initialize` first, nothing the client was asked to
    send before `initialized`, a shutdown accepted during initialization
    included, and after `exit` nothing.
   */
  lemma WireOrderedOnRuns(states: seq<ClientState>, actions: seq<Action>, k: nat)
    requires IsRun(states, actions) && k < |states|
    ensures WireOrdered(states[k].loop.wire)
    ensures states[k].loop.running ==> ExitFrame !in states[k].loop.wire
  {
    SessionOkOnRuns(states, actions, k);
  }

  /** Whenever READY is visible, `initialized` has been written. */
  lemma ReadyMeansInitialized(states: seq<ClientState>, actions: seq<Action>, k: nat)
    requires IsRun(states, actions) && k < |states| && states[k].loop.lifecycle.ReadyState?
    ensures InitializedFrame in states[k].loop.wire
  {
    SessionOkOnRuns(states, actions, k);
  }

  /**
    STOPPED is absorbing; STARTING, once left, never returns,
    so it becomes READY at most once and never after a shutdown.
   */
  lemma {:induction false} LifecycleOnRuns(states: seq<ClientState>, actions: seq<Action>, i: nat, j: nat)
    requires IsRun(states, actions) && i <= j < |states|
    ensures states[i].loop.lifecycle.Stopped? ==> states[j].loop.lifecycle.Stopped?
    ensures !states[i].loop.lifecycle.Starting? ==> !states[j].loop.lifecycle.Starting?
    decreases j - i
  {
    hide Step;
    if i < j {
      LifecycleOnRuns(states, actions, i, j - 1);
      StepMoves(states[j - 1], actions[j - 1]);
    }
  }

  // ---------------------------------------------------------------------------
  // Document notifications
  // ---------------------------------------------------------------------------

  predicate IsSync(c: Command) {
    c.DidOpen? || c.DidChange? || c.DidSave? || c.DidClose?
  }

  function SyncOf(log: seq<Command>): seq<Command> {
    if log == [] then []
    else SyncOf(log[..|log| - 1]) + (if IsSync(log[|log| - 1]) then [log[|log| - 1]] else [])
  }

  function SyncWritten(wire: seq<Frame>): seq<Command> {
    if wire == [] then []
    else
      var f := wire[|wire| - 1];
      SyncWritten(wire[..|wire| - 1]) + (if f.CommandFrame? && IsSync(f.command) then [f.command] else [])
  }

  lemma SyncSnoc(log: seq<Command>, c: Command)
    ensures SyncOf(log + [c]) == SyncOf(log) + (if IsSync(c) then [c] else [])
  {
    assert (log + [c])[..|log|] == log;
  }

  lemma WrittenSnoc(wire: seq<Frame>, f: Frame)
    ensures SyncWritten(wire + [f]) == SyncWritten(wire)
         + (if f.CommandFrame? && IsSync(f.command) then [f.command] else [])
  {
    assert (wire + [f])[..|wire|] == wire;
  }

  /** What has been written of the document notifications, against what has been taken off the queue. */
  ghost predicate Synchronized(loop: Loop, processed: seq<Command>) {
    || SyncWritten(loop.wire) == SyncOf(processed)
    || (!loop.running && SyncOf(processed) != []
        && SyncWritten(loop.wire) == SyncOf(processed)[..|SyncOf(processed)| - 1])
  }

  lemma CommandWritten(s: Loop, documents: Table, c: Command, ok: bool)
    requires Fits(documents, c)
    ensures var t := HandleCommand(s, documents, c, ok);
            if IsSync(c) then
              if ok then t.wire == s.wire + [CommandFrame(c)] else t.wire == s.wire && !t.running
            else SyncWritten(t.wire) == SyncWritten(s.wire)
  {
    WrittenSnoc(s.wire, CommandFrame(c));
  }

  lemma MessageWritesNoSync(s: Loop, open: Table, documents: Table, m: Message, w: Writes)
    ensures SyncWritten(HandleMessage(s, open, documents, m, w).wire) == SyncWritten(s.wire)
  {
    hide HandleResponse, HandleDiagnostics, CorrelatedFailure, SyncWritten;
    WrittenSnoc(s.wire, ErrorReplyFrame);
    if m.Rpc? && m.rpcMethod.Some? && m.rpcMethod.value.PublishDiagnostics? {
      DiagnosticsOnlyEmit(s, documents, m.rpcMethod.value.body);
    }
    if m.Rpc? && m.id.NumericId? && m.id.id in s.pending {
      FailureWritesNoSync(Settle(s, m.id.id), m.id.id, s.pending[m.id.id].operation, w.first);
      ResponseWritesNoSync(Settle(s, m.id.id), open, m.id.id, s.pending[m.id.id], m.hasResult, m.error, w);
    }
  }

  lemma FailureWritesNoSync(s: Loop, id: RequestId, operation: Operation, ok: bool)
    ensures SyncWritten(CorrelatedFailure(s, id, operation, ok).wire) == SyncWritten(s.wire)
  {
    WrittenSnoc(s.wire, ExitFrame);
  }

  lemma ResponseWritesNoSync(
      s: Loop, open: Table, id: RequestId, p: Pending, hasResult: bool, error: ErrorField, w: Writes)
    ensures SyncWritten(HandleResponse(s, open, id, p, hasResult, error, w).wire) == SyncWritten(s.wire)
  {
    hide HandleInitialized, SyncWritten;
    WrittenSnoc(s.wire, ExitFrame);
    InitializedWritesNoSync(s, w);
  }

  lemma InitializedWritesNoSync(s: Loop, w: Writes)
    ensures SyncWritten(HandleInitialized(s, w).wire) == SyncWritten(s.wire)
  {
    hide SyncWritten;
    WrittenSnoc(s.wire, InitializedFrame);
    if Deferred(s.pending) != {} {
      WrittenSnoc(s.wire + [InitializedFrame], CommandFrame(ShutdownRequest(PickDeferred(s.pending))));
    }
  }

  lemma HandleKeepsSynchronized(s: ClientState, w: Writes)
    requires TablesAgree(s) && s.loop.running && s.queue != [] && Synchronized(s.loop, s.processed)
    ensures Synchronized(Dequeue(s, w).loop, Dequeue(s, w).processed)
  {
    hide HandleCommand, HandleMessage, SyncOf, SyncWritten;
    match s.queue[0]
    case ClientCommand(c) =>
      HeadFits(s);
      CommandWritten(s.loop, s.documents, c, w.first);
      SyncSnoc(s.processed, c);
      WrittenSnoc(s.loop.wire, CommandFrame(c));
    case ServerMessage(m) => MessageWritesNoSync(s.loop, s.open, s.documents, m, w);
    case _ =>
  }

  /**
    Every open, change, save and close the API accepted and the thread has
    taken off the queue is on the wire, once and in the order of acceptance;
    only the one whose own write failed, which ends the loop, may be missing.
   */
  lemma {:induction false} NotificationsReachTheWire(states: seq<ClientState>, actions: seq<Action>, k: nat)
    requires IsRun(states, actions) && k < |states|
    ensures Synchronized(states[k].loop, states[k].processed)
  {
    hide Step;
    if k > 0 {
      NotificationsReachTheWire(states, actions, k - 1);
      TablesAgreeOnRuns(states, actions, k - 1);
      StepKeepsSynchronized(states[k - 1], actions[k - 1]);
    }
  }

  lemma StepKeepsSynchronized(s: ClientState, a: Action)
    requires TablesAgree(s) && Enabled(s, a) && Synchronized(s.loop, s.processed)
    ensures Synchronized(Step(s, a).loop, Step(s, a).processed)
  {
    hide Dequeue, TablesAgree, SyncOf, SyncWritten;
    if a.Handle? {
      HandleKeepsSynchronized(s, a.writes);
    }
  }
}
