/**
  What comes of each answer of the server: readiness, the end of the session,
  and the one event a request is waiting for.
 */
module LspAnswers {
  import opened Wrappers
  import opened LspProtocol
  import opened LspTables
  import opened LspLifecycle
  import opened LspPending
  import opened LspWire

  // ---------------------------------------------------------------------------
  // Readiness
  // ---------------------------------------------------------------------------

  /** STARTING lasts exactly until `initialized` is written; READY is announced, and to stay. */
  ghost predicate Readied(s: ClientState) {
    && (s.loop.lifecycle.Starting? ==> InitializedFrame !in s.loop.wire && Ready !in s.loop.events)
    && (s.loop.lifecycle.ReadyState? ==> Ready in s.loop.events)
    && (s.shutdownCall.Some? && s.shutdownCall.value.previous.ReadyState? ==> Ready in s.loop.events)
    && (Ready in s.loop.events ==> InitializedFrame in s.loop.wire)
  }

  /** From `s` to `t` readiness moved on as it should, if at all. */
  ghost predicate Readies(s: Loop, t: Loop) {
    && s.wire <= t.wire && s.events <= t.events
    && (if s.lifecycle.Starting? && InitializedFrame in t.wire then
          t.lifecycle.ReadyState? && Ready in t.events
        else
          t.lifecycle == s.lifecycle && (Ready in t.events ==> Ready in s.events))
  }

  lemma CommandReadies(s: Loop, documents: Table, c: Command, ok: bool)
    requires s.lifecycle.Starting? ==> InitializedFrame !in s.wire
    ensures Readies(s, HandleCommand(s, documents, c, ok))
  {
  }

  lemma FailureReadies(s: Loop, id: RequestId, operation: Operation, ok: bool)
    requires s.lifecycle.Starting? ==> InitializedFrame !in s.wire
    ensures Readies(s, CorrelatedFailure(s, id, operation, ok))
  {
  }

  /** What `initialized` is followed by leaves the table without a deferred shutdown while still STARTING. */
  lemma InitializedReadies(s: Loop, w: Writes)
    requires s.lifecycle.Starting? ==> InitializedFrame !in s.wire && Deferred(s.pending) == {}
    ensures Readies(s, HandleInitialized(s, w))
  {
    var greeted := Send(s, InitializedFrame, w.first);
    if w.first {
      assert greeted.wire[|s.wire|] == InitializedFrame;
      if s.lifecycle.Starting? {
        var ready := PublishReady(greeted);
        assert ready.events[|s.events|] == Ready;
      }
    }
  }

  lemma ResponseReadies(
      s: Loop, open: Table, id: RequestId, p: Pending, hasResult: bool, error: ErrorField, w: Writes)
    requires s.lifecycle.Starting? ==> InitializedFrame !in s.wire && Deferred(s.pending) == {}
    ensures Readies(s, HandleResponse(s, open, id, p, hasResult, error, w))
  {
    hide CorrelatedFailure, HandleInitialized, Deferred;
    FailureReadies(s, id, p.operation, w.first);
    InitializedReadies(s, w);
  }

  lemma MessageReadies(s: Loop, open: Table, documents: Table, m: Message, w: Writes)
    requires s.lifecycle.Starting? ==> InitializedFrame !in s.wire && Deferred(s.pending) == {}
    ensures Readies(s, HandleMessage(s, open, documents, m, w))
  {
    hide CorrelatedFailure, HandleResponse, Deferred;
    if m.Rpc? && m.id.NumericId? && m.id.id in s.pending {
      var id := m.id.id;
      FewerDeferred(s.pending, id);
      FailureReadies(Settle(s, id), id, s.pending[id].operation, w.first);
      ResponseReadies(Settle(s, id), open, id, s.pending[id], m.hasResult, m.error, w);
    }
  }

  lemma FewerDeferred(p: PendingTable, id: RequestId)
    ensures Deferred(p - {id}) <= Deferred(p)
  {
  }

  /** A shutdown can only wait once the state has left STARTING. */
  lemma NoneWaits(s: ClientState)
    requires PendingOk(s) && s.loop.lifecycle.Starting?
    ensures Deferred(s.loop.pending) == {}
  {
    hide TablesAgree, Balanced, CancelsOnce, Bounded, IdsRise;
    if id :| id in Deferred(s.loop.pending) {
      assert Issued(s.processed, id, s.loop.pending[id]);
      assert s.processed <= s.accepted by {
        TablesMeanPrefix(s);
      }
      assert ShutdownRequest(id) in s.accepted;
      NoShutdown(s.accepted, id);
    }
  }

  lemma DequeueReadies(s: ClientState, w: Writes)
    requires PendingOk(s) && s.queue != [] && Readied(s)
    ensures Readies(s.loop, Dequeue(s, w).loop)
  {
    hide HandleCommand, HandleMessage, PendingOk, Deferred, Readies;
    if s.loop.lifecycle.Starting? {
      NoneWaits(s);
    }
    match s.queue[0]
    case ClientCommand(c) => CommandReadies(s.loop, s.documents, c, w.first);
    case ServerMessage(m) => MessageReadies(s.loop, s.open, s.documents, m, w);
    case _ => LooseReadies(s, w);
  }

  lemma LooseReadies(s: ClientState, w: Writes)
    requires s.queue != [] && !s.queue[0].ClientCommand? && !s.queue[0].ServerMessage? && Readied(s)
    ensures Readies(s.loop, Dequeue(s, w).loop)
  {
  }

  lemma StepReadied(s: ClientState, a: Action)
    requires PendingOk(s) && Enabled(s, a) && Readied(s)
    ensures Readied(Step(s, a))
  {
    hide PendingOk, Dequeue;
    if a.Handle? {
      DequeueReadies(s, a.writes);
      DequeueKeepsCall(s, a.writes);
    }
  }

  lemma DequeueKeepsCall(s: ClientState, w: Writes)
    requires s.queue != []
    ensures Dequeue(s, w).shutdownCall == s.shutdownCall
  {
    hide HandleInput;
  }

  /**
    In every run a client that has written `initialized` has left STARTING, and
    one that is READY has said so; so unless a shutdown was begun first, READY
    comes with `initialized`.
   */
  lemma {:induction false} ReadiedOnRuns(states: seq<ClientState>, actions: seq<Action>, k: nat)
    requires IsRun(states, actions) && k < |states|
    ensures Readied(states[k])
  {
    hide Step, PendingOk;
    if k > 0 {
      ReadiedOnRuns(states, actions, k - 1);
      PendingOkOnRuns(states, actions, k - 1);
      hide Readied;
      StepReadied(states[k - 1], actions[k - 1]);
    }
  }

  // ---------------------------------------------------------------------------
  // Answers
  // ---------------------------------------------------------------------------

  /** A result and no error, in a message of the right version. */
  predicate IsResult(m: Message) {
    m.Rpc? && m.versionOk && m.rpcMethod.None? && m.hasResult && m.error.NoError?
  }

  predicate IsError(m: Message) {
    m.Rpc? && m.versionOk && m.rpcMethod.None? && !m.hasResult && m.error.GoodError?
  }

  /** The message at the head of the queue answers the entry `id`. */
  ghost predicate Answering(s: ClientState, m: Message, id: RequestId) {
    s.loop.running && s.queue != [] && s.queue[0] == ServerMessage(m) && SettledBy(s.loop.pending, m) == Some(id)
  }

  /**
    A feature request whose answer is not a result fails: by the server's error
    if it is one, and as malformed otherwise.  Nothing is written, and the
    session goes on.
   */
  lemma FeatureFails(
      states: seq<ClientState>, actions: seq<Action>, k: nat, w: Writes, m: Message, id: RequestId)
    requires IsRun(states, actions) && k < |states| && Answering(states[k], m, id)
    requires states[k].loop.pending[id].operation.IsFeature() && !IsResult(m)
    ensures var s, t := states[k], Dequeue(states[k], w);
            && t.loop.events == s.loop.events + [
                 RequestFailed(id, s.loop.pending[id].operation, if IsError(m) then ServerError else InvalidResponse)]
            && t.loop.wire == s.loop.wire && t.loop.running && t.loop.pending == s.loop.pending - {id}
  {
    hide Step;
    PendingOkOnRuns(states, actions, k);
    assert Issued(states[k].processed, id, states[k].loop.pending[id]);
  }

  /** A result for a workspace request is delivered. */
  lemma WorkspaceResultDelivered(
      states: seq<ClientState>, actions: seq<Action>, k: nat, w: Writes, m: Message, id: RequestId)
    requires IsRun(states, actions) && k < |states| && Answering(states[k], m, id) && IsResult(m)
    requires states[k].loop.pending[id].operation.WorkspaceSymbols?
    ensures var s, t := states[k], Dequeue(states[k], w);
            && t.loop.events == s.loop.events + [WorkspaceResult(id)]
            && t.loop.wire == s.loop.wire && t.loop.running && t.loop.pending == s.loop.pending - {id}
  {
    hide Step;
    PendingOkOnRuns(states, actions, k);
    var s, p := states[k], states[k].loop.pending[id];
    assert Issued(s.processed, id, p);
    var c := Request(id, p.operation, p.scope.value);
    ProcessedFits(s, c);
  }

  /** What was taken off the queue fitted the table it met. */
  lemma ProcessedFits(s: ClientState, c: Command)
    requires TablesAgree(s) && c in s.processed
    ensures exists t: Table :: Fits(t, c)
  {
    var k :| 0 <= k < |s.processed| && s.processed[k] == c;
    assert s.accepted[k] == c;
    FitsAt(s.accepted, k);
  }

  /**
    Whatever the server answers a shutdown with, the loop ends, with `exit`
    unless it cannot be written; and only a result to a shutdown that was sent
    counts as its completion.
   */
  lemma ShutdownEnds(s: ClientState, w: Writes, m: Message, id: RequestId)
    requires Answering(s, m, id) && s.loop.pending[id].operation.Shutdown?
    ensures var t := Dequeue(s, w).loop;
            && !t.running && s.loop.events <= t.events
            && t.wire == s.loop.wire + (if w.first then [ExitFrame] else [])
            && (ShutdownComplete in t.events[|s.loop.events|..]) == (IsResult(m) && s.loop.pending[id].sent && w.first)
  {
  }

  /**
    The answer to `initialize` opens the session if it is a result and what has
    to be written then can be; anything else ends the loop.
   */
  lemma InitializeOpensOrEnds(s: ClientState, w: Writes, m: Message, id: RequestId)
    requires Answering(s, m, id) && s.loop.pending[id].operation.Initialize? && s.loop.pending[id].sent
    ensures var t := Dequeue(s, w).loop;
            var waiting := Deferred(s.loop.pending - {id}) != {};
            && (t.running <==> IsResult(m) && w.first && (waiting ==> w.second))
            && (IsResult(m) && w.first ==> s.loop.wire + [InitializedFrame] <= t.wire)
            && (!IsResult(m) ==> t.wire == s.loop.wire && t.lifecycle == s.loop.lifecycle)
  {
    hide Deferred;
  }

  // ---------------------------------------------------------------------------
  // Everything else the server sends
  // ---------------------------------------------------------------------------

  /** A request of the server is turned down on the wire. */
  lemma ServerRequestRefused(s: ClientState, w: Writes, m: Message)
    requires s.loop.running && s.queue != [] && s.queue[0] == ServerMessage(m)
    requires m.Rpc? && m.versionOk && m.rpcMethod.Some? && !m.id.NoId?
    ensures var t := Dequeue(s, w).loop;
            && t.pending == s.loop.pending && t.lifecycle == s.loop.lifecycle && t.running == w.first
            && t.wire == s.loop.wire + (if w.first then [ErrorReplyFrame] else [])
            && t.events == s.loop.events + [if w.first then ServerRequestRejected else TransportError]
  {
  }

  /** A message that is neither an answer to something waiting, nor a request, nor a notification is only reported. */
  lemma UnusableIsReported(s: ClientState, w: Writes, m: Message)
    requires s.loop.running && s.queue != [] && s.queue[0] == ServerMessage(m) && SettledBy(s.loop.pending, m).None?
    requires m.NotJsonObject? || !m.versionOk || m.rpcMethod.None?
    ensures Dequeue(s, w).loop == Emit(s.loop, ProtocolError)
  {
  }

  /** A notification of the server is reported, and changes nothing. */
  lemma NotificationReported(s: ClientState, w: Writes, m: Message)
    requires s.loop.running && s.queue != [] && s.queue[0] == ServerMessage(m)
    requires m.Rpc? && m.versionOk && m.rpcMethod.Some? && m.id.NoId?
    ensures var t := Dequeue(s, w).loop;
            && t == s.loop.(events := t.events) && |t.events| == |s.loop.events| + 1 && s.loop.events <= t.events
            && (t.events[|s.loop.events|].ServerNotification? <==> m.rpcMethod.value.OtherMethod?)
            && (t.events[|s.loop.events|].DiagnosticsRejected? <==>
                  m.rpcMethod.value.PublishDiagnostics? && m.rpcMethod.value.body.Malformed?)
  {
  }

  /** What the reader threads and the caller put on the queue is reported, and the last three end the loop. */
  lemma LooseInputs(s: ClientState, w: Writes)
    requires s.loop.running && s.queue != [] && !s.queue[0].ClientCommand? && !s.queue[0].ServerMessage?
    ensures var input, t := s.queue[0], Dequeue(s, w);
            && t == s.(queue := s.queue[1..], loop := t.loop)
            && t.loop == s.loop.(events := t.loop.events, running := input.Stderr? || input.StderrTruncated?)
            && t.loop.events == s.loop.events
               + match input
                 case Stderr => [StderrOutput]
                 case StderrTruncated => [StderrOutputTruncated]
                 case TransportFailed => [TransportError]
                 case ServerGone => [ServerClosed]
                 case _ => []
  {
    assert s.loop.events + [] == s.loop.events;
  }

  /** Once the thread has published its end, every call is refused as stopped, for ever. */
  lemma StoppedForGood(states: seq<ClientState>, actions: seq<Action>, j: nat, k: nat)
    requires IsRun(states, actions) && j < k < |states| && actions[j].PublishStopped?
    ensures EnsureReady(states[k]) == Some(StoppedError)
    ensures BeginShutdown(states[k]) == (states[k], Refused(StoppedError))
  {
    LifecycleOnRuns(states, actions, j + 1, k);
  }

  /** Nothing but these ends the loop. */
  lemma WhatEndsTheLoop(s: ClientState, w: Writes)
    requires s.loop.running && s.queue != [] && !Dequeue(s, w).loop.running
    ensures var input := s.queue[0];
            || input.TransportFailed? || input.ServerGone? || input.ForceStop? || !w.first || !w.second
            || (input.ServerMessage? && exists id <- s.loop.pending ::
                  SettledBy(s.loop.pending, input.message) == Some(id)
                  && !s.loop.pending[id].operation.IsFeature())
            || (input.ClientCommand? && input.command.ShutdownRequest?
                && |s.loop.pending| >= MAX_PENDING_REQUESTS)
  {
    hide HandleMessage, HandleCommand;
    match s.queue[0]
    case ClientCommand(c) => CommandEnds(s.loop, s.documents, c, w.first);
    case ServerMessage(m) => MessageEnds(s.loop, s.open, s.documents, m, w);
    case _ =>
  }

  lemma CommandEnds(s: Loop, documents: Table, c: Command, ok: bool)
    requires s.running && !HandleCommand(s, documents, c, ok).running
    ensures !ok || (c.ShutdownRequest? && |s.pending| >= MAX_PENDING_REQUESTS)
  {
  }

  lemma MessageEnds(s: Loop, open: Table, documents: Table, m: Message, w: Writes)
    requires s.running && !HandleMessage(s, open, documents, m, w).running
    ensures !w.first || !w.second || (SettledBy(s.pending, m).Some?
                                      && !s.pending[SettledBy(s.pending, m).value].operation.IsFeature())
  {
    hide HandleInitialized;
  }
}
