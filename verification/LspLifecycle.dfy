/**
  The lifecycle word: STARTING, READY, SHUTTING_DOWN, STOPPED.
 */
module LspLifecycle {
  import opened Wrappers
  import opened LspProtocol

  /** What handling an input may do to the word. */
  predicate Publishes(before: Lifecycle, after: Lifecycle) {
    after == before || (before.Starting? && after.ReadyState?)
  }

  /** What any single step of the client may do to it. */
  predicate Moves(before: Lifecycle, after: Lifecycle) {
    || Publishes(before, after)
    || (after.ShuttingDown? && (before.Starting? || before.ReadyState?))
    || (before.ShuttingDown? && after.ReadyState?)
    || after.Stopped?
  }

  lemma CommandLifecycle(s: Loop, documents: Table, c: Command, ok: bool)
    ensures HandleCommand(s, documents, c, ok).lifecycle == s.lifecycle
  {
  }

  lemma CorrelatedFailureLifecycle(s: Loop, id: RequestId, operation: Operation, ok: bool)
    ensures CorrelatedFailure(s, id, operation, ok).lifecycle == s.lifecycle
  {
  }

  lemma ResultLifecycle(s: Loop, open: Table, id: RequestId, p: Pending, w: Writes)
    ensures Publishes(s.lifecycle, HandleResult(s, open, id, p, w).lifecycle)
  {
    hide CorrelatedFailure;
    CorrelatedFailureLifecycle(s, id, p.operation, w.first);
  }

  lemma ResponseLifecycle(
      s: Loop, open: Table, id: RequestId, p: Pending, hasResult: bool, error: ErrorField, w: Writes)
    ensures Publishes(s.lifecycle, HandleResponse(s, open, id, p, hasResult, error, w).lifecycle)
  {
    hide CorrelatedFailure, HandleResult;
    CorrelatedFailureLifecycle(s, id, p.operation, w.first);
    ResultLifecycle(s, open, id, p, w);
  }

  lemma MessageLifecycle(s: Loop, open: Table, documents: Table, m: Message, w: Writes)
    ensures Publishes(s.lifecycle, HandleMessage(s, open, documents, m, w).lifecycle)
  {
    hide CorrelatedFailure, HandleResponse;
    if m.Rpc? && m.id.NumericId? && m.id.id in s.pending {
      CorrelatedFailureLifecycle(Settle(s, m.id.id), m.id.id, s.pending[m.id.id].operation, w.first);
      ResponseLifecycle(Settle(s, m.id.id), open, m.id.id, s.pending[m.id.id], m.hasResult, m.error, w);
    }
  }

  lemma DequeueLifecycle(s: ClientState, w: Writes)
    requires s.queue != []
    ensures Publishes(s.loop.lifecycle, Dequeue(s, w).loop.lifecycle)
  {
    hide HandleCommand, HandleMessage;
    match s.queue[0]
    case ClientCommand(c) => CommandLifecycle(s.loop, s.documents, c, w.first);
    case ServerMessage(m) => MessageLifecycle(s.loop, s.open, s.documents, m, w);
    case _ =>
  }

  /**
    STOPPED is published by a separate step of its own, so apart from that step
    nothing reaches it; and no step leaves it or comes back to STARTING.
   */
  lemma StepMoves(s: ClientState, a: Action)
    requires Enabled(s, a)
    ensures Moves(s.loop.lifecycle, Step(s, a).loop.lifecycle)
    ensures !a.PublishStopped? && !s.loop.lifecycle.Stopped? ==> !Step(s, a).loop.lifecycle.Stopped?
  {
    hide Dequeue;
    if a.Handle? {
      DequeueLifecycle(s, a.writes);
    }
  }
}
