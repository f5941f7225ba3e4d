/**
  The pending-request table: every request is answered at most once, nothing
  else is answered, and the bound on the table always leaves room for shutdown.
 */
module LspPending {
  import opened Wrappers
  import opened LspProtocol
  import opened LspTables
  import opened LspLifecycle

  // ---------------------------------------------------------------------------
  // Counting over the logs
  // ---------------------------------------------------------------------------

  /** The feature request an event is the last word on, if it is one's. */
  function AnswerTo(e: Event): Option<RequestId> {
    match e
    case FeatureResult(id, _, _, _) => Some(id)
    case WorkspaceResult(id) => Some(id)
    case StaleResponse(id, _, _, _, _) => Some(id)
    case RequestFailed(id, operation, _) => if operation.IsFeature() then Some(id) else None
    case _ => None
  }

  function AnswerCount(events: seq<Event>, id: RequestId): nat {
    if events == [] then 0
    else AnswerCount(events[..|events| - 1], id) + (if AnswerTo(events[|events| - 1]) == Some(id) then 1 else 0)
  }

  function RequestCount(log: seq<Command>, id: RequestId): nat {
    if log == [] then 0
    else RequestCount(log[..|log| - 1], id) + (if log[|log| - 1].Request? && log[|log| - 1].id == id then 1 else 0)
  }

  function ShutdownCount(log: seq<Command>): nat {
    if log == [] then 0
    else ShutdownCount(log[..|log| - 1]) + (if log[|log| - 1].ShutdownRequest? then 1 else 0)
  }

  function CancelCount(wire: seq<Frame>, id: RequestId): nat {
    if wire == [] then 0
    else CancelCount(wire[..|wire| - 1], id) + (if wire[|wire| - 1] == CommandFrame(CancelRequest(id)) then 1 else 0)
  }

  lemma EmitCounts(events: seq<Event>, e: Event)
    ensures forall id: RequestId ::
              AnswerCount(events + [e], id) == AnswerCount(events, id) + (if AnswerTo(e) == Some(id) then 1 else 0)
  {
    assert (events + [e])[..|events|] == events;
  }

  lemma SendCounts(wire: seq<Frame>, f: Frame)
    ensures forall id: RequestId ::
      CancelCount(wire + [f], id) == CancelCount(wire, id) + (if f == CommandFrame(CancelRequest(id)) then 1 else 0)
  {
    assert (wire + [f])[..|wire|] == wire;
  }

  lemma LogCounts(log: seq<Command>, c: Command)
    ensures forall id: RequestId ::
      RequestCount(log + [c], id) == RequestCount(log, id) + (if c.Request? && c.id == id then 1 else 0)
    ensures ShutdownCount(log + [c]) == ShutdownCount(log) + (if c.ShutdownRequest? then 1 else 0)
  {
    assert (log + [c])[..|log|] == log;
  }

  lemma {:induction false} CountsAppend(log: seq<Command>, more: seq<Command>, id: RequestId)
    ensures RequestCount(log + more, id) == RequestCount(log, id) + RequestCount(more, id)
    ensures ShutdownCount(log + more) == ShutdownCount(log) + ShutdownCount(more)
    decreases |more|
  {
    if more == [] {
      assert log + more == log;
    } else {
      var init, c := more[..|more| - 1], more[|more| - 1];
      CountsAppend(log, init, id);
      assert log + more == log + init + [c];
      LogCounts(log + init, c);
    }
  }

  // ---------------------------------------------------------------------------
  // Identifiers
  // ---------------------------------------------------------------------------

  predicate IdBelow(c: Command, bound: nat) {
    c.Request? || c.ShutdownRequest? ==> 2 <= c.id < bound
  }

  predicate IdsBelow(log: seq<Command>, bound: nat) {
    forall c <- log :: IdBelow(c, bound)
  }

  predicate IdsRise(log: seq<Command>) {
    log == []
    || (IdsRise(log[..|log| - 1])
        && ((log[|log| - 1].Request? || log[|log| - 1].ShutdownRequest?) ==>
              IdsBelow(log[..|log| - 1], log[|log| - 1].id)))
  }

  lemma IdsSnoc(log: seq<Command>, c: Command)
    ensures IdsRise(log + [c]) <==> IdsRise(log) && (c.Request? || c.ShutdownRequest? ==> IdsBelow(log, c.id))
  {
    assert (log + [c])[..|log|] == log;
  }

  lemma {:induction false} IdsRiseAt(log: seq<Command>, k: nat)
    requires IdsRise(log) && k < |log|
    ensures log[k].Request? || log[k].ShutdownRequest? ==> IdsBelow(log[..k], log[k].id)
    decreases |log|
  {
    if k < |log| - 1 {
      IdsRiseAt(log[..|log| - 1], k);
      assert log[..|log| - 1][..k] == log[..k];
    }
  }

  lemma {:induction false} CountBelow(log: seq<Command>, bound: nat, id: RequestId)
    requires IdsBelow(log, bound) && id >= bound
    ensures RequestCount(log, id) == 0
    decreases |log|
  {
    if log != [] {
      assert log[|log| - 1] in log;
      CountBelow(log[..|log| - 1], bound, id);
    }
  }

  // ---------------------------------------------------------------------------
  // The invariant
  // ---------------------------------------------------------------------------

  /** The table entry is the one the request of that identifier was given. */
  predicate Issued(processed: seq<Command>, id: RequestId, p: Pending) {
    match p.operation
    case Initialize => id == 1 && p.scope.None? && p.sent
    case Shutdown => ShutdownRequest(id) in processed && p.scope.None?
    case _ => p.scope.Some? && Request(id, p.operation, p.scope.value) in processed && p.sent
  }

  ghost predicate AllIssued(loop: Loop, processed: seq<Command>) {
    forall id <- loop.pending :: Issued(processed, id, loop.pending[id])
  }

  function Waiting(pending: PendingTable, id: RequestId): nat {
    if id in pending && pending[id].operation.IsFeature() then 1 else 0
  }

  /** Taken off the queue equals answered plus waiting, request by request. */
  ghost predicate Balanced(loop: Loop, processed: seq<Command>) {
    forall id: RequestId :: AnswerCount(loop.events, id) + Waiting(loop.pending, id) == RequestCount(processed, id)
  }

  ghost predicate CancelsOnce(loop: Loop, processed: seq<Command>) {
    forall id: RequestId ::
      && CancelCount(loop.wire, id) <= 1
      && (CancelCount(loop.wire, id) > 0 ==> RequestCount(processed, id) > 0)
      && (CancelCount(loop.wire, id) > 0 && id in loop.pending ==> loop.pending[id].cancelRequested)
  }

  /** The waiting requests other than shutdown, `initialize` included. */
  function Others(pending: PendingTable): set<RequestId> {
    set id | id in pending && !pending[id].operation.Shutdown?
  }

  ghost predicate Bounded(loop: Loop, processed: seq<Command>) {
    && |Others(loop.pending)| <= MAX_PENDING_REQUESTS - 1
    && (ShutdownCount(processed) == 0 ==> Others(loop.pending) == loop.pending.Keys)
  }

  ghost predicate TableOk(loop: Loop, processed: seq<Command>) {
    && AllIssued(loop, processed)
    && Balanced(loop, processed)
    && CancelsOnce(loop, processed)
    && Bounded(loop, processed)
  }

  ghost predicate IdsOk(s: ClientState) {
    && IdsRise(s.accepted) && IdsBelow(s.accepted, s.nextRequestId) && s.nextRequestId >= 2
    && ShutdownCount(s.accepted) <= 1
    && (ShutdownCount(s.accepted) == 1 ==>
          s.shutdownCall.None? && (s.loop.lifecycle.ShuttingDown? || s.loop.lifecycle.Stopped?))
    && (s.shutdownCall.Some? ==>
          && 2 <= s.shutdownCall.value.id < s.nextRequestId && IdsBelow(s.accepted, s.shutdownCall.value.id)
          && (s.loop.lifecycle.ShuttingDown? || s.loop.lifecycle.Stopped?))
  }

  // ---------------------------------------------------------------------------
  // Messages
  // ---------------------------------------------------------------------------

  /** From `s` to `t` at most the one request was answered, and no cancellation was written. */
  ghost predicate Answers(s: Loop, t: Loop, answered: Option<RequestId>) {
    && (forall id: RequestId ::
          AnswerCount(t.events, id) == AnswerCount(s.events, id) + (if answered == Some(id) then 1 else 0))
    && (forall id: RequestId :: CancelCount(t.wire, id) == CancelCount(s.wire, id))
  }

  /** The same table, except that a shutdown that waited for initialization may now be marked sent. */
  ghost predicate SameTable(p: PendingTable, q: PendingTable) {
    && q.Keys == p.Keys
    && forall id <- p :: q[id] == p[id] || (p[id].operation.Shutdown? && q[id] == p[id].(sent := true))
  }

  function OnlyFeature(id: RequestId, operation: Operation): Option<RequestId> {
    if operation.IsFeature() then Some(id) else None
  }

  lemma EmitAnswers(s: Loop, e: Event)
    ensures Answers(s, Emit(s, e), AnswerTo(e))
  {
    EmitCounts(s.events, e);
  }

  lemma SendAnswers(s: Loop, f: Frame, ok: bool)
    requires !f.CommandFrame? || !f.command.CancelRequest?
    ensures Answers(s, Send(s, f, ok), None)
  {
    SendCounts(s.wire, f);
    EmitCounts(s.events, TransportError);
  }

  lemma CorrelatedFailureAnswers(s: Loop, id: RequestId, operation: Operation, ok: bool)
    ensures Answers(s, CorrelatedFailure(s, id, operation, ok), OnlyFeature(id, operation))
    ensures CorrelatedFailure(s, id, operation, ok).pending == s.pending
  {
    var failed := Emit(s, RequestFailed(id, operation, InvalidResponse));
    EmitAnswers(s, RequestFailed(id, operation, InvalidResponse));
    SendAnswers(failed, ExitFrame, ok);
    hide Answers, Send;
    SendKeepsTable(failed, ExitFrame, ok);
    if operation.Shutdown? {
      Chain(s, failed, Send(failed, ExitFrame, ok), None, None);
      StopAnswers(s, Send(failed, ExitFrame, ok), None);
    } else if operation.Initialize? {
      StopAnswers(s, failed, None);
    }
  }

  lemma SendKeepsTable(s: Loop, f: Frame, ok: bool)
    ensures Send(s, f, ok).pending == s.pending
  {
  }

  lemma Chain(s: Loop, t: Loop, u: Loop, first: Option<RequestId>, second: Option<RequestId>)
    requires Answers(s, t, first) && Answers(t, u, second) && (first.None? || second.None?)
    ensures Answers(s, u, if first.None? then second else first)
  {
  }

  lemma StopAnswers(s: Loop, t: Loop, answered: Option<RequestId>)
    requires Answers(s, t, answered)
    ensures Answers(s, Stop(t), answered)
  {
  }

  lemma MarkAnswers(s: Loop, t: Loop)
    requires t.events == s.events && t.wire == s.wire
    ensures Answers(s, t, None)
  {
  }

  lemma InitializedAnswers(s: Loop, w: Writes)
    ensures Answers(s, HandleInitialized(s, w), None)
    ensures SameTable(s.pending, HandleInitialized(s, w).pending)
  {
    hide Answers;
    var greeted := Send(s, InitializedFrame, w.first);
    SendAnswers(s, InitializedFrame, w.first);
    if w.first {
      if Deferred(s.pending) == {} {
        PublishAnswers(greeted);
        Chain(s, greeted, PublishReady(greeted), None, None);
      } else {
        var id := PickDeferred(s.pending);
        var sent := Send(greeted, CommandFrame(ShutdownRequest(id)), w.second);
        SendAnswers(greeted, CommandFrame(ShutdownRequest(id)), w.second);
        Chain(s, greeted, sent, None, None);
        if w.second {
          var marked := sent.(pending := s.pending[id := s.pending[id].(sent := true)]);
          MarkAnswers(sent, marked);
          Chain(s, sent, marked, None, None);
          PublishAnswers(marked);
          Chain(s, marked, PublishReady(marked), None, None);
        }
      }
    }
  }

  lemma PublishAnswers(s: Loop)
    ensures Answers(s, PublishReady(s), None)
  {
    EmitAnswers(s.(lifecycle := ReadyState), Ready);
  }

  lemma ResponseAnswers(
      s: Loop, open: Table, id: RequestId, p: Pending, hasResult: bool, error: ErrorField, w: Writes)
    ensures Answers(s, HandleResponse(s, open, id, p, hasResult, error, w), OnlyFeature(id, p.operation))
    ensures SameTable(s.pending, HandleResponse(s, open, id, p, hasResult, error, w).pending)
  {
    hide CorrelatedFailure, HandleResult, Answers;
    if !p.sent || hasResult == !error.NoError? || error.BadError? {
      CorrelatedFailureAnswers(s, id, p.operation, w.first);
    } else if error.GoodError? {
      var failed := Emit(s, RequestFailed(id, p.operation, ServerError));
      EmitAnswers(s, RequestFailed(id, p.operation, ServerError));
      SendAnswers(failed, ExitFrame, true);
      Chain(s, failed, Send(failed, ExitFrame, true), OnlyFeature(id, p.operation), None);
      if p.operation.Shutdown? {
        StopAnswers(s, failed, None);
        StopAnswers(s, Send(failed, ExitFrame, true), None);
      } else if p.operation.Initialize? {
        StopAnswers(s, failed, None);
      }
    } else {
      ResultAnswers(s, open, id, p, w);
    }
  }

  lemma ResultAnswers(s: Loop, open: Table, id: RequestId, p: Pending, w: Writes)
    ensures Answers(s, HandleResult(s, open, id, p, w), OnlyFeature(id, p.operation))
    ensures SameTable(s.pending, HandleResult(s, open, id, p, w).pending)
  {
    hide CorrelatedFailure, HandleInitialized, DeliverResult, Answers;
    SameTableItself(s.pending);
    match p.operation
    case Initialize => InitializedAnswers(s, w);
    case Shutdown =>
      var exited := Send(s, ExitFrame, w.first);
      SendAnswers(s, ExitFrame, w.first);
      EmitAnswers(exited, ShutdownComplete);
      Chain(s, exited, Emit(exited, ShutdownComplete), None, None);
      StopAnswers(s, exited, None);
      StopAnswers(s, Emit(exited, ShutdownComplete), None);
    case _ => FeatureAnswers(s, open, id, p, w);
  }

  lemma SameTableItself(p: PendingTable)
    ensures SameTable(p, p)
  {
  }

  lemma FeatureAnswers(s: Loop, open: Table, id: RequestId, p: Pending, w: Writes)
    requires p.operation.IsFeature()
    ensures Answers(s, HandleResult(s, open, id, p, w), Some(id))
    ensures HandleResult(s, open, id, p, w).pending == s.pending
  {
    hide CorrelatedFailure, HandleInitialized, Answers;
    CorrelatedFailureAnswers(s, id, p.operation, w.first);
    if p.operation.WorkspaceSymbols? {
      EmitAnswers(s, WorkspaceResult(id));
    } else if p.scope.Some? && p.scope.value.DocumentScope? {
      var uri, doc := p.scope.value.uri, p.scope.value.doc;
      EmitAnswers(s, StaleResponse(id, p.operation, uri, doc.version, VersionOf(Lookup(open, uri))));
      EmitAnswers(s, FeatureResult(id, p.operation, uri, doc.version));
    }
  }

  /** The request, if any, that a message settles. */
  function SettledBy(pending: PendingTable, m: Message): Option<RequestId> {
    if m.Rpc? && m.rpcMethod.None? && m.id.NumericId? && m.id.id in pending
       && (m.versionOk || m.hasResult || !m.error.NoError?)
    then Some(m.id.id) else None
  }

  /** A message settles at most one request: that one leaves the table, and with one answer if it is a feature's. */
  lemma MessageAnswers(s: Loop, open: Table, documents: Table, m: Message, w: Writes)
    ensures var t := HandleMessage(s, open, documents, m, w);
            match SettledBy(s.pending, m)
            case None => t.pending == s.pending && Answers(s, t, None)
            case Some(id) =>
              SameTable(s.pending - {id}, t.pending) && Answers(s, t, OnlyFeature(id, s.pending[id].operation))
  {
    hide CorrelatedFailure, HandleResponse, HandleDiagnostics;
    match SettledBy(s.pending, m)
    case Some(id) =>
      CorrelatedFailureAnswers(Settle(s, id), id, s.pending[id].operation, w.first);
      ResponseAnswers(Settle(s, id), open, id, s.pending[id], m.hasResult, m.error, w);
    case None =>
      UnsettledAnswers(s, open, documents, m, w);
  }

  lemma UnsettledAnswers(s: Loop, open: Table, documents: Table, m: Message, w: Writes)
    requires SettledBy(s.pending, m).None?
    ensures HandleMessage(s, open, documents, m, w).pending == s.pending
    ensures Answers(s, HandleMessage(s, open, documents, m, w), None)
  {
    hide CorrelatedFailure, HandleResponse, HandleDiagnostics, Answers;
    if m.NotJsonObject? || !m.versionOk || m.rpcMethod.None? {
      EmitAnswers(s, ProtocolError);
    } else if !m.id.NoId? {
      SendAnswers(s, ErrorReplyFrame, w.first);
      EmitAnswers(Send(s, ErrorReplyFrame, w.first), ServerRequestRejected);
      Chain(s, Send(s, ErrorReplyFrame, w.first),
            Emit(Send(s, ErrorReplyFrame, w.first), ServerRequestRejected), None, None);
    } else if m.rpcMethod.value.PublishDiagnostics? {
      DiagnosticsAnswers(s, documents, m.rpcMethod.value.body);
    } else {
      EmitAnswers(s, ServerNotification);
    }
  }

  lemma DiagnosticsAnswers(s: Loop, documents: Table, body: DiagnosticsBody)
    ensures Answers(s, HandleDiagnostics(s, documents, body), None)
    ensures HandleDiagnostics(s, documents, body).pending == s.pending
  {
    var t := HandleDiagnostics(s, documents, body);
    EmitAnswers(s, t.events[|s.events|]);
  }

  // ---------------------------------------------------------------------------
  // Preservation
  // ---------------------------------------------------------------------------

  lemma OthersOf(p: PendingTable, q: PendingTable)
    requires SameTable(p, q)
    ensures Others(q) == Others(p)
  {
  }

  lemma SubsetSize<T>(a: set<T>, b: set<T>)
    requires a <= b
    ensures |a| <= |b|
  {
    assert b == a + (b - a);
  }

  lemma QuietLoop(s: Loop, t: Loop, processed: seq<Command>)
    requires TableOk(s, processed) && Answers(s, t, None) && t.pending == s.pending
    ensures TableOk(t, processed)
  {
    hide AnswerCount, CancelCount, RequestCount, ShutdownCount;
  }

  lemma MessageKeepsTable(s: Loop, open: Table, documents: Table, processed: seq<Command>, m: Message, w: Writes)
    requires TableOk(s, processed)
    ensures TableOk(HandleMessage(s, open, documents, m, w), processed)
  {
    hide HandleMessage, AnswerCount, CancelCount, RequestCount, ShutdownCount;
    var t := HandleMessage(s, open, documents, m, w);
    MessageAnswers(s, open, documents, m, w);
    match SettledBy(s.pending, m)
    case None => QuietLoop(s, t, processed);
    case Some(id) =>
      OthersOf(s.pending - {id}, t.pending);
      SubsetSize(Others(t.pending), Others(s.pending));
  }

  /** A request is refused entry with an answer, or enters and waits. */
  ghost predicate Admits(s: Loop, t: Loop, c: Command)
    requires c.Request?
  {
    if |s.pending| >= MAX_PENDING_REQUESTS - 1
    then t.pending == s.pending && Answers(s, t, Some(c.id))
    else t.pending == s.pending[c.id := Pending(c.operation, Some(c.scope), false, true)] && Answers(s, t, None)
  }

  lemma RequestKeepsTable(s: Loop, documents: Table, processed: seq<Command>, c: Command, ok: bool)
    requires TableOk(s, processed) && c.Request? && c.operation.IsFeature() && Fits(documents, c)
    requires 2 <= c.id && IdsBelow(processed, c.id)
    ensures TableOk(HandleCommand(s, documents, c, ok), processed + [c])
  {
    hide HandleCommand, Answers, AllIssued, Balanced, CancelsOnce, Bounded, Admits, Fits;
    var t := HandleCommand(s, documents, c, ok);
    RequestAdmission(s, documents, c, ok);
    AdmitsIssued(s, t, processed, c);
    AdmitsBalanced(s, t, processed, c);
    AdmitsCancels(s, t, processed, c);
    AdmitsBounded(s, t, processed, c);
  }

  lemma IssuedGrows(s: Loop, processed: seq<Command>, c: Command)
    requires AllIssued(s, processed)
    ensures AllIssued(s, processed + [c])
  {
  }

  lemma AdmitsIssued(s: Loop, t: Loop, processed: seq<Command>, c: Command)
    requires AllIssued(s, processed) && c.Request? && c.operation.IsFeature() && Admits(s, t, c)
    ensures AllIssued(t, processed + [c])
  {
    hide Answers;
    IssuedGrows(s, processed, c);
    assert c in processed + [c];
  }

  lemma TablesMeanPrefix(s: ClientState)
    requires TablesAgree(s)
    ensures s.processed <= s.accepted
  {
  }

  lemma NotYetIssued(s: Loop, processed: seq<Command>, id: RequestId)
    requires AllIssued(s, processed) && IdsBelow(processed, id) && id >= 2
    ensures id !in s.pending
  {
  }

  lemma AdmitsBalanced(s: Loop, t: Loop, processed: seq<Command>, c: Command)
    requires Balanced(s, processed) && c.Request? && c.operation.IsFeature() && Admits(s, t, c)
    requires 2 <= c.id && IdsBelow(processed, c.id) && AllIssued(s, processed)
    ensures Balanced(t, processed + [c])
  {
    hide AnswerCount, CancelCount, RequestCount, AllIssued, IdsBelow;
    LogCounts(processed, c);
    NotYetIssued(s, processed, c.id);
  }

  lemma AdmitsCancels(s: Loop, t: Loop, processed: seq<Command>, c: Command)
    requires CancelsOnce(s, processed) && c.Request? && Admits(s, t, c)
    requires 2 <= c.id && IdsBelow(processed, c.id)
    ensures CancelsOnce(t, processed + [c])
  {
    hide AnswerCount, CancelCount, RequestCount, IdsBelow;
    LogCounts(processed, c);
    CountBelow(processed, c.id, c.id);
  }

  lemma AdmitsBounded(s: Loop, t: Loop, processed: seq<Command>, c: Command)
    requires Bounded(s, processed) && c.Request? && c.operation.IsFeature() && Admits(s, t, c)
    requires 2 <= c.id && IdsBelow(processed, c.id) && AllIssued(s, processed)
    ensures Bounded(t, processed + [c])
  {
    hide Answers, ShutdownCount, AllIssued, IdsBelow;
    LogCounts(processed, c);
    NotYetIssued(s, processed, c.id);
    if |s.pending| < MAX_PENDING_REQUESTS - 1 {
      assert Others(t.pending) == Others(s.pending) + {c.id};
      SubsetSize(Others(s.pending), s.pending.Keys);
    }
  }

  lemma RequestAdmission(s: Loop, documents: Table, c: Command, ok: bool)
    requires c.Request? && Fits(documents, c)
    ensures Admits(s, HandleCommand(s, documents, c, ok), c)
  {
    EmitAnswers(s, RequestFailed(c.id, c.operation, PendingLimit));
    var entered := s.(pending := s.pending[c.id := Pending(c.operation, Some(c.scope), false, true)]);
    SendAnswers(entered, CommandFrame(c), ok);
  }

  /** Commands that are not requests: the table keeps its entries and nothing is answered. */
  lemma NotificationKeepsTable(s: Loop, documents: Table, processed: seq<Command>, c: Command, ok: bool)
    requires TableOk(s, processed) && (c.DidOpen? || c.DidChange? || c.DidSave? || c.DidClose?)
    ensures TableOk(HandleCommand(s, documents, c, ok), processed + [c])
  {
    var t := HandleCommand(s, documents, c, ok);
    SendAnswers(s, CommandFrame(c), ok);
    assert Answers(s, t, None);
    QuietKeepsTable(s, t, processed, c);
  }

  lemma QuietKeepsTable(s: Loop, t: Loop, processed: seq<Command>, c: Command)
    requires TableOk(s, processed) && !c.Request? && !c.ShutdownRequest?
    requires Answers(s, t, None) && t.pending == s.pending
    ensures TableOk(t, processed + [c])
  {
    hide AnswerCount, CancelCount, RequestCount, ShutdownCount;
    IssuedGrows(s, processed, c);
    LogCounts(processed, c);
  }

  /** A cancellation is written once per request that is still waiting. */
  lemma CancelKeepsTable(s: Loop, documents: Table, processed: seq<Command>, c: Command, ok: bool)
    requires TableOk(s, processed) && c.CancelRequest?
    ensures TableOk(HandleCommand(s, documents, c, ok), processed + [c])
  {
    hide AnswerCount, CancelCount, RequestCount, ShutdownCount, HandleCommand, Balanced, AllIssued, CancelsOnce;
    var t := HandleCommand(s, documents, c, ok);
    CancelFlags(s, documents, c, ok);
    FlaggedIssued(s, t, processed, c);
    FlaggedBalanced(s, t, processed, c);
    FlaggedCancels(s, t, processed, c);
    LogCounts(processed, c);
    assert Others(t.pending) == Others(s.pending);
  }

  /** The same table with at most the entry of `id` newly marked, and then at most one frame written for it. */
  ghost predicate Flags(s: Loop, t: Loop, id: RequestId) {
    && (forall i: RequestId :: AnswerCount(t.events, i) == AnswerCount(s.events, i))
    && (if id !in s.pending || s.pending[id].cancelRequested || !s.pending[id].operation.IsFeature() then
          t.pending == s.pending && t.wire == s.wire
        else
          && t.pending == s.pending[id := s.pending[id].(cancelRequested := true)]
          && (t.wire == s.wire || t.wire == s.wire + [CommandFrame(CancelRequest(id))]))
  }

  lemma CancelFlags(s: Loop, documents: Table, c: Command, ok: bool)
    requires c.CancelRequest?
    ensures Flags(s, HandleCommand(s, documents, c, ok), c.id)
  {
    EmitCounts(s.events, TransportError);
  }

  lemma FlaggedIssued(s: Loop, t: Loop, processed: seq<Command>, c: Command)
    requires AllIssued(s, processed) && c.CancelRequest? && Flags(s, t, c.id)
    ensures AllIssued(t, processed + [c])
  {
    hide AnswerCount;
    IssuedGrows(s, processed, c);
  }

  lemma FlaggedBalanced(s: Loop, t: Loop, processed: seq<Command>, c: Command)
    requires Balanced(s, processed) && c.CancelRequest? && Flags(s, t, c.id)
    ensures Balanced(t, processed + [c])
  {
    hide AnswerCount, RequestCount;
    LogCounts(processed, c);
    assert forall id :: Waiting(t.pending, id) == Waiting(s.pending, id);
  }

  lemma FlaggedCancels(s: Loop, t: Loop, processed: seq<Command>, c: Command)
    requires CancelsOnce(s, processed) && Balanced(s, processed) && c.CancelRequest? && Flags(s, t, c.id)
    ensures CancelsOnce(t, processed + [c])
  {
    hide AnswerCount, CancelCount, RequestCount;
    LogCounts(processed, c);
    SendCounts(s.wire, CommandFrame(c));
    assert Waiting(s.pending, c.id) == 1 ==> RequestCount(processed, c.id) > 0;
  }

  lemma RoomForShutdown(s: Loop, processed: seq<Command>)
    requires Bounded(s, processed) && ShutdownCount(processed) == 0
    ensures |s.pending| <= MAX_PENDING_REQUESTS - 1
  {
    assert |s.pending.Keys| == |s.pending|;
  }

  lemma ShutdownKeepsTable(s: Loop, documents: Table, processed: seq<Command>, c: Command, ok: bool)
    requires TableOk(s, processed) && c.ShutdownRequest? && ShutdownCount(processed) == 0
    requires 2 <= c.id && IdsBelow(processed, c.id)
    ensures TableOk(HandleCommand(s, documents, c, ok), processed + [c])
  {
    hide AnswerCount, CancelCount, RequestCount, IdsBelow, HandleCommand, AllIssued, CancelsOnce;
    var t := HandleCommand(s, documents, c, ok);
    RoomForShutdown(s, processed);
    ShutdownEnters(s, documents, c, ok);
    ShutdownAnswers(s, s.(pending := t.pending), c, ok);
    NotYetIssued(s, processed, c.id);
    EntersIssued(s, t, processed, c);
    LogCounts(processed, c);
    assert Others(t.pending) == Others(s.pending);
    CancelLess(processed, s, c);
    EntersCancels(s, t, processed, c);
  }

  /** The shutdown enters the table, and is written unless it has to wait for initialization. */
  lemma ShutdownEnters(s: Loop, documents: Table, c: Command, ok: bool)
    requires c.ShutdownRequest? && |s.pending| < MAX_PENDING_REQUESTS
    ensures var t := HandleCommand(s, documents, c, ok);
            var waits := InitializePending(s.pending);
            var entered := s.(pending := s.pending[c.id := Pending(Shutdown, None, false, !waits)]);
            t == if waits then entered else Send(entered, CommandFrame(c), ok)
  {
  }

  lemma ShutdownAnswers(s: Loop, entered: Loop, c: Command, ok: bool)
    requires c.ShutdownRequest? && entered.events == s.events && entered.wire == s.wire
    ensures Answers(s, entered, None) && Answers(s, Send(entered, CommandFrame(c), ok), None)
  {
    MarkAnswers(s, entered);
    SendAnswers(entered, CommandFrame(c), ok);
    hide Answers, Send;
    Chain(s, entered, Send(entered, CommandFrame(c), ok), None, None);
  }

  lemma EntersIssued(s: Loop, t: Loop, processed: seq<Command>, c: Command)
    requires AllIssued(s, processed) && c.ShutdownRequest?
    requires t.pending == s.pending[c.id := Pending(Shutdown, None, false, !InitializePending(s.pending))]
    ensures AllIssued(t, processed + [c])
  {
    IssuedGrows(s, processed, c);
    assert c in processed + [c];
  }

  lemma EntersCancels(s: Loop, t: Loop, processed: seq<Command>, c: Command)
    requires CancelsOnce(s, processed) && c.ShutdownRequest? && CancelCount(s.wire, c.id) == 0 && Answers(s, t, None)
    requires t.pending == s.pending[c.id := Pending(Shutdown, None, false, !InitializePending(s.pending))]
    ensures CancelsOnce(t, processed + [c])
  {
    hide AnswerCount, CancelCount, RequestCount;
    LogCounts(processed, c);
  }

  lemma CancelLess(processed: seq<Command>, s: Loop, c: Command)
    requires CancelsOnce(s, processed) && c.ShutdownRequest? && IdsBelow(processed, c.id)
    ensures CancelCount(s.wire, c.id) == 0
  {
    CountBelow(processed, c.id, c.id);
  }

  lemma HeadIds(s: ClientState)
    requires TablesAgree(s) && IdsOk(s) && s.loop.running && s.queue != [] && s.queue[0].ClientCommand?
    ensures var c := s.queue[0].command;
            && Fits(s.documents, c) && c in s.accepted
            && (c.Request? || c.ShutdownRequest? ==> 2 <= c.id && IdsBelow(s.processed, c.id))
            && (c.ShutdownRequest? ==> ShutdownCount(s.processed) == 0)
  {
    var c, n := s.queue[0].command, |s.processed|;
    HeadFits(s);
    IdsRiseAt(s.accepted, n);
    assert s.accepted[..n] == s.processed && s.accepted[n] == c;
    LogCounts(s.processed, c);
    CountsAppend(s.processed + [c], s.accepted[n + 1..], 0);
    assert s.accepted == s.processed + [c] + s.accepted[n + 1..];
  }

  ghost predicate PendingOk(s: ClientState) {
    TablesAgree(s) && IdsOk(s) && TableOk(s.loop, s.processed)
  }

  lemma CommandKeepsTable(s: ClientState, w: Writes)
    requires PendingOk(s) && s.loop.running && s.queue != [] && s.queue[0].ClientCommand?
    ensures TableOk(Dequeue(s, w).loop, Dequeue(s, w).processed)
  {
    hide TableOk, HandleCommand, HandleMessage, IdsOk, TablesAgree;
    var c := s.queue[0].command;
    HeadIds(s);
    match c
    case Request(_, _, _) => RequestKeepsTable(s.loop, s.documents, s.processed, c, w.first);
    case CancelRequest(_) => CancelKeepsTable(s.loop, s.documents, s.processed, c, w.first);
    case ShutdownRequest(_) => ShutdownKeepsTable(s.loop, s.documents, s.processed, c, w.first);
    case _ => NotificationKeepsTable(s.loop, s.documents, s.processed, c, w.first);
  }

  lemma HandleKeepsPendingTable(s: ClientState, w: Writes)
    requires PendingOk(s) && s.loop.running && s.queue != []
    ensures TableOk(Dequeue(s, w).loop, Dequeue(s, w).processed)
  {
    hide HandleCommand, HandleMessage, TableOk;
    match s.queue[0]
    case ClientCommand(_) => CommandKeepsTable(s, w);
    case ServerMessage(m) => MessageKeepsTable(s.loop, s.open, s.documents, s.processed, m, w);
    case _ => LooseEventKeepsTable(s, w);
  }

  lemma LooseEventKeepsTable(s: ClientState, w: Writes)
    requires TableOk(s.loop, s.processed) && s.queue != []
    requires !s.queue[0].ClientCommand? && !s.queue[0].ServerMessage?
    ensures TableOk(Dequeue(s, w).loop, Dequeue(s, w).processed)
  {
    hide TableOk, Answers, AnswerCount, HandleCommand, HandleMessage;
    match s.queue[0]
    case Stderr => EmitQuietly(s.loop, StderrOutput, s.processed);
    case StderrTruncated => EmitQuietly(s.loop, StderrOutputTruncated, s.processed);
    case TransportFailed => EmitQuietly(s.loop, TransportError, s.processed);
    case ServerGone => EmitQuietly(s.loop, ServerClosed, s.processed);
    case ForceStop => StopQuietly(s.loop, s.processed);
  }

  lemma EmitQuietly(s: Loop, e: Event, processed: seq<Command>)
    requires TableOk(s, processed) && AnswerTo(e).None?
    ensures TableOk(Emit(s, e), processed) && TableOk(Stop(Emit(s, e)), processed)
  {
    hide TableOk;
    EmitAnswers(s, e);
    QuietLoop(s, Emit(s, e), processed);
    StopQuietly(Emit(s, e), processed);
  }

  lemma StopQuietly(s: Loop, processed: seq<Command>)
    requires TableOk(s, processed)
    ensures TableOk(Stop(s), processed)
  {
  }

  lemma HandleKeepsIds(s: ClientState, w: Writes)
    requires IdsOk(s) && s.queue != []
    ensures IdsOk(Dequeue(s, w))
  {
    hide HandleCommand, HandleMessage;
    DequeueLifecycle(s, w);
  }

  lemma CallKeepsIds(s: ClientState, a: Action)
    requires IdsOk(s) && Enabled(s, a) && !a.Handle? && !a.DoBeginShutdown? && !a.DoFinishShutdown?
    ensures IdsOk(Step(s, a))
  {
    hide IdsOk, IdsRise, IdsBelow;
    var t := Step(s, a);
    if t.accepted == s.accepted {
      IdlerIds(s, t);
    } else {
      AcceptKeepsIds(s, t, t.accepted[|s.accepted|]);
    }
  }

  lemma IdlerIds(s: ClientState, t: ClientState)
    requires IdsOk(s) && t.accepted == s.accepted && t.shutdownCall == s.shutdownCall
    requires t.nextRequestId >= s.nextRequestId
    requires t.loop.lifecycle == s.loop.lifecycle || t.loop.lifecycle.Stopped?
    ensures IdsOk(t)
  {
  }

  lemma AcceptKeepsIds(s: ClientState, t: ClientState, c: Command)
    requires IdsOk(s) && s.shutdownCall.None? && t.shutdownCall.None? && t.accepted == s.accepted + [c]
    requires !c.ShutdownRequest? && t.loop.lifecycle == s.loop.lifecycle
    requires if c.Request? then c.id == s.nextRequestId && t.nextRequestId == c.id + 1
             else t.nextRequestId == s.nextRequestId
    ensures IdsOk(t)
  {
    IdsSnoc(s.accepted, c);
    LogCounts(s.accepted, c);
  }

  lemma BeginShutdownKeepsIds(s: ClientState)
    requires IdsOk(s) && s.shutdownCall.None?
    ensures IdsOk(BeginShutdown(s).0)
  {
    assert IdsBelow(s.accepted, s.nextRequestId + 1);
  }

  lemma FinishShutdownKeepsIds(s: ClientState, tooLarge: bool, send: SendOutcome)
    requires IdsOk(s) && s.shutdownCall.Some?
    ensures IdsOk(FinishShutdown(s, tooLarge, send).0)
  {
    hide IdsRise, ShutdownCount, IdsBelow;
    var c := ShutdownRequest(s.shutdownCall.value.id);
    IdsSnoc(s.accepted, c);
    IdsBelowSnoc(s.accepted, c, s.nextRequestId);
    LogCounts(s.accepted, c);
  }

  lemma IdsBelowSnoc(log: seq<Command>, c: Command, bound: nat)
    ensures IdsBelow(log + [c], bound) <==> IdsBelow(log, bound) && IdBelow(c, bound)
  {
    assert forall x :: x in log + [c] <==> x in log || x == c;
  }

  lemma StepKeepsPending(s: ClientState, a: Action)
    requires PendingOk(s) && Enabled(s, a)
    ensures PendingOk(Step(s, a))
  {
    hide TableOk, IdsOk, TablesAgree, Dequeue;
    StepKeepsTables(s, a);
    if a.Handle? {
      HandleKeepsPendingTable(s, a.writes);
      HandleKeepsIds(s, a.writes);
    } else {
      CallKeepsLoop(s, a);
      if a.DoBeginShutdown? {
        BeginShutdownKeepsIds(s);
      } else if a.DoFinishShutdown? {
        FinishShutdownKeepsIds(s, a.tooLarge, a.send);
      } else {
        CallKeepsIds(s, a);
      }
    }
  }

  lemma CallKeepsLoop(s: ClientState, a: Action)
    requires TableOk(s.loop, s.processed) && Enabled(s, a) && !a.Handle?
    ensures TableOk(Step(s, a).loop, Step(s, a).processed)
  {
    hide TableOk;
    var t := Step(s, a);
    assert t.processed == s.processed;
    assert t.loop == s.loop.(lifecycle := t.loop.lifecycle);
    TableIgnoresLifecycle(s.loop, t.loop.lifecycle, s.processed);
  }

  lemma TableIgnoresLifecycle(s: Loop, lifecycle: Lifecycle, processed: seq<Command>)
    requires TableOk(s, processed)
    ensures TableOk(s.(lifecycle := lifecycle), processed)
  {
  }

  lemma PendingAtStart(s: ClientState)
    requires s == INITIAL || s == FAILED_START
    ensures PendingOk(s)
  {
    if s == INITIAL {
      assert Others(s.loop.pending) == {1};
      SendCounts([], InitializeFrame);
      assert [] + [InitializeFrame] == [InitializeFrame];
    } else {
      EmitCounts([], TransportError);
      assert [] + [TransportError] == [TransportError];
    }
  }

  lemma {:induction false} PendingOkOnRuns(states: seq<ClientState>, actions: seq<Action>, k: nat)
    requires IsRun(states, actions) && k < |states|
    ensures PendingOk(states[k])
  {
    hide Step, PendingOk;
    if k == 0 {
      PendingAtStart(states[0]);
    } else {
      PendingOkOnRuns(states, actions, k - 1);
      StepKeepsPending(states[k - 1], actions[k - 1]);
    }
  }

  // ---------------------------------------------------------------------------
  // What follows from it
  // ---------------------------------------------------------------------------

  lemma {:induction false} CountAtMostOnce(log: seq<Command>, id: RequestId)
    requires IdsRise(log)
    ensures RequestCount(log, id) <= 1
    decreases |log|
  {
    if log != [] {
      var init, c := log[..|log| - 1], log[|log| - 1];
      CountAtMostOnce(init, id);
      if c.Request? && c.id == id {
        CountBelow(init, id, id);
      }
    }
  }

  /**
    While the thread runs, each request the API accepted is in exactly one
    place: still queued, waiting for its response, or answered; and no request
    is answered twice or without having been made.
   */
  lemma RequestsConserved(states: seq<ClientState>, actions: seq<Action>, k: nat, id: RequestId)
    requires IsRun(states, actions) && k < |states|
    ensures var s := states[k];
            && AnswerCount(s.loop.events, id) <= RequestCount(s.accepted, id) <= 1
            && (s.loop.running ==>
                  RequestCount(s.accepted, id)
                  == RequestCount(Commands(s.queue), id) + Waiting(s.loop.pending, id) + AnswerCount(s.loop.events, id))
  {
    var s := states[k];
    PendingOkOnRuns(states, actions, k);
    CountAtMostOnce(s.accepted, id);
    CountsAppend(s.processed, s.accepted[|s.processed|..], id);
    assert s.accepted == s.processed + s.accepted[|s.processed|..];
  }

  /** The answer comes in the very step in which the request leaves the table or is refused entry. */
  lemma AnsweredOnLeaving(states: seq<ClientState>, actions: seq<Action>, k: nat, id: RequestId)
    requires IsRun(states, actions) && k < |actions| && actions[k].Handle?
    ensures var s, t := states[k], states[k + 1];
            && var refused := s.queue[0].ClientCommand? && s.queue[0].command.Request? && s.queue[0].command.id == id
                              && Waiting(t.loop.pending, id) == 0;
            var left := Waiting(s.loop.pending, id) == 1 && Waiting(t.loop.pending, id) == 0;
            AnswerCount(t.loop.events, id) == AnswerCount(s.loop.events, id) + (if left || refused then 1 else 0)
  {
    PendingOkOnRuns(states, actions, k);
    PendingOkOnRuns(states, actions, k + 1);
    hide PendingOk;
    PendingBalances(states[k]);
    PendingBalances(states[k + 1]);
    AnsweredOnLeavingStep(states[k], actions[k].writes, id);
  }

  lemma PendingBalances(s: ClientState)
    requires PendingOk(s)
    ensures Balanced(s.loop, s.processed) && AllIssued(s.loop, s.processed)
    ensures forall id: RequestId :: RequestCount(s.processed, id) <= 1
  {
    forall id: RequestId ensures RequestCount(s.processed, id) <= 1 {
      CountAtMostOnce(s.accepted, id);
      CountsAppend(s.processed, s.accepted[|s.processed|..], id);
      assert s.accepted == s.processed + s.accepted[|s.processed|..];
    }
  }

  lemma AnswersGrow(s: ClientState, w: Writes, id: RequestId)
    requires s.queue != []
    ensures AnswerCount(Dequeue(s, w).loop.events, id) >= AnswerCount(s.loop.events, id)
  {
    hide HandleMessage, HandleCommand, AnswerCount;
    if s.queue[0].ServerMessage? {
      MessageAnswers(s.loop, s.open, s.documents, s.queue[0].message, w);
    } else {
      if s.queue[0].ClientCommand? {
        CommandEmits(s.loop, s.documents, s.queue[0].command, w.first);
      }
      AnswersGrowBy(s.loop.events, Dequeue(s, w).loop.events, id);
    }
  }

  lemma AnswersGrowBy(before: seq<Event>, after: seq<Event>, id: RequestId)
    requires after == before || (|after| > |before| && after == before + [after[|before|]])
    ensures AnswerCount(after, id) >= AnswerCount(before, id)
  {
    if after != before {
      EmitCounts(before, after[|before|]);
    }
  }

  lemma CommandEmits(s: Loop, documents: Table, c: Command, ok: bool)
    ensures var t := HandleCommand(s, documents, c, ok);
            t.events == s.events || (|t.events| > |s.events| && t.events == s.events + [t.events[|s.events|]])
  {
  }

  lemma AnsweredOnLeavingStep(s: ClientState, w: Writes, id: RequestId)
    requires s.queue != [] && Balanced(s.loop, s.processed)
    requires Balanced(Dequeue(s, w).loop, Dequeue(s, w).processed)
    requires AllIssued(Dequeue(s, w).loop, Dequeue(s, w).processed)
    requires RequestCount(Dequeue(s, w).processed, id) <= 1
    ensures var t := Dequeue(s, w);
            && var refused := s.queue[0].ClientCommand? && s.queue[0].command.Request? && s.queue[0].command.id == id
                              && Waiting(t.loop.pending, id) == 0;
            var left := Waiting(s.loop.pending, id) == 1 && Waiting(t.loop.pending, id) == 0;
            AnswerCount(t.loop.events, id) == AnswerCount(s.loop.events, id) + (if left || refused then 1 else 0)
  {
    hide HandleCommand, HandleMessage, AnswerCount, RequestCount, AllIssued;
    AnswersGrow(s, w, id);
    if s.queue[0].ClientCommand? {
      LogCounts(s.processed, s.queue[0].command);
    }
  }

  /** At most one cancellation is written per request, and none for a request never made. */
  lemma CancelledAtMostOnce(states: seq<ClientState>, actions: seq<Action>, k: nat, id: RequestId)
    requires IsRun(states, actions) && k < |states|
    ensures CancelCount(states[k].loop.wire, id) <= RequestCount(states[k].processed, id)
  {
    PendingOkOnRuns(states, actions, k);
  }

  /** Feature requests and `initialize` together never fill the last slot, and at most one shutdown is ever queued. */
  lemma RoomForShutdownOnRuns(states: seq<ClientState>, actions: seq<Action>, k: nat)
    requires IsRun(states, actions) && k < |states|
    ensures |Others(states[k].loop.pending)| <= MAX_PENDING_REQUESTS - 1
    ensures ShutdownCount(states[k].accepted) <= 1
  {
    PendingOkOnRuns(states, actions, k);
  }

  /** So a dequeued shutdown is never turned away for want of a slot. */
  lemma ShutdownNeverRefused(states: seq<ClientState>, actions: seq<Action>, k: nat, w: Writes)
    requires IsRun(states, actions) && k < |states| && states[k].loop.running
    requires states[k].queue != [] && states[k].queue[0].ClientCommand? && states[k].queue[0].command.ShutdownRequest?
    ensures states[k].queue[0].command.id in Dequeue(states[k], w).loop.pending
  {
    hide Step, HandleMessage, TablesAgree, IdsOk, AllIssued, Balanced, CancelsOnce, Bounded;
    PendingOkOnRuns(states, actions, k);
    HeadIds(states[k]);
    RoomForShutdown(states[k].loop, states[k].processed);
  }

  /** Whichever deferred shutdown the hash table yields first, it is the only one. */
  lemma OneShutdown(states: seq<ClientState>, actions: seq<Action>, k: nat, a: RequestId, b: RequestId)
    requires IsRun(states, actions) && k < |states|
    requires a in states[k].loop.pending && states[k].loop.pending[a].operation.Shutdown?
    requires b in states[k].loop.pending && states[k].loop.pending[b].operation.Shutdown?
    ensures a == b
  {
    PendingOkOnRuns(states, actions, k);
    var s := states[k];
    TwoShutdowns(s.accepted, a, b);
  }

  lemma {:induction false} TwoShutdowns(log: seq<Command>, a: RequestId, b: RequestId)
    requires ShutdownRequest(a) in log && ShutdownRequest(b) in log && ShutdownCount(log) <= 1
    ensures a == b
    decreases |log|
  {
    var init, c := log[..|log| - 1], log[|log| - 1];
    assert log == init + [c];
    if c.ShutdownRequest? {
      NoShutdown(init, a);
      NoShutdown(init, b);
    } else {
      TwoShutdowns(init, a, b);
    }
  }

  lemma {:induction false} NoShutdown(log: seq<Command>, id: RequestId)
    requires ShutdownCount(log) == 0
    ensures ShutdownRequest(id) !in log
    decreases |log|
  {
    if log != [] {
      assert log == log[..|log| - 1] + [log[|log| - 1]];
      NoShutdown(log[..|log| - 1], id);
    }
  }
}
