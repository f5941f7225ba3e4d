/**
  A delivered document result is about the document as it still is.
 */
module LspFreshness {
  import opened Wrappers
  import opened LspProtocol
  import opened LspTables
  import opened LspPending

  /** A document answer and what it claims: a result needs the captured state to be current, staleness the opposite. */
  predicate Claims(e: Event, pending: PendingTable, open: Table) {
    match e
    case FeatureResult(id, operation, uri, version) =>
      && id in pending && pending[id].operation == operation && pending[id].scope.Some?
      && pending[id].scope.value.DocumentScope? && pending[id].scope.value.uri == uri
      && pending[id].scope.value.doc.version == version && Lookup(open, uri) == Some(pending[id].scope.value.doc)
    case StaleResponse(id, operation, uri, requested, current) =>
      && id in pending && pending[id].operation == operation && pending[id].scope.Some?
      && pending[id].scope.value.DocumentScope? && pending[id].scope.value.uri == uri
      && pending[id].scope.value.doc.version == requested && Lookup(open, uri) != Some(pending[id].scope.value.doc)
    case _ => true
  }

  predicate NewClaims(before: seq<Event>, after: seq<Event>, pending: PendingTable, open: Table) {
    forall e <- after :: e in before || Claims(e, pending, open)
  }

  lemma CorrelatedFailureClaims(
      s: Loop, id: RequestId, operation: Operation, ok: bool, pending: PendingTable, open: Table)
    ensures NewClaims(s.events, CorrelatedFailure(s, id, operation, ok).events, pending, open)
  {
  }

  lemma ResultClaims(s: Loop, open: Table, id: RequestId, p: Pending, w: Writes, pending: PendingTable)
    requires id in pending && pending[id] == p
    ensures NewClaims(s.events, HandleResult(s, open, id, p, w).events, pending, open)
  {
    hide CorrelatedFailure, HandleInitialized;
    CorrelatedFailureClaims(s, id, p.operation, w.first, pending, open);
    InitializedClaims(s, w, pending, open);
  }

  lemma InitializedClaims(s: Loop, w: Writes, pending: PendingTable, open: Table)
    ensures NewClaims(s.events, HandleInitialized(s, w).events, pending, open)
  {
  }

  lemma ResponseClaims(
      s: Loop, open: Table, id: RequestId, p: Pending, hasResult: bool, error: ErrorField, w: Writes,
      pending: PendingTable)
    requires id in pending && pending[id] == p
    ensures NewClaims(s.events, HandleResponse(s, open, id, p, hasResult, error, w).events, pending, open)
  {
    hide CorrelatedFailure, HandleResult;
    CorrelatedFailureClaims(s, id, p.operation, w.first, pending, open);
    ResultClaims(s, open, id, p, w, pending);
  }

  lemma MessageClaims(s: Loop, open: Table, documents: Table, m: Message, w: Writes)
    ensures NewClaims(s.events, HandleMessage(s, open, documents, m, w).events, s.pending, open)
  {
    hide CorrelatedFailure, HandleResponse;
    if m.Rpc? && m.id.NumericId? && m.id.id in s.pending {
      var id := m.id.id;
      CorrelatedFailureClaims(Settle(s, id), id, s.pending[id].operation, w.first, s.pending, open);
      ResponseClaims(Settle(s, id), open, id, s.pending[id], m.hasResult, m.error, w, s.pending);
    }
  }

  lemma CommandClaims(s: Loop, documents: Table, c: Command, ok: bool, open: Table)
    requires Fits(documents, c)
    ensures NewClaims(s.events, HandleCommand(s, documents, c, ok).events, s.pending, open)
  {
  }

  lemma DequeueClaims(s: ClientState, w: Writes)
    requires TablesAgree(s) && s.loop.running && s.queue != []
    ensures NewClaims(s.loop.events, Dequeue(s, w).loop.events, s.loop.pending, s.open)
  {
    hide HandleCommand, HandleMessage, NewClaims, TablesAgree;
    match s.queue[0]
    case ClientCommand(c) =>
      HeadFits(s);
      CommandClaims(s.loop, s.documents, c, w.first, s.open);
    case ServerMessage(m) => MessageClaims(s.loop, s.open, s.documents, m, w);
    case _ => LooseClaims(s, w);
  }

  lemma LooseClaims(s: ClientState, w: Writes)
    requires s.queue != [] && !s.queue[0].ClientCommand? && !s.queue[0].ServerMessage?
    ensures NewClaims(s.loop.events, Dequeue(s, w).loop.events, s.loop.pending, s.open)
  {
  }

  /** The request behind a waiting entry, at its place in the log. */
  lemma RequestInLog(s: ClientState, id: RequestId) returns (j: nat)
    requires PendingOk(s) && id in s.loop.pending && s.loop.pending[id].scope.Some?
    ensures j < |s.accepted|
    ensures s.accepted[j] == Request(id, s.loop.pending[id].operation, s.loop.pending[id].scope.value)
  {
    var c := Request(id, s.loop.pending[id].operation, s.loop.pending[id].scope.value);
    assert Issued(s.processed, id, s.loop.pending[id]);
    j :| 0 <= j < |s.processed| && s.processed[j] == c;
  }

  /**
    Freshness without ABA.  When a step emits a document result, the log of
    everything the API accepted holds the request, and after it nothing that
    opened, changed or closed the document: not even a close and a reopening
    that arrived at the same version number.
   */
  lemma DeliveredResultIsFresh(
      states: seq<ClientState>, actions: seq<Action>, k: nat, id: RequestId, operation: Operation,
      uri: Uri, version: nat)
    returns (j: nat)
    requires IsRun(states, actions) && k < |actions| && actions[k].Handle?
    requires FeatureResult(id, operation, uri, version) in states[k + 1].loop.events
    requires FeatureResult(id, operation, uri, version) !in states[k].loop.events
    ensures j < |states[k].accepted| && states[k].accepted[j].Request? && states[k].accepted[j].id == id
    ensures states[k].accepted[j].scope.DocumentScope? && states[k].accepted[j].scope.uri == uri
    ensures states[k].accepted[j].scope.doc.version == version
    ensures !TouchedSince(states[k].accepted, uri, j)
  {
    hide Dequeue;
    var s := states[k];
    PendingOkOnRuns(states, actions, k);
    DequeueClaims(s, actions[k].writes);
    assert Claims(FeatureResult(id, operation, uri, version), s.loop.pending, s.open);
    j := RequestInLog(s, id);
    CurrentIffUntouched(s, j);
  }

  /**
    And exactly: a well-formed result for a waiting document request is
    delivered if nothing accepted since the request touched its document, and
    reported stale otherwise.
   */
  lemma DeliveredIffUntouched(states: seq<ClientState>, actions: seq<Action>, k: nat, w: Writes, id: RequestId)
    returns (j: nat)
    requires IsRun(states, actions) && k < |states| && states[k].loop.running
    requires states[k].queue != []
    requires states[k].queue[0] == ServerMessage(Rpc(true, None, NumericId(id), true, NoError))
    requires id in states[k].loop.pending && IsDocumentOperation(states[k].loop.pending[id].operation)
    ensures j < |states[k].accepted| && states[k].accepted[j].Request? && states[k].accepted[j].id == id
    ensures states[k].accepted[j].scope.DocumentScope?
    ensures var s, c := states[k], states[k].accepted[j];
            Dequeue(s, w).loop.events == s.loop.events + [
              if TouchedSince(s.accepted, c.scope.uri, j)
              then StaleResponse(id, c.operation, c.scope.uri, c.scope.doc.version,
                                 VersionOf(Lookup(s.open, c.scope.uri)))
              else FeatureResult(id, c.operation, c.scope.uri, c.scope.doc.version)]
  {
    var s := states[k];
    PendingOkOnRuns(states, actions, k);
    assert Issued(s.processed, id, s.loop.pending[id]);
    j := RequestInLog(s, id);
    FitsAt(s.accepted, j);
    CurrentIffUntouched(s, j);
  }

  /**
    A publication is judged against the replay of the commands taken off the
    queue: stale exactly when it names another version than the document then
    has, delivered with that document state otherwise.  The state observed is
    the one the API shows if and only if nothing still queued touches the
    document.
   */
  lemma PublicationJudged(
      states: seq<ClientState>, actions: seq<Action>, k: nat, w: Writes, m: Message, uri: Uri, version: Option<nat>)
    requires IsRun(states, actions) && k < |states| && states[k].loop.running
    requires states[k].queue != [] && states[k].queue[0] == ServerMessage(m)
    requires m.Rpc? && m.versionOk && m.id.NoId?
    requires m.rpcMethod == Some(PublishDiagnostics(Publication(uri, version)))
    ensures var s, held := states[k], Lookup(Replay(states[k].processed), uri);
            && Dequeue(s, w).loop.events == s.loop.events + [
                 if version.Some? && held.Some? && version.value != held.value.version
                 then StaleDiagnostics(uri, version.value, held.value.version)
                 else Diagnostics(uri, version, held)]
            && (held.Some? ==> (Lookup(s.open, uri) == held <==> forall c <- Commands(s.queue) :: !Touches(c, uri)))
            && (held.None? && (forall c <- Commands(s.queue) :: !Touches(c, uri)) ==> Lookup(s.open, uri).None?)
  {
    var s := states[k];
    TablesAgreeOnRuns(states, actions, k);
    hide Step;
    var from := |s.processed|;
    assert s.accepted[..from] == s.processed && s.accepted[from..] == Commands(s.queue);
    var held := Lookup(Replay(s.processed), uri);
    if held.Some? {
      NeverAgain(s.accepted, uri, held.value, from);
    } else if !TouchedSince(s.accepted, uri, from) {
      StaysClosed(s.accepted, uri, from);
    }
  }

  lemma {:induction false} StaysClosed(log: seq<Command>, uri: Uri, from: nat)
    requires from <= |log| && uri !in Replay(log[..from]) && !TouchedSince(log, uri, from)
    ensures uri !in Replay(log)
    decreases |log|
  {
    if from == |log| {
      assert log[..from] == log;
    } else {
      var before, c := log[..|log| - 1], log[|log| - 1];
      assert before[..from] == log[..from];
      assert log[from..] == before[from..] + [c];
      assert c in log[from..];
      assert forall b <- before[from..] :: b in log[from..];
      StaysClosed(before, uri, from);
    }
  }
}
