/**
  The two document tables.

  Both are replays of one log: the API table of everything accepted, the
  protocol table of what has been processed, and the queue holds exactly the
  difference.  From that follow the agreement of the two tables, the
  unreachability of the branches that guard against disagreement, and the
  freshness of delivered results.
 */
module LspTables {
  import opened Wrappers
  import opened LspProtocol

  // ---------------------------------------------------------------------------
  // Logs
  // ---------------------------------------------------------------------------

  /** The command is one the table it meets was waiting for. */
  predicate Fits(t: Table, c: Command) {
    match c
    case DidOpen(uri, _) => uri !in t
    case DidChange(uri, version) => uri in t && version > t[uri].version
    case DidSave(uri) => uri in t
    case DidClose(uri) => uri in t
    case Request(_, operation, DocumentScope(uri, doc)) => Lookup(t, uri) == Some(doc) && IsDocumentOperation(operation)
    case Request(_, operation, WorkspaceScope) => operation.WorkspaceSymbols?
    case _ => true
  }

  predicate EachFits(log: seq<Command>) {
    log == [] || (EachFits(log[..|log| - 1]) && Fits(Replay(log[..|log| - 1]), log[|log| - 1]))
  }

  predicate OpensBelow(log: seq<Command>, bound: nat) {
    forall c <- log :: c.DidOpen? ==> c.doc.incarnation < bound
  }

  /** No incarnation is used twice: each open takes a larger one than all before it. */
  predicate OpensRise(log: seq<Command>) {
    log == []
    || (OpensRise(log[..|log| - 1])
        && (log[|log| - 1].DidOpen? ==> OpensBelow(log[..|log| - 1], log[|log| - 1].doc.incarnation)))
  }

  lemma Snoc(log: seq<Command>, c: Command)
    ensures Replay(log + [c]) == Apply(Replay(log), c)
    ensures EachFits(log + [c]) <==> EachFits(log) && Fits(Replay(log), c)
    ensures OpensRise(log + [c]) <==> OpensRise(log) && (c.DidOpen? ==> OpensBelow(log, c.doc.incarnation))
  {
    assert (log + [c])[..|log|] == log;
  }

  lemma {:induction false} ReplayAppend(log: seq<Command>, more: seq<Command>)
    ensures Replay(log + more) == ApplyAll(Replay(log), more)
    decreases |more|
  {
    if more == [] {
      assert log + more == log;
    } else {
      Snoc(log, more[0]);
      ReplayAppend(log + [more[0]], more[1..]);
      assert log + more == log + [more[0]] + more[1..];
    }
  }

  lemma {:induction false} FitsAt(log: seq<Command>, k: nat)
    requires EachFits(log) && k < |log|
    ensures Fits(Replay(log[..k]), log[k])
    decreases |log|
  {
    if k < |log| - 1 {
      FitsAt(log[..|log| - 1], k);
      assert log[..|log| - 1][..k] == log[..k];
    }
  }

  lemma {:induction false} CommandsSnoc(queue: seq<Input>, input: Input)
    ensures Commands(queue + [input]) == Commands(queue) + (if input.ClientCommand? then [input.command] else [])
    decreases |queue|
  {
    var longer := queue + [input];
    if queue == [] {
      assert longer == [input] && longer[1..] == [];
    } else {
      assert longer[0] == queue[0] && longer[1..] == queue[1..] + [input];
      CommandsSnoc(queue[1..], input);
    }
  }

  /** Every document in a table was put there by an open of that incarnation. */
  lemma {:induction false} OpenOf(log: seq<Command>, uri: Uri, bound: nat)
    requires uri in Replay(log) && OpensBelow(log, bound)
    ensures Replay(log)[uri].incarnation < bound
    decreases |log|
  {
    var n := |log| - 1;
    if !(log[n].DidOpen? && log[n].uri == uri) {
      OpenOf(log[..n], uri, bound);
    }
  }

  // ---------------------------------------------------------------------------
  // The invariant
  // ---------------------------------------------------------------------------

  ghost predicate TablesAgree(s: ClientState) {
    && s.open == Replay(s.accepted)
    && s.documents == Replay(s.processed)
    && s.processed <= s.accepted
    && (s.loop.running ==> s.accepted == s.processed + Commands(s.queue))
    && EachFits(s.accepted)
    && OpensRise(s.accepted)
    && (s.nextIncarnation.Some? ==> OpensBelow(s.accepted, s.nextIncarnation.value))
  }

  /** A call that is accepted puts one command at the end of the log and of the queue. */
  ghost predicate Accepts(s: ClientState, t: ClientState, c: Command) {
    && Fits(s.open, c)
    && t.queue == s.queue + [ClientCommand(c)] && t.accepted == s.accepted + [c] && t.open == Apply(s.open, c)
    && t.documents == s.documents && t.processed == s.processed && t.loop.running == s.loop.running
    && (if c.DidOpen? then
          && s.nextIncarnation == Some(c.doc.incarnation)
          && (t.nextIncarnation.Some? ==> t.nextIncarnation.value == c.doc.incarnation + 1)
        else t.nextIncarnation == s.nextIncarnation)
  }

  /** A call that is refused changes no table, no log and not the queue. */
  predicate Refuses(s: ClientState, t: ClientState) {
    && t.open == s.open && t.documents == s.documents && t.accepted == s.accepted && t.processed == s.processed
    && t.nextIncarnation == s.nextIncarnation && t.queue == s.queue && t.loop.running == s.loop.running
  }

  lemma AcceptKeeps(s: ClientState, t: ClientState, c: Command)
    requires TablesAgree(s) && Accepts(s, t, c)
    ensures TablesAgree(t)
  {
    Snoc(s.accepted, c);
    CommandsSnoc(s.queue, ClientCommand(c));
  }

  /** Every call either accepts one fitting command or rolls back completely. */
  ghost predicate AcceptsOrRefuses(s: ClientState, t: ClientState) {
    Refuses(s, t) || (|t.accepted| > |s.accepted| && Accepts(s, t, t.accepted[|s.accepted|]))
  }

  lemma DocumentCallAcceptsOrRefuses(s: ClientState, a: Action)
    requires Enabled(s, a) && (a.DoOpen? || a.DoChange? || a.DoSave? || a.DoClose?)
    ensures AcceptsOrRefuses(s, Step(s, a))
  {
  }

  lemma OtherCallAcceptsOrRefuses(s: ClientState, a: Action)
    requires Enabled(s, a) && !(a.DoOpen? || a.DoChange? || a.DoSave? || a.DoClose?) && !a.Handle? && !a.Arrive?
    ensures AcceptsOrRefuses(s, Step(s, a))
  {
  }

  lemma ArriveKeepsTables(s: ClientState, input: Input)
    requires TablesAgree(s) && !input.ClientCommand?
    ensures TablesAgree(s.(queue := s.queue + [input]))
  {
    CommandsSnoc(s.queue, input);
    assert s.accepted == s.accepted + [];
  }

  lemma HandleKeepsTables(s: ClientState, w: Writes)
    requires TablesAgree(s) && s.loop.running && s.queue != []
    ensures TablesAgree(Dequeue(s, w))
  {
    hide HandleMessage, HandleCommand, Replay, EachFits, OpensRise, OpensBelow;
    if s.queue[0].ClientCommand? {
      HandleCommandKeepsTables(s, w, s.queue[0].command);
    } else {
      CommandsHead(s.queue);
      hide Commands;
    }
  }

  lemma CommandsHead(queue: seq<Input>)
    requires queue != []
    ensures Commands(queue) == (if queue[0].ClientCommand? then [queue[0].command] else []) + Commands(queue[1..])
  {
  }

  lemma HandleCommandKeepsTables(s: ClientState, w: Writes, c: Command)
    requires TablesAgree(s) && s.loop.running && s.queue != [] && s.queue[0] == ClientCommand(c)
    ensures TablesAgree(Dequeue(s, w))
  {
    hide HandleMessage, HandleCommand, EachFits, OpensRise, OpensBelow;
    Snoc(s.processed, c);
    CommandsHead(s.queue);
    hide Replay, Commands;
    assert s.accepted == s.processed + [c] + Commands(s.queue[1..]);
  }

  lemma StepKeepsTables(s: ClientState, a: Action)
    requires TablesAgree(s) && Enabled(s, a)
    ensures TablesAgree(Step(s, a))
  {
    hide Dequeue, AcceptsOrRefuses, Accepts, Refuses;
    if a.Handle? {
      HandleKeepsTables(s, a.writes);
    } else if a.Arrive? {
      ArriveKeepsTables(s, a.input);
    } else {
      if a.DoOpen? || a.DoChange? || a.DoSave? || a.DoClose? {
        DocumentCallAcceptsOrRefuses(s, a);
      } else {
        OtherCallAcceptsOrRefuses(s, a);
      }
      CallKeepsTables(s, Step(s, a));
    }
  }

  lemma CallKeepsTables(s: ClientState, t: ClientState)
    requires TablesAgree(s) && AcceptsOrRefuses(s, t)
    ensures TablesAgree(t)
  {
    if !Refuses(s, t) {
      AcceptKeeps(s, t, t.accepted[|s.accepted|]);
    }
  }

  lemma {:induction false} TablesAgreeOnRuns(states: seq<ClientState>, actions: seq<Action>, k: nat)
    requires IsRun(states, actions) && k < |states|
    ensures TablesAgree(states[k])
  {
    hide Step;
    if k > 0 {
      TablesAgreeOnRuns(states, actions, k - 1);
      StepKeepsTables(states[k - 1], actions[k - 1]);
    }
  }

  // ---------------------------------------------------------------------------
  // What follows from it
  // ---------------------------------------------------------------------------

  /** The API table is the protocol table with everything still queued applied in order. */
  lemma QueueBridgesTables(states: seq<ClientState>, actions: seq<Action>, k: nat)
    requires IsRun(states, actions) && k < |states| && states[k].loop.running
    ensures states[k].open == ApplyAll(states[k].documents, Commands(states[k].queue))
  {
    TablesAgreeOnRuns(states, actions, k);
    ReplayAppend(states[k].processed, Commands(states[k].queue));
  }

  lemma HeadFits(s: ClientState)
    requires TablesAgree(s) && s.loop.running && s.queue != [] && s.queue[0].ClientCommand?
    ensures |s.processed| < |s.accepted| && s.accepted[|s.processed|] == s.queue[0].command
    ensures Fits(s.documents, s.queue[0].command)
  {
    FitsAt(s.accepted, |s.processed|);
    assert s.accepted[..|s.processed|] == s.processed;
  }

  /**
    A dequeued request finds its exact document state, a dequeued change is
    newer than what it replaces, and opens and closes alternate.  So admission
    never answers a request as stale and never skips a change.
   */
  lemma DequeuedCommandFits(states: seq<ClientState>, actions: seq<Action>, k: nat, ok: bool)
    requires IsRun(states, actions) && k < |states| && states[k].loop.running
    requires states[k].queue != [] && states[k].queue[0].ClientCommand?
    ensures Fits(states[k].documents, states[k].queue[0].command)
    ensures var c := states[k].queue[0].command;
            var after := HandleCommand(states[k].loop, states[k].documents, c, ok);
            && (after.events == states[k].loop.events || !after.events[|after.events| - 1].StaleResponse?)
            && (c.DidChange? && ok ==> after.wire == states[k].loop.wire + [CommandFrame(c)])
  {
    TablesAgreeOnRuns(states, actions, k);
    HeadFits(states[k]);
  }

  // ---------------------------------------------------------------------------
  // Freshness
  // ---------------------------------------------------------------------------

  predicate Touches(c: Command, uri: Uri) {
    (c.DidOpen? || c.DidChange? || c.DidClose?) && c.uri == uri
  }

  /** Some command accepted at index `from` or later opened, changed or closed the document. */
  predicate TouchedSince(log: seq<Command>, uri: Uri, from: nat)
    requires from <= |log|
  {
    exists c <- log[from..] :: Touches(c, uri)
  }

  /** Later than `d`: a newer version of the incarnation, or a newer incarnation. */
  predicate Later(d: Doc, e: Doc) {
    e.incarnation > d.incarnation || (e.incarnation == d.incarnation && e.version > d.version)
  }

  /** A document state, once left, is never met again. */
  lemma {:induction false} NeverAgain(log: seq<Command>, uri: Uri, d: Doc, from: nat)
    requires EachFits(log) && OpensRise(log)
    requires from <= |log| && Lookup(Replay(log[..from]), uri) == Some(d)
    ensures TouchedSince(log, uri, from) ==> uri in Replay(log) ==> Later(d, Replay(log)[uri])
    ensures !TouchedSince(log, uri, from) ==> Lookup(Replay(log), uri) == Some(d)
    decreases |log|
  {
    if from == |log| {
      assert log[..from] == log;
    } else {
      var before, c := log[..|log| - 1], log[|log| - 1];
      assert before[..from] == log[..from];
      assert log[from..] == before[from..] + [c];
      NeverAgain(before, uri, d, from);
      assert Touches(c, uri) ==> c in log[from..];
      assert TouchedSince(log, uri, from) <==> TouchedSince(before, uri, from) || Touches(c, uri);
      if c.DidOpen? && c.uri == uri {
        assert forall e <- before[..from] :: e in before;
        OpenOf(before[..from], uri, c.doc.incarnation);
      }
    }
  }

  /**
    The delivery check, read against the history: a document state captured
    when a request was accepted is still the current one exactly when nothing
    accepted since has changed or closed that document.  Closing and reopening
    it under the same version does not pass, because incarnations are never
    reused.
   */
  lemma CurrentIffUntouched(s: ClientState, k: nat)
    requires TablesAgree(s) && k < |s.accepted|
    requires s.accepted[k].Request? && s.accepted[k].scope.DocumentScope?
    ensures Lookup(s.open, s.accepted[k].scope.uri) == Some(s.accepted[k].scope.doc)
        <==> !TouchedSince(s.accepted, s.accepted[k].scope.uri, k)
  {
    var scope := s.accepted[k].scope;
    FitsAt(s.accepted, k);
    NeverAgain(s.accepted, scope.uri, scope.doc, k);
  }
}
