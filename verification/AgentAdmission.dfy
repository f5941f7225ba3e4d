/**
  The single admission point for the agent runs of one workspace: starting,
  replacing and cancelling runs, and admitting events into a run's receipt.
 */
module AgentAdmission {
  import opened Wrappers
  import opened Machine
  import opened AgentContract

  const MAX_RECEIPT_EVENTS: nat := 256

  datatype ActiveRun = ActiveRun(sessionId: string, packet: WorkPacket, generation: nat)

  datatype Coordination = Coordination(
    workspaceId: nat, generation: nat, lastSequence: nat, runState: RunState,
    active: Option<ActiveRun>, receipt: seq<Event>, closedSessionId: Option<string>)
  {
    predicate IsActive() { active.Some? && runState != Closed }
  }

  datatype StartError = BadContract(error: ContractError) | WorkspaceMismatch(coordinator: nat, packet: nat)
    | AlreadyActive
  datatype StartResult = Started(generation: nat) | NotStarted(error: StartError)

  datatype CancelReceipt = CancelReceipt(sessionId: string, cancelled: nat, current: nat)

  datatype AdmitError =
    | NoActiveRun
    | RunClosed
    | WrongWorkspace(expected: nat, actual: nat)
    | WrongSession
    | StaleGeneration(expected: nat, actual: nat)
    | ReplayOrOutOfOrder(expected: nat, actual: nat)
    | Contract(error: ContractError)
    | PathOutOfScope(path: Path)
    | EditAuthorityRequired
    | ReceiptFull

  datatype AdmitOutcome = AdmitOutcome(sequence: nat, runState: RunState, receiptLength: nat)
  datatype AdmitResult = Admitted(outcome: AdmitOutcome) | Refused(error: AdmitError)

  // ---------------------------------------------------------------------------
  // What each operation does
  // ---------------------------------------------------------------------------

  function Initial(workspaceId: nat): Coordination {
    Coordination(workspaceId, 0, 0, Closed, None, [], None)
  }

  function NextGeneration(current: nat): nat {
    if current >= U64_MAX then 1 else current + 1
  }

  function StartFault(s: Coordination, sessionId: string, packet: WorkPacket, replaceActive: bool): Option<StartError> {
    if IdFault(sessionId, "session_id").Some? then Some(BadContract(IdFault(sessionId, "session_id").value))
    else if PacketFault(packet).Some? then Some(BadContract(PacketFault(packet).value))
    else if packet.workspaceId != s.workspaceId then Some(WorkspaceMismatch(s.workspaceId, packet.workspaceId))
    else if s.IsActive() && !replaceActive then Some(AlreadyActive)
    else None
  }

  function Start(s: Coordination, sessionId: string, packet: WorkPacket, replaceActive: bool): Coordination {
    if StartFault(s, sessionId, packet, replaceActive).Some? then s
    else
      var generation := NextGeneration(s.generation);
      Coordination(s.workspaceId, generation, 0, Brief, Some(ActiveRun(sessionId, packet, generation)), [], None)
  }

  function Cancel(s: Coordination): Coordination {
    match s.active
    case None => s
    case Some(run) =>
      s.(generation := NextGeneration(s.generation), lastSequence := 0, runState := Closed,
         active := None, closedSessionId := Some(run.sessionId))
  }

  /** The event as it is stored: with its path, if any, in normal form. */
  function Stored(e: Event): Event {
    match e.path
    case None => e
    case Some(path) => if Reduced(path).Some? then e.(path := Some(Reduced(path).value)) else e
  }

  function ScopeFault(packet: WorkPacket, e: Event): Option<AdmitError> {
    match e.path
    case None => None
    case Some(path) =>
      match Normalized(path, false)
      case Err(error) => Some(Contract(error))
      case Ok(normalized) =>
        match AllowsPath(packet, normalized)
        case Invalid(error) => Some(Contract(error))
        case Denied => Some(PathOutOfScope(normalized))
        case Allowed => None
  }

  function AdmitFault(s: Coordination, e: Event): Option<AdmitError> {
    if s.active.None? then Some(NoActiveRun)
    else if s.runState == Closed then Some(RunClosed)
    else if e.workspaceId != s.workspaceId then Some(WrongWorkspace(s.workspaceId, e.workspaceId))
    else
      var run := s.active.value;
      var expected := SaturatingNext(s.lastSequence, U64_MAX);
      if e.sessionId != run.sessionId then Some(WrongSession)
      else if e.generation != run.generation then Some(StaleGeneration(run.generation, e.generation))
      else if e.sequence != expected then Some(ReplayOrOutOfOrder(expected, e.sequence))
      else if EventFault(e).Some? then Some(Contract(EventFault(e).value))
      else if ScopeFault(run.packet, e).Some? then ScopeFault(run.packet, e)
      else if e.kind.PathTouched? && !run.packet.authority.edit then Some(EditAuthorityRequired)
      else if |s.receipt| >= MAX_RECEIPT_EVENTS then Some(ReceiptFull)
      else None
  }

  function StateAfter(current: RunState, e: Event): RunState {
    if e.runState.Some? then e.runState.value else if e.kind.ReviewReady? then Review else current
  }

  function Admit(s: Coordination, e: Event): Coordination {
    if AdmitFault(s, e).Some? then s
    else
      var runState := StateAfter(s.runState, e);
      var recorded := s.(runState := runState, lastSequence := e.sequence, receipt := s.receipt + [Stored(e)]);
      if runState == Closed then recorded.(active := None, closedSessionId := Some(s.active.value.sessionId))
      else recorded
  }

  function AdmitReport(s: Coordination, e: Event): AdmitResult {
    if AdmitFault(s, e).Some? then Refused(AdmitFault(s, e).value)
    else Admitted(AdmitOutcome(Admit(s, e).lastSequence, Admit(s, e).runState, |Admit(s, e).receipt|))
  }

  // ---------------------------------------------------------------------------
  // What every history keeps
  // ---------------------------------------------------------------------------

  /** A receipt entry of a run. */
  ghost predicate Belongs(e: Event, workspaceId: nat, run: ActiveRun) {
    && e.workspaceId == workspaceId && e.sessionId == run.sessionId && e.generation == run.generation
    && EventFault(e).None?
    && (e.path.Some? ==> InScope(run.packet, e.path.value))
    && (e.kind.PathTouched? ==> e.path.Some? && run.packet.authority.edit)
  }

  ghost predicate Numbered(receipt: seq<Event>) {
    |receipt| <= MAX_RECEIPT_EVENTS && forall i | 0 <= i < |receipt| :: receipt[i].sequence == i + 1
  }

  ghost predicate Sound(s: Coordination) {
    && Numbered(s.receipt)
    && (s.active.None? <==> s.runState == Closed)
    && (s.active.Some? ==>
          && s.active.value.generation == s.generation
          && s.active.value.packet.workspaceId == s.workspaceId && PacketFault(s.active.value.packet).None?
          && s.lastSequence == |s.receipt|
          && forall e <- s.receipt :: Belongs(e, s.workspaceId, s.active.value))
    && s.lastSequence <= |s.receipt|
  }

  /** The normal form of a well-formed event is well formed, and only a path out of scope can keep it out. */
  lemma StoredIsSound(packet: WorkPacket, e: Event)
    requires EventFault(e).None?
    ensures EventFault(Stored(e)).None?
    ensures e.path.None? ==> ScopeFault(packet, e).None?
    ensures e.path.Some? ==>
              && Reduced(e.path.value).Some? && Stored(e).path == Reduced(e.path.value)
              && (ScopeFault(packet, e).None? <==> InScope(packet, Reduced(e.path.value).value))
              && (ScopeFault(packet, e).Some? ==>
                    ScopeFault(packet, e) == Some(PathOutOfScope(Reduced(e.path.value).value)))
  {
    hide IdFault, IsBlank;
    if e.path.Some? {
      NormalIsFixed(Reduced(e.path.value).value);
    }
  }

  lemma AdmitIsSound(s: Coordination, e: Event)
    requires Sound(s)
    ensures Sound(Admit(s, e))
  {
    hide EventFault, Stored, ScopeFault, InScope, PacketFault;
    if AdmitFault(s, e).None? {
      var packet := s.active.value.packet;
      StoredIsSound(packet, e);
      StoredKeeps(e);
      assert Belongs(Stored(e), s.workspaceId, s.active.value);
    }
  }

  lemma StoredKeeps(e: Event)
    ensures Stored(e).(path := e.path) == e && (e.path.None? ==> Stored(e) == e)
    ensures EventFault(e).None? && e.kind.PathTouched? ==> e.path.Some?
  {
  }

  datatype Operation =
    | Starting(sessionId: string, packet: WorkPacket, replaceActive: bool)
    | Cancelling
    | Admitting(event: Event)

  function Step(s: Coordination, op: Operation): Coordination {
    match op
    case Starting(sessionId, packet, replaceActive) => Start(s, sessionId, packet, replaceActive)
    case Cancelling => Cancel(s)
    case Admitting(event) => Admit(s, event)
  }

  function Run(workspaceId: nat, log: seq<Operation>): Coordination {
    if log == [] then Initial(workspaceId) else Step(Run(workspaceId, log[..|log| - 1]), log[|log| - 1])
  }

  /**
    While a run is active its receipt is numbered 1 to n, n at most 256, every
    entry is of this workspace, session and generation, every stored path is
    normal and in scope, and touched paths had the authority to be edited.
   */
  lemma {:induction false} SoundOnRuns(workspaceId: nat, log: seq<Operation>)
    ensures Sound(Run(workspaceId, log)) && Run(workspaceId, log).workspaceId == workspaceId
  {
    hide Sound, Start, Cancel, Admit;
    if log == [] {
      InitialIsSound(workspaceId);
    } else {
      var s := Run(workspaceId, log[..|log| - 1]);
      SoundOnRuns(workspaceId, log[..|log| - 1]);
      match log[|log| - 1]
      case Starting(sessionId, packet, replaceActive) => StartIsSound(s, sessionId, packet, replaceActive);
      case Cancelling => CancelIsSound(s);
      case Admitting(event) =>
        AdmitIsSound(s, event);
        AdmitStays(s, event);
    }
  }

  lemma InitialIsSound(workspaceId: nat)
    ensures Sound(Initial(workspaceId))
  {
  }

  lemma StartIsSound(s: Coordination, sessionId: string, packet: WorkPacket, replaceActive: bool)
    requires Sound(s)
    ensures Sound(Start(s, sessionId, packet, replaceActive))
    ensures Start(s, sessionId, packet, replaceActive).workspaceId == s.workspaceId
  {
    hide PacketFault, IdFault;
  }

  lemma CancelIsSound(s: Coordination)
    requires Sound(s)
    ensures Sound(Cancel(s)) && Cancel(s).workspaceId == s.workspaceId
  {
  }

  lemma AdmitStays(s: Coordination, e: Event)
    ensures Admit(s, e).workspaceId == s.workspaceId && Admit(s, e).generation == s.generation
  {
    hide AdmitFault;
  }

  /** An active run is never closed: no history meets this refusal. */
  lemma {:induction false} NeverRunClosed(workspaceId: nat, log: seq<Operation>, e: Event)
    ensures AdmitFault(Run(workspaceId, log), e) != Some(RunClosed)
  {
    hide EventFault, ScopeFault;
    SoundOnRuns(workspaceId, log);
    ScopeFaultIsNotClosed(Run(workspaceId, log), e);
  }

  lemma ScopeFaultIsNotClosed(s: Coordination, e: Event)
    ensures s.active.Some? ==> ScopeFault(s.active.value.packet, e) != Some(RunClosed)
  {
  }

  predicate PathReduces(e: Event) { e.path.Some? ==> Reduced(e.path.value).Some? }

  /** What an event needs apart from its identity and number. */
  ghost predicate Fitting(packet: WorkPacket, e: Event) {
    && EventFault(e).None? && PathReduces(e)
    && (e.path.Some? ==> InScope(packet, Reduced(e.path.value).value))
    && (e.kind.PathTouched? ==> packet.authority.edit)
  }

  /**
    An event of the active run, next in number, well formed, in scope and with authority,
    while the receipt has room.
   */
  ghost predicate Admissible(s: Coordination, e: Event) {
    && s.active.Some?
    && e.workspaceId == s.workspaceId && e.sessionId == s.active.value.sessionId && e.generation == s.generation
    && e.sequence == |s.receipt| + 1 && |s.receipt| < MAX_RECEIPT_EVENTS
    && Fitting(s.active.value.packet, e)
  }

  /** Which events get in, in one formula. */
  lemma AdmittedIff(workspaceId: nat, log: seq<Operation>, e: Event)
    ensures AdmitFault(Run(workspaceId, log), e).None? <==> Admissible(Run(workspaceId, log), e)
  {
    hide InScope, EventFault, Run, ScopeFault, Belongs;
    var s := Run(workspaceId, log);
    SoundOnRuns(workspaceId, log);
    if EventFault(e).None? && s.active.Some? {
      StoredIsSound(s.active.value.packet, e);
    }
  }

  /** The reason for a refusal holds, with the numbers it names. */
  lemma RefusalIsTrue(workspaceId: nat, log: seq<Operation>, e: Event)
    requires AdmitFault(Run(workspaceId, log), e).Some?
    ensures var s := Run(workspaceId, log);
            match AdmitFault(s, e).value
            case NoActiveRun => s.active.None?
            case RunClosed => false
            case WrongWorkspace(expected, actual) => expected == workspaceId != actual == e.workspaceId
            case WrongSession => s.active.Some? && e.sessionId != s.active.value.sessionId
            case StaleGeneration(expected, actual) => expected == s.generation != actual == e.generation
            case ReplayOrOutOfOrder(expected, actual) => expected == |s.receipt| + 1 != actual == e.sequence
            case Contract(error) => EventFault(e) == Some(error)
            case PathOutOfScope(path) =>
              && e.path.Some? && Reduced(e.path.value) == Some(path)
              && s.active.Some? && !InScope(s.active.value.packet, path)
            case EditAuthorityRequired => e.kind.PathTouched? && s.active.Some? && !s.active.value.packet.authority.edit
            case ReceiptFull => |s.receipt| == MAX_RECEIPT_EVENTS
  {
    hide InScope, EventFault, Run, ScopeFault, Belongs;
    var s := Run(workspaceId, log);
    SoundOnRuns(workspaceId, log);
    if EventFault(e).None? && s.active.Some? {
      StoredIsSound(s.active.value.packet, e);
    }
  }

  // ---------------------------------------------------------------------------
  // The run, read off the history
  // ---------------------------------------------------------------------------

  /** The session and packet of the latest run that a history started. */
  function LastStarted(workspaceId: nat, log: seq<Operation>): Option<(string, WorkPacket)> {
    if log == [] then None
    else
      var before, op := log[..|log| - 1], log[|log| - 1];
      if op.Starting? && StartFault(Run(workspaceId, before), op.sessionId, op.packet, op.replaceActive).None?
      then Some((op.sessionId, op.packet)) else LastStarted(workspaceId, before)
  }

  /** The state a receipt ends in: the last one an event names, review being ready if none is named. */
  function StateOf(receipt: seq<Event>): RunState {
    if receipt == [] then Brief
    else
      var last := receipt[|receipt| - 1];
      if last.runState.Some? then last.runState.value
      else if last.kind == ReviewReady then Review
      else StateOf(receipt[..|receipt| - 1])
  }

  /** The active run is the one last started, in the state its receipt ends in; one that is over leaves its session. */
  ghost predicate Traced(s: Coordination, last: Option<(string, WorkPacket)>) {
    && (s.active.Some? ==>
          && last == Some((s.active.value.sessionId, s.active.value.packet)) && s.closedSessionId.None?
          && s.runState == StateOf(s.receipt))
    && (s.active.None? ==> s.closedSessionId == if last.Some? then Some(last.value.0) else None)
  }

  lemma AdmitTraced(s: Coordination, e: Event, last: Option<(string, WorkPacket)>)
    requires Traced(s, last)
    ensures Traced(Admit(s, e), last)
  {
    hide AdmitFault;
    if AdmitFault(s, e).None? {
      assert s.active.Some? by {
        AdmittedIsNext(s, e);
      }
      var receipt := s.receipt + [Stored(e)];
      assert receipt[..|receipt| - 1] == s.receipt;
      assert Stored(e).runState == e.runState && Stored(e).kind == e.kind;
    }
  }

  /** What is active, and in which state, follows from the operations alone. */
  lemma {:induction false} TracedOnRuns(workspaceId: nat, log: seq<Operation>)
    ensures Traced(Run(workspaceId, log), LastStarted(workspaceId, log))
  {
    hide StartFault, Admit, Traced;
    if log == [] {
      NothingTraced(workspaceId);
    } else {
      var before, op := log[..|log| - 1], log[|log| - 1];
      var s, last := Run(workspaceId, before), LastStarted(workspaceId, before);
      TracedOnRuns(workspaceId, before);
      match op
      case Starting(sessionId, packet, replaceActive) => StartTraced(s, sessionId, packet, replaceActive, last);
      case Cancelling => CancelTraced(s, last);
      case Admitting(event) => AdmitTraced(s, event, last);
    }
  }

  lemma NothingTraced(workspaceId: nat)
    ensures Traced(Initial(workspaceId), None)
  {
  }

  lemma StartTraced(
      s: Coordination, sessionId: string, packet: WorkPacket, replaceActive: bool, last: Option<(string, WorkPacket)>)
    requires Traced(s, last)
    ensures Traced(Start(s, sessionId, packet, replaceActive),
                   if StartFault(s, sessionId, packet, replaceActive).None? then Some((sessionId, packet)) else last)
  {
    hide StartFault;
  }

  lemma CancelTraced(s: Coordination, last: Option<(string, WorkPacket)>)
    requires Traced(s, last)
    ensures Traced(Cancel(s), last)
  {
  }

  /** A run is started exactly when session and packet are in order, the workspace agrees, and none is in the way. */
  lemma StartedIff(workspaceId: nat, log: seq<Operation>, sessionId: string, packet: WorkPacket, replaceActive: bool)
    ensures StartFault(Run(workspaceId, log), sessionId, packet, replaceActive).None?
       <==> && GoodId(sessionId) && PacketFault(packet).None? && packet.workspaceId == workspaceId
            && (Run(workspaceId, log).active.Some? ==> replaceActive)
  {
    hide Run, PacketFault, GoodId, IdFault;
    SoundOnRuns(workspaceId, log);
    IdFaultIff(sessionId, "session_id");
  }

  // ---------------------------------------------------------------------------
  // Nothing is admitted twice
  // ---------------------------------------------------------------------------

  /** Whether an operation moves on to the next generation. */
  predicate Bumps(s: Coordination, op: Operation) {
    match op
    case Starting(sessionId, packet, replaceActive) => StartFault(s, sessionId, packet, replaceActive).None?
    case Cancelling => s.active.Some?
    case Admitting(_) => false
  }

  function Generations(workspaceId: nat, log: seq<Operation>): nat {
    if log == [] then 0
    else
      var before := log[..|log| - 1];
      Generations(workspaceId, before) + if Bumps(Run(workspaceId, before), log[|log| - 1]) then 1 else 0
  }

  /** Generation and sequence of every event ever admitted. */
  function Admissions(workspaceId: nat, log: seq<Operation>): seq<(nat, nat)> {
    if log == [] then []
    else
      var before, op := log[..|log| - 1], log[|log| - 1];
      Admissions(workspaceId, before)
      + if op.Admitting? && AdmitFault(Run(workspaceId, before), op.event).None?
        then [(op.event.generation, op.event.sequence)] else []
  }

  ghost predicate AdmissionsPast(s: Coordination, admissions: seq<(nat, nat)>) {
    forall a <- admissions :: a.0 < s.generation || (a.0 == s.generation && a.1 <= s.lastSequence)
  }

  ghost predicate AllDifferent(admissions: seq<(nat, nat)>) {
    forall i, j | 0 <= i < j < |admissions| :: admissions[i] != admissions[j]
  }

  lemma {:induction false} GenerationIsCounted(workspaceId: nat, log: seq<Operation>)
    requires Generations(workspaceId, log) <= U64_MAX
    ensures Run(workspaceId, log).generation == Generations(workspaceId, log)
  {
    hide AdmitFault, StartFault;
    if log != [] {
      GenerationIsCounted(workspaceId, log[..|log| - 1]);
    }
  }

  lemma StepKeepsPast(s: Coordination, op: Operation, admissions: seq<(nat, nat)>)
    requires Sound(s) && AdmissionsPast(s, admissions) && (s.generation < U64_MAX || !Bumps(s, op))
    ensures AdmissionsPast(Step(s, op), admissions)
  {
    hide AdmitFault, StartFault;
    if op.Admitting? && AdmitFault(s, op.event).None? {
      AdmittedIsNext(s, op.event);
    }
  }

  lemma AdmittedIsNext(s: Coordination, e: Event)
    requires AdmitFault(s, e).None?
    ensures e.sequence == SaturatingNext(s.lastSequence, U64_MAX)
    ensures Admit(s, e).generation == s.generation && Admit(s, e).lastSequence == e.sequence
    ensures s.active.Some? && e.generation == s.active.value.generation
  {
    hide EventFault, ScopeFault;
  }

  /** As long as the generation counter has not gone round, no generation and sequence are admitted twice. */
  lemma {:induction false} AdmittedOnce(workspaceId: nat, log: seq<Operation>)
    requires Generations(workspaceId, log) <= U64_MAX
    ensures AllDifferent(Admissions(workspaceId, log))
    ensures AdmissionsPast(Run(workspaceId, log), Admissions(workspaceId, log))
  {
    hide AdmitFault, StartFault, Step, Bumps;
    if log != [] {
      var before, op := log[..|log| - 1], log[|log| - 1];
      AdmittedOnce(workspaceId, before);
      GenerationIsCounted(workspaceId, before);
      var s, past := Run(workspaceId, before), Admissions(workspaceId, before);
      SoundOnRuns(workspaceId, before);
      StepKeepsPast(s, op, past);
      if op.Admitting? && AdmitFault(s, op.event).None? {
        AdmissionIsNew(s, op.event, past);
      } else {
        assert past + [] == past;
      }
    }
  }

  lemma AdmissionIsNew(s: Coordination, e: Event, past: seq<(nat, nat)>)
    requires Sound(s) && AdmitFault(s, e).None? && AdmissionsPast(s, past) && AllDifferent(past)
    ensures AllDifferent(past + [(e.generation, e.sequence)])
    ensures AdmissionsPast(Step(s, Admitting(e)), past + [(e.generation, e.sequence)])
  {
    hide AdmitFault, Admit, Belongs, PacketFault;
    AdmittedIsNext(s, e);
    assert (e.generation, e.sequence) !in past;
  }

  lemma {:induction false} GenerationsGrow(workspaceId: nat, log: seq<Operation>, more: seq<Operation>)
    ensures Generations(workspaceId, log) <= Generations(workspaceId, log + more)
    decreases |more|
  {
    hide Bumps;
    if more == [] {
      assert log + more == log;
    } else {
      assert (log + more)[..|log + more| - 1] == log + more[..|more| - 1];
      GenerationsGrow(workspaceId, log, more[..|more| - 1]);
    }
  }

  /** An event of a generation that has been left is refused for ever after, until the counter goes round. */
  lemma StaleStaysOut(workspaceId: nat, log: seq<Operation>, more: seq<Operation>, e: Event)
    requires Generations(workspaceId, log + more) <= U64_MAX
    requires e.generation < Run(workspaceId, log).generation
    ensures AdmitFault(Run(workspaceId, log + more), e).Some?
  {
    hide AdmitFault, Run, Generations;
    GenerationsGrow(workspaceId, log, more);
    GenerationIsCounted(workspaceId, log);
    GenerationIsCounted(workspaceId, log + more);
    AdmittedIff(workspaceId, log + more, e);
  }

  // ---------------------------------------------------------------------------
  // Batches
  // ---------------------------------------------------------------------------

  function AdmitMany(s: Coordination, events: seq<Event>): Coordination
    decreases |events|
  {
    if events == [] || AdmitFault(s, events[0]).Some? then s else AdmitMany(Admit(s, events[0]), events[1..])
  }

  /** How many events of a batch get in. */
  function FirstRefusal(s: Coordination, events: seq<Event>): (n: nat)
    ensures n <= |events|
    decreases |events|
  {
    if events == [] || AdmitFault(s, events[0]).Some? then 0 else 1 + FirstRefusal(Admit(s, events[0]), events[1..])
  }

  function Admittings(events: seq<Event>): seq<Operation> {
    seq(|events|, i requires 0 <= i < |events| => Admitting(events[i]))
  }

  ghost predicate AllAdmitted(workspaceId: nat, log: seq<Operation>, events: seq<Event>) {
    forall i | 0 <= i < |events| :: AdmitFault(Run(workspaceId, log + Admittings(events[..i])), events[i]).None?
  }

  lemma OneAdmitted(workspaceId: nat, log: seq<Operation>, e: Event, more: seq<Event>)
    requires AdmitFault(Run(workspaceId, log), e).None?
    requires AllAdmitted(workspaceId, log + [Admitting(e)], more)
    ensures AllAdmitted(workspaceId, log, [e] + more)
    ensures log + Admittings([e] + more) == log + [Admitting(e)] + Admittings(more)
  {
    hide AdmitFault, Run;
    var events, longer := [e] + more, log + [Admitting(e)];
    forall i | 0 <= i < |events| ensures AdmitFault(Run(workspaceId, log + Admittings(events[..i])), events[i]).None? {
      if i == 0 {
        assert log + Admittings(events[..0]) == log;
      } else {
        assert events[..i] == [e] + more[..i - 1];
        assert log + Admittings(events[..i]) == longer + Admittings(more[..i - 1]);
      }
    }
  }

  /** A batch is the history of its events one by one, up to the first that is refused. */
  lemma {:induction false} BatchIsHistory(workspaceId: nat, log: seq<Operation>, events: seq<Event>)
    ensures var n := FirstRefusal(Run(workspaceId, log), events);
            && AdmitMany(Run(workspaceId, log), events) == Run(workspaceId, log + Admittings(events[..n]))
            && AllAdmitted(workspaceId, log, events[..n])
            && (n < |events| ==> AdmitFault(AdmitMany(Run(workspaceId, log), events), events[n]).Some?)
    decreases |events|
  {
    hide AdmitFault, Admit, AllAdmitted;
    var s, n := Run(workspaceId, log), FirstRefusal(Run(workspaceId, log), events);
    if n == 0 {
      assert log + Admittings(events[..0]) == log;
      NoneAdmitted(workspaceId, log);
    } else {
      var longer, more := log + [Admitting(events[0])], events[1..];
      assert longer[..|longer| - 1] == log;
      BatchIsHistory(workspaceId, longer, more);
      OneAdmitted(workspaceId, log, events[0], more[..n - 1]);
      assert events[..n] == [events[0]] + more[..n - 1];
    }
  }

  lemma NoneAdmitted(workspaceId: nat, log: seq<Operation>)
    ensures AllAdmitted(workspaceId, log, [])
  {
  }

  /** The counter names no run by 0 and stays within its word. */
  lemma {:induction false} GenerationInRange(workspaceId: nat, log: seq<Operation>)
    ensures Run(workspaceId, log).generation <= U64_MAX
    ensures LastStarted(workspaceId, log).Some? ==> Run(workspaceId, log).generation > 0
  {
    hide AdmitFault, StartFault;
    if log != [] {
      GenerationInRange(workspaceId, log[..|log| - 1]);
    }
  }

  // ---------------------------------------------------------------------------
  // Scripted agents
  // ---------------------------------------------------------------------------

  const MAX_FAKE_SCRIPT_STEPS: nat := 128

  /** An event before it has an identity. */
  datatype FakeStep = FakeStep(
    kind: EventKind, summary: string, path: Option<Path>, gitObject: Option<string>,
    artifactRef: Option<string>, checkOk: Option<bool>, runState: Option<RunState>)

  function Materialized(step: FakeStep, workspaceId: nat, sessionId: string, generation: nat, sequence: nat): Event {
    Event(workspaceId, sessionId, generation, sequence, step.kind, step.summary, step.path,
          step.gitObject, step.artifactRef, step.checkOk, step.runState)
  }

  /** The events of a script, numbered from one. */
  function Materialize(steps: seq<FakeStep>, workspaceId: nat, sessionId: string, generation: nat): (events: seq<Event>)
    ensures |events| == |steps|
  {
    seq(|steps|, i requires 0 <= i < |steps| =>
      Materialized(steps[i], workspaceId, sessionId, generation, SaturatingNext(i, U64_MAX)))
  }

  /** The events continue the receipt of the run. */
  ghost predicate Continue(events: seq<Event>, s: Coordination) {
    && s.active.Some? && |s.receipt| + |events| <= MAX_RECEIPT_EVENTS
    && forall i | 0 <= i < |events| ::
         && events[i].workspaceId == s.workspaceId && events[i].sessionId == s.active.value.sessionId
         && events[i].generation == s.generation && events[i].sequence == |s.receipt| + 1 + i
  }

  ghost predicate AllFitting(packet: WorkPacket, events: seq<Event>) {
    forall e <- events :: Fitting(packet, e)
  }

  predicate ClosesOnlyLast(events: seq<Event>) {
    forall i | 0 <= i < |events| - 1 :: events[i].runState != Some(Closed)
  }

  lemma AdmitOne(s: Coordination, e: Event)
    requires Sound(s) && Continue([e], s)
    ensures AdmitFault(s, e).None? <==> Fitting(s.active.value.packet, e)
    ensures AdmitFault(s, e).None? ==>
              var t := Admit(s, e);
              && Sound(t) && t.workspaceId == s.workspaceId && t.generation == s.generation
              && |t.receipt| == |s.receipt| + 1 && t.active == if e.runState == Some(Closed) then None else s.active
  {
    hide EventFault, InScope, ScopeFault, Belongs;
    assert [e][0] == e;
    AdmitIsSound(s, e);
    if EventFault(e).None? {
      StoredIsSound(s.active.value.packet, e);
    }
  }

  lemma {:induction false} BatchAdmitted(s: Coordination, events: seq<Event>)
    requires Sound(s) && Continue(events, s)
    ensures FirstRefusal(s, events) == |events|
       <==> AllFitting(s.active.value.packet, events) && ClosesOnlyLast(events)
    decreases |events|
  {
    hide Sound, Fitting, AdmitFault, Admit;
    if events != [] {
      var e, rest, packet := events[0], events[1..], s.active.value.packet;
      assert events == [e] + rest;
      AdmitOne(s, e);
      assert AllFitting(packet, events) <==> Fitting(packet, e) && AllFitting(packet, rest);
      if AdmitFault(s, e).None? {
        var t := Admit(s, e);
        if e.runState != Some(Closed) {
          BatchAdmitted(t, rest);
          assert forall i | 0 <= i < |rest| :: rest[i] == events[i + 1];
          assert ClosesOnlyLast(events) <==> ClosesOnlyLast(rest);
        } else if rest != [] {
          NothingAfterClosing(t, rest);
          assert events[0].runState == Some(Closed);
        }
      }
    }
  }

  lemma NothingAfterClosing(t: Coordination, rest: seq<Event>)
    requires t.active.None?
    ensures FirstRefusal(t, rest) == 0
  {
  }

  /**
    A run just started takes a whole script exactly when every step fits its packet
    and none but the last closes it.
   */
  lemma ScriptAdmitted(
      s: Coordination, sessionId: string, packet: WorkPacket, replaceActive: bool, steps: seq<FakeStep>)
    requires Sound(s) && StartFault(s, sessionId, packet, replaceActive).None? && |steps| <= MAX_FAKE_SCRIPT_STEPS
    ensures var started := Start(s, sessionId, packet, replaceActive);
            var events := Materialize(steps, s.workspaceId, sessionId, started.generation);
            FirstRefusal(started, events) == |events| <==> AllFitting(packet, events) && ClosesOnlyLast(events)
  {
    hide Sound, StartFault, Fitting;
    StartIsSound(s, sessionId, packet, replaceActive);
    var started := Start(s, sessionId, packet, replaceActive);
    BatchAdmitted(started, Materialize(steps, s.workspaceId, sessionId, started.generation));
  }

  // ---------------------------------------------------------------------------
  // The coordinator
  // ---------------------------------------------------------------------------

  class AgentCoordinator {
    const workspaceId: nat
    var generation: nat
    var lastSequence: nat
    var runState: RunState
    var active: Option<ActiveRun>
    var receipt: seq<Event>
    var closedSessionId: Option<string>
    /** The calls made so far. */
    ghost var log: seq<Operation>

    /** The object is where its history leads, so what histories keep holds of it. */
    ghost predicate Valid()
      reads this
    {
      View() == Run(workspaceId, log)
    }

    function View(): Coordination
      reads this
    {
      Coordination(workspaceId, generation, lastSequence, runState, active, receipt, closedSessionId)
    }

    constructor (workspaceId: nat)
      ensures Valid() && View() == Initial(workspaceId)
    {
      this.workspaceId := workspaceId;
      log := [];
      generation, lastSequence, runState, active, receipt, closedSessionId := 0, 0, Closed, None, [], None;
    }

    lemma IsSound()
      requires Valid()
      ensures Sound(View())
    {
      hide Sound, Run;
      SoundOnRuns(workspaceId, log);
    }

    /** The call the body is about to carry out. */
    ghost method Note(op: Operation)
      requires Valid()
      modifies this`log
      ensures log == old(log) + [op] && Run(workspaceId, log) == Step(View(), op)
    {
      hide Step;
      log := log + [op];
      assert log[..|log| - 1] == old(log);
    }

    /** After a start no event of the generation before is admitted, and the receipt is empty. */
    method StartRun(sessionId: string, packet: WorkPacket, replaceActive: bool) returns (result: StartResult)
      requires Valid()
      modifies this
      ensures Valid() && log == old(log) + [Starting(sessionId, packet, replaceActive)]
      ensures result.Started? ==>
                && receipt == [] && generation != old(generation)
                && forall e: Event | e.generation == old(generation) :: AdmitFault(View(), e).Some?
      ensures View() == Start(old(View()), sessionId, packet, replaceActive)
      ensures result == match StartFault(old(View()), sessionId, packet, replaceActive)
                        case Some(error) => NotStarted(error)
                        case None => Started(generation)
    {
      hide IdFault, PacketFault, Run, EventFault, ScopeFault;
      Note(Starting(sessionId, packet, replaceActive));
      var badId := IdFault(sessionId, "session_id");
      if badId.Some? {
        return NotStarted(BadContract(badId.value));
      }
      var badPacket := PacketFault(packet);
      if badPacket.Some? {
        return NotStarted(BadContract(badPacket.value));
      }
      if packet.workspaceId != workspaceId {
        return NotStarted(WorkspaceMismatch(workspaceId, packet.workspaceId));
      }
      if active.Some? && runState != Closed && !replaceActive {
        return NotStarted(AlreadyActive);
      }
      generation := NextGeneration(generation);
      lastSequence, receipt, closedSessionId, runState := 0, [], None, Brief;
      active := Some(ActiveRun(sessionId, packet, generation));
      result := Started(generation);
    }

    /** After a cancellation no event is admitted until the next start. */
    method CancelRun() returns (cancelled: Option<CancelReceipt>)
      requires Valid()
      modifies this
      ensures Valid() && log == old(log) + [Cancelling]
      ensures forall e: Event :: AdmitFault(View(), e) == Some(NoActiveRun)
      ensures View() == Cancel(old(View()))
      ensures cancelled == match old(active)
                           case None => None
                           case Some(run) => Some(CancelReceipt(run.sessionId, old(generation), generation))
    {
      hide Run;
      Note(Cancelling);
      if active.None? {
        return None;
      }
      var run := active.value;
      var before := generation;
      active := None;
      generation := NextGeneration(generation);
      lastSequence, runState, closedSessionId := 0, Closed, Some(run.sessionId);
      cancelled := Some(CancelReceipt(run.sessionId, before, generation));
    }

    /** A refusal changes nothing. */
    method AdmitEvent(e: Event) returns (result: AdmitResult)
      requires Valid()
      modifies this
      ensures Valid() && log == old(log) + [Admitting(e)]
      ensures result.Admitted? <==> Admissible(old(View()), e)
      ensures View() == Admit(old(View()), e) && result == AdmitReport(old(View()), e)
      ensures result.Refused? ==> View() == old(View())
    {
      hide EventFault, AllowsPath, Run, Admissible;
      AdmittedIff(workspaceId, log, e);
      Note(Admitting(e));
      if active.None? {
        return Refused(NoActiveRun);
      }
      if runState == Closed {
        return Refused(RunClosed);
      }
      if e.workspaceId != workspaceId {
        return Refused(WrongWorkspace(workspaceId, e.workspaceId));
      }
      var run := active.value;
      if e.sessionId != run.sessionId {
        return Refused(WrongSession);
      }
      if e.generation != run.generation {
        return Refused(StaleGeneration(run.generation, e.generation));
      }
      var expected := SaturatingNext(lastSequence, U64_MAX);
      if e.sequence != expected {
        return Refused(ReplayOrOutOfOrder(expected, e.sequence));
      }
      var fault := EventFault(e);
      if fault.Some? {
        return Refused(Contract(fault.value));
      }
      var event := e;
      if e.path.Some? {
        var normalized := NormalizeRelativePath(e.path.value, false);
        if normalized.Err? {
          return Refused(Contract(normalized.error));
        }
        var verdict := AllowsPath(run.packet, normalized.path);
        if verdict.Invalid? {
          return Refused(Contract(verdict.error));
        }
        if verdict.Denied? {
          return Refused(PathOutOfScope(normalized.path));
        }
        event := event.(path := Some(normalized.path));
      }
      if e.kind.PathTouched? && !run.packet.authority.edit {
        return Refused(EditAuthorityRequired);
      }
      if |receipt| >= MAX_RECEIPT_EVENTS {
        return Refused(ReceiptFull);
      }
      Record(event);
      result := Admitted(AdmitOutcome(lastSequence, runState, |receipt|));
    }

    method Record(e: Event)
      modifies this`runState, this`lastSequence, this`receipt, this`active, this`closedSessionId
      ensures var next := StateAfter(old(runState), e);
              View() == old(View()).(
                runState := next, lastSequence := e.sequence, receipt := old(receipt) + [e],
                active := if next == Closed then None else old(active),
                closedSessionId := if next == Closed && old(active).Some? then Some(old(active).value.sessionId)
                                   else old(closedSessionId))
    {
      if e.runState.Some? {
        runState := e.runState.value;
      } else if e.kind.ReviewReady? {
        runState := Review;
      }
      lastSequence := e.sequence;
      receipt := receipt + [e];
      if runState == Closed && active.Some? {
        closedSessionId := Some(active.value.sessionId);
        active := None;
      }
    }

    /** Admits events until one is refused; what came before stays admitted. */
    method AdmitAll(events: seq<Event>) returns (result: AdmitResult)
      requires Valid()
      modifies this
      ensures Valid()
      ensures View() == AdmitMany(old(View()), events)
      ensures var n := FirstRefusal(old(View()), events);
              if n == |events| then result == Admitted(AdmitOutcome(lastSequence, runState, |receipt|))
              else result.Refused? && result == AdmitReport(View(), events[n])
    {
      hide Run, Admissible;
      result := Admitted(AdmitOutcome(lastSequence, runState, |receipt|));
      assert events[0..] == events;
      for i := 0 to |events|
        invariant Valid()
        invariant result == Admitted(AdmitOutcome(lastSequence, runState, |receipt|))
        invariant AdmitMany(View(), events[i..]) == AdmitMany(old(View()), events)
        invariant i + FirstRefusal(View(), events[i..]) == FirstRefusal(old(View()), events)
      {
        assert events[i..][1..] == events[i + 1..] && events[i..][0] == events[i];
        result := AdmitEvent(events[i]);
        if result.Refused? {
          return;
        }
      }
    }
  }
}
