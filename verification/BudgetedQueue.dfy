/**
  The bounded multi-producer queue and its lock-free accounting.

  Every atomic operation of a sender or of the receiver is one step, and any
  agent may step at any time.  An agent is somewhere in `try_send`,
  `try_send_control` or `recv`; its `Phase` says where, and with it what the
  agent itself still owes to the two counters.

  An envelope that was sent or received meets `release` twice: once when its
  item is taken out, and once more when what is left of it is dropped.  Every
  envelope has a serial number, and two logs note which one each subtraction
  from the counters was for.
 */
module BudgetedQueue {
  import opened Machine

  datatype Envelope = Envelope(serial: nat, weight: nat, counted: bool)

  datatype Phase =
    | Idle
    | ItemTaken(weight: nat)                // the item counter is incremented, the byte counter not yet read
    | BytesSeen(weight: nat, used: nat)     // the byte counter was read, or the exchange failed and returned it
    | BackingOut                            // the bytes did not fit: the item has to be given back
    | Holding(envelope: Envelope)           // an envelope about to be put into the channel
    | Releasing(envelope: Envelope, dropping: bool)     // before a release: the explicit one, or the one of the drop
    | BytesReleased(envelope: Envelope, dropping: bool) // in a release: the bytes are given back, the item not yet

  datatype Limits = Limits(maxItems: nat, maxBytes: nat, controlReserve: nat) {
    function Capacity(): nat { if maxItems + controlReserve > 1 then maxItems + controlReserve else 1 }
  }

  /** What was ever reserved, and what each subtraction was for, by serial number. */
  datatype Ledger = Ledger(made: nat, reserved: seq<nat>, bytesBack: seq<nat>, itemsBack: seq<nat>)

  /** The two atomic counters, the channel, whether its receiving end is alive, and where every agent is. */
  datatype QueueState = QueueState(
    items: nat, bytes: nat, channel: seq<Envelope>, connected: bool, agents: seq<Phase>, ledger: Ledger)

  datatype Step =
    | TakeItem(agent: nat, weight: nat)     // fetch_update on the item counter
    | LoadBytes(agent: nat)
    | ExchangeBytes(agent: nat, spurious: bool)
    | GiveItemBack(agent: nat)
    | StartControl(agent: nat)              // try_send_control makes an uncounted envelope
    | Put(agent: nat)                       // the channel's own try_send
    | Receive(agent: nat)
    | DropQueued(agent: nat)                // an envelope left in a channel without a receiver
    | ReleaseBytes(agent: nat)              // the test of `counted`, and the first subtraction if it holds
    | ReleaseItem(agent: nat)               // the second subtraction, after which `counted` is cleared
    | Disconnect(agent: nat)                // the receiver goes away

  predicate Enabled(q: QueueState, step: Step) {
    && step.agent < |q.agents|
    && var phase := q.agents[step.agent];
    match step
    case TakeItem(_, _) => phase.Idle?
    case LoadBytes(_) => phase.ItemTaken?
    case ExchangeBytes(_, _) => phase.BytesSeen?
    case GiveItemBack(_) => phase.BackingOut?
    case StartControl(_) => phase.Idle?
    case Put(_) => phase.Holding?
    case Receive(_) => phase.Idle? && q.channel != [] && q.connected
    case DropQueued(_) => phase.Idle? && q.channel != [] && !q.connected
    case ReleaseBytes(_) => phase.Releasing?
    case ReleaseItem(_) => phase.BytesReleased?
    case Disconnect(_) => phase.Idle?
  }

  function Become(q: QueueState, agent: nat, phase: Phase): QueueState
    requires agent < |q.agents|
  {
    q.(agents := q.agents[agent := phase])
  }

  /** `fetch_sub` wraps around; `NeverBelowZero` shows that it never has to. */
  function Less(total: nat, amount: nat): nat {
    if amount <= total then total - amount else (total - amount) % (USIZE_MAX + 1)
  }

  /** Where an agent is after a release: the explicit one is followed by the drop. */
  function AfterRelease(e: Envelope, dropping: bool): Phase {
    if dropping then Idle else Releasing(e.(counted := false), true)
  }

  function Made(q: QueueState, reserved: bool): QueueState {
    q.(ledger := q.ledger.(made := q.ledger.made + 1,
                           reserved := q.ledger.reserved + if reserved then [q.ledger.made] else []))
  }

  /**
    A reservation that does not fit backs out; a compare-exchange that meets a
    changed counter, or fails spuriously, retries with the value it met.
   */
  function Next(q: QueueState, limits: Limits, step: Step): QueueState
    requires Enabled(q, step)
  {
    var agent, phase := step.agent, q.agents[step.agent];
    match step
    case TakeItem(_, weight) =>
      if weight > limits.maxBytes || q.items >= limits.maxItems then q
      else Become(q, agent, ItemTaken(weight)).(items := q.items + 1)
    case LoadBytes(_) => Become(q, agent, BytesSeen(phase.weight, q.bytes))
    case ExchangeBytes(_, spurious) =>
      if phase.used + phase.weight > limits.maxBytes then Become(q, agent, BackingOut)
      else if spurious || q.bytes != phase.used then Become(q, agent, BytesSeen(phase.weight, q.bytes))
      else
        Made(Become(q, agent, Holding(Envelope(q.ledger.made, phase.weight, true))), true)
          .(bytes := phase.used + phase.weight)
    case GiveItemBack(_) => Become(q, agent, Idle).(items := Less(q.items, 1))
    case StartControl(_) => Made(Become(q, agent, Holding(Envelope(q.ledger.made, 0, false))), false)
    case Put(_) =>
      if q.connected && |q.channel| < limits.Capacity()
      then Become(q, agent, Idle).(channel := q.channel + [phase.envelope])
      else Become(q, agent, Releasing(phase.envelope, false))
    case Receive(_) => Become(q, agent, Releasing(q.channel[0], false)).(channel := q.channel[1..])
    case DropQueued(_) => Become(q, agent, Releasing(q.channel[0], true)).(channel := q.channel[1..])
    case ReleaseBytes(_) =>
      if phase.envelope.counted then
        Become(q, agent, BytesReleased(phase.envelope, phase.dropping)).(
          bytes := Less(q.bytes, phase.envelope.weight),
          ledger := q.ledger.(bytesBack := q.ledger.bytesBack + [phase.envelope.serial]))
      else Become(q, agent, AfterRelease(phase.envelope, phase.dropping))
    case ReleaseItem(_) =>
      Become(q, agent, AfterRelease(phase.envelope, phase.dropping)).(
        items := Less(q.items, 1),
        ledger := q.ledger.(itemsBack := q.ledger.itemsBack + [phase.envelope.serial]))
    case Disconnect(_) => q.(connected := false)
  }

  // ---------------------------------------------------------------------------
  // What the counters mean
  // ---------------------------------------------------------------------------

  function EnvelopeBytes(e: Envelope): nat { if e.counted then e.weight else 0 }
  function EnvelopeItems(e: Envelope): nat { if e.counted then 1 else 0 }

  /** What an agent has reserved and not yet handed on or given back. */
  function PhaseBytes(p: Phase): nat {
    match p
    case Holding(e) => EnvelopeBytes(e)
    case Releasing(e, _) => EnvelopeBytes(e)
    case _ => 0
  }

  function PhaseItems(p: Phase): nat {
    match p
    case ItemTaken(_) => 1
    case BytesSeen(_, _) => 1
    case BackingOut => 1
    case Holding(e) => EnvelopeItems(e)
    case Releasing(e, _) => EnvelopeItems(e)
    case BytesReleased(_, _) => 1
    case Idle => 0
  }

  function ChannelBytes(c: seq<Envelope>): nat {
    if c == [] then 0 else EnvelopeBytes(c[0]) + ChannelBytes(c[1..])
  }

  function ChannelItems(c: seq<Envelope>): nat {
    if c == [] then 0 else EnvelopeItems(c[0]) + ChannelItems(c[1..])
  }

  function AgentBytes(a: seq<Phase>): nat {
    if a == [] then 0 else PhaseBytes(a[0]) + AgentBytes(a[1..])
  }

  function AgentItems(a: seq<Phase>): nat {
    if a == [] then 0 else PhaseItems(a[0]) + AgentItems(a[1..])
  }

  function ControlItems(c: seq<Envelope>): nat {
    if c == [] then 0 else (if c[0].counted then 0 else 1) + ControlItems(c[1..])
  }

  /**
    The counters are exactly what the live counted envelopes and the senders in
    mid-reservation account for, and the budgets hold.
   */
  ghost predicate Accounted(q: QueueState, limits: Limits) {
    && q.items == ChannelItems(q.channel) + AgentItems(q.agents)
    && q.bytes == ChannelBytes(q.channel) + AgentBytes(q.agents)
    && q.items <= limits.maxItems
    && q.bytes <= limits.maxBytes
    && |q.channel| <= limits.Capacity()
  }

  lemma {:induction false} ChannelSnoc(c: seq<Envelope>, e: Envelope)
    ensures ChannelBytes(c + [e]) == ChannelBytes(c) + EnvelopeBytes(e)
    ensures ChannelItems(c + [e]) == ChannelItems(c) + EnvelopeItems(e)
  {
    if c == [] {
      assert c + [e] == [e];
    } else {
      assert (c + [e])[1..] == c[1..] + [e];
      ChannelSnoc(c[1..], e);
    }
  }

  lemma {:induction false} AgentChange(a: seq<Phase>, k: nat, p: Phase)
    requires k < |a|
    ensures AgentBytes(a[k := p]) + PhaseBytes(a[k]) == AgentBytes(a) + PhaseBytes(p)
    ensures AgentItems(a[k := p]) + PhaseItems(a[k]) == AgentItems(a) + PhaseItems(p)
  {
    if k == 0 {
      assert a[0 := p][1..] == a[1..];
    } else {
      assert a[k := p][1..] == a[1..][k - 1 := p];
      AgentChange(a[1..], k - 1, p);
    }
  }

  lemma ReservingKeepsAccounts(q: QueueState, limits: Limits, step: Step)
    requires Accounted(q, limits) && Enabled(q, step)
    requires step.TakeItem? || step.LoadBytes? || step.ExchangeBytes? || step.GiveItemBack?
    ensures Accounted(Next(q, limits, step), limits)
  {
    hide AgentBytes, AgentItems, ChannelBytes, ChannelItems;
    AgentChange(q.agents, step.agent, Next(q, limits, step).agents[step.agent]);
  }

  lemma ChannelHead(c: seq<Envelope>)
    requires c != []
    ensures ChannelBytes(c) == EnvelopeBytes(c[0]) + ChannelBytes(c[1..])
    ensures ChannelItems(c) == EnvelopeItems(c[0]) + ChannelItems(c[1..])
  {
  }

  lemma StepKeepsAccounts(q: QueueState, limits: Limits, step: Step)
    requires Accounted(q, limits) && Enabled(q, step)
    ensures Accounted(Next(q, limits, step), limits)
  {
    hide AgentBytes, AgentItems, ChannelBytes, ChannelItems;
    if step.TakeItem? || step.LoadBytes? || step.ExchangeBytes? || step.GiveItemBack? {
      ReservingKeepsAccounts(q, limits, step);
    } else {
      if step.Receive? || step.DropQueued? {
        ChannelHead(q.channel);
      }
      AgentChange(q.agents, step.agent, Next(q, limits, step).agents[step.agent]);
      if step.Put? {
        ChannelSnoc(q.channel, q.agents[step.agent].envelope);
      }
    }
  }

  // ---------------------------------------------------------------------------
  // Runs
  // ---------------------------------------------------------------------------

  ghost predicate IsRun(states: seq<QueueState>, steps: seq<Step>, limits: Limits) {
    && |states| == |steps| + 1
    && states[0].items == 0 && states[0].bytes == 0 && states[0].channel == [] && states[0].connected
    && states[0].ledger == Ledger(0, [], [], [])
    && (forall p <- states[0].agents :: p.Idle?)
    && forall k | 0 <= k < |steps| :: Enabled(states[k], steps[k]) && states[k + 1] == Next(states[k], limits, steps[k])
  }

  lemma {:induction false} IdleOwesNothing(agents: seq<Phase>)
    requires forall p <- agents :: p.Idle?
    ensures AgentBytes(agents) == 0 && AgentItems(agents) == 0
  {
    if agents != [] {
      IdleOwesNothing(agents[1..]);
    }
  }

  /** The accounting holds in every state of every interleaving. */
  lemma {:induction false} AccountedOnRuns(states: seq<QueueState>, steps: seq<Step>, limits: Limits, k: nat)
    requires IsRun(states, steps, limits) && k < |states|
    ensures Accounted(states[k], limits)
  {
    if k == 0 {
      IdleOwesNothing(states[0].agents);
    } else {
      AccountedOnRuns(states, steps, limits, k - 1);
      StepKeepsAccounts(states[k - 1], limits, steps[k - 1]);
    }
  }

  /** At rest with an empty channel both counters are back to zero. */
  lemma QuietMeansZero(states: seq<QueueState>, steps: seq<Step>, limits: Limits, k: nat)
    requires IsRun(states, steps, limits) && k < |states|
    requires states[k].channel == [] && forall p <- states[k].agents :: p.Idle?
    ensures states[k].items == 0 && states[k].bytes == 0
  {
    AccountedOnRuns(states, steps, limits, k);
    IdleOwesNothing(states[k].agents);
  }

  lemma {:induction false} ChannelLength(c: seq<Envelope>)
    ensures |c| == ChannelItems(c) + ControlItems(c)
  {
    if c != [] {
      ChannelLength(c[1..]);
    }
  }

  lemma {:induction false} HeldByAgent(agents: seq<Phase>, k: nat)
    requires k < |agents|
    ensures AgentItems(agents) >= PhaseItems(agents[k])
    ensures AgentBytes(agents) >= PhaseBytes(agents[k])
  {
    if k > 0 {
      HeldByAgent(agents[1..], k - 1);
    }
  }

  /** No subtraction of any run meets a total smaller than its amount. */
  lemma NeverBelowZero(states: seq<QueueState>, steps: seq<Step>, limits: Limits, k: nat)
    requires IsRun(states, steps, limits) && k < |steps|
    ensures var q, phase := states[k], states[k].agents[steps[k].agent];
            match steps[k]
            case ReleaseBytes(_) => phase.envelope.counted ==> phase.envelope.weight <= q.bytes
            case ReleaseItem(_) => 1 <= q.items
            case GiveItemBack(_) => 1 <= q.items
            case _ => true
  {
    AccountedOnRuns(states, steps, limits, k);
    HeldByAgent(states[k].agents, steps[k].agent);
  }

  // ---------------------------------------------------------------------------
  // Every reservation is given back once
  // ---------------------------------------------------------------------------

  function Count(log: seq<nat>, serial: nat): nat {
    if log == [] then 0 else Count(log[..|log| - 1], serial) + if log[|log| - 1] == serial then 1 else 0
  }

  /** One if the envelope still has its own release to come. */
  function Due(e: Envelope, serial: nat): nat { if e.counted && e.serial == serial then 1 else 0 }

  function BytesDue(p: Phase, serial: nat): nat {
    match p
    case Holding(e) => Due(e, serial)
    case Releasing(e, _) => Due(e, serial)
    case _ => 0
  }

  function ItemDue(p: Phase, serial: nat): nat {
    match p
    case BytesReleased(e, _) => if e.serial == serial then 1 else 0
    case _ => BytesDue(p, serial)
  }

  function ChannelDue(c: seq<Envelope>, serial: nat): nat {
    if c == [] then 0 else Due(c[0], serial) + ChannelDue(c[1..], serial)
  }

  function AgentBytesDue(a: seq<Phase>, serial: nat): nat {
    if a == [] then 0 else BytesDue(a[0], serial) + AgentBytesDue(a[1..], serial)
  }

  function AgentItemsDue(a: seq<Phase>, serial: nat): nat {
    if a == [] then 0 else ItemDue(a[0], serial) + AgentItemsDue(a[1..], serial)
  }

  /** Given back or still due, for every envelope that was reserved, once; and never for any other. */
  ghost predicate Settled(q: QueueState, serial: nat) {
    && Count(q.ledger.bytesBack, serial) + ChannelDue(q.channel, serial) + AgentBytesDue(q.agents, serial)
       == Count(q.ledger.reserved, serial)
    && Count(q.ledger.itemsBack, serial) + ChannelDue(q.channel, serial) + AgentItemsDue(q.agents, serial)
       == Count(q.ledger.reserved, serial)
    && Count(q.ledger.reserved, serial) <= 1
    && (q.ledger.made <= serial ==> Count(q.ledger.reserved, serial) == 0)
  }

  lemma CountSnoc(log: seq<nat>, more: nat, serial: nat)
    ensures Count(log + [more], serial) == Count(log, serial) + if more == serial then 1 else 0
  {
    assert (log + [more])[..|log|] == log;
  }

  lemma {:induction false} DueSnoc(c: seq<Envelope>, e: Envelope, serial: nat)
    ensures ChannelDue(c + [e], serial) == ChannelDue(c, serial) + Due(e, serial)
  {
    if c == [] {
      assert c + [e] == [e];
    } else {
      assert (c + [e])[1..] == c[1..] + [e];
      DueSnoc(c[1..], e, serial);
    }
  }

  lemma {:induction false} DueChange(a: seq<Phase>, k: nat, p: Phase, serial: nat)
    requires k < |a|
    ensures AgentBytesDue(a[k := p], serial) + BytesDue(a[k], serial) == AgentBytesDue(a, serial) + BytesDue(p, serial)
    ensures AgentItemsDue(a[k := p], serial) + ItemDue(a[k], serial) == AgentItemsDue(a, serial) + ItemDue(p, serial)
  {
    if k == 0 {
      assert a[0 := p][1..] == a[1..];
    } else {
      assert a[k := p][1..] == a[1..][k - 1 := p];
      DueChange(a[1..], k - 1, p, serial);
    }
  }

  lemma DueHead(c: seq<Envelope>, serial: nat)
    requires c != []
    ensures ChannelDue(c, serial) == Due(c[0], serial) + ChannelDue(c[1..], serial)
  {
  }

  lemma ReleaseKeepsSettled(q: QueueState, limits: Limits, step: Step, serial: nat)
    requires Settled(q, serial) && Enabled(q, step) && (step.ReleaseBytes? || step.ReleaseItem?)
    ensures Settled(Next(q, limits, step), serial)
  {
    hide Count, ChannelDue, AgentBytesDue, AgentItemsDue;
    var e := q.agents[step.agent].envelope;
    DueChange(q.agents, step.agent, Next(q, limits, step).agents[step.agent], serial);
    CountSnoc(q.ledger.bytesBack, e.serial, serial);
    CountSnoc(q.ledger.itemsBack, e.serial, serial);
  }

  lemma StepKeepsSettled(q: QueueState, limits: Limits, step: Step, serial: nat)
    requires Settled(q, serial) && Enabled(q, step)
    ensures Settled(Next(q, limits, step), serial)
  {
    hide Count, ChannelDue, AgentBytesDue, AgentItemsDue;
    if step.ReleaseBytes? || step.ReleaseItem? {
      ReleaseKeepsSettled(q, limits, step, serial);
    } else {
      DueChange(q.agents, step.agent, Next(q, limits, step).agents[step.agent], serial);
      CountSnoc(q.ledger.reserved, q.ledger.made, serial);
      assert q.ledger.reserved + [] == q.ledger.reserved;
      if step.Receive? || step.DropQueued? {
        DueHead(q.channel, serial);
      } else if step.Put? {
        DueSnoc(q.channel, q.agents[step.agent].envelope, serial);
      }
    }
  }

  lemma {:induction false} IdleHasNothingDue(agents: seq<Phase>, serial: nat)
    requires forall p <- agents :: p.Idle?
    ensures AgentBytesDue(agents, serial) == 0 && AgentItemsDue(agents, serial) == 0
  {
    if agents != [] {
      IdleHasNothingDue(agents[1..], serial);
    }
  }

  /**
    In every run each counted envelope is subtracted at most once from either
    counter, although its release runs twice, and one that never reserved
    anything not at all; what is not yet subtracted is still due.
   */
  lemma {:induction false} ReleasedOnce(states: seq<QueueState>, steps: seq<Step>, limits: Limits, k: nat, serial: nat)
    requires IsRun(states, steps, limits) && k < |states|
    ensures Settled(states[k], serial)
  {
    hide Next, Settled;
    if k == 0 {
      IdleHasNothingDue(states[0].agents, serial);
      NothingIsSettled(states[0], serial);
    } else {
      ReleasedOnce(states, steps, limits, k - 1, serial);
      StepKeepsSettled(states[k - 1], limits, steps[k - 1], serial);
    }
  }

  lemma NothingIsSettled(q: QueueState, serial: nat)
    requires q.channel == [] && q.ledger == Ledger(0, [], [], [])
    requires AgentBytesDue(q.agents, serial) == 0 && AgentItemsDue(q.agents, serial) == 0
    ensures Settled(q, serial)
  {
  }

  /** At rest with an empty channel every counted envelope has been subtracted exactly once from both counters. */
  lemma AllReleasedAtRest(states: seq<QueueState>, steps: seq<Step>, limits: Limits, k: nat, serial: nat)
    requires IsRun(states, steps, limits) && k < |states|
    requires states[k].channel == [] && forall p <- states[k].agents :: p.Idle?
    ensures var ledger := states[k].ledger;
            Count(ledger.bytesBack, serial) == Count(ledger.itemsBack, serial) == Count(ledger.reserved, serial) <= 1
  {
    hide Next, IsRun;
    ReleasedOnce(states, steps, limits, k, serial);
    IdleHasNothingDue(states[k].agents, serial);
  }

  /**
    The reserve does what it is for.  While fewer than `controlReserve` control
    items are queued the channel refuses no control item; and while no more
    than that are queued it refuses no ordinary item that holds a reservation.
   */
  lemma ReserveIsKept(states: seq<QueueState>, steps: seq<Step>, limits: Limits, k: nat)
    requires IsRun(states, steps, limits) && k < |steps| && steps[k].Put? && states[k].connected
    requires var e := states[k].agents[steps[k].agent].envelope;
             ControlItems(states[k].channel) < limits.controlReserve
             || (e.counted && ControlItems(states[k].channel) <= limits.controlReserve)
    ensures states[k + 1].channel == states[k].channel + [states[k].agents[steps[k].agent].envelope]
  {
    var q, agent := states[k], steps[k].agent;
    AccountedOnRuns(states, steps, limits, k);
    ChannelLength(q.channel);
    HeldByAgent(q.agents, agent);
  }

  lemma SeenIsRead(q: QueueState, limits: Limits, step: Step, agent: nat)
    requires Enabled(q, step) && agent < |q.agents|
    ensures |Next(q, limits, step).agents| == |q.agents|
    ensures if step.agent == agent
            then Next(q, limits, step).agents[agent].BytesSeen? ==>
                   Next(q, limits, step).agents[agent].used == q.bytes
            else Next(q, limits, step).agents[agent] == q.agents[agent]
  {
  }

  /** A byte count an agent works with was once the true one. */
  lemma {:induction false} SeenWasTrue(states: seq<QueueState>, steps: seq<Step>, limits: Limits, k: nat, agent: nat)
    returns (j: nat)
    requires IsRun(states, steps, limits) && k < |states|
    requires agent < |states[k].agents| && states[k].agents[agent].BytesSeen?
    ensures j < k && states[j].bytes == states[k].agents[agent].used
  {
    hide Next;
    assert states[k].agents[agent] in states[k].agents;
    SeenIsRead(states[k - 1], limits, steps[k - 1], if agent < |states[k - 1].agents| then agent else 0);
    if steps[k - 1].agent == agent {
      j := k - 1;
    } else {
      j := SeenWasTrue(states, steps, limits, k - 1, agent);
    }
  }

  /**
    A reservation that could fit is only turned away for a reason: the item
    budget is exactly used up, or at some moment the live reservations left too
    few bytes for it.
   */
  lemma RefusedForAReason(states: seq<QueueState>, steps: seq<Step>, limits: Limits, k: nat) returns (j: nat)
    requires IsRun(states, steps, limits) && k < |steps|
    requires (steps[k].TakeItem? && steps[k].weight <= limits.maxBytes && states[k + 1] == states[k])
          || (steps[k].ExchangeBytes? && states[k + 1].agents[steps[k].agent].BackingOut?)
    ensures steps[k].TakeItem? ==> ChannelItems(states[k].channel) + AgentItems(states[k].agents) == limits.maxItems
    ensures steps[k].ExchangeBytes? ==>
              && j < k
              && ChannelBytes(states[j].channel) + AgentBytes(states[j].agents)
                 + states[k].agents[steps[k].agent].weight
                 > limits.maxBytes
  {
    AccountedOnRuns(states, steps, limits, k);
    if steps[k].TakeItem? {
      assert Next(states[k], limits, steps[k]) == states[k];
      j := 0;
    } else {
      j := SeenWasTrue(states, steps, limits, k, steps[k].agent);
      AccountedOnRuns(states, steps, limits, j);
    }
  }

  // ---------------------------------------------------------------------------
  // First in, first out
  // ---------------------------------------------------------------------------

  /** The envelope that an agent handed to the channel in a step from `q` to `t`, if it was taken. */
  function Entering(q: QueueState, step: Step, t: QueueState): seq<Envelope> {
    if step.Put? && step.agent < |q.agents| && q.agents[step.agent].Holding? && |t.channel| > |q.channel|
    then [q.agents[step.agent].envelope] else []
  }

  /** The envelope that an agent got out of it. */
  function Leaving(step: Step, t: QueueState): seq<Envelope> {
    if (step.Receive? || step.DropQueued?) && step.agent < |t.agents| && t.agents[step.agent].Releasing?
    then [t.agents[step.agent].envelope] else []
  }

  ghost function Entered(states: seq<QueueState>, steps: seq<Step>, k: nat): seq<Envelope>
    requires k <= |steps| && |states| == |steps| + 1
  {
    if k == 0 then [] else Entered(states, steps, k - 1) + Entering(states[k - 1], steps[k - 1], states[k])
  }

  ghost function Left(states: seq<QueueState>, steps: seq<Step>, k: nat): seq<Envelope>
    requires k <= |steps| && |states| == |steps| + 1
  {
    if k == 0 then [] else Left(states, steps, k - 1) + Leaving(steps[k - 1], states[k])
  }

  lemma StepInOrder(q: QueueState, limits: Limits, step: Step)
    requires Enabled(q, step)
    ensures var t := Next(q, limits, step); q.channel + Entering(q, step, t) == Leaving(step, t) + t.channel
    ensures !q.connected ==> var t := Next(q, limits, step); !t.connected && Entering(q, step, t) == []
    ensures step.Disconnect? ==> !Next(q, limits, step).connected
  {
    if step.Receive? || step.DropQueued? {
      assert q.channel == [q.channel[0]] + q.channel[1..];
    }
  }

  /** Whatever the interleaving, envelopes leave in the order they entered, and none is lost or made up. */
  lemma {:induction false} FirstInFirstOut(states: seq<QueueState>, steps: seq<Step>, limits: Limits, k: nat)
    requires IsRun(states, steps, limits) && k < |states|
    ensures Entered(states, steps, k) == Left(states, steps, k) + states[k].channel
  {
    hide Next, Enabled, Entering, Leaving;
    if k > 0 {
      FirstInFirstOut(states, steps, limits, k - 1);
      var q, step, t := states[k - 1], steps[k - 1], states[k];
      StepInOrder(q, limits, step);
      var left := Left(states, steps, k - 1);
      assert left + q.channel + Entering(q, step, t) == left + (q.channel + Entering(q, step, t));
      assert left + Leaving(step, t) + t.channel == left + (Leaving(step, t) + t.channel);
    }
  }

  /** Once the receiver is gone nothing enters any more, and it stays gone. */
  lemma {:induction false} ClosedForGood(states: seq<QueueState>, steps: seq<Step>, limits: Limits, j: nat, k: nat)
    requires IsRun(states, steps, limits) && j < k < |states| && steps[j].Disconnect?
    ensures !states[k].connected && Entered(states, steps, k) == Entered(states, steps, j)
    decreases k - j
  {
    hide Next, Enabled;
    StepInOrder(states[k - 1], limits, steps[k - 1]);
    if j + 1 < k {
      ClosedForGood(states, steps, limits, j, k - 1);
    }
    assert Entering(states[k - 1], steps[k - 1], states[k]) == [];
    assert Entered(states, steps, k - 1) + [] == Entered(states, steps, k - 1);
  }

  /** A reservation goes on only for a weight that the byte budget could ever hold. */
  predicate Bounded(p: Phase, limits: Limits) {
    (p.ItemTaken? || p.BytesSeen?) ==> p.weight <= limits.maxBytes
  }

  lemma {:induction false} TooHeavyNeverStarts(
      states: seq<QueueState>, steps: seq<Step>, limits: Limits, k: nat, agent: nat)
    requires IsRun(states, steps, limits) && k < |states| && agent < |states[k].agents|
    ensures Bounded(states[k].agents[agent], limits)
  {
    if k == 0 {
      assert states[0].agents[agent] in states[0].agents;
    } else {
      TooHeavyNeverStarts(states, steps, limits, k - 1, agent);
      if steps[k - 1].agent != agent {
        assert states[k].agents[agent] == states[k - 1].agents[agent];
      }
    }
  }
}
