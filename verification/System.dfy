// The manager task, the discovery task and the timer task, with the channels
// of capacity one between them, as one transition system. A task that awaits a
// full channel stands still until it has room.

module System {
  import opened Types
  import opened Discovery
  import opened ManagerSteps
  import M = ManagerRuns
  import T = Timers

  datatype DiscoveryPc =
    | Listening
    | SendingEvent(event: Event)

  datatype State = State(
    mgr: ManagerState,
    mpc: ManagerPc,
    dpc: DiscoveryPc,
    managed: set<Ip>,
    events: Option<Event>,     // discovery to manager
    messages: bool,            // manager to discovery; a message is always a request
    timer: T.TimerState,
    reports: Option<Url>,      // requests to manager
    clock: Instant)

  datatype Label =
    // the manager
    | Interval
    | BatchTick(order: seq<Url>)
    | ReportIn
    | EventIn
    | TimeoutSent
    | AdvBatched
    | ReqSent
    // the timer
    | TimerTakes
    | TimerExpires
    // discovery; `found` is what looking for interfaces gives after a change
    | EventSent(found: set<Ip>)
    | MessageIn
    | AddressesChanged
    | DatagramIn(datagram: Datagram)
    // a request, and time
    | ReportMade(bad: Url)
    | Wait(time: Duration)

  const BATCH_DELAY: Duration := 1_000_000_000

  // The quiet period of the debouncer that address changes come through.
  const ADDRESS_DELAY: Duration := 2_000_000_000

  // The discovery task starts by announcing a network change.
  function Init(cfg: Config): State {
    State(Start(cfg), Selecting, SendingEvent(NetworkChanged), {}, None, false, T.IDLE, None, 0)
  }

  predicate Enabled(s: State, l: Label) {
    match l
    case Interval => s.mpc.Selecting?
    case BatchTick(order) => s.mpc.Selecting? && T.CanDo(s.timer, T.Take, s.clock) && DrainOrder(Fresh(s.mgr), order)
    case ReportIn => s.mpc.Selecting? && s.reports.Some?
    case EventIn => s.mpc.Selecting? && s.events.Some?
    case TimeoutSent => s.mpc.SendingTimeout? && T.CanDo(s.timer, T.SetTimeout(BATCH_DELAY), s.clock)
    case AdvBatched => s.mpc.Batching?
    case ReqSent => s.mpc.SendingReq? && !s.messages
    case TimerTakes => T.CanDo(s.timer, T.Consume, s.clock)
    case TimerExpires => T.CanDo(s.timer, T.Expire, s.clock)
    case EventSent(found) => s.dpc.SendingEvent? && s.events.None?
    case MessageIn => s.dpc.Listening? && s.messages
    case AddressesChanged => s.dpc.Listening?
    case DatagramIn(_) => s.dpc.Listening?
    case ReportMade(_) => s.reports.None?
    case Wait(_) => true
  }

  predicate RecentlyAdvertised(cfg: Config, s: State) {
    s.mgr.lastAdv.Some? && s.clock - s.mgr.lastAdv.value < cfg.refreshTime
  }

  function Step(node: Node, cfg: Config, s: State, l: Label): State
    requires Enabled(s, l)
  {
    match l
    case Interval => if RecentlyAdvertised(cfg, s) then s else s.(mpc := SendingReq)
    case BatchTick(order) => s.(mgr := OnTick(cfg, s.mgr, order), timer := T.Do(s.timer, T.Take, s.clock))
    case ReportIn => s.(mgr := OnBadCache(s.mgr, s.reports.value, s.clock), reports := None)
    case EventIn =>
      s.(mgr := OnEvent(s.mgr, s.events.value, s.clock), mpc := AfterEvent(s.events.value), events := None)
    case TimeoutSent =>
      s.(timer := T.Do(s.timer, T.SetTimeout(BATCH_DELAY), s.clock), mpc := Batching(s.mpc.source, s.mpc.url))
    case AdvBatched => s.(mgr := OnAdvBatched(s.mgr, s.mpc.source, s.mpc.url), mpc := Selecting)
    case ReqSent => s.(messages := true, mpc := Selecting)
    case TimerTakes => s.(timer := T.Do(s.timer, T.Consume, s.clock))
    case TimerExpires => s.(timer := T.Do(s.timer, T.Expire, s.clock))
    case EventSent(found) =>
      s.(events := Some(s.dpc.event), dpc := Listening,
         managed := if s.dpc.event == NetworkChanged then found else s.managed)
    case MessageIn => s.(messages := false)
    case AddressesChanged => s.(managed := {}, dpc := SendingEvent(NetworkChanged))
    case DatagramIn(d) =>
      (match Dispatch(node, s.managed, d)
       case None => s
       case Some(event) => s.(dpc := SendingEvent(event)))
    case ReportMade(bad) => s.(reports := Some(bad))
    case Wait(time) => s.(clock := s.clock + time)
  }

  ghost predicate IsPath(node: Node, cfg: Config, states: seq<State>, labels: seq<Label>) {
    && |states| == |labels| + 1
    && forall i | 0 <= i < |labels| ::
        Enabled(states[i], labels[i]) && states[i + 1] == Step(node, cfg, states[i], labels[i])
  }

  ghost predicate IsRun(node: Node, cfg: Config, states: seq<State>, labels: seq<Label>) {
    IsPath(node, cfg, states, labels) && states[0] == Init(cfg)
  }

  // --------------------------------- the manager's part of a run of the system

  function InputOf(s: State, l: Label): M.Input
    requires Enabled(s, l)
  {
    match l
    case BatchTick(order) => M.Tick(order)
    case ReportIn => M.Report(s.reports.value, s.clock)
    case EventIn =>
      (match s.events.value
       case NetworkChanged => M.NetworkChange
       case GoodbyeFrom(source) => M.Leave(source)
       case AdvFrom(_, _) => M.Seen(s.clock))
    case AdvBatched => M.Batched(s.mpc.source, s.mpc.url)
    case _ => M.Idle
  }

  ghost function ManagerStates(states: seq<State>): seq<ManagerState> {
    seq(|states|, i requires 0 <= i < |states| => states[i].mgr)
  }

  ghost function Inputs(node: Node, cfg: Config, states: seq<State>, labels: seq<Label>): (r: seq<M.Input>)
    requires IsPath(node, cfg, states, labels)
    ensures |r| == |labels|
  {
    seq(|labels|, i requires 0 <= i < |labels| => InputOf(states[i], labels[i]))
  }

  // What the system does to the manager's state is a run of the manager, with
  // a clock that never goes back.
  lemma ManagerRunsInside(node: Node, cfg: Config, states: seq<State>, labels: seq<Label>)
    requires IsRun(node, cfg, states, labels)
    ensures M.IsRun(cfg, ManagerStates(states), Inputs(node, cfg, states, labels))
    ensures forall i, j | 0 <= i <= j < |states| :: states[i].clock <= states[j].clock
  {
    var mgrs, inputs := ManagerStates(states), Inputs(node, cfg, states, labels);
    forall i | 0 <= i < |inputs|
      ensures M.Enabled(mgrs[i], inputs[i]) && mgrs[i + 1] == M.Step(cfg, mgrs[i], inputs[i])
    {
      StepInside(node, cfg, states[i], labels[i]);
    }
    forall i, j | 0 <= i <= j < |states|
      ensures states[i].clock <= states[j].clock
    {
      ClockAdvances(node, cfg, states, labels, i, j);
    }
  }

  lemma StepInside(node: Node, cfg: Config, s: State, l: Label)
    requires Enabled(s, l)
    ensures M.Enabled(s.mgr, InputOf(s, l))
    ensures Step(node, cfg, s, l).mgr == M.Step(cfg, s.mgr, InputOf(s, l))
  {
  }

  lemma {:induction false} ClockAdvances(node: Node, cfg: Config, states: seq<State>, labels: seq<Label>, i: nat,
                                         j: nat)
    requires IsPath(node, cfg, states, labels) && i <= j < |states|
    ensures states[i].clock <= states[j].clock
    decreases j
  {
    if i < j {
      ClockAdvances(node, cfg, states, labels, i, j - 1);
    }
  }
}
