// What the channels between the tasks guarantee, and what they do not: no
// advert is stranded in the batch, but the two tasks can block each other.

module Channels {
  import opened Types
  import opened Discovery
  import opened ManagerSteps
  import opened System
  import M = ManagerRuns
  import T = Timers

  // ------------------------------------------------------------ no lost batch

  // Adverts in the batch, or about to join it, have a request for the timer
  // under way: in its slot, running, or already turned into a tick.
  ghost predicate BatchCovered(s: State) {
    s.mgr.batch != map[] || s.mpc.Batching? ==> s.timer.slot.Some? || s.timer.armed.Some? || s.timer.tick
  }

  lemma BatchIsCovered(node: Node, cfg: Config, states: seq<State>, labels: seq<Label>, n: nat)
    requires IsRun(node, cfg, states, labels) && n < |states|
    ensures BatchCovered(states[n])
  {
    CoveredAfter(node, cfg, states, labels, n);
  }

  lemma {:induction false} CoveredAfter(node: Node, cfg: Config, path: seq<State>, steps: seq<Label>, n: nat)
    requires IsPath(node, cfg, path, steps) && n < |path| && BatchCovered(path[0])
    ensures BatchCovered(path[n])
  {
    if n > 0 {
      CoveredAfter(node, cfg, path, steps, n - 1);
    }
  }

  // ------------------------------------------------------------------ no early tick

  // Before state n the timer was restarted, and the duration was taken up at
  // least a second before this instant.
  ghost predicate RestartedBefore(states: seq<State>, labels: seq<Label>, n: nat, at: Instant) {
    exists m: nat, j: nat :: RestartedAt(states, labels, m, j, n) && states[j].clock + 1_000_000_000 <= at
  }

  ghost predicate RestartedAt(states: seq<State>, labels: seq<Label>, m: nat, j: nat, n: nat) {
    m < j < n <= |labels| && n < |states| && labels[m].TimeoutSent? && labels[j].TimerTakes?
  }

  lemma {:induction false} SlotIsDue(node: Node, cfg: Config, states: seq<State>, labels: seq<Label>, n: nat)
    requires IsRun(node, cfg, states, labels) && n < |states|
    ensures states[n].timer.slot.Some? ==>
              states[n].timer.slot.value == 1_000_000_000 && exists m: nat :: m < n && labels[m].TimeoutSent?
  {
    if n > 0 {
      SlotIsDue(node, cfg, states, labels, n - 1);
    }
  }

  lemma {:induction false} ArmedIsDue(node: Node, cfg: Config, states: seq<State>, labels: seq<Label>, n: nat)
    requires IsRun(node, cfg, states, labels) && n < |states|
    ensures states[n].timer.armed.Some? ==> RestartedBefore(states, labels, n, states[n].timer.armed.value)
  {
    if n > 0 {
      var k := n - 1;
      var armed := states[k].timer.armed;
      ArmedIsDue(node, cfg, states, labels, k);
      if labels[k].TimerTakes? {
        SlotIsDue(node, cfg, states, labels, k);
        var m: nat :| m < k && labels[m].TimeoutSent?;
        assert RestartedAt(states, labels, m, k, n);
      } else if armed.Some? {
        StillRestarted(states, labels, k, armed.value, armed.value);
      }
    }
  }

  lemma {:induction false} WaitingTickIsDue(node: Node, cfg: Config, states: seq<State>, labels: seq<Label>, n: nat)
    requires IsRun(node, cfg, states, labels) && n < |states|
    ensures states[n].timer.tick ==> RestartedBefore(states, labels, n, states[n].clock)
  {
    if n > 0 {
      var k := n - 1;
      WaitingTickIsDue(node, cfg, states, labels, k);
      if labels[k].TimerExpires? {
        ArmedIsDue(node, cfg, states, labels, k);
        StillRestarted(states, labels, k, states[k].timer.armed.value, states[n].clock);
      } else if states[k].timer.tick {
        StillRestarted(states, labels, k, states[k].clock, states[n].clock);
      }
    }
  }

  lemma StillRestarted(states: seq<State>, labels: seq<Label>, k: nat, at: Instant, later: Instant)
    requires k < |labels| && k + 1 < |states| && at <= later && RestartedBefore(states, labels, k, at)
    ensures RestartedBefore(states, labels, k + 1, later)
  {
    var m: nat, j: nat :| RestartedAt(states, labels, m, j, k) && states[j].clock + 1_000_000_000 <= at;
    assert RestartedAt(states, labels, m, j, k + 1);
  }

  // In every run a tick the manager takes comes at least a second after an advert
  // restarted the timer.
  lemma TickIsDue(node: Node, cfg: Config, states: seq<State>, labels: seq<Label>, n: nat)
    requires IsRun(node, cfg, states, labels) && n < |labels| && labels[n].BatchTick?
    ensures RestartedBefore(states, labels, n, states[n].clock)
  {
    WaitingTickIsDue(node, cfg, states, labels, n);
  }

  // ---------------------------------------------------------------- the tick

  // A tick the manager takes empties the batch into the table.
  lemma TickFlushes(node: Node, cfg: Config, s: State, order: seq<Url>)
    requires Enabled(s, BatchTick(order))
    ensures var s' := Step(node, cfg, s, BatchTick(order));
            && s'.mgr.batch == map[]
            && (forall u | u in s.mgr.batch :: u in s'.mgr.caches)
            && (forall u | u in s.mgr.caches :: u in s'.mgr.caches && s'.mgr.caches[u] == s.mgr.caches[u])
  {
    M.TickIsOrderIndependent(cfg, s.mgr, order);
  }

  lemma Extend(node: Node, cfg: Config, path: seq<State>, steps: seq<Label>, l: Label)
    returns (path': seq<State>, steps': seq<Label>)
    requires IsPath(node, cfg, path, steps) && Enabled(path[|steps|], l)
    ensures IsPath(node, cfg, path', steps') && path'[0] == path[0]
    ensures steps' == steps + [l] && path' == path + [Step(node, cfg, path[|steps|], l)]
  {
    path', steps' := path + [Step(node, cfg, path[|steps|], l)], steps + [l];
    forall i | 0 <= i < |steps'|
      ensures Enabled(path'[i], steps'[i]) && path'[i + 1] == Step(node, cfg, path'[i], steps'[i])
    {
      if i < |steps| {
        assert Enabled(path[i], steps[i]);
      }
    }
  }

  // ---------------------------------------------------- what the channels carry

  ghost predicate ReqWaits(labels: seq<Label>, m: nat, n: nat) {
    m < n <= |labels| && labels[m].ReqSent? && forall j | m < j < n :: !labels[j].MessageIn?
  }

  ghost predicate EventWaits(states: seq<State>, labels: seq<Label>, m: nat, n: nat, event: Event) {
    && m < n <= |labels| && m < |states| && labels[m].EventSent? && states[m].dpc == SendingEvent(event)
    && forall j | m < j < n :: !labels[j].EventIn?
  }

  ghost predicate ReportWaits(labels: seq<Label>, m: nat, n: nat, bad: Url) {
    m < n <= |labels| && labels[m] == ReportMade(bad) && forall j | m < j < n :: !labels[j].ReportIn?
  }

  // In every run a channel holds what was put into it until it is taken out.
  lemma {:induction false} ChannelsKeep(node: Node, cfg: Config, states: seq<State>, labels: seq<Label>, m: nat, n: nat)
    requires IsRun(node, cfg, states, labels) && n < |states|
    ensures ReqWaits(labels, m, n) ==> states[n].messages
    ensures forall event | EventWaits(states, labels, m, n, event) :: states[n].events == Some(event)
    ensures forall bad | ReportWaits(labels, m, n, bad) :: states[n].reports == Some(bad)
  {
    if m + 1 < n {
      ChannelsKeep(node, cfg, states, labels, m, n - 1);
      assert ReqWaits(labels, m, n) ==> ReqWaits(labels, m, n - 1) && !labels[n - 1].MessageIn?;
      assert forall event | EventWaits(states, labels, m, n, event) ::
          EventWaits(states, labels, m, n - 1, event) && !labels[n - 1].EventIn?;
      assert forall bad | ReportWaits(labels, m, n, bad) ::
               ReportWaits(labels, m, n - 1, bad) && !labels[n - 1].ReportIn?;
    }
  }

  // And it holds nothing else.
  lemma {:induction false} RequestsWereSent(node: Node, cfg: Config, states: seq<State>, labels: seq<Label>, n: nat)
    requires IsRun(node, cfg, states, labels) && n < |states|
    ensures states[n].messages ==> exists m: nat :: ReqWaits(labels, m, n)
  {
    if n > 0 && states[n].messages {
      RequestsWereSent(node, cfg, states, labels, n - 1);
      var m: nat := n - 1;
      if !labels[n - 1].ReqSent? {
        m :| ReqWaits(labels, m, n - 1);
      }
      assert ReqWaits(labels, m, n);
    }
  }

  lemma {:induction false} EventsWereSent(node: Node, cfg: Config, states: seq<State>, labels: seq<Label>, n: nat)
    requires IsRun(node, cfg, states, labels) && n < |states|
    ensures states[n].events.Some? ==> exists m: nat :: EventWaits(states, labels, m, n, states[n].events.value)
  {
    if n > 0 && states[n].events.Some? {
      EventsWereSent(node, cfg, states, labels, n - 1);
      var m: nat := n - 1;
      if !labels[n - 1].EventSent? {
        m :| EventWaits(states, labels, m, n - 1, states[n - 1].events.value);
      }
      assert EventWaits(states, labels, m, n, states[n].events.value);
    }
  }

  lemma {:induction false} ReportsWereMade(node: Node, cfg: Config, states: seq<State>, labels: seq<Label>, n: nat)
    requires IsRun(node, cfg, states, labels) && n < |states|
    ensures states[n].reports.Some? ==> exists m: nat :: ReportWaits(labels, m, n, states[n].reports.value)
  {
    if n > 0 && states[n].reports.Some? {
      ReportsWereMade(node, cfg, states, labels, n - 1);
      var m: nat := n - 1;
      if !labels[n - 1].ReportMade? {
        m :| ReportWaits(labels, m, n - 1, states[n - 1].reports.value);
      }
      assert ReportWaits(labels, m, n, states[n].reports.value);
    }
  }

  // ------------------------------------------------------------ stuck states

  // A task stands in a send.
  ghost predicate Blocked(s: State) {
    s.mpc.SendingTimeout? || s.mpc.SendingReq? || s.dpc.SendingEvent?
  }

  // Steps the tasks take by themselves, as opposed to the passing of time, the
  // interval, the network and requests.
  predicate Internal(l: Label) {
    !l.Interval? && !l.AddressesChanged? && !l.DatagramIn? && !l.ReportMade? && !l.Wait?
  }

  ghost predicate Quiet(s: State) {
    forall l | Internal(l) :: !Enabled(s, l)
  }

  // Each task waits for the other to make room.
  ghost predicate Deadlocked(s: State) {
    s.mpc.SendingReq? && s.messages && s.dpc.SendingEvent? && s.events.Some?
  }

  ghost predicate TimerQuiet(s: State) {
    !T.CanDo(s.timer, T.Consume, s.clock) && !T.CanDo(s.timer, T.Expire, s.clock)
  }

  // The only way to be stuck in a send is that both tasks are, with the event
  // and the message channel full; the timer never takes part.
  lemma StuckIffDeadlocked(s: State)
    ensures Blocked(s) && Quiet(s) <==> Deadlocked(s) && TimerQuiet(s)
  {
    if Blocked(s) && Quiet(s) {
      assert !Enabled(s, EventSent({}));
      assert !Enabled(s, EventIn) && !Enabled(s, AdvBatched) && !Enabled(s, TimeoutSent) && !Enabled(s, ReqSent);
      assert !Enabled(s, TimerTakes) && !Enabled(s, TimerExpires) && !Enabled(s, MessageIn);
    }
  }

  // And there is no way out: nothing that can happen afterwards moves either
  // task, so the table that requests read never changes again.
  lemma {:induction false} DeadlockIsForever(node: Node, cfg: Config, states: seq<State>, labels: seq<Label>, i: nat,
                                             j: nat)
    requires IsPath(node, cfg, states, labels) && i <= j < |states|
    requires Deadlocked(states[i])
    ensures Deadlocked(states[j])
    ensures states[j].mgr == states[i].mgr && states[j].managed == states[i].managed
    decreases j
  {
    if i < j {
      DeadlockIsForever(node, cfg, states, labels, i, j - 1);
    }
  }

  // Address changes come out of the debouncer no sooner than its quiet period
  // after the start, and that far apart.
  ghost predicate Debounced(states: seq<State>, labels: seq<Label>) {
    && |labels| < |states|
    && (forall i | 0 <= i < |labels| && labels[i].AddressesChanged? :: 2_000_000_000 <= states[i].clock)
    && forall i, j | 0 <= i < j < |labels| && labels[i].AddressesChanged? && labels[j].AddressesChanged? ::
         states[i].clock + 2_000_000_000 <= states[j].clock
  }

  // No node and no configuration is safe from it: the addresses of the machine
  // need only change twice before the manager and discovery are done with the
  // first network change, discovery being held up in between.
  lemma DeadlockIsReachable(node: Node, cfg: Config) returns (states: seq<State>, labels: seq<Label>)
    ensures IsRun(node, cfg, states, labels) && Debounced(states, labels)
    ensures labels == [EventSent({}), Interval, ReqSent, EventIn, Wait(ADDRESS_DELAY), AddressesChanged, EventSent({}),
                       Wait(ADDRESS_DELAY), AddressesChanged]
    ensures Deadlocked(states[|labels|]) && states[|labels|].reports == None
    ensures states[|labels|].mgr == Start(cfg)
  {
    states, labels := Startup(node, cfg, {});
    states, labels := ChangesAfterDelay(node, cfg, states, labels);
    states, labels := Extend(node, cfg, states, labels, EventSent({}));
    states, labels := ChangesAfterDelay(node, cfg, states, labels);
  }

  lemma ChangesAfterDelay(node: Node, cfg: Config, states0: seq<State>, labels0: seq<Label>)
    returns (states: seq<State>, labels: seq<Label>)
    requires IsPath(node, cfg, states0, labels0) && states0[|labels0|].dpc.Listening?
    requires Debounced(states0, labels0)
    requires forall i | 0 <= i < |labels0| :: states0[i].clock <= states0[|labels0|].clock
    ensures IsPath(node, cfg, states, labels) && states[0] == states0[0]
    ensures labels == labels0 + [Wait(ADDRESS_DELAY), AddressesChanged] && Debounced(states, labels)
    ensures var s, s' := states0[|labels0|], states[|labels|];
            s' == s.(clock := s.clock + ADDRESS_DELAY, managed := {}, dpc := SendingEvent(NetworkChanged))
    ensures forall i | 0 <= i < |labels| :: states[i].clock <= states[|labels|].clock
  {
    states, labels := Extend(node, cfg, states0, labels0, Wait(ADDRESS_DELAY));
    states, labels := Extend(node, cfg, states, labels, AddressesChanged);
  }

  // Any two accepted datagrams are enough as well.
  lemma DeadlockByDatagrams(node: Node, cfg: Config, found: set<Ip>, d: Datagram, e: Datagram)
    returns (states: seq<State>, labels: seq<Label>)
    requires Dispatch(node, found, d).Some? && Dispatch(node, found, e).Some?
    ensures IsRun(node, cfg, states, labels)
    ensures labels == [EventSent(found), Interval, ReqSent, EventIn, DatagramIn(d), EventSent(found), DatagramIn(e)]
    ensures Deadlocked(states[|labels|])
  {
    states, labels := Startup(node, cfg, found);
    DispatchIffAuthentic(node, found, d);
    states, labels := Extend(node, cfg, states, labels, DatagramIn(d));
    states, labels := Extend(node, cfg, states, labels, EventSent(found));
    states, labels := Extend(node, cfg, states, labels, DatagramIn(e));
  }

  // At the start the manager may ask for adverts twice, on the first tick of
  // its interval and on the first network change, before the first request has
  // been taken.
  lemma Startup(node: Node, cfg: Config, found: set<Ip>) returns (states: seq<State>, labels: seq<Label>)
    ensures IsRun(node, cfg, states, labels)
    ensures labels == [EventSent(found), Interval, ReqSent, EventIn]
    ensures var s := states[4];
            s.mpc == SendingReq && s.messages && s.dpc == Listening && s.events == None && s.managed == found
            && s.reports == None && s.mgr == Start(cfg) && forall i | 0 <= i < 5 :: states[i].clock == 0
  {
    states, labels := [Init(cfg)], [];
    states, labels := Extend(node, cfg, states, labels, EventSent(found));
    states, labels := Extend(node, cfg, states, labels, Interval);
    states, labels := Extend(node, cfg, states, labels, ReqSent);
    states, labels := Extend(node, cfg, states, labels, EventIn);
  }

  // ------------------------------------------------------ when no report gets in

  // Once the tasks block each other with a report in the channel, no other
  // report is ever accepted.
  lemma {:induction false} NoReportAccepted(node: Node, cfg: Config, states: seq<State>, labels: seq<Label>, i: nat,
                                            j: nat)
    requires IsPath(node, cfg, states, labels) && i <= j < |states|
    requires Deadlocked(states[i]) && states[i].reports.Some?
    ensures states[j].reports == states[i].reports
    ensures forall k | i <= k < j :: !labels[k].ReportMade? && !labels[k].ReportIn?
    decreases j
  {
    if i < j {
      NoReportAccepted(node, cfg, states, labels, i, j - 1);
      DeadlockIsForever(node, cfg, states, labels, i, j - 1);
    }
  }

  // The first report made after the tasks block each other is such a report.
  lemma FullDeadlockIsReachable(node: Node, cfg: Config, bad: Url) returns (states: seq<State>, labels: seq<Label>)
    ensures IsRun(node, cfg, states, labels) && Debounced(states, labels)
    ensures Deadlocked(states[|labels|]) && states[|labels|].reports == Some(bad)
    ensures states[|labels|].mgr == Start(cfg)
  {
    states, labels := DeadlockIsReachable(node, cfg);
    states, labels := Extend(node, cfg, states, labels, ReportMade(bad));
  }

  // ----------------------------------------------------- when the batch gets out

  // The tasks' own steps and time empty the batch into the table.
  ghost predicate Flushes(node: Node, cfg: Config, s: State, path: seq<State>, steps: seq<Label>) {
    && IsPath(node, cfg, path, steps) && path[0] == s
    && (forall i | 0 <= i < |steps| :: Internal(steps[i]) || steps[i].Wait?)
    && path[|steps|].mgr.batch == map[]
    && forall u | u in s.mgr.batch :: u in path[|steps|].mgr.caches
  }

  // Steps that only move along what is under way.
  predicate InTransit(l: Label) {
    l.TimeoutSent? || l.AdvBatched? || l.ReqSent? || l.TimerTakes? || l.EventSent? || l.MessageIn?
  }

  // Such steps bring the manager to its select, with the same table and nothing
  // taken out of the batch.
  ghost predicate ComesToSelect(node: Node, cfg: Config, s: State, path: seq<State>, steps: seq<Label>) {
    && IsPath(node, cfg, path, steps) && path[0] == s
    && (forall i | 0 <= i < |steps| :: InTransit(steps[i]))
    && path[|steps|].mpc.Selecting?
    && path[|steps|].mgr.caches == s.mgr.caches
    && s.mgr.batch.Keys <= path[|steps|].mgr.batch.Keys
  }

  lemma UnlessDeadlocked(node: Node, cfg: Config, s: State) returns (path: seq<State>, steps: seq<Label>)
    requires !Deadlocked(s)
    ensures ComesToSelect(node, cfg, s, path, steps)
  {
    match s.mpc
    case Selecting => path, steps := [s], [];
    case SendingTimeout(_, _) => path, steps := TimeoutGoesOn(node, cfg, s);
    case Batching(_, _) => path, steps := Extend(node, cfg, [s], [], AdvBatched);
    case SendingReq => path, steps := ReqGoesOn(node, cfg, s);
  }

  lemma TimeoutGoesOn(node: Node, cfg: Config, s: State) returns (path: seq<State>, steps: seq<Label>)
    requires s.mpc.SendingTimeout?
    ensures ComesToSelect(node, cfg, s, path, steps)
  {
    path, steps := [s], [];
    if s.timer.slot.Some? {
      path, steps := Extend(node, cfg, path, steps, TimerTakes);
    }
    path, steps := Extend(node, cfg, path, steps, TimeoutSent);
    path, steps := Extend(node, cfg, path, steps, AdvBatched);
  }

  lemma ReqGoesOn(node: Node, cfg: Config, s: State) returns (path: seq<State>, steps: seq<Label>)
    requires s.mpc.SendingReq? && !Deadlocked(s)
    ensures ComesToSelect(node, cfg, s, path, steps)
  {
    path, steps := [s], [];
    if s.messages {
      if s.dpc.SendingEvent? {
        path, steps := Extend(node, cfg, path, steps, EventSent({}));
      }
      path, steps := Extend(node, cfg, path, steps, MessageIn);
    }
    path, steps := Extend(node, cfg, path, steps, ReqSent);
  }

  // From its select, the timer and time bring the tick that empties the batch.
  lemma TimerFlushes(node: Node, cfg: Config, s: State, path: seq<State>, steps: seq<Label>)
    returns (path': seq<State>, steps': seq<Label>)
    requires ComesToSelect(node, cfg, s, path, steps) && s.mgr.batch != map[]
    requires BatchCovered(path[|steps|])
    ensures Flushes(node, cfg, s, path', steps')
  {
    var t := path[|steps|];
    assert t.mgr.batch.Keys != {};
    path', steps' := TickComes(node, cfg, path, steps);
    var order := M.OrderOf(Fresh(t.mgr));
    TickFlushes(node, cfg, path'[|steps'|], order);
    path', steps' := Extend(node, cfg, path', steps', BatchTick(order));
  }

  lemma TickComes(node: Node, cfg: Config, path: seq<State>, steps: seq<Label>)
    returns (path': seq<State>, steps': seq<Label>)
    requires IsPath(node, cfg, path, steps)
    requires forall i | 0 <= i < |steps| :: Internal(steps[i]) || steps[i].Wait?
    requires var t := path[|steps|].timer; t.slot.Some? || t.armed.Some? || t.tick
    ensures IsPath(node, cfg, path', steps') && path'[0] == path[0]
    ensures forall i | 0 <= i < |steps'| :: Internal(steps'[i]) || steps'[i].Wait?
    ensures var t, t' := path[|steps|], path'[|steps'|]; t'.timer.tick && t'.mgr == t.mgr && t'.mpc == t.mpc
  {
    path', steps' := path, steps;
    var timer := path[|steps|].timer;
    if !timer.tick {
      if timer.slot.Some? {
        path', steps' := Extend(node, cfg, path', steps', TimerTakes);
      }
      var due := path'[|steps'|].timer.armed.value;
      path', steps' := Extend(node, cfg, path', steps', Wait(due));
      path', steps' := Extend(node, cfg, path', steps', TimerExpires);
    }
  }

  ghost predicate CanFlush(node: Node, cfg: Config, s: State) {
    exists path, steps :: Flushes(node, cfg, s, path, steps)
  }

  // From every reachable state with a batch, the tasks' own steps and time can
  // empty it into the table if and only if the tasks do not block each other.
  lemma BatchFlushesIff(node: Node, cfg: Config, states: seq<State>, labels: seq<Label>, n: nat)
    requires IsRun(node, cfg, states, labels) && n < |states|
    requires states[n].mgr.batch != map[]
    ensures CanFlush(node, cfg, states[n]) <==> !Deadlocked(states[n])
  {
    var s := states[n];
    if Deadlocked(s) {
      forall path, steps | IsPath(node, cfg, path, steps) && path[0] == s
        ensures !Flushes(node, cfg, s, path, steps)
      {
        DeadlockIsForever(node, cfg, path, steps, 0, |steps|);
      }
    } else {
      BatchIsCovered(node, cfg, states, labels, n);
      var path, steps := UnlessDeadlocked(node, cfg, s);
      CoveredAfter(node, cfg, path, steps, |steps|);
      path, steps := TimerFlushes(node, cfg, s, path, steps);
    }
  }
}
