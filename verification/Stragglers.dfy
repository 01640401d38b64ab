// Departures in runs of the whole system: whether a peer without an entry stays
// away until it is heard again depends on the batch and on the events still on
// their way to the manager.

module Stragglers {
  import opened Types
  import opened Discovery
  import opened ManagerSteps
  import opened System
  import opened Channels
  import D = Departures
  import M = ManagerRuns

  // --------------------------------------------------------- on the manager alone

  // The entry can leave the table neither by a report nor because it is absent.
  predicate Firm(m: ManagerState, u: Url) {
    u in m.caches && m.caches[u].strategy.TimeoutFor?
  }

  // An event with all that follows from it.
  function Handled(m: ManagerState, event: Event): ManagerState {
    match event
    case NetworkChanged => OnNetworkChanged(m)
    case GoodbyeFrom(source) => OnGoodbye(m, source)
    case AdvFrom(source, url) => OnAdvBatched(m, source, url)
  }

  // At some point, while the manager handles these events, an advert of the peer
  // waits in the batch about an entry that is not firm; or at their end, about
  // one that is not settled. Computed from the state alone.
  predicate Returns(m: ManagerState, events: seq<Event>, ip: Ip)
    decreases |events|
  {
    || (exists u | u in m.batch :: m.batch[u] == ip && !Firm(m, u))
    || if events == [] then !D.NothingPending(m, ip) else Returns(Handled(m, events[0]), events[1..], ip)
  }

  // Compared with m, m' holds every firm entry, with the owners it had, and no
  // other adverts of the peer.
  ghost predicate NoWorse(m: ManagerState, m': ManagerState, ip: Ip) {
    && (forall u | Firm(m, u) :: Firm(m', u))
    && (forall p | p in m'.local && Firm(m, m'.local[p]) :: p in m.local && m.local[p] == m'.local[p])
    && (forall u | u in m'.batch && m'.batch[u] == ip :: u in m.batch && m.batch[u] == ip)
  }

  lemma HandledNoWorse(m: ManagerState, m': ManagerState, event: Event, ip: Ip)
    requires NoWorse(m, m', ip)
    ensures NoWorse(Handled(m, event), Handled(m', event), ip)
  {
    var h, h' := Handled(m, event), Handled(m', event);
    forall u | Firm(h, u)
      ensures Firm(h', u)
    {
      assert Firm(m, u) && Firm(m', u);
    }
  }

  lemma {:induction false} ReturnsNoWorse(m: ManagerState, m': ManagerState, events: seq<Event>, ip: Ip)
    requires NoWorse(m, m', ip) && Returns(m', events, ip)
    ensures Returns(m, events, ip)
    decreases |events|
  {
    if u :| u in m'.batch && m'.batch[u] == ip && !Firm(m', u) {
      assert u in m.batch && m.batch[u] == ip && !Firm(m, u);
    } else if events == [] {
      var u :| u in m'.batch && m'.batch[u] == ip && !D.Settled(m', u);
      assert u in m.batch && m.batch[u] == ip && !D.Settled(m, u);
    } else {
      HandledNoWorse(m, m', events[0], ip);
      ReturnsNoWorse(Handled(m, events[0]), Handled(m', events[0]), events[1..], ip);
    }
  }

  // One more event that is not an advert of the peer makes no difference.
  lemma {:induction false} OneMoreEvent(m: ManagerState, events: seq<Event>, event: Event, ip: Ip)
    requires Returns(m, events + [event], ip)
    requires !(event.AdvFrom? && event.source == ip)
    ensures Returns(m, events, ip)
    decreases |events|
  {
    if events == [] {
      assert (events + [event])[1..] == [];
    } else if u :| u in m.batch && m.batch[u] == ip && !Firm(m, u) {
    } else {
      assert (events + [event])[1..] == events[1..] + [event];
      OneMoreEvent(Handled(m, events[0]), events[1..], event, ip);
    }
  }

  // ---------------------------------------------------------------- in the system

  // The manager's state once an advert it has begun to handle is in the batch.
  function Effective(s: State): ManagerState {
    match s.mpc
    case SendingTimeout(source, url) => OnAdvBatched(s.mgr, source, url)
    case Batching(source, url) => OnAdvBatched(s.mgr, source, url)
    case _ => s.mgr
  }

  // The events on their way to the manager, the next one first.
  function OnTheWay(s: State): seq<Event> {
    (if s.events.Some? then [s.events.value] else []) + (if s.dpc.SendingEvent? then [s.dpc.event] else [])
  }

  // An authentic advert from the address is received.
  ghost predicate HeardFrom(node: Node, s: State, l: Label, ip: Ip) {
    l.DatagramIn? && exists url :: Dispatch(node, s.managed, l.datagram) == Some(AdvFrom(ip, url))
  }

  ghost predicate Unheard(node: Node, path: seq<State>, steps: seq<Label>, ip: Ip) {
    |steps| <= |path| && forall i | 0 <= i < |steps| :: !HeardFrom(node, path[i], steps[i], ip)
  }

  // A peer without an entry gets none before it is heard again, whatever follows.
  ghost predicate StaysAway(node: Node, cfg: Config, s: State, ip: Ip) {
    forall path: seq<State>, steps: seq<Label> |
      IsPath(node, cfg, path, steps) && path[0] == s && Unheard(node, path, steps, ip) ::
      ip !in path[|steps|].mgr.local
  }

  ghost predicate Away(s: State, ip: Ip) {
    ip !in s.mgr.local && !Returns(Effective(s), OnTheWay(s), ip)
  }

  lemma TickNoWorse(cfg: Config, m: ManagerState, order: seq<Url>, ip: Ip)
    requires DrainOrder(Fresh(m), order)
    ensures NoWorse(m, OnTick(cfg, m, order), ip)
    ensures ip in OnTick(cfg, m, order).local ==>
              ip in m.local || exists u | u in m.batch :: m.batch[u] == ip && !Firm(m, u)
  {
    M.TickIsOrderIndependent(cfg, m, order);
    M.DrainOwnersClosed(m.local, m.batch, order);
    var owners := OnTick(cfg, m, order).local;
    if ip in owners && ip !in m.local {
      assert owners[ip] in Fresh(m) && m.batch[owners[ip]] == ip;
    }
  }

  lemma SameButForTime(m: ManagerState, m': ManagerState, events: seq<Event>, ip: Ip)
    requires m' == m.(lastAdv := m'.lastAdv)
    ensures Returns(m', events, ip) <==> Returns(m, events, ip)
  {
    if Returns(m', events, ip) {
      ReturnsNoWorse(m, m', events, ip);
    }
    if Returns(m, events, ip) {
      ReturnsNoWorse(m', m, events, ip);
    }
  }

  lemma StepAway(node: Node, cfg: Config, s: State, l: Label, ip: Ip)
    requires Enabled(s, l) && !HeardFrom(node, s, l, ip) && Away(s, ip)
    ensures Away(Step(node, cfg, s, l), ip)
  {
    var s' := Step(node, cfg, s, l);
    match l
    case BatchTick(order) =>
      TickNoWorse(cfg, s.mgr, order, ip);
      if Returns(s'.mgr, OnTheWay(s), ip) {
        ReturnsNoWorse(s.mgr, s'.mgr, OnTheWay(s), ip);
      }
    case ReportIn =>
      if Returns(s'.mgr, OnTheWay(s), ip) {
        ReturnsNoWorse(s.mgr, s'.mgr, OnTheWay(s), ip);
      }
    case EventIn =>
      assert OnTheWay(s)[0] == s.events.value && OnTheWay(s') == OnTheWay(s)[1..];
      SameButForTime(Handled(s.mgr, s.events.value), Effective(s'), OnTheWay(s'), ip);
    case AddressesChanged =>
      NewEvent(s, s', NetworkChanged, ip);
    case DatagramIn(d) =>
      var event := Dispatch(node, s.managed, d);
      DispatchIffAuthentic(node, s.managed, d);
      if event.Some? {
        NewEvent(s, s', event.value, ip);
      }
    case _ =>
      assert OnTheWay(s') == OnTheWay(s);
  }

  lemma NewEvent(s: State, s': State, event: Event, ip: Ip)
    requires Away(s, ip) && s.dpc.Listening? && !(event.AdvFrom? && event.source == ip)
    requires s' == s.(dpc := SendingEvent(event), managed := s'.managed)
    ensures Away(s', ip)
  {
    assert OnTheWay(s') == OnTheWay(s) + [event];
    if Returns(Effective(s), OnTheWay(s) + [event], ip) {
      OneMoreEvent(Effective(s), OnTheWay(s), event, ip);
    }
  }

  lemma {:induction false} PathAway(node: Node, cfg: Config, path: seq<State>, steps: seq<Label>, ip: Ip, n: nat)
    requires IsPath(node, cfg, path, steps) && Unheard(node, path, steps, ip) && n <= |steps|
    requires Away(path[0], ip)
    ensures Away(path[n], ip)
  {
    if n > 0 {
      PathAway(node, cfg, path, steps, ip, n - 1);
      StepAway(node, cfg, path[n - 1], steps[n - 1], ip);
    }
  }

  // ------------------------------------------------------------- the way back

  ghost predicate NoDatagrams(steps: seq<Label>) {
    forall i | 0 <= i < |steps| :: !steps[i].DatagramIn?
  }

  // Without a datagram, from s to a state in which the peer has an entry.
  ghost predicate Back(node: Node, cfg: Config, s: State, ip: Ip, path: seq<State>, steps: seq<Label>) {
    && IsPath(node, cfg, path, steps) && path[0] == s && NoDatagrams(steps)
    && ip in path[|steps|].mgr.local
  }

  lemma GoesBack(node: Node, cfg: Config, path: seq<State>, steps: seq<Label>, ip: Ip, path': seq<State>,
                 steps': seq<Label>)
    requires IsPath(node, cfg, path, steps) && NoDatagrams(steps)
    requires Back(node, cfg, path[|steps|], ip, path', steps')
    ensures Back(node, cfg, path[0], ip, path + path'[1..], steps + steps')
  {
  }

  // Steps in transit change neither what is effective nor what is on the way.
  lemma {:induction false} TransitKeeps(node: Node, cfg: Config, path: seq<State>, steps: seq<Label>, n: nat)
    requires IsPath(node, cfg, path, steps) && n <= |steps| && forall i | 0 <= i < |steps| :: InTransit(steps[i])
    ensures Effective(path[n]) == Effective(path[0]) && OnTheWay(path[n]) == OnTheWay(path[0])
  {
    if n > 0 {
      TransitKeeps(node, cfg, path, steps, n - 1);
    }
  }

  // A report takes an entry that is not firm out of the table, when it is there.
  lemma Removed(node: Node, cfg: Config, s: State, u: Url) returns (path: seq<State>, steps: seq<Label>)
    requires s.mpc.Selecting? && !Firm(s.mgr, u)
    ensures IsPath(node, cfg, path, steps) && path[0] == s && NoDatagrams(steps)
    ensures var s' := path[|steps|];
            s'.mpc.Selecting? && s'.timer == s.timer && s'.mgr.batch == s.mgr.batch && u !in s'.mgr.caches
  {
    path, steps := [s], [];
    if s.reports.Some? {
      path, steps := Extend(node, cfg, path, steps, ReportIn);
    }
    if u in path[|steps|].mgr.caches {
      path, steps := Extend(node, cfg, path, steps, ReportMade(u));
      path, steps := Extend(node, cfg, path, steps, ReportIn);
    }
  }

  // The tick gives the sender of an absent cache its entry.
  lemma TickBack(node: Node, cfg: Config, s: State, u: Url) returns (path: seq<State>, steps: seq<Label>)
    requires s.mpc.Selecting? && BatchCovered(s) && u in s.mgr.batch && u !in s.mgr.caches
    ensures Back(node, cfg, s, s.mgr.batch[u], path, steps)
  {
    path, steps := TickComes(node, cfg, [s], []);
    var m, order := D.TakesUp(cfg, s.mgr, u);
    path, steps := Extend(node, cfg, path, steps, BatchTick(order));
  }

  lemma BackFromBatch(node: Node, cfg: Config, s: State, u: Url) returns (path: seq<State>, steps: seq<Label>)
    requires s.mpc.Selecting? && BatchCovered(s) && u in s.mgr.batch && !Firm(s.mgr, u)
    ensures Back(node, cfg, s, s.mgr.batch[u], path, steps)
  {
    path, steps := Removed(node, cfg, s, u);
    var path', steps' := TickBack(node, cfg, path[|steps|], u);
    GoesBack(node, cfg, path, steps, s.mgr.batch[u], path', steps');
    path, steps := path + path'[1..], steps + steps';
  }

  // With nothing on the way, a change of addresses takes out the owned entries.
  lemma Disowned(node: Node, cfg: Config, s: State) returns (path: seq<State>, steps: seq<Label>)
    requires s.mpc.Selecting? && OnTheWay(s) == []
    ensures IsPath(node, cfg, path, steps) && path[0] == s && NoDatagrams(steps)
    ensures var s' := path[|steps|]; s'.mpc.Selecting? && s'.timer == s.timer && s'.mgr == OnNetworkChanged(s.mgr)
  {
    path, steps := Extend(node, cfg, [s], [], Wait(ADDRESS_DELAY));
    path, steps := Extend(node, cfg, path, steps, AddressesChanged);
    path, steps := Extend(node, cfg, path, steps, EventSent({}));
    path, steps := Extend(node, cfg, path, steps, EventIn);
    path, steps := Requested(node, cfg, path, steps);
  }

  // With discovery listening, the request for adverts gets out.
  lemma Requested(node: Node, cfg: Config, path: seq<State>, steps: seq<Label>)
    returns (path': seq<State>, steps': seq<Label>)
    requires IsPath(node, cfg, path, steps) && NoDatagrams(steps)
    requires path[|steps|].mpc.SendingReq? && path[|steps|].dpc.Listening?
    ensures IsPath(node, cfg, path', steps') && path'[0] == path[0] && NoDatagrams(steps')
    ensures var s, s' := path[|steps|], path'[|steps'|];
            s'.mpc.Selecting? && s'.timer == s.timer && s'.mgr == s.mgr
  {
    path', steps' := path, steps;
    if path[|steps|].messages {
      path', steps' := Extend(node, cfg, path', steps', MessageIn);
    }
    path', steps' := Extend(node, cfg, path', steps', ReqSent);
  }

  lemma BackFromOwned(node: Node, cfg: Config, s: State, u: Url) returns (path: seq<State>, steps: seq<Label>)
    requires s.mpc.Selecting? && BatchCovered(s) && OnTheWay(s) == []
    requires u in s.mgr.batch && u in s.mgr.local.Values
    ensures Back(node, cfg, s, s.mgr.batch[u], path, steps)
  {
    path, steps := Disowned(node, cfg, s);
    var path', steps' := TickBack(node, cfg, path[|steps|], u);
    GoesBack(node, cfg, path, steps, s.mgr.batch[u], path', steps');
    path, steps := path + path'[1..], steps + steps';
  }

  // The next event is taken in.
  lemma NextEvent(node: Node, cfg: Config, s: State, ip: Ip) returns (path: seq<State>, steps: seq<Label>)
    requires s.mpc.Selecting? && OnTheWay(s) != []
    requires Returns(Handled(s.mgr, OnTheWay(s)[0]), OnTheWay(s)[1..], ip)
    ensures IsPath(node, cfg, path, steps) && path[0] == s && NoDatagrams(steps)
    ensures var s' := path[|steps|];
            !Deadlocked(s') && |OnTheWay(s')| < |OnTheWay(s)| && Returns(Effective(s'), OnTheWay(s'), ip)
  {
    path, steps := [s], [];
    if s.events.None? {
      path, steps := Extend(node, cfg, path, steps, EventSent({}));
    }
    ghost var t := path[|steps|];
    assert OnTheWay(t) == OnTheWay(s) && t.events == Some(OnTheWay(s)[0]);
    path, steps := Extend(node, cfg, path, steps, EventIn);
    var s' := path[|steps|];
    assert OnTheWay(s') == OnTheWay(s)[1..];
    SameButForTime(Handled(s.mgr, OnTheWay(s)[0]), Effective(s'), OnTheWay(s'), ip);
  }

  lemma {:induction false} WayBack(node: Node, cfg: Config, s: State, ip: Ip)
    returns (path: seq<State>, steps: seq<Label>)
    requires BatchCovered(s) && !Deadlocked(s) && Returns(Effective(s), OnTheWay(s), ip)
    ensures Back(node, cfg, s, ip, path, steps)
    decreases |OnTheWay(s)|, 1
  {
    path, steps := UnlessDeadlocked(node, cfg, s);
    TransitKeeps(node, cfg, path, steps, |steps|);
    CoveredAfter(node, cfg, path, steps, |steps|);
    var path', steps' := WayBackFromSelect(node, cfg, path[|steps|], ip);
    GoesBack(node, cfg, path, steps, ip, path', steps');
    path, steps := path + path'[1..], steps + steps';
  }

  lemma {:induction false} WayBackFromSelect(node: Node, cfg: Config, s: State, ip: Ip)
    returns (path: seq<State>, steps: seq<Label>)
    requires s.mpc.Selecting? && BatchCovered(s) && Returns(s.mgr, OnTheWay(s), ip)
    ensures Back(node, cfg, s, ip, path, steps)
    decreases |OnTheWay(s)|, 0
  {
    if u :| u in s.mgr.batch && s.mgr.batch[u] == ip && !Firm(s.mgr, u) {
      path, steps := BackFromBatch(node, cfg, s, u);
    } else if OnTheWay(s) == [] {
      var u :| u in s.mgr.batch && s.mgr.batch[u] == ip && !D.Settled(s.mgr, u);
      path, steps := BackFromOwned(node, cfg, s, u);
    } else {
      path, steps := NextEvent(node, cfg, s, ip);
      CoveredAfter(node, cfg, path, steps, |steps|);
      var path', steps' := WayBack(node, cfg, path[|steps|], ip);
      GoesBack(node, cfg, path, steps, ip, path', steps');
      path, steps := path + path'[1..], steps + steps';
    }
  }

  // From every reachable state in which a peer has no entry: it gets none before
  // it is heard again, if and only if manager and discovery block each other, or
  // none of its adverts in the batch or on the way can bring it back.
  lemma StaysAwayIff(node: Node, cfg: Config, states: seq<State>, labels: seq<Label>, n: nat, ip: Ip)
    requires IsRun(node, cfg, states, labels) && n < |states| && ip !in states[n].mgr.local
    ensures StaysAway(node, cfg, states[n], ip) <==>
            Deadlocked(states[n]) || !Returns(Effective(states[n]), OnTheWay(states[n]), ip)
  {
    var s := states[n];
    if Deadlocked(s) || !Returns(Effective(s), OnTheWay(s), ip) {
      forall path: seq<State>, steps: seq<Label> |
        IsPath(node, cfg, path, steps) && path[0] == s && Unheard(node, path, steps, ip)
        ensures ip !in path[|steps|].mgr.local
      {
        if Deadlocked(s) {
          DeadlockIsForever(node, cfg, path, steps, 0, |steps|);
        } else {
          PathAway(node, cfg, path, steps, ip, |steps|);
        }
      }
    } else {
      BatchIsCovered(node, cfg, states, labels, n);
      var path, steps := WayBack(node, cfg, s, ip);
      assert Unheard(node, path, steps, ip);
    }
  }
}
