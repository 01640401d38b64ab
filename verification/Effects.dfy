// What every step of a running system does to the manager's state, entry by
// entry and peer by peer, and what it leaves alone.

module Effects {
  import opened Types
  import opened Discovery
  import opened ManagerSteps
  import opened System
  import M = ManagerRuns
  import T = Timers

  ghost predicate Owns(m: ManagerState, ip: Ip, u: Url) {
    ip in m.local && m.local[ip] == u
  }

  ghost predicate Owned(m: ManagerState, u: Url) {
    exists ip :: Owns(m, ip, u)
  }

  // A goodbye takes what its sender owns, and the sender's ownership.
  ghost predicate GoodbyeEffect(m: ManagerState, m': ManagerState, ip: Ip) {
    && (forall u :: u in m'.caches <==> u in m.caches && !Owns(m, ip, u))
    && (forall u | u in m'.caches && u in m.caches :: m'.caches[u] == m.caches[u])
    && (forall p, u :: Owns(m', p, u) <==> p != ip && Owns(m, p, u))
    && m'.batch == m.batch && m'.lastAdv == m.lastAdv
    && (ip !in m.local ==> m' == m)
  }

  // A network change takes what any peer owns.
  ghost predicate NetworkEffect(m: ManagerState, m': ManagerState) {
    && (forall u :: u in m'.caches <==> u in m.caches && !Owned(m, u))
    && (forall u | u in m'.caches && u in m.caches :: m'.caches[u] == m.caches[u])
    && m'.local == map[]
    && m'.batch == m.batch && m'.lastAdv == m.lastAdv
  }

  // An advert is noted, and nothing else.
  ghost predicate AdvertEffect(m: ManagerState, m': ManagerState, now: Instant) {
    && m'.lastAdv == Some(now)
    && m'.caches == m.caches && m'.local == m.local && m'.batch == m.batch
  }

  // Then it waits under its sender, in place of an earlier one for that URL.
  ghost predicate BatchEffect(m: ManagerState, m': ManagerState, source: Ip, url: Url) {
    && (forall u :: u in m'.batch <==> u == url || u in m.batch)
    && (forall u | u in m'.batch && u != url && u in m.batch :: m'.batch[u] == m.batch[u])
    && (url in m'.batch ==> m'.batch[url] == source)
    && m'.caches == m.caches && m'.local == m.local && m'.lastAdv == m.lastAdv
  }

  // A report touches the entry it is about, if there is one: it goes, or its
  // timeout ends `timeout` from now, as its own strategy says.
  ghost predicate ReportEffect(m: ManagerState, m': ManagerState, bad: Url, now: Instant) {
    && (forall u | u != bad :: u in m'.caches <==> u in m.caches)
    && (forall u | u != bad && u in m.caches :: m'.caches[u] == m.caches[u])
    && (bad !in m.caches ==> bad !in m'.caches)
    && (bad in m.caches ==>
          match m.caches[bad].strategy
          case RemoveCache => bad !in m'.caches
          case TimeoutFor(timeout) =>
            bad in m'.caches && m'.caches[bad] ==
                Meta(m.caches[bad].priority, TimeoutFor(timeout), Some(now + timeout)))
    && m'.local == m.local && m'.batch == m.batch && m'.lastAdv == m.lastAdv
  }

  // A tick adds the waiting caches that are absent, at priority 0 with the local
  // strategy and no timeout. A peer that brought some owns one of those, and
  // every other peer owns what it did.
  ghost predicate TickEffect(cfg: Config, m: ManagerState, m': ManagerState) {
    && (forall u :: u in m'.caches <==> u in m.caches || u in m.batch)
    && (forall u | u in m.caches :: m'.caches[u] == m.caches[u])
    && (forall u | u in m.batch && u !in m.caches :: m'.caches[u] == Meta(0, cfg.localStrategy, None))
    && OwnersEffect(m, m')
    && m'.batch == map[] && m'.lastAdv == m.lastAdv
  }

  ghost predicate OwnersEffect(m: ManagerState, m': ManagerState) {
    && (forall p, u | Owns(m', p, u) :: Brought(m, p, u) || (Owns(m, p, u) && forall v :: !Brought(m, p, v)))
    && (forall p, u | Owns(m, p, u) || Brought(m, p, u) :: p in m'.local)
  }

  ghost predicate Brought(m: ManagerState, p: Ip, u: Url) {
    u in m.batch && m.batch[u] == p && u !in m.caches
  }

  ghost predicate Effect(cfg: Config, s: State, l: Label, m': ManagerState) {
    match l
    case BatchTick(_) => TickEffect(cfg, s.mgr, m')
    case ReportIn => s.reports.Some? && ReportEffect(s.mgr, m', s.reports.value, s.clock)
    case EventIn =>
      (match s.events
       case Some(GoodbyeFrom(source)) => GoodbyeEffect(s.mgr, m', source)
       case Some(NetworkChanged) => NetworkEffect(s.mgr, m')
       case Some(AdvFrom(_, _)) => AdvertEffect(s.mgr, m', s.clock)
       case None => false)
    case AdvBatched =>
      (match s.mpc
       case Batching(source, url) => BatchEffect(s.mgr, m', source, url)
       case _ => false)
    case _ => m' == s.mgr
  }

  lemma GoodbyeTakesItsOwn(m: ManagerState, ip: Ip)
    ensures GoodbyeEffect(m, OnGoodbye(m, ip), ip)
  {
    var m' := OnGoodbye(m, ip);
    forall p, u
      ensures Owns(m', p, u) <==> p != ip && Owns(m, p, u)
    {
    }
  }

  lemma NetworkChangeTakesTheOwned(m: ManagerState)
    ensures NetworkEffect(m, OnNetworkChanged(m))
  {
    forall u
      ensures u in m.local.Values <==> Owned(m, u)
    {
      if u in m.local.Values {
        var p :| p in m.local && m.local[p] == u;
        assert Owns(m, p, u);
      }
    }
  }

  lemma TickTakesUp(cfg: Config, m: ManagerState, order: seq<Url>)
    requires DrainOrder(Fresh(m), order)
    ensures TickEffect(cfg, m, OnTick(cfg, m, order))
  {
    M.TickIsOrderIndependent(cfg, m, order);
    TickTakesOwners(cfg, m, order);
  }

  lemma TickTakesOwners(cfg: Config, m: ManagerState, order: seq<Url>)
    requires DrainOrder(Fresh(m), order)
    ensures OwnersEffect(m, OnTick(cfg, m, order))
  {
    M.DrainOwnersClosed(m.local, m.batch, order);
    forall p, u
      ensures Brought(m, p, u) <==> u in order && m.batch[u] == p
    {
      assert u in order <==> u in Fresh(m);
    }
  }

  // Every step of every run has exactly that effect on the manager's state.
  lemma StepEffect(node: Node, cfg: Config, states: seq<State>, labels: seq<Label>, n: nat)
    requires IsRun(node, cfg, states, labels) && n < |labels|
    ensures Effect(cfg, states[n], labels[n], states[n + 1].mgr)
  {
    var m := states[n].mgr;
    match labels[n]
    case BatchTick(order) => TickTakesUp(cfg, m, order);
    case EventIn =>
      NetworkChangeTakesTheOwned(m);
      if states[n].events.value.GoodbyeFrom? {
        GoodbyeTakesItsOwn(m, states[n].events.value.source);
      }
    case _ =>
  }

  // What a step does to the timer: a second is asked for when the slot is free,
  // counts from when it is taken up, in place of what was counting, and its end
  // leaves one tick.
  ghost predicate TimerEffect(s: State, l: Label, timer: T.TimerState) {
    match l
    case TimeoutSent => s.timer.slot.None? && timer == T.TimerState(Some(1_000_000_000), s.timer.armed, s.timer.tick)
    case TimerTakes => s.timer.slot.Some? && timer ==
        T.TimerState(None, Some(s.clock + s.timer.slot.value), s.timer.tick)
    case TimerExpires =>
      s.timer.armed.Some? && s.timer.armed.value <= s.clock && timer == T.TimerState(s.timer.slot, None, true)
    case BatchTick(_) => s.timer.tick && timer == T.TimerState(s.timer.slot, s.timer.armed, false)
    case _ => timer == s.timer
  }

  // Only these steps touch the timer, and only waiting takes time.
  lemma TimerAndClock(node: Node, cfg: Config, states: seq<State>, labels: seq<Label>, n: nat)
    requires IsRun(node, cfg, states, labels) && n < |labels|
    ensures TimerEffect(states[n], labels[n], states[n + 1].timer)
    ensures states[n + 1].clock == states[n].clock + if labels[n].Wait? then labels[n].time else 0
  {
  }
}
