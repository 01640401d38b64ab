// Entries that lose their owner, in runs of the whole system: exactly the nodes
// that can hear one address advertise two URLs can come to it.

module Orphans {
  import opened Types
  import opened Discovery
  import opened ManagerSteps
  import opened System
  import opened Ownership
  import Provenance
  import T = Timers
  import Channels

  // What can be heard from whom: an authentic advert of the URL from the address.
  ghost predicate CanHear(node: Node, source: Ip, url: Url) {
    exists d: Datagram :: d.source == source && GenuineAdvert(node, {}, d, url)
  }

  ghost function Hearable(node: Node): Adverts {
    iset source: Ip, url: Url | CanHear(node, source, url) :: (source, url)
  }

  ghost predicate AlwaysOwnedInSystem(node: Node, cfg: Config) {
    forall states: seq<State>, labels: seq<Label>, n: nat | IsRun(node, cfg, states, labels) && n < |states| ::
             Owned(cfg, states[n].mgr)
  }

  lemma HeardIsHearable(node: Node, cfg: Config, states: seq<State>, labels: seq<Label>)
    requires IsRun(node, cfg, states, labels)
    ensures Provenance.GenuineAdverts(node, states, labels, |labels|) <= Hearable(node)
  {
    forall source, url | Provenance.Witnessed(node, states, labels, |labels|, source, url)
      ensures CanHear(node, source, url)
    {
      var i :| 0 <= i < |labels| && labels[i].DatagramIn? && labels[i].datagram.source == source
        && GenuineAdvert(node, states[i].managed, labels[i].datagram, url);
      assert GenuineAdvert(node, {}, labels[i].datagram, url);
    }
  }

  // ------------------------------------------------------------- the way there

  // Every task waits for input, and nothing is under way.
  ghost predicate Calm(s: State) {
    && s.mpc == Selecting && s.dpc == Listening && s.managed == {} && s.events == None && !s.messages
    && s.timer == T.IDLE && s.reports == None && s.mgr.batch == map[]
  }

  lemma Boot(node: Node, cfg: Config) returns (states: seq<State>, labels: seq<Label>)
    ensures IsRun(node, cfg, states, labels)
    ensures var s := states[|labels|]; Calm(s) && s.mgr == Start(cfg)
  {
    states, labels := [Init(cfg)], [];
    states, labels := Channels.Extend(node, cfg, states, labels, EventSent({}));
    states, labels := Channels.Extend(node, cfg, states, labels, EventIn);
    states, labels := Channels.Extend(node, cfg, states, labels, ReqSent);
    states, labels := Channels.Extend(node, cfg, states, labels, MessageIn);
  }

  // A request reports a cache it found in the table, and that is removed.
  lemma Evicted(node: Node, cfg: Config, states: seq<State>, labels: seq<Label>, u: Url)
    returns (states': seq<State>, labels': seq<Label>)
    requires IsRun(node, cfg, states, labels) && Calm(states[|labels|])
    requires var caches := states[|labels|].mgr.caches; u in caches ==> caches[u].strategy.RemoveCache?
    ensures IsRun(node, cfg, states', labels')
    ensures var s, s' := states[|labels|], states'[|labels'|];
            Calm(s') && s'.mgr == s.mgr.(caches := s.mgr.caches - {u})
  {
    states', labels' := states, labels;
    if u in states[|labels|].mgr.caches {
      states', labels' := Channels.Extend(node, cfg, states', labels', ReportMade(u));
      states', labels' := Channels.Extend(node, cfg, states', labels', ReportIn);
    }
  }

  // The datagram is heard, and its advert joins the batch.
  lemma Heard(node: Node, cfg: Config, states: seq<State>, labels: seq<Label>, d: Datagram, u: Url)
    returns (states': seq<State>, labels': seq<Label>)
    requires IsRun(node, cfg, states, labels) && Calm(states[|labels|])
    requires GenuineAdvert(node, {}, d, u)
    ensures IsRun(node, cfg, states', labels')
    ensures var s, s' := states[|labels|], states'[|labels'|];
            && s' == s.(mgr := s'.mgr, timer := T.IDLE.(slot := Some(BATCH_DELAY)))
            && s'.mgr == s.mgr.(batch := map[u := d.source], lastAdv := s'.mgr.lastAdv)
  {
    DispatchIffAuthentic(node, {}, d);
    assert Dispatch(node, {}, d) == Some(AdvFrom(d.source, u));
    states', labels' := Channels.Extend(node, cfg, states, labels, DatagramIn(d));
    states', labels' := Channels.Extend(node, cfg, states', labels', EventSent({}));
    states', labels' := Channels.Extend(node, cfg, states', labels', EventIn);
    states', labels' := Channels.Extend(node, cfg, states', labels', TimeoutSent);
    states', labels' := Channels.Extend(node, cfg, states', labels', AdvBatched);
  }

  // The timer brings the tick that takes the advert up.
  lemma TakenUpInTime(node: Node, cfg: Config, states: seq<State>, labels: seq<Label>, ip: Ip, u: Url)
    returns (states': seq<State>, labels': seq<Label>)
    requires IsRun(node, cfg, states, labels)
    requires var s := states[|labels|];
             && Calm(s.(timer := T.IDLE, mgr := s.mgr.(batch := map[])))
             && s.timer == T.IDLE.(slot := Some(BATCH_DELAY))
             && s.mgr.batch == map[u := ip] && u !in s.mgr.caches
    ensures IsRun(node, cfg, states', labels')
    ensures var s, s' := states[|labels|], states'[|labels'|];
            && Calm(s')
            && s'.mgr == s.mgr.(caches := s.mgr.caches[u := Meta(0, cfg.localStrategy, None)],
                                local := s.mgr.local[ip := u], batch := map[])
  {
    var m := states[|labels|].mgr;
    TakenUp(cfg, m.(batch := map[]), ip, u);
    assert m == OnAdvBatched(m.(batch := map[]), ip, u);
    states', labels' := Channels.Extend(node, cfg, states, labels, TimerTakes);
    states', labels' := Channels.Extend(node, cfg, states', labels', Wait(BATCH_DELAY));
    states', labels' := Channels.Extend(node, cfg, states', labels', TimerExpires);
    states', labels' := Channels.Extend(node, cfg, states', labels', BatchTick([u]));
  }

  lemma Adopted(node: Node, cfg: Config, states: seq<State>, labels: seq<Label>, d: Datagram, u: Url)
    returns (states': seq<State>, labels': seq<Label>)
    requires IsRun(node, cfg, states, labels) && Calm(states[|labels|])
    requires GenuineAdvert(node, {}, d, u) && u !in states[|labels|].mgr.caches
    ensures IsRun(node, cfg, states', labels')
    ensures var s, s' := states[|labels|], states'[|labels'|];
            && Calm(s') && s'.mgr.local == s.mgr.local[d.source := u]
            && s'.mgr.caches == s.mgr.caches[u := Meta(0, cfg.localStrategy, None)]
  {
    states', labels' := Heard(node, cfg, states, labels, d, u);
    states', labels' := TakenUpInTime(node, cfg, states', labels', d.source, u);
  }

  // The node hears u from an address, takes it up, hears v from the same
  // address, and takes that up: u has lost its owner, and when the addresses of
  // the machine change u stays in the table.
  lemma OrphaningRunInSystem(node: Node, cfg: Config, d: Datagram, u: Url, e: Datagram, v: Url)
    returns (states: seq<State>, labels: seq<Label>, n: nat)
    requires d.source == e.source && GenuineAdvert(node, {}, d, u) && GenuineAdvert(node, {}, e, v)
    requires u != v && !Permanent(cfg, u) && !Permanent(cfg, v) && !Indistinct(cfg, u)
    ensures IsRun(node, cfg, states, labels) && n < |labels|
    ensures !Owned(cfg, states[n].mgr)
    ensures var s := states[|labels|];
            s.mgr.local == map[] && u in s.mgr.caches && !Carries(cfg, s.mgr.caches, u)
  {
    states, labels := Boot(node, cfg);
    states, labels := Evicted(node, cfg, states, labels, u);
    states, labels := Evicted(node, cfg, states, labels, v);
    states, labels := Adopted(node, cfg, states, labels, d, u);
    states, labels := Adopted(node, cfg, states, labels, e, v);
    n := |labels|;
    Orphaned(cfg, states[n].mgr, d.source, u, v);
    states, labels := NetworkChanges(node, cfg, states, labels);
  }

  lemma NetworkChanges(node: Node, cfg: Config, states: seq<State>, labels: seq<Label>)
    returns (states': seq<State>, labels': seq<Label>)
    requires IsRun(node, cfg, states, labels) && Calm(states[|labels|])
    ensures IsRun(node, cfg, states', labels') && |labels| < |labels'|
    ensures states'[|labels|] == states[|labels|]
    ensures states'[|labels'|].mgr == OnNetworkChanged(states[|labels|].mgr)
  {
    states', labels' := Channels.Extend(node, cfg, states, labels, Wait(ADDRESS_DELAY));
    states', labels' := Channels.Extend(node, cfg, states', labels', AddressesChanged);
    states', labels' := Channels.Extend(node, cfg, states', labels', EventSent({}));
    states', labels' := Channels.Extend(node, cfg, states', labels', EventIn);
  }

  // A running node keeps every entry configured or owned, whatever happens, if
  // and only if it cannot hear an address advertise two URLs it can own.
  lemma OwnedInSystemIff(node: Node, cfg: Config)
    ensures AlwaysOwnedInSystem(node, cfg) <==> !Conflict(cfg, Hearable(node))
  {
    if Conflict(cfg, Hearable(node)) {
      var ip, u, v :|
        && (ip, u) in Hearable(node) && (ip, v) in Hearable(node) && u != v
        && !Permanent(cfg, u) && !Permanent(cfg, v) && !Indistinct(cfg, u);
      var d: Datagram :| d.source == ip && GenuineAdvert(node, {}, d, u);
      var e: Datagram :| e.source == ip && GenuineAdvert(node, {}, e, v);
      var states, labels, n := OrphaningRunInSystem(node, cfg, d, u, e, v);
    } else {
      forall states: seq<State>, labels: seq<Label>, n: nat | IsRun(node, cfg, states, labels) && n < |states|
        ensures Owned(cfg, states[n].mgr)
      {
        HeardIsHearable(node, cfg, states, labels);
        Provenance.SystemInvariants(node, cfg, states, labels, n);
      }
    }
  }
}
