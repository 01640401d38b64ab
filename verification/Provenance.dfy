// Where the entries of the table come from, over whole runs of the system:
// from the configuration, or from an authentic advert of another machine.

module Provenance {
  import opened Types
  import opened Discovery
  import opened ManagerSteps
  import opened System
  import Ownership
  import Timeouts

  // Some datagram received so far was an authentic advert of the URL, sent
  // from this address, which was not one of our own.
  ghost predicate Witnessed(node: Node, states: seq<State>, labels: seq<Label>, n: nat, source: Ip, url: Url) {
    exists i :: 0 <= i < n && i < |labels| && i < |states| && labels[i].DatagramIn?
      && labels[i].datagram.source == source
      && GenuineAdvert(node, states[i].managed, labels[i].datagram, url)
  }

  // Every advert on its way to the batch is one of these.
  ghost predicate InFlightFrom(s: State, adverts: Ownership.Adverts) {
    && (s.dpc.SendingEvent? && s.dpc.event.AdvFrom? ==> (s.dpc.event.source, s.dpc.event.url) in adverts)
    && (s.events.Some? && s.events.value.AdvFrom? ==> (s.events.value.source, s.events.value.url) in adverts)
    && (s.mpc.SendingTimeout? || s.mpc.Batching? ==> (s.mpc.source, s.mpc.url) in adverts)
  }

  lemma StepInFlight(node: Node, cfg: Config, s: State, l: Label, adverts: Ownership.Adverts)
    requires Enabled(s, l) && InFlightFrom(s, adverts)
    requires l.DatagramIn? ==>
               var e := Dispatch(node, s.managed, l.datagram);
               e.Some? && e.value.AdvFrom? ==> (e.value.source, e.value.url) in adverts
    ensures InFlightFrom(Step(node, cfg, s, l), adverts)
  {
  }

  // The adverts the first n steps have genuinely received.
  ghost function GenuineAdverts(node: Node, states: seq<State>, labels: seq<Label>, n: nat): Ownership.Adverts {
    iset source: Ip, url: Url | Witnessed(node, states, labels, n, source, url) :: (source, url)
  }

  lemma {:induction false} InFlight(node: Node, cfg: Config, states: seq<State>, labels: seq<Label>, m: nat, n: nat)
    requires IsRun(node, cfg, states, labels) && m <= n < |states|
    ensures InFlightFrom(states[m], GenuineAdverts(node, states, labels, n))
  {
    if m > 0 {
      InFlight(node, cfg, states, labels, m - 1, n);
      var s, l := states[m - 1], labels[m - 1];
      if l.DatagramIn? {
        DispatchIffAuthentic(node, s.managed, l.datagram);
      }
      StepInFlight(node, cfg, s, l, GenuineAdverts(node, states, labels, n));
    }
  }

  lemma BatchedAreGenuine(node: Node, cfg: Config, states: seq<State>, labels: seq<Label>, i: nat)
    requires IsRun(node, cfg, states, labels) && i < |labels|
    ensures Ownership.AdvertisesOnly(Inputs(node, cfg, states, labels)[i],
                                     GenuineAdverts(node, states, labels, |labels|))
  {
    InFlight(node, cfg, states, labels, i, |labels|);
  }

  lemma SystemInvariants(node: Node, cfg: Config, states: seq<State>, labels: seq<Label>, n: nat)
    requires IsRun(node, cfg, states, labels) && n < |states|
    ensures Ownership.Consistent(cfg, states[n].mgr)
    ensures Ownership.Advertised(cfg, states[n].mgr, GenuineAdverts(node, states, labels, |labels|))
    ensures !Ownership.Conflict(cfg, GenuineAdverts(node, states, labels, |labels|)) ==>
              Ownership.Owned(cfg, states[n].mgr)
  {
    ManagerRunsInside(node, cfg, states, labels);
    var inputs := Inputs(node, cfg, states, labels);
    forall i | 0 <= i < |inputs|
      ensures Ownership.AdvertisesOnly(inputs[i], GenuineAdverts(node, states, labels, |labels|))
    {
      BatchedAreGenuine(node, cfg, states, labels, i);
    }
    Ownership.RunInvariants(cfg, ManagerStates(states), inputs, n, GenuineAdverts(node, states, labels, |labels|));
  }

  // ------------------------------------------------------------- our addresses

  // Step m told the manager of a network change, and looked for interfaces.
  ghost predicate Announced(states: seq<State>, labels: seq<Label>, m: nat) {
    m < |labels| && m < |states| && labels[m].EventSent? && states[m].dpc == SendingEvent(NetworkChanged)
  }

  // Before state n that was last done at step m, and no address has changed since.
  ghost predicate LastFound(states: seq<State>, labels: seq<Label>, m: nat, n: nat) {
    && m < n <= |labels| && Announced(states, labels, m)
    && forall j: nat | m < j < n :: !Announced(states, labels, j) && !labels[j].AddressesChanged?
  }

  lemma StillLast(states: seq<State>, labels: seq<Label>, m: nat, n: nat)
    requires m < n < |labels| && n < |states|
    ensures LastFound(states, labels, m, n + 1) <==>
            LastFound(states, labels, m, n) && !Announced(states, labels, n) && !labels[n].AddressesChanged?
  {
    if LastFound(states, labels, m, n) && !Announced(states, labels, n) && !labels[n].AddressesChanged? {
      forall j: nat | m < j < n + 1
        ensures !Announced(states, labels, j) && !labels[j].AddressesChanged?
      {
        assert j == n || j < n;
      }
    }
    if LastFound(states, labels, m, n + 1) {
      assert !Announced(states, labels, n) && !labels[n].AddressesChanged?;
      forall j: nat | m < j < n
        ensures !Announced(states, labels, j) && !labels[j].AddressesChanged?
      {
      }
    }
  }

  // In every run the managed addresses are those found last, and none from a
  // change of addresses, or the start, until then.
  lemma {:induction false} ManagedAreFound(node: Node, cfg: Config, states: seq<State>, labels: seq<Label>, n: nat)
    requires IsRun(node, cfg, states, labels) && n < |states|
    ensures forall m: nat | LastFound(states, labels, m, n) :: states[n].managed == labels[m].found
    ensures (forall m: nat :: !LastFound(states, labels, m, n)) ==> states[n].managed == {}
  {
    if n > 0 {
      var k := n - 1;
      ManagedAreFound(node, cfg, states, labels, k);
      forall m: nat | m < k
        ensures LastFound(states, labels, m, n) <==>
                LastFound(states, labels, m, k) && !Announced(states, labels, k) && !labels[k].AddressesChanged?
      {
        StillLast(states, labels, m, k);
      }
      if Announced(states, labels, k) {
        assert LastFound(states, labels, k, n);
      } else if m: nat :| LastFound(states, labels, m, k) {
        StillLast(states, labels, m, k);
      }
    }
  }

  // Not an address found the last time before step i.
  ghost predicate NotOurs(states: seq<State>, labels: seq<Label>, i: nat, source: Ip) {
    forall m: nat | LastFound(states, labels, m, i) :: source !in labels[m].found
  }

  ghost predicate IsOrigin(node: Node, states: seq<State>, labels: seq<Label>, i: nat, n: nat, u: Url) {
    && i < n && i < |labels| && i < |states| && labels[i].DatagramIn?
    && GenuineAdvert(node, states[i].managed, labels[i].datagram, u)
    && NotOurs(states, labels, i, labels[i].datagram.source)
  }

  // Every entry that is not configured was advertised by an authentic datagram
  // received earlier, from an address that was not ours at the time, and is the
  // URL that datagram names or the one built from its sender and port.
  lemma EveryEntryHasAnOrigin(node: Node, cfg: Config, states: seq<State>, labels: seq<Label>, n: nat, u: Url)
    requires IsRun(node, cfg, states, labels) && n < |states|
    requires u in states[n].mgr.caches
    ensures u in ConfiguredCaches(cfg.binaryCaches) || exists i: nat :: IsOrigin(node, states, labels, i, n, u)
  {
    if u !in ConfiguredCaches(cfg.binaryCaches) {
      var i := WitnessOf(node, cfg, states, labels, n, u);
      ManagedAreFound(node, cfg, states, labels, i);
      assert IsOrigin(node, states, labels, i, n, u);
    }
  }

  lemma WitnessOf(node: Node, cfg: Config, states: seq<State>, labels: seq<Label>, n: nat, u: Url) returns (i: nat)
    requires IsRun(node, cfg, states, labels) && n < |states|
    requires u in states[n].mgr.caches && u !in ConfiguredCaches(cfg.binaryCaches)
    ensures i < n && labels[i].DatagramIn? && GenuineAdvert(node, states[i].managed, labels[i].datagram, u)
  {
    // The run up to state n is a run of its own.
    var states', labels' := states[..n + 1], labels[..n];
    assert IsRun(node, cfg, states', labels');
    SystemInvariants(node, cfg, states', labels', n);
    var ip :| (ip, u) in GenuineAdverts(node, states', labels', n);
    i :| 0 <= i < n && labels'[i].DatagramIn? && labels'[i].datagram.source == ip
      && GenuineAdvert(node, states'[i].managed, labels'[i].datagram, u);
    assert labels[i] == labels'[i] && states[i] == states'[i];
  }

  // A configured cache whose strategy is a timeout is in every published table
  // with its configured priority and strategy.
  lemma PermanentCachesStayInSystem(node: Node, cfg: Config, states: seq<State>, labels: seq<Label>, n: nat, u: Url)
    requires IsRun(node, cfg, states, labels) && n < |states|
    requires Ownership.Permanent(cfg, u)
    ensures Ownership.Carries(cfg, states[n].mgr.caches, u)
  {
    SystemInvariants(node, cfg, states, labels, n);
  }

  // When no two conflicting URLs are genuinely advertised from one address, a
  // network change leaves nothing but configured caches as configured.
  lemma NetworkChangeRestoresConfiguration(node: Node, cfg: Config, states: seq<State>, labels: seq<Label>, i: nat,
                                           u: Url)
    requires IsRun(node, cfg, states, labels) && i < |labels|
    requires !Ownership.Conflict(cfg, GenuineAdverts(node, states, labels, |labels|))
    requires labels[i].EventIn? && states[i].events == Some(NetworkChanged)
    requires u in states[i + 1].mgr.caches
    ensures Ownership.Carries(cfg, states[i + 1].mgr.caches, u)
  {
    SystemInvariants(node, cfg, states, labels, i);
    Ownership.NetworkChangeLeavesConfigured(cfg, states[i].mgr);
  }

  // Inside the system, a cache reported at state i and not removed since is
  // skipped by every request that reads a later table before its timeout ends.
  lemma ReportedCacheIsSkipped(node: Node, cfg: Config, states: seq<State>, labels: seq<Label>, i: nat, j: nat, u: Url,
                               now: Instant)
    requires IsRun(node, cfg, states, labels) && i < |labels| && i < j < |states|
    requires labels[i].ReportIn? && states[i].reports == Some(u)
    requires forall k | i <= k <= j :: u in states[k].mgr.caches
    requires states[i].mgr.caches[u].strategy.TimeoutFor?
    requires now < states[i].clock + states[i].mgr.caches[u].strategy.timeout
    ensures Timeouts.Skipped(states[j].mgr.caches[u], now)
  {
    ManagerRunsInside(node, cfg, states, labels);
    Timeouts.ReportedCacheIsLeftAlone(cfg, ManagerStates(states), Inputs(node, cfg, states, labels), i, j, u, now);
  }
}
