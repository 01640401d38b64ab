// What a departure leaves behind: a goodbye and a network change take the owned
// entries out of the table, but not the adverts that still wait in the batch.

module Departures {
  import opened Types
  import opened ManagerSteps
  import opened ManagerRuns

  // What may follow a state.
  ghost predicate Follows(cfg: Config, s: ManagerState, states: seq<ManagerState>, inputs: seq<Input>) {
    && |states| == |inputs| + 1 && states[0] == s
    && forall i | 0 <= i < |inputs| :: Enabled(states[i], inputs[i]) && states[i + 1] == Step(cfg, states[i], inputs[i])
  }

  predicate AdvertisedBy(input: Input, ip: Ip) {
    input.Batched? && input.source == ip
  }

  // A peer without an entry gets none before it advertises again, whatever
  // follows.
  ghost predicate StaysAway(cfg: Config, s: ManagerState, ip: Ip) {
    forall states: seq<ManagerState>, inputs: seq<Input> |
      Follows(cfg, s, states, inputs) && (forall i | 0 <= i < |inputs| :: !AdvertisedBy(inputs[i], ip)) ::
      ip !in states[|inputs|].local
  }

  // The entry cannot leave the table any more: it is there, is timed out instead
  // of removed, and no peer owns it.
  predicate Settled(s: ManagerState, u: Url) {
    u in s.caches && s.caches[u].strategy.TimeoutFor? && u !in s.local.Values
  }

  // Every advert of the peer that waits in the batch is about a settled entry.
  predicate NothingPending(s: ManagerState, ip: Ip) {
    forall u | u in s.batch && s.batch[u] == ip :: Settled(s, u)
  }

  lemma StepStaysAway(cfg: Config, s: ManagerState, input: Input, ip: Ip)
    requires Enabled(s, input) && !AdvertisedBy(input, ip)
    requires ip !in s.local && NothingPending(s, ip)
    ensures var s' := Step(cfg, s, input); ip !in s'.local && NothingPending(s', ip)
  {
    match input
    case Tick(order) =>
      TickIsOrderIndependent(cfg, s, order);
      DrainOwnersClosed(s.local, s.batch, order);
    case Leave(source) =>
      assert Step(cfg, s, input).local.Values <= s.local.Values;
    case _ =>
  }

  lemma {:induction false} RunStaysAway(cfg: Config, s: ManagerState, states: seq<ManagerState>, inputs: seq<Input>,
                                        n: nat, ip: Ip)
    requires Follows(cfg, s, states, inputs) && n <= |inputs|
    requires forall i | 0 <= i < n :: !AdvertisedBy(inputs[i], ip)
    requires ip !in s.local && NothingPending(s, ip)
    ensures ip !in states[n].local && NothingPending(states[n], ip)
  {
    if n > 0 {
      RunStaysAway(cfg, s, states, inputs, n - 1, ip);
      StepStaysAway(cfg, states[n - 1], inputs[n - 1], ip);
    }
  }

  // The inputs that bring an entry out of the table: none when it is not there,
  // a network change when a peer owns it, and otherwise a report.
  function Removal(s: ManagerState, u: Url): Input {
    if u !in s.caches then Idle
    else if u in s.local.Values then NetworkChange
    else Report(u, 0)
  }

  // Otherwise one removal and the next tick bring it back.
  lemma ComesBack(cfg: Config, s: ManagerState, ip: Ip, u: Url)
    requires u in s.batch && s.batch[u] == ip && !Settled(s, u)
    ensures !StaysAway(cfg, s, ip)
  {
    var s1 := Step(cfg, s, Removal(s, u));
    var s2, order := TakesUp(cfg, s1, u);
    var states, inputs := [s, s1, s2], [Removal(s, u), Tick(order)];
    assert Follows(cfg, s, states, inputs);
    assert forall i | 0 <= i < |inputs| :: !AdvertisedBy(inputs[i], ip);
  }

  // A tick gives the sender of an absent cache an entry.
  lemma TakesUp(cfg: Config, s: ManagerState, u: Url) returns (s': ManagerState, order: seq<Url>)
    requires u in s.batch && u !in s.caches
    ensures DrainOrder(Fresh(s), order) && s' == OnTick(cfg, s, order)
    ensures s.batch[u] in s'.local
  {
    assert u in Fresh(s);
    order := OrderOf(Fresh(s));
    DrainOwnersClosed(s.local, s.batch, order);
    s' := OnTick(cfg, s, order);
  }

  // A peer that has no entry gets none before it advertises again, if and only
  // if none of its adverts waits in the batch, but for settled entries.
  lemma StaysAwayIff(cfg: Config, s: ManagerState, ip: Ip)
    requires ip !in s.local
    ensures StaysAway(cfg, s, ip) <==> NothingPending(s, ip)
  {
    if NothingPending(s, ip) {
      forall states: seq<ManagerState>, inputs: seq<Input> |
        Follows(cfg, s, states, inputs) && (forall i | 0 <= i < |inputs| :: !AdvertisedBy(inputs[i], ip))
        ensures ip !in states[|inputs|].local
      {
        RunStaysAway(cfg, s, states, inputs, |inputs|, ip);
      }
    } else {
      var u :| u in s.batch && s.batch[u] == ip && !Settled(s, u);
      ComesBack(cfg, s, ip, u);
    }
  }

  // So it is after a goodbye, and after a network change for every peer: what
  // they leave in the batch decides.
  lemma DepartureHoldsIff(cfg: Config, s: ManagerState, ip: Ip)
    ensures var s' := OnGoodbye(s, ip);
            s'.batch == s.batch && (StaysAway(cfg, s', ip) <==> NothingPending(s', ip))
    ensures var s' := OnNetworkChanged(s);
            s'.batch == s.batch && forall peer :: StaysAway(cfg, s', peer) <==> NothingPending(s', peer)
  {
    StaysAwayIff(cfg, OnGoodbye(s, ip), ip);
    forall peer
      ensures StaysAway(cfg, OnNetworkChanged(s), peer) <==> NothingPending(OnNetworkChanged(s), peer)
    {
      StaysAwayIff(cfg, OnNetworkChanged(s), peer);
    }
  }

  // A peer that says goodbye, or that an address change leaves behind, within
  // the delay of its own advert is taken up after it is gone.
  lemma GoneBeforeTheTick(cfg: Config, ip: Ip, u: Url, departure: Input)
    returns (states: seq<ManagerState>, inputs: seq<Input>)
    requires u !in ConfiguredCaches(cfg.binaryCaches)
    requires departure == Leave(ip) || departure == NetworkChange
    ensures IsRun(cfg, states, inputs) && inputs == [Batched(ip, u), departure, Tick([u])]
    ensures ip in states[3].local && states[3].local[ip] == u && u in states[3].caches
  {
    var s0 := Start(cfg);
    var s1 := OnAdvBatched(s0, ip, u);
    var s2 := Step(cfg, s1, departure);
    assert Fresh(s2) == map[u := ip];
    assert DrainOrder(Fresh(s2), [u]);
    var s3 := OnTick(cfg, s2, [u]);
    TickIsOrderIndependent(cfg, s2, [u]);
    assert DrainOwners(s2.local, s2.batch, [u]) == s2.local[ip := u];
    states, inputs := [s0, s1, s2, s3], [Batched(ip, u), departure, Tick([u])];
  }
}
