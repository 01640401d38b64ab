// Which caches can be in the table, and who is accountable for them, over
// every run of the manager.

module Ownership {
  import opened Types
  import opened ManagerSteps
  import opened ManagerRuns

  // The cache stands in the table with its configured priority and strategy.
  ghost predicate Carries(cfg: Config, caches: map<Url, Meta>, u: Url) {
    var base := ConfiguredCaches(cfg.binaryCaches);
    u in base && u in caches && caches[u].priority == base[u].priority && caches[u].strategy == base[u].strategy
  }

  // The cache stands in the table as one found on the local network.
  ghost predicate IsLocal(cfg: Config, caches: map<Url, Meta>, u: Url) {
    u in caches && caches[u].priority == 0 && caches[u].strategy == cfg.localStrategy
  }

  // Configured to be timed out, never removed, when it fails.
  ghost predicate Permanent(cfg: Config, u: Url) {
    var base := ConfiguredCaches(cfg.binaryCaches);
    u in base && base[u].strategy.TimeoutFor?
  }

  // Holds in every reachable state, whatever the network does.
  ghost predicate Consistent(cfg: Config, s: ManagerState) {
    && (forall u | u in s.caches :: IsLocal(cfg, s.caches, u) || (Carries(cfg, s.caches, u) && u !in s.local.Values))
    && (forall u | Permanent(cfg, u) :: Carries(cfg, s.caches, u) && u !in s.local.Values)
  }

  // Everything in the table is configured or has a peer accountable for it.
  ghost predicate Owned(cfg: Config, s: ManagerState) {
    forall u | u in s.caches :: u in s.local.Values || Carries(cfg, s.caches, u)
  }

  type Adverts = iset<(Ip, Url)>

  // Everything the manager has from the network was advertised.
  ghost predicate Advertised(cfg: Config, s: ManagerState, adverts: Adverts) {
    && (forall u | u in s.batch :: (s.batch[u], u) in adverts)
    && (forall ip | ip in s.local :: (ip, s.local[ip]) in adverts && !Permanent(cfg, s.local[ip]))
    && (forall u | u in s.caches :: u in ConfiguredCaches(cfg.binaryCaches) || exists ip :: (ip, u) in adverts)
  }

  // The adverts a run has been given.
  ghost function AdvertsOf(inputs: seq<Input>): Adverts {
    iset i | 0 <= i < |inputs| && inputs[i].Batched? :: (inputs[i].source, inputs[i].url)
  }

  ghost predicate AdvertisesOnly(input: Input, adverts: Adverts) {
    input.Batched? ==> (input.source, input.url) in adverts
  }

  // A configured cache that looks the same whether configured or found.
  ghost predicate Indistinct(cfg: Config, u: Url) {
    var base := ConfiguredCaches(cfg.binaryCaches);
    u in base && base[u].priority == 0 && base[u].strategy == cfg.localStrategy
  }

  // Some peer advertises two URLs that can both be owned by it.
  ghost predicate Conflict(cfg: Config, adverts: Adverts) {
    exists ip, u, v ::
      && (ip, u) in adverts && (ip, v) in adverts && u != v
      && !Permanent(cfg, u) && !Permanent(cfg, v) && !Indistinct(cfg, u)
  }

  // -------------------------------------------------------------- one step

  lemma StepConsistent(cfg: Config, s: ManagerState, input: Input)
    requires Consistent(cfg, s) && Enabled(s, input)
    ensures Consistent(cfg, Step(cfg, s, input))
  {
    match input
    case Tick(order) =>
      TickConsistent(cfg, s, order);
    case Leave(source) =>
      assert Step(cfg, s, input).local.Values <= s.local.Values;
    case _ =>
  }

  lemma TickConsistent(cfg: Config, s: ManagerState, order: seq<Url>)
    requires Consistent(cfg, s) && DrainOrder(Fresh(s), order)
    ensures Consistent(cfg, OnTick(cfg, s, order))
  {
    TickIsOrderIndependent(cfg, s, order);
    DrainOwnersClosed(s.local, s.batch, order);
    var s' := OnTick(cfg, s, order);
    forall u | u in s'.local.Values
      ensures u in Fresh(s) || u in s.local.Values
    {
      var ip :| ip in s'.local && s'.local[ip] == u;
    }
  }

  lemma StepAdvertised(cfg: Config, s: ManagerState, input: Input, adverts: Adverts)
    requires Consistent(cfg, s) && Advertised(cfg, s, adverts)
    requires Enabled(s, input) && AdvertisesOnly(input, adverts)
    ensures Advertised(cfg, Step(cfg, s, input), adverts)
  {
    if input.Tick? {
      TickIsOrderIndependent(cfg, s, input.order);
      DrainOwnersClosed(s.local, s.batch, input.order);
    }
  }

  lemma TickOwned(cfg: Config, s: ManagerState, order: seq<Url>, adverts: Adverts)
    requires Consistent(cfg, s) && Advertised(cfg, s, adverts) && Owned(cfg, s)
    requires DrainOrder(Fresh(s), order)
    requires !Conflict(cfg, adverts)
    ensures Owned(cfg, OnTick(cfg, s, order))
  {
    var s' := OnTick(cfg, s, order);
    StepConsistent(cfg, s, Tick(order));
    StepAdvertised(cfg, s, Tick(order), adverts);
    forall u | u in s'.caches && !Carries(cfg, s'.caches, u)
      ensures u in s'.local.Values
    {
      var ip := TickOwner(cfg, s, order, u);
    }
  }

  // Who had or brought an entry of the table after a tick.
  lemma TickOwner(cfg: Config, s: ManagerState, order: seq<Url>, u: Url) returns (ip: Ip)
    requires Owned(cfg, s) && DrainOrder(Fresh(s), order)
    requires u in OnTick(cfg, s, order).caches && !Carries(cfg, OnTick(cfg, s, order).caches, u)
    ensures ip in OnTick(cfg, s, order).local
    ensures (u in s.batch && ip == s.batch[u]) || (ip in s.local && s.local[ip] == u)
  {
    TickIsOrderIndependent(cfg, s, order);
    DrainOwnersClosed(s.local, s.batch, order);
    if u in Fresh(s) {
      ip := s.batch[u];
    } else {
      ip :| ip in s.local && s.local[ip] == u;
    }
  }

  lemma StepOwned(cfg: Config, s: ManagerState, input: Input, adverts: Adverts)
    requires Consistent(cfg, s) && Advertised(cfg, s, adverts) && Owned(cfg, s)
    requires Enabled(s, input)
    requires !Conflict(cfg, adverts)
    ensures Owned(cfg, Step(cfg, s, input))
  {
    match input
    case Tick(order) =>
      TickOwned(cfg, s, order, adverts);
    case Leave(source) =>
      var s' := Step(cfg, s, input);
      forall u | u in s'.caches
        ensures u in s'.local.Values || Carries(cfg, s'.caches, u)
      {
        if u in s.local.Values {
          var ip :| ip in s.local && s.local[ip] == u;
          assert ip != source ==> ip in s'.local && s'.local[ip] == u;
        }
      }
    case _ =>
  }

  // A network change leaves exactly the caches nobody found, and they are all
  // configured ones exactly when everything was owned.
  lemma NetworkChangeLeavesConfigured(cfg: Config, s: ManagerState)
    requires Consistent(cfg, s)
    ensures var s' := OnNetworkChanged(s);
            (forall u | u in s'.caches :: Carries(cfg, s'.caches, u)) <==> Owned(cfg, s)
  {
    var s' := OnNetworkChanged(s);
    assert forall u | u in s.caches && u !in s.local.Values :: u in s'.caches && s'.caches[u] == s.caches[u];
  }

  // ------------------------------------------------------------ whole runs

  lemma {:induction false} RunInvariants(cfg: Config, states: seq<ManagerState>, inputs: seq<Input>, n: nat,
                                         adverts: Adverts)
    requires IsRun(cfg, states, inputs) && n < |states|
    requires forall i | 0 <= i < n :: AdvertisesOnly(inputs[i], adverts)
    ensures Consistent(cfg, states[n])
    ensures Advertised(cfg, states[n], adverts)
    ensures !Conflict(cfg, adverts) ==> Owned(cfg, states[n])
  {
    if n > 0 {
      RunInvariants(cfg, states, inputs, n - 1, adverts);
      StepInvariants(cfg, states[n - 1], inputs[n - 1], adverts);
    }
  }

  lemma StepInvariants(cfg: Config, s: ManagerState, input: Input, adverts: Adverts)
    requires Enabled(s, input) && AdvertisesOnly(input, adverts)
    requires Consistent(cfg, s) && Advertised(cfg, s, adverts)
    requires !Conflict(cfg, adverts) ==> Owned(cfg, s)
    ensures var s' := Step(cfg, s, input);
            && Consistent(cfg, s') && Advertised(cfg, s', adverts)
            && (!Conflict(cfg, adverts) ==> Owned(cfg, s'))
  {
    StepConsistent(cfg, s, input);
    StepAdvertised(cfg, s, input, adverts);
    if !Conflict(cfg, adverts) {
      StepOwned(cfg, s, input, adverts);
    }
  }

  // A configured cache whose strategy is a timeout is never lost, never
  // re-prioritised and never owned by a peer, under any interleaving.
  lemma PermanentCachesStay(cfg: Config, states: seq<ManagerState>, inputs: seq<Input>, n: nat, u: Url)
    requires IsRun(cfg, states, inputs) && n < |states|
    requires Permanent(cfg, u)
    ensures Carries(cfg, states[n].caches, u) && u !in states[n].local.Values
  {
    RunInvariants(cfg, states, inputs, n, AdvertsOf(inputs));
  }

  // In every reachable state each entry is a configured one, as configured, or
  // has priority 0 and the local strategy; an entry some peer owns is local.
  lemma EntriesAreConfiguredOrLocal(cfg: Config, states: seq<ManagerState>, inputs: seq<Input>, n: nat, u: Url)
    requires IsRun(cfg, states, inputs) && n < |states|
    requires u in states[n].caches
    ensures Carries(cfg, states[n].caches, u) || IsLocal(cfg, states[n].caches, u)
    ensures u in states[n].local.Values ==> IsLocal(cfg, states[n].caches, u)
  {
    RunInvariants(cfg, states, inputs, n, AdvertsOf(inputs));
  }

  // Only a report about a permanent cache touches its entry.
  lemma EntryUntouched(cfg: Config, s: ManagerState, input: Input, u: Url)
    requires Consistent(cfg, s) && Enabled(s, input) && Permanent(cfg, u)
    requires !(input.Report? && input.bad == u)
    ensures u in s.caches && u in Step(cfg, s, input).caches
    ensures Step(cfg, s, input).caches[u] == s.caches[u]
  {
    assert Carries(cfg, s.caches, u) && u !in s.local.Values;
    if input.Tick? {
      TickIsOrderIndependent(cfg, s, input.order);
    }
  }

  ghost predicate AlwaysOwned(cfg: Config, adverts: Adverts) {
    forall states, inputs ::
      IsRun(cfg, states, inputs) && (forall i | 0 <= i < |inputs| :: AdvertisesOnly(inputs[i], adverts))
      ==> forall n | 0 <= n < |states| :: Owned(cfg, states[n])
  }

  // Every run fed from these adverts keeps every entry configured or owned,
  // exactly when no peer advertises two URLs it can own.
  lemma OwnedIffNoConflict(cfg: Config, adverts: Adverts)
    ensures AlwaysOwned(cfg, adverts) <==> !Conflict(cfg, adverts)
  {
    if Conflict(cfg, adverts) {
      var ip, u, v :|
        && (ip, u) in adverts && (ip, v) in adverts && u != v
        && !Permanent(cfg, u) && !Permanent(cfg, v) && !Indistinct(cfg, u);
      var states, inputs := OrphaningRun(cfg, ip, u, v);
      assert forall i | 0 <= i < |inputs| :: AdvertisesOnly(inputs[i], adverts);
      assert !Owned(cfg, states[6]);
    } else {
      forall states, inputs, n |
        IsRun(cfg, states, inputs) && (forall i | 0 <= i < |inputs| :: AdvertisesOnly(inputs[i], adverts)) &&
            0 <= n < |states|
        ensures Owned(cfg, states[n])
      {
        RunInvariants(cfg, states, inputs, n, adverts);
      }
    }
  }

  lemma DrainOwnersOne(local: map<Ip, Url>, batch: map<Url, Ip>, u: Url)
    requires u in batch
    ensures DrainOwners(local, batch, [u]) == local[batch[u] := u]
  {
  }

  // An advert for an absent cache, and the tick that takes it up.
  lemma TakenUp(cfg: Config, s: ManagerState, ip: Ip, w: Url)
    requires s.batch == map[] && w !in s.caches
    ensures var s' := OnAdvBatched(s, ip, w);
            && DrainOrder(Fresh(s'), [w])
            && OnTick(cfg, s', [w]) ==
               s.(caches := s.caches[w := Meta(0, cfg.localStrategy, None)], local := s.local[ip := w])
  {
    var s' := OnAdvBatched(s, ip, w);
    assert Fresh(s') == map[w := ip];
    assert DrainOrder(Fresh(s'), [w]);
    TickIsOrderIndependent(cfg, s', [w]);
    DrainOwnersOne(s'.local, s'.batch, w);
    assert Joined(cfg, s') == s.caches[w := Meta(0, cfg.localStrategy, None)];
  }

  lemma Extend(cfg: Config, states: seq<ManagerState>, inputs: seq<Input>, input: Input)
    returns (states': seq<ManagerState>, inputs': seq<Input>)
    requires IsRun(cfg, states, inputs) && Enabled(states[|inputs|], input)
    ensures IsRun(cfg, states', inputs')
    ensures inputs' == inputs + [input] && states' == states + [Step(cfg, states[|inputs|], input)]
  {
    states', inputs' := states + [Step(cfg, states[|inputs|], input)], inputs + [input];
    forall i | 0 <= i < |inputs'|
      ensures Enabled(states'[i], inputs'[i]) && states'[i + 1] == Step(cfg, states'[i], inputs'[i])
    {
      if i < |inputs| {
        assert Enabled(states[i], inputs[i]);
      }
    }
  }

  // A report that takes a cache out of the table, when it is there.
  function Eviction(cfg: Config, u: Url): Input {
    if u in ConfiguredCaches(cfg.binaryCaches) then Report(u, 0) else Idle
  }

  // A run can start by removing two caches that are not permanent.
  lemma Evict(cfg: Config, u: Url, v: Url) returns (states: seq<ManagerState>, inputs: seq<Input>)
    requires u != v && !Permanent(cfg, u) && !Permanent(cfg, v)
    ensures IsRun(cfg, states, inputs) && inputs == [Eviction(cfg, u), Eviction(cfg, v)]
    ensures var s := states[2]; u !in s.caches && v !in s.caches && s.local == map[] && s.batch == map[]
  {
    states, inputs := [Start(cfg)], [];
    states, inputs := Extend(cfg, states, inputs, Eviction(cfg, u));
    states, inputs := Extend(cfg, states, inputs, Eviction(cfg, v));
  }

  // And go on by taking up a cache that is absent.
  lemma Adopt(cfg: Config, states: seq<ManagerState>, inputs: seq<Input>, ip: Ip, w: Url)
    returns (states': seq<ManagerState>, inputs': seq<Input>)
    requires IsRun(cfg, states, inputs)
    requires states[|inputs|].batch == map[] && w !in states[|inputs|].caches
    ensures IsRun(cfg, states', inputs') && inputs' == inputs + [Batched(ip, w), Tick([w])]
    ensures states'[|inputs'|] == var s := states[|inputs|];
              s.(caches := s.caches[w := Meta(0, cfg.localStrategy, None)], local := s.local[ip := w])
  {
    TakenUp(cfg, states[|inputs|], ip, w);
    states', inputs' := Extend(cfg, states, inputs, Batched(ip, w));
    states', inputs' := Extend(cfg, states', inputs', Tick([w]));
  }

  // One peer advertises u, and after that has been taken up, v: the entry of
  // u loses its owner, and not even a network change removes it.
  lemma OrphaningRun(cfg: Config, ip: Ip, u: Url, v: Url) returns (states: seq<ManagerState>, inputs: seq<Input>)
    requires u != v && !Permanent(cfg, u) && !Permanent(cfg, v) && !Indistinct(cfg, u)
    ensures IsRun(cfg, states, inputs)
    ensures inputs == [Eviction(cfg, u), Eviction(cfg, v), Batched(ip, u), Tick([u]), Batched(ip, v), Tick([v]),
                       NetworkChange]
    ensures !Owned(cfg, states[6])
    ensures u in states[7].caches && !Carries(cfg, states[7].caches, u)
  {
    states, inputs := Evict(cfg, u, v);
    states, inputs := Adopt(cfg, states, inputs, ip, u);
    states, inputs := Adopt(cfg, states, inputs, ip, v);
    Orphaned(cfg, states[6], ip, u, v);
    states, inputs := Extend(cfg, states, inputs, NetworkChange);
  }

  // An entry whose peer answers for another URL now outlives a network change.
  lemma Orphaned(cfg: Config, s: ManagerState, ip: Ip, u: Url, v: Url)
    requires u != v && !Permanent(cfg, u) && !Indistinct(cfg, u)
    requires s.local == map[ip := v]
    requires u in s.caches && s.caches[u] == Meta(0, cfg.localStrategy, None)
    ensures !Owned(cfg, s)
    ensures u in OnNetworkChanged(s).caches && !Carries(cfg, OnNetworkChanged(s).caches, u)
  {
  }

  // ------------------------------------------------- one insertion, exactly

  // With a single fresh advert the entry that loses its owner is the one the
  // peer had before, and everything stays owned exactly when that entry is the
  // same URL, is gone, is configured, or has another owner.
  lemma TickKeepsOwnersIff(cfg: Config, s: ManagerState, u: Url, ip: Ip)
    requires Owned(cfg, s)
    requires Fresh(s) == map[u := ip]
    ensures DrainOrder(Fresh(s), [u])
    ensures Owned(cfg, OnTick(cfg, s, [u])) <==>
            || ip !in s.local
            || s.local[ip] !in s.caches
            || Carries(cfg, s.caches, s.local[ip])
            || exists other :: other != ip && other in s.local && s.local[other] == s.local[ip]
  {
    assert DrainOrder(Fresh(s), [u]);
    assert u in Fresh(s);
    var s' := OnTick(cfg, s, [u]);
    TickIsOrderIndependent(cfg, s, [u]);
    DrainOwnersOne(s.local, s.batch, u);
    assert s'.local == s.local[ip := u];
    assert s'.local[ip] == u;
    forall w | w in s.caches && w in s.local.Values && !(ip in s.local && s.local[ip] == w)
      ensures w in s'.local.Values
    {
      var other :| other in s.local && s.local[other] == w;
      assert s'.local[other] == w;
    }
    if ip in s.local {
      var w := s.local[ip];
      if other :| other != ip && other in s.local && s.local[other] == w {
        assert s'.local[other] == w;
      }
    }
  }
}
