// Whole runs of the cache manager: any sequence of its inputs from the start.

module ManagerRuns {
  import opened Types
  import opened CacheMap
  import opened ManagerSteps

  datatype Input =
    | Tick(order: seq<Url>)
    | Report(bad: Url, now: Instant)
    | NetworkChange
    | Leave(source: Ip)
    | Seen(now: Instant)
    | Batched(source: Ip, url: Url)
    | Idle

  predicate Enabled(s: ManagerState, input: Input) {
    input.Tick? ==> DrainOrder(Fresh(s), input.order)
  }

  function Step(cfg: Config, s: ManagerState, input: Input): ManagerState
    requires Enabled(s, input)
  {
    match input
    case Tick(order) => OnTick(cfg, s, order)
    case Report(bad, now) => OnBadCache(s, bad, now)
    case NetworkChange => OnNetworkChanged(s)
    case Leave(source) => OnGoodbye(s, source)
    case Seen(now) => OnAdvSeen(s, now)
    case Batched(source, url) => OnAdvBatched(s, source, url)
    case Idle => s
  }

  ghost predicate IsRun(cfg: Config, states: seq<ManagerState>, inputs: seq<Input>) {
    && |states| == |inputs| + 1
    && states[0] == Start(cfg)
    && forall i | 0 <= i < |inputs| :: Enabled(states[i], inputs[i]) && states[i + 1] == Step(cfg, states[i], inputs[i])
  }

  // ---------------------------------------------------------------- a tick

  // Draining the fresh adverts adds each of them at priority 0 with the local
  // strategy and no timeout, and touches nothing else, in whatever order.
  lemma {:induction false} DrainCachesClosed(caches: map<Url, Meta>, strategy: ErrorStrategy, order: seq<Url>)
    requires forall u | u in order :: u !in caches
    requires forall i, j | 0 <= i < j < |order| :: order[i] != order[j]
    ensures var drained := DrainCaches(caches, strategy, order);
            && (forall u :: u in drained <==> u in caches || u in order)
            && (forall u | u in caches :: drained[u] == caches[u])
            && (forall u | u in order :: drained[u] == Meta(0, strategy, None))
  {
    if order != [] {
      var n := |order| - 1;
      var before := order[..n];
      assert forall u :: u in order <==> u in before || u == order[n];
      DrainCachesClosed(caches, strategy, before);
      assert order[n] !in before;
    }
  }

  lemma {:induction false} DrainOwnersClosed(local: map<Ip, Url>, batch: map<Url, Ip>, order: seq<Url>)
    requires forall u | u in order :: u in batch
    ensures var owners := DrainOwners(local, batch, order);
            && (forall u | u in order :: batch[u] in owners)
            && (forall ip | ip in local :: ip in owners)
            && (forall ip | ip in owners ::
                  || (owners[ip] in order && batch[owners[ip]] == ip)
                  || (ip in local && owners[ip] == local[ip] && forall u | u in order :: batch[u] != ip))
  {
    if order != [] {
      var n := |order| - 1;
      DrainOwnersClosed(local, batch, order[..n]);
      assert order == order[..n] + [order[n]];
    }
  }

  function Joined(cfg: Config, s: ManagerState): map<Url, Meta> {
    s.caches + map u | u in Fresh(s) :: Meta(0, cfg.localStrategy, None)
  }

  lemma TickIsOrderIndependent(cfg: Config, s: ManagerState, order: seq<Url>)
    requires DrainOrder(Fresh(s), order)
    ensures OnTick(cfg, s, order).caches == Joined(cfg, s)
    ensures OnTick(cfg, s, order).batch == map[]
    ensures forall u | u in s.batch :: u in OnTick(cfg, s, order).caches
    ensures forall u | u in s.caches :: OnTick(cfg, s, order).caches[u] == s.caches[u]
  {
    DrainCachesClosed(s.caches, cfg.localStrategy, order);
    assert (map u | u in order :: Meta(0, cfg.localStrategy, None)) ==
           (map u | u in Fresh(s) :: Meta(0, cfg.localStrategy, None));
  }

  // Which peer ends up as the owner does depend on the order, exactly when one
  // peer brought two fresh URLs.
  lemma OwnersAreOrderIndependentIff(cfg: Config, s: ManagerState)
    ensures (forall o1, o2 | DrainOrder(Fresh(s), o1) && DrainOrder(Fresh(s), o2) ::
               OnTick(cfg, s, o1).local == OnTick(cfg, s, o2).local)
       <==> OneFreshUrlPerPeer(s)
  {
    if OneFreshUrlPerPeer(s) {
      forall o1, o2 | DrainOrder(Fresh(s), o1) && DrainOrder(Fresh(s), o2)
        ensures OnTick(cfg, s, o1).local == OnTick(cfg, s, o2).local
      {
        SameOwners(s, o1, o2);
      }
    } else {
      var u, v :| u in Fresh(s) && v in Fresh(s) && s.batch[u] == s.batch[v] && u != v;
      var o1 := OrderEndingIn(Fresh(s), u);
      var o2 := OrderEndingIn(Fresh(s), v);
      assert OnTick(cfg, s, o1).local[s.batch[u]] == u;
      assert OnTick(cfg, s, o2).local[s.batch[u]] == v;
    }
  }

  ghost predicate OneFreshUrlPerPeer(s: ManagerState) {
    forall u, v | u in Fresh(s) && v in Fresh(s) && s.batch[u] == s.batch[v] :: u == v
  }

  lemma SameOwners(s: ManagerState, o1: seq<Url>, o2: seq<Url>)
    requires DrainOrder(Fresh(s), o1) && DrainOrder(Fresh(s), o2)
    requires OneFreshUrlPerPeer(s)
    ensures DrainOwners(s.local, s.batch, o1) == DrainOwners(s.local, s.batch, o2)
  {
    var l1, l2 := DrainOwners(s.local, s.batch, o1), DrainOwners(s.local, s.batch, o2);
    forall ip
      ensures ip in l1 ==> ip in l2 && l1[ip] == l2[ip]
      ensures ip in l2 ==> ip in l1 && l1[ip] == l2[ip]
    {
      if ip in l1 {
        SameOwner(s, o1, o2, ip);
      }
      if ip in l2 {
        SameOwner(s, o2, o1, ip);
      }
    }
    assert l1.Keys == l2.Keys;
  }

  lemma SameOwner(s: ManagerState, o1: seq<Url>, o2: seq<Url>, ip: Ip)
    requires DrainOrder(Fresh(s), o1) && DrainOrder(Fresh(s), o2)
    requires OneFreshUrlPerPeer(s)
    requires ip in DrainOwners(s.local, s.batch, o1)
    ensures ip in DrainOwners(s.local, s.batch, o2)
    ensures DrainOwners(s.local, s.batch, o1)[ip] == DrainOwners(s.local, s.batch, o2)[ip]
  {
    var l1, l2 := DrainOwners(s.local, s.batch, o1), DrainOwners(s.local, s.batch, o2);
    DrainOwnersClosed(s.local, s.batch, o1);
    DrainOwnersClosed(s.local, s.batch, o2);
    var u := l1[ip];
    if u in o1 && s.batch[u] == ip {
      assert u in Fresh(s);
      assert u in o2;
      var v := l2[ip];
      assert v in o2 && v in Fresh(s);
    } else {
      assert ip in s.local;
      var v := l2[ip];
      if v in o2 && s.batch[v] == ip {
        assert false;
      }
    }
  }

  lemma OrderOf(m: map<Url, Ip>) returns (order: seq<Url>)
    ensures DrainOrder(m, order)
    decreases m.Keys
  {
    if m == map[] {
      order := [];
    } else {
      var u :| u in m;
      order := OrderEndingIn(m, u);
    }
  }

  lemma OrderEndingIn(m: map<Url, Ip>, u: Url) returns (order: seq<Url>)
    requires u in m
    ensures DrainOrder(m, order) && order != [] && order[|order| - 1] == u
    decreases m.Keys, 0
  {
    assert u !in m - {u};
    var rest := OrderOf(m - {u});
    order := rest + [u];
  }

  // ------------------------------------------------- the configured caches

  lemma {:induction false} ConfiguredKeys(list: seq<BinaryCache>)
    ensures forall u :: u in ConfiguredCaches(list) <==> exists i | 0 <= i < |list| :: list[i].url == u
    ensures forall u | u in ConfiguredCaches(list) :: ConfiguredCaches(list)[u].timedOutUntil == None
  {
    if list != [] {
      var n := |list| - 1;
      ConfiguredKeys(list[..n]);
      forall u
        ensures u in ConfiguredCaches(list) <==> exists i | 0 <= i < |list| :: list[i].url == u
      {
        if i :| 0 <= i < |list| && list[i].url == u {
          assert i < n ==> list[..n][i].url == u;
        }
        if i :| 0 <= i < |list[..n]| && list[..n][i].url == u {
          assert list[i].url == u;
        }
      }
    }
  }

  lemma {:induction false} ConfiguredPriority(list: seq<BinaryCache>, i: nat)
    requires i < |list| && forall j | i < j < |list| :: list[j].url != list[i].url
    ensures list[i].url in ConfiguredCaches(list)
    ensures ConfiguredCaches(list)[list[i].url].priority == list[i].priority
  {
    var n := |list| - 1;
    if i < n {
      ConfiguredPriority(list[..n], i);
    }
  }

  lemma {:induction false} ConfiguredStrategy(list: seq<BinaryCache>, i: nat)
    requires i < |list| && forall j | 0 <= j < i :: list[j].url != list[i].url
    ensures list[i].url in ConfiguredCaches(list)
    ensures ConfiguredCaches(list)[list[i].url].strategy == list[i].strategy
  {
    var n := |list| - 1;
    if i < n {
      ConfiguredStrategy(list[..n], i);
    } else {
      ConfiguredKeys(list[..n]);
    }
  }

  // A repeated URL takes the priority of its last entry, and sits in exactly
  // that bucket, but keeps the strategy of its first.
  lemma ConfiguredFold(list: seq<BinaryCache>, first: nat, last: nat)
    requires first <= last < |list| && list[first].url == list[last].url
    requires forall j | 0 <= j < first || last < j < |list| :: list[j].url != list[first].url
    ensures var m := ConfiguredCaches(list);
            var u := list[first].url;
            && u in m
            && m[u] == Meta(list[last].priority, list[first].strategy, None)
            && forall p | p in GroupBy(m) :: u in GroupBy(m)[p] <==> p == list[last].priority
    ensures forall u :: u in ConfiguredCaches(list) <==> exists i | 0 <= i < |list| :: list[i].url == u
  {
    ConfiguredKeys(list);
    ConfiguredPriority(list, last);
    ConfiguredStrategy(list, first);
    GroupsPartition(ConfiguredCaches(list));
  }
}
