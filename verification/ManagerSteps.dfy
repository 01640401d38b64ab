// The cache manager: what each event does to the manager's state, as functions
// on values. The caches are known by URL, or by the pointer to an interned one.

module ManagerSteps {
  import opened Types
  import opened CacheMap
  import opened Discovery

  datatype Config = Config(
    binaryCaches: seq<BinaryCache>,
    localStrategy: ErrorStrategy,
    refreshTime: Duration)

  // The state of the manager, with caches known by keys of type K.
  datatype StateOf<K(==)> = StateOf(
    caches: map<K, Meta>,        // the published table
    local: map<Ip, K>,           // which peer brought which cache
    batch: map<K, Ip>,           // adverts waiting for the batch timer
    lastAdv: Option<Instant>)

  type ManagerState = StateOf<Url>

  // Where the manager goes on after an event.
  datatype ManagerPc =
    | Selecting
    | SendingTimeout(source: Ip, url: Url)  // set_timeout, while handling an advert
    | Batching(source: Ip, url: Url)        // set_timeout is done, the advert joins the batch
    | SendingReq                            // broadcast_req

  // The table after inserting the configured caches in order.
  function ConfiguredCaches(list: seq<BinaryCache>): map<Url, Meta> {
    if list == [] then map[]
    else
      var last := list[|list| - 1];
      Insert(ConfiguredCaches(list[..|list| - 1]), last.priority, last.strategy, last.url)
  }

  function Start(cfg: Config): ManagerState {
    StateOf(ConfiguredCaches(cfg.binaryCaches), map[], map[], None)
  }

  // The adverts a tick of the batch timer lets through.
  function Fresh<K(==)>(s: StateOf<K>): map<K, Ip> {
    map u | u in s.batch && u !in s.caches :: s.batch[u]
  }

  // `order` lists the entries of a hash map in the order in which it is drained.
  predicate DrainOrder<K(==), V>(m: map<K, V>, order: seq<K>) {
    && (forall i, j | 0 <= i < j < |order| :: order[i] != order[j])
    && (forall k | k in order :: k in m)
    && (forall k | k in m :: k in order)
  }

  function DrainCaches<K(==)>(caches: map<K, Meta>, strategy: ErrorStrategy, order: seq<K>): map<K, Meta> {
    if order == [] then caches
    else Insert(DrainCaches(caches, strategy, order[..|order| - 1]), 0, strategy, order[|order| - 1])
  }

  function DrainOwners<K(==)>(local: map<Ip, K>, batch: map<K, Ip>, order: seq<K>): map<Ip, K>
    requires forall u | u in order :: u in batch
  {
    if order == [] then local
    else
      var last := order[|order| - 1];
      assert last in order;
      DrainOwners(local, batch, order[..|order| - 1])[batch[last] := last]
  }

  // A tick of the batch timer.
  function OnTick<K(==)>(cfg: Config, s: StateOf<K>, order: seq<K>): StateOf<K>
    requires DrainOrder(Fresh(s), order)
  {
    s.(caches := DrainCaches(s.caches, cfg.localStrategy, order),
       local := DrainOwners(s.local, s.batch, order),
       batch := map[])
  }

  // A request reported a cache that failed or was too slow.
  function OnBadCache<K(==)>(s: StateOf<K>, bad: K, now: Instant): StateOf<K> {
    s.(caches := Punish(s.caches, bad, now))
  }

  function OnNetworkChanged<K(==)>(s: StateOf<K>): StateOf<K> {
    s.(caches := RemoveAll(s.caches, s.local.Values), local := map[])
  }

  function OnGoodbye<K(==)>(s: StateOf<K>, source: Ip): StateOf<K> {
    if source in s.local then
      s.(caches := Remove(s.caches, s.local[source]), local := s.local - {source})
    else s
  }

  // An advert: the time is noted, then the timer is restarted, then the advert
  // joins the batch.
  function OnAdvSeen<K(==)>(s: StateOf<K>, now: Instant): StateOf<K> {
    s.(lastAdv := Some(now))
  }

  function OnAdvBatched<K(==)>(s: StateOf<K>, source: Ip, url: K): StateOf<K> {
    s.(batch := s.batch[url := source])
  }

  // An event from discovery: what is done at once, and what the manager awaits
  // next.
  function OnEvent<K(==)>(s: StateOf<K>, event: Event, now: Instant): StateOf<K> {
    match event
    case NetworkChanged => OnNetworkChanged(s)
    case GoodbyeFrom(source) => OnGoodbye(s, source)
    case AdvFrom(_, _) => OnAdvSeen(s, now)
  }

  function AfterEvent(event: Event): ManagerPc {
    match event
    case NetworkChanged => SendingReq
    case GoodbyeFrom(_) => Selecting
    case AdvFrom(source, url) => SendingTimeout(source, url)
  }
}
