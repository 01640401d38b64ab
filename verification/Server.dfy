// Loading the configuration, and the cache manager as an object that publishes
// a new cache table instead of changing the one that requests are reading.

module Server {
  import opened Types
  import opened CacheMap
  import opened CacheTable
  import opened ManagerSteps
  import opened Dedup
  import opened Discovery
  import opened Interned

  // Interning the configured URLs and inserting them in order builds, read
  // through the handles, the configured table.
  method LoadConfigured(list: seq<BinaryCache>) returns (deduper: Deduper<Url>, caches: CacheData<Addr>)
    ensures fresh(deduper) && fresh(caches) && deduper.Valid() && caches.Valid()
    ensures caches.caches.Keys <= deduper.values.Keys
    ensures Rename(caches.caches, deduper.values) == ConfiguredCaches(list)
  {
    deduper := new Deduper<Url>();
    caches := new CacheData<Addr>();
    NothingLoaded(list, deduper.values);
    for i := 0 to |list|
      invariant fresh(deduper) && fresh(caches)
      invariant deduper.Valid() && caches.Valid()
      invariant Loaded(list, i, caches.caches, deduper.values)
    {
      ghost var values, table := deduper.values, caches.caches;
      var handle := deduper.GetOrInsert(list[i].url);
      LoadNext(list, i, table, values, deduper.values, handle);
      caches.InsertCache(list[i].priority, list[i].strategy, handle);
    }
    assert list[..|list|] == list;
  }

  // The first n entries of the list are in the table, under their handles.
  ghost predicate Loaded(list: seq<BinaryCache>, n: nat, table: map<Addr, Meta>, values: map<Addr, Url>) {
    && n <= |list| && OneAddressPerValue(values) && table.Keys <= values.Keys
    && Rename(table, values) == ConfiguredCaches(list[..n])
  }

  lemma NothingLoaded(list: seq<BinaryCache>, values: map<Addr, Url>)
    requires values == map[]
    ensures Loaded(list, 0, map[], values)
  {
  }

  lemma LoadNext(list: seq<BinaryCache>, n: nat, table: map<Addr, Meta>, values: map<Addr, Url>,
                 values': map<Addr, Url>, handle: Addr)
    requires Loaded(list, n, table, values) && n < |list|
    requires Interns(values, list[n].url, values', handle)
    ensures Loaded(list, n + 1, Insert(table, list[n].priority, list[n].strategy, handle), values')
  {
    RenameGrows(table, values, values');
    ConfiguredNext(list, n, table, values', handle);
  }

  lemma ConfiguredNext(list: seq<BinaryCache>, n: nat, table: map<Addr, Meta>, values: map<Addr, Url>, handle: Addr)
    requires Loaded(list, n, table, values) && n < |list|
    requires handle in values && values[handle] == list[n].url
    ensures Loaded(list, n + 1, Insert(table, list[n].priority, list[n].strategy, handle), values)
  {
    assert list[..n + 1][..n] == list[..n];
    ApplySimulates(table, values, InsertOp(list[n].priority, list[n].strategy, handle));
  }

  // One more entry leaves the batch.
  lemma TakeNext<K>(all: map<K, Ip>, done: map<K, Ip>, rest: map<K, Ip>, order: seq<K>, url: K)
    requires done.Keys !! rest.Keys && done + rest == all
    requires DrainOrder(done, order) && url in rest
    ensures all[url] == rest[url]
    ensures done[url := rest[url]].Keys !! (rest - {url}).Keys
    ensures done[url := rest[url]] + (rest - {url}) == all
    ensures DrainOrder(done[url := rest[url]], order + [url])
  {
  }

  lemma DrainNext<K>(caches: map<K, Meta>, strategy: ErrorStrategy, local: map<Ip, K>, batch: map<K, Ip>, order: seq<K>,
                     url: K)
    requires forall u | u in order :: u in batch
    requires url in batch
    ensures DrainCaches(caches, strategy, order + [url]) ==
              Insert(DrainCaches(caches, strategy, order), 0, strategy, url)
    ensures DrainOwners(local, batch, order + [url]) == DrainOwners(local, batch, order)[batch[url] := url]
  {
  }

  lemma DrainOwnersFrame<K>(local: map<Ip, K>, batch: map<K, Ip>, batch': map<K, Ip>, order: seq<K>)
    requires forall u | u in order :: u in batch && u in batch' && batch[u] == batch'[u]
    ensures DrainOwners(local, batch, order) == DrainOwners(local, batch', order)
  {
  }

  lemma ValuesWithout<K>(m: map<Ip, K>, ip: Ip)
    requires ip in m
    ensures m.Values == (m - {ip}).Values + {m[ip]}
  {
    forall u | u in m.Values
      ensures u in (m - {ip}).Values + {m[ip]}
    {
      var k :| k in m && m[k] == u;
      assert k != ip ==> k in m - {ip} && (m - {ip})[k] == u;
    }
  }

  class Manager {
    const cfg: Config
    const deduper: Deduper<Url>
    var published: CacheData<Addr>
    var localCaches: map<Ip, Addr>
    var batch: map<Addr, Ip>
    var lastAdv: Option<Instant>

    // The fields as they are, with pointers to interned URLs.
    ghost function State(): StateOf<Addr>
      reads this, published
    {
      StateOf(published.caches, localCaches, batch, lastAdv)
    }

    ghost predicate Valid()
      reads this, published, deduper
    {
      published.Valid() && deduper.Valid() && Known(State(), deduper.values)
    }

    // The state read through the pointers.
    ghost function View(): ManagerState
      reads this, published, deduper
      requires Valid()
    {
      RenameState(State(), deduper.values)
    }

    constructor (cfg: Config)
      ensures Valid() && this.cfg == cfg
      ensures View() == Start(cfg)
    {
      this.cfg := cfg;
      localCaches, batch, lastAdv := map[], map[], None;
      var interned, caches := LoadConfigured(cfg.binaryCaches);
      deduper, published := interned, caches;
    }

    // In every method `modifies this` leaves the tables out: one that has been
    // published never changes again.

    method HandleTick() returns (ghost order: seq<Addr>)
      requires Valid()
      modifies this
      ensures Valid() && (published == old(published) || fresh(published))
      ensures DrainOrder(Fresh(old(State())), order)
      ensures State() == OnTick(cfg, old(State()), order)
      ensures DrainOrder(Fresh(old(View())), Names(order, deduper.values))
      ensures View() == OnTick(cfg, old(View()), Names(order, deduper.values))
    {
      ghost var state := State();
      order := FlushBatch();
      ghost var state' := State();
      assert state' == OnTick(cfg, state, order);
      TickSimulates(cfg, state, deduper.values, order);
    }

    method FlushBatch() returns (ghost order: seq<Addr>)
      requires published.Valid()
      modifies this
      ensures published.Valid() && (published == old(published) || fresh(published))
      ensures DrainOrder(Fresh(old(State())), order)
      ensures State() == OnTick(cfg, old(State()), order)
    {
      ghost var state := State();
      var caches := published;
      batch := map a | a in batch && !caches.Contains(a) :: batch[a];
      assert batch == Fresh(state);
      if batch != map[] {
        var newCaches := new CacheData<Addr>.Clone(caches);
        order := DrainBatch(newCaches);
        DrainOwnersFrame(old(localCaches), Fresh(state), old(batch), order);
        published := newCaches;
      } else {
        order := [];
      }
    }

    method DrainBatch(newCaches: CacheData<Addr>) returns (ghost order: seq<Addr>)
      requires newCaches.Valid()
      modifies this`batch, this`localCaches, newCaches
      ensures newCaches.Valid()
      ensures DrainOrder(old(batch), order)
      ensures newCaches.caches == DrainCaches(old(newCaches.caches), cfg.localStrategy, order)
      ensures localCaches == DrainOwners(old(localCaches), old(batch), order)
      ensures batch == map[]
    {
      order := [];
      ghost var done: map<Addr, Ip> := map[];
      ghost var caches0, local0, batch0 := newCaches.caches, localCaches, batch;
      while batch != map[]
        invariant newCaches.Valid()
        invariant done.Keys !! batch.Keys && done + batch == batch0
        invariant DrainOrder(done, order) && forall u | u in order :: u in batch0
        invariant newCaches.caches == DrainCaches(caches0, cfg.localStrategy, order)
        invariant localCaches == DrainOwners(local0, batch0, order)
        decreases batch.Keys
      {
        var url :| url in batch;
        var ip := batch[url];
        TakeNext(batch0, done, batch, order, url);
        DrainNext(caches0, cfg.localStrategy, local0, batch0, order, url);
        batch := batch - {url};
        done := done[url := ip];
        order := order + [url];
        localCaches := localCaches[ip := url];
        newCaches.InsertCache(0, cfg.localStrategy, url);
      }
      assert done == old(batch);
    }

    // Requests report the pointers they read in a published table.
    method HandleBadCache(bad: Addr, now: Instant)
      requires Valid() && bad in deduper.values
      modifies this
      ensures Valid() && (published == old(published) || fresh(published))
      ensures View() == OnBadCache(old(View()), deduper.values[bad], now)
    {
      ghost var state := State();
      var newCaches := new CacheData<Addr>.Clone(published);
      var meta := newCaches.GetMeta(bad);
      if meta.Some? {
        match meta.value.strategy {
          case RemoveCache =>
            var _ := newCaches.Remove(bad);
          case TimeoutFor(timeout) =>
            newCaches.SetTimedOutUntil(bad, now + timeout);
        }
        published := newCaches;
      }
      assert State() == OnBadCache(state, bad, now);
      ReportSimulates(state, deduper.values, bad, now);
    }

    // An event from discovery, up to the next thing the manager awaits: a
    // request to send out, the restart of the timer, or its next input.
    method HandleEvent(event: Event, now: Instant) returns (pc: ManagerPc)
      requires Valid()
      modifies this
      ensures Valid() && (published == old(published) || fresh(published))
      ensures event.AdvFrom? ==> published == old(published)
      ensures View() == OnEvent(old(View()), event, now)
      ensures pc == AfterEvent(event)
    {
      match event {
        case NetworkChanged =>
          HandleNetworkChanged();
          pc := SendingReq;
        case GoodbyeFrom(source) =>
          HandleGoodbye(source);
          pc := Selecting;
        case AdvFrom(source, url) =>
          lastAdv := Some(now);
          pc := SendingTimeout(source, url);
      }
    }

    method HandleNetworkChanged()
      requires Valid()
      modifies this
      ensures Valid() && (published == old(published) || fresh(published))
      ensures View() == OnNetworkChanged(old(View()))
    {
      ghost var state := State();
      var newCaches := new CacheData<Addr>.Clone(published);
      DrainOwned(newCaches);
      published := newCaches;
      ghost var state' := State();
      assert state' == OnNetworkChanged(state);
      NetworkChangeSimulates(state, deduper.values);
    }

    method DrainOwned(newCaches: CacheData<Addr>)
      requires newCaches.Valid()
      modifies this`localCaches, newCaches
      ensures newCaches.Valid()
      ensures newCaches.caches == RemoveAll(old(newCaches.caches), old(localCaches).Values)
      ensures localCaches == map[]
    {
      ghost var caches0, local0 := newCaches.caches, localCaches;
      ghost var gone: set<Addr> := {};
      while localCaches != map[]
        invariant newCaches.Valid()
        invariant gone + localCaches.Values == local0.Values
        invariant newCaches.caches == RemoveAll(caches0, gone)
        decreases localCaches.Keys
      {
        var ip :| ip in localCaches;
        var cache := localCaches[ip];
        ValuesWithout(localCaches, ip);
        localCaches := localCaches - {ip};
        gone := gone + {cache};
        var _ := newCaches.Remove(cache);
      }
    }

    method HandleGoodbye(source: Ip)
      requires Valid()
      modifies this
      ensures Valid() && (published == old(published) || fresh(published))
      ensures View() == OnGoodbye(old(View()), source)
    {
      ghost var state := State();
      if source in localCaches {
        var url := localCaches[source];
        localCaches := localCaches - {source};
        var newCaches := new CacheData<Addr>.Clone(published);
        var _ := newCaches.Remove(url);
        published := newCaches;
      }
      assert State() == OnGoodbye(state, source);
      GoodbyeSimulates(state, deduper.values, source);
    }

    // Once the timer is restarted, the advertised URL is interned and joins the
    // batch.
    method JoinBatch(source: Ip, url: Url)
      requires Valid()
      modifies this, deduper
      ensures Valid() && published == old(published)
      ensures View() == OnAdvBatched(old(View()), source, url)
    {
      ghost var state, values := State(), deduper.values;
      var handle := deduper.GetOrInsert(url);
      batch := batch[handle := source];
      ghost var state' := State();
      assert state' == OnAdvBatched(state, source, handle);
      AdvertSimulates(state, values, url, deduper.values, handle, source);
    }
  }
}
