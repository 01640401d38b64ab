// The manager with its caches known by pointers to interned URLs does, read
// through the pointers, what it does with the URLs themselves.

module Interned {
  import opened Types
  import opened CacheMap
  import opened ManagerSteps
  import opened Dedup

  // Every pointer in the state was given out by the deduper.
  ghost predicate Known(s: StateOf<Addr>, values: map<Addr, Url>) {
    && OneAddressPerValue(values)
    && s.caches.Keys <= values.Keys
    && s.batch.Keys <= values.Keys
    && s.local.Values <= values.Keys
  }

  function RenameOwners(local: map<Ip, Addr>, values: map<Addr, Url>): map<Ip, Url>
    requires local.Values <= values.Keys
  {
    map ip | ip in local :: values[local[ip]]
  }

  ghost function RenameState(s: StateOf<Addr>, values: map<Addr, Url>): ManagerState
    requires Known(s, values)
  {
    StateOf(Rename(s.caches, values), RenameOwners(s.local, values), Rename(s.batch, values), s.lastAdv)
  }

  function Names(order: seq<Addr>, values: map<Addr, Url>): seq<Url>
    requires forall a | a in order :: a in values
  {
    seq(|order|, i requires 0 <= i < |order| => values[order[i]])
  }

  // ------------------------------------------------------------------- a tick

  lemma FreshFollows(s: StateOf<Addr>, values: map<Addr, Url>)
    requires Known(s, values)
    ensures Fresh(RenameState(s, values)) == Rename(Fresh(s), values)
  {
    var t := RenameState(s, values);
    forall a | a in s.batch
      ensures a in s.caches <==> values[a] in t.caches
    {
      RenameEntry(s.caches, values, a);
    }
  }

  lemma OrderFollows(m: map<Addr, Ip>, values: map<Addr, Url>, order: seq<Addr>)
    requires OneAddressPerValue(values) && m.Keys <= values.Keys
    requires DrainOrder(m, order)
    ensures DrainOrder(Rename(m, values), Names(order, values))
  {
    NamesCover(m, values, order);
  }

  lemma NamesCover(m: map<Addr, Ip>, values: map<Addr, Url>, order: seq<Addr>)
    requires OneAddressPerValue(values) && m.Keys <= values.Keys
    requires (forall a | a in order :: a in values) && forall a | a in m :: a in order
    ensures forall u | u in Rename(m, values) :: u in Names(order, values)
  {
    forall u | u in Rename(m, values)
      ensures u in Names(order, values)
    {
      var a :| a in m && values[a] == u;
      var i :| 0 <= i < |order| && order[i] == a;
      assert Names(order, values)[i] == u;
    }
  }

  lemma {:induction false} DrainedCachesFollow(caches: map<Addr, Meta>, strategy: ErrorStrategy, values: map<Addr, Url>,
                                               order: seq<Addr>)
    requires OneAddressPerValue(values) && caches.Keys <= values.Keys
    requires forall a | a in order :: a in values
    ensures DrainCaches(caches, strategy, order).Keys <= values.Keys
    ensures Rename(DrainCaches(caches, strategy, order), values) ==
              DrainCaches(Rename(caches, values), strategy, Names(order, values))
  {
    if order != [] {
      var n := |order| - 1;
      var names := Names(order, values);
      DrainedCachesFollow(caches, strategy, values, order[..n]);
      assert names[..n] == Names(order[..n], values) && names[n] == values[order[n]];
      var drained := DrainCaches(caches, strategy, order[..n]);
      InsertFollows(drained, values, strategy, order[n]);
      calc {
        Rename(DrainCaches(caches, strategy, order), values);
        Insert(Rename(drained, values), 0, strategy, names[n]);
        Insert(DrainCaches(Rename(caches, values), strategy, names[..n]), 0, strategy, names[n]);
        DrainCaches(Rename(caches, values), strategy, names);
      }
    }
  }

  lemma InsertFollows(caches: map<Addr, Meta>, values: map<Addr, Url>, strategy: ErrorStrategy, a: Addr)
    requires OneAddressPerValue(values) && caches.Keys <= values.Keys && a in values
    ensures Insert(caches, 0, strategy, a).Keys <= values.Keys
    ensures Rename(Insert(caches, 0, strategy, a), values) == Insert(Rename(caches, values), 0, strategy, values[a])
  {
    ApplySimulates(caches, values, InsertOp(0, strategy, a));
  }

  lemma {:induction false} DrainedOwnersFollow(local: map<Ip, Addr>, batch: map<Addr, Ip>, values: map<Addr, Url>,
                                               order: seq<Addr>)
    requires OneAddressPerValue(values) && batch.Keys <= values.Keys && local.Values <= values.Keys
    requires forall a | a in order :: a in batch
    ensures DrainOwners(local, batch, order).Values <= values.Keys
    ensures forall u | u in Names(order, values) :: u in Rename(batch, values)
    ensures RenameOwners(DrainOwners(local, batch, order), values) ==
            DrainOwners(RenameOwners(local, values), Rename(batch, values), Names(order, values))
  {
    if order != [] {
      var n := |order| - 1;
      var a := order[n];
      DrainedOwnersFollow(local, batch, values, order[..n]);
      assert Names(order, values)[..n] == Names(order[..n], values);
      assert a in order;
      RenameEntry(batch, values, a);
    }
  }

  lemma TickSimulates(cfg: Config, s: StateOf<Addr>, values: map<Addr, Url>, order: seq<Addr>)
    requires Known(s, values) && DrainOrder(Fresh(s), order)
    ensures Known(OnTick(cfg, s, order), values)
    ensures DrainOrder(Fresh(RenameState(s, values)), Names(order, values))
    ensures RenameState(OnTick(cfg, s, order), values) == OnTick(cfg, RenameState(s, values), Names(order, values))
  {
    FreshFollows(s, values);
    OrderFollows(Fresh(s), values, order);
    DrainedFollows(s, cfg.localStrategy, values, order);
    assert Rename<Url, Ip>(map[], values) == map[];
  }

  lemma DrainedFollows(s: StateOf<Addr>, strategy: ErrorStrategy, values: map<Addr, Url>, order: seq<Addr>)
    requires Known(s, values) && forall a | a in order :: a in s.batch
    ensures forall u | u in Names(order, values) :: u in Rename(s.batch, values)
    ensures var caches := DrainCaches(s.caches, strategy, order);
            && caches.Keys <= values.Keys
            && Rename(caches, values) ==
               DrainCaches(Rename(s.caches, values), strategy, Names(order, values))
    ensures var local := DrainOwners(s.local, s.batch, order);
            local.Values <= values.Keys
            && RenameOwners(local, values) ==
               DrainOwners(RenameOwners(s.local, values), Rename(s.batch, values), Names(order, values))
  {
    DrainedCachesFollow(s.caches, strategy, values, order);
    DrainedOwnersFollow(s.local, s.batch, values, order);
  }

  // ---------------------------------------------------- reports and departures

  lemma ReportSimulates(s: StateOf<Addr>, values: map<Addr, Url>, bad: Addr, now: Instant)
    requires Known(s, values) && bad in values
    ensures Known(OnBadCache(s, bad, now), values)
    ensures RenameState(OnBadCache(s, bad, now), values) == OnBadCache(RenameState(s, values), values[bad], now)
  {
    ApplySimulates(s.caches, values, PunishOp(bad, now));
  }

  lemma OwnersFollow(local: map<Ip, Addr>, values: map<Addr, Url>, a: Addr)
    requires OneAddressPerValue(values) && local.Values <= values.Keys && a in values
    ensures a in local.Values <==> values[a] in RenameOwners(local, values).Values
  {
    var plain := RenameOwners(local, values);
    if a in local.Values {
      var ip :| ip in local && local[ip] == a;
      assert plain[ip] == values[a];
    }
    if values[a] in plain.Values {
      var ip :| ip in plain && plain[ip] == values[a];
      assert local[ip] == a;
    }
  }

  lemma NetworkChangeSimulates(s: StateOf<Addr>, values: map<Addr, Url>)
    requires Known(s, values)
    ensures Known(OnNetworkChanged(s), values)
    ensures RenameState(OnNetworkChanged(s), values) == OnNetworkChanged(RenameState(s, values))
  {
    WithoutOwned(s.caches, s.local, values);
    assert RenameOwners(map[], values) == map[];
  }

  lemma WithoutOwned(caches: map<Addr, Meta>, local: map<Ip, Addr>, values: map<Addr, Url>)
    requires OneAddressPerValue(values) && caches.Keys <= values.Keys && local.Values <= values.Keys
    ensures Rename(caches - local.Values, values) == Rename(caches, values) - RenameOwners(local, values).Values
  {
    forall a | a in caches
      ensures a in local.Values <==> values[a] in RenameOwners(local, values).Values
    {
      OwnersFollow(local, values, a);
    }
  }

  lemma GoodbyeSimulates(s: StateOf<Addr>, values: map<Addr, Url>, source: Ip)
    requires Known(s, values)
    ensures Known(OnGoodbye(s, source), values)
    ensures RenameState(OnGoodbye(s, source), values) == OnGoodbye(RenameState(s, values), source)
  {
    if source in s.local {
      ApplySimulates(s.caches, values, RemoveOp(s.local[source]));
    }
  }

  // ------------------------------------------------------------------ adverts

  ghost predicate Grows(values: map<Addr, Url>, values': map<Addr, Url>) {
    && OneAddressPerValue(values) && OneAddressPerValue(values')
    && forall a | a in values :: a in values' && values'[a] == values[a]
  }

  // Interning more URLs changes nothing that was known.
  lemma RenameGrows<V>(m: map<Addr, V>, values: map<Addr, Url>, values': map<Addr, Url>)
    requires m.Keys <= values.Keys
    requires Grows(values, values')
    ensures m.Keys <= values'.Keys
    ensures Rename(m, values') == Rename(m, values)
  {
  }

  lemma RenamePut<V>(m: map<Addr, V>, values: map<Addr, Url>, a: Addr, v: V)
    requires m.Keys <= values.Keys && OneAddressPerValue(values) && a in values
    ensures Rename(m[a := v], values) == Rename(m, values)[values[a] := v]
  {
  }

  lemma StateGrows(s: StateOf<Addr>, values: map<Addr, Url>, values': map<Addr, Url>)
    requires Known(s, values) && Grows(values, values')
    ensures Known(s, values')
    ensures RenameState(s, values') == RenameState(s, values)
  {
    RenameGrows(s.caches, values, values');
    RenameGrows(s.batch, values, values');
  }

  lemma BatchSimulates(s: StateOf<Addr>, values: map<Addr, Url>, handle: Addr, source: Ip)
    requires Known(s, values) && handle in values
    ensures Known(OnAdvBatched(s, source, handle), values)
    ensures RenameState(OnAdvBatched(s, source, handle), values) ==
              OnAdvBatched(RenameState(s, values), source, values[handle])
  {
    RenamePut(s.batch, values, handle, source);
  }

  // Interning an advertised URL leaves the state what it was, and the advert
  // joins the batch under its pointer.
  lemma AdvertSimulates(s: StateOf<Addr>, values: map<Addr, Url>, url: Url, values': map<Addr, Url>, handle: Addr,
                        source: Ip)
    requires Known(s, values) && Interns(values, url, values', handle)
    ensures Known(OnAdvBatched(s, source, handle), values')
    ensures RenameState(OnAdvBatched(s, source, handle), values') == OnAdvBatched(RenameState(s, values), source, url)
  {
    StateGrows(s, values, values');
    BatchSimulates(s, values', handle, source);
  }
}
