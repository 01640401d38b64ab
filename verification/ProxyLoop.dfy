// The request handler as it runs: nested loops over the buckets of one table
// and over the replies of a bucket.

module ProxyLoop {
  import opened Types
  import opened CacheMap
  import opened CacheTable
  import opened Dedup
  import opened Timeouts
  import opened ProxyRuns
  import opened RequestRuns

  // When a select entered at t returns.
  function WakeTime(w: World, race: Race, t: Instant, outstanding: set<Url>): (at: Instant)
    ensures Wakes(w, race, t, outstanding, at)
    decreases if t <= race.deadline then race.deadline - t + 1 else 0
  {
    if race.deadline <= t || exists c | c in outstanding :: Ready(w, race, c, t) then t
    else WakeTime(w, race, t + 1, outstanding)
  }

  lemma {:induction false} PartialSnoc(w: World, cfg: Settings, race: Race, t: Instant, outstanding: set<Url>,
                                       turns: seq<Turn>, t': Instant, left: set<Url>, turn: Turn)
    requires Partial(w, cfg, race, t, outstanding, turns, t', left)
    requires CanTake(w, race, t', left, turn) && !w.replies[turn.cache].outcome.Found? && Hold(w, cfg, turn.cache).Some?
    ensures Partial(w, cfg, race, t, outstanding, turns + [turn], turn.at + Hold(w, cfg, turn.cache).value,
                    left - {turn.cache})
    decreases |turns|
  {
    if turns == [] {
      assert [turn][1..] == [];
    } else {
      var first := turns[0];
      PartialSnoc(w, cfg, race, first.at + Hold(w, cfg, first.cache).value, outstanding - {first.cache}, turns[1..], t',
                  left, turn);
      assert (turns + [turn])[1..] == turns[1..] + [turn];
    }
  }

  // The pointers of a table can be followed; pointers to the same URL are one.
  ghost predicate Readable(caches: map<Addr, Meta>, heap: map<Addr, Url>) {
    caches.Keys <= heap.Keys && OneAddressPerValue(heap)
  }

  // The caches of a bucket, and those that are asked now; every one of them has
  // metadata.
  method StartRequests(snapshot: CacheData<Addr>, heap: map<Addr, Url>, caches: set<Addr>, now: Instant)
    returns (urls: set<Url>, requests: set<Url>)
    requires snapshot.Valid() && Readable(snapshot.caches, heap)
    requires caches <= snapshot.caches.Keys
    ensures urls == set a | a in caches :: heap[a]
    ensures requests == Asked(Rename(snapshot.caches, heap), urls, now)
  {
    urls, requests := {}, {};
    var rest := caches;
    ghost var done: set<Addr> := {};
    while rest != {}
      invariant done !! rest && done + rest == caches
      invariant urls == set a | a in done :: heap[a]
      invariant requests == Asked(Rename(snapshot.caches, heap), urls, now)
      decreases rest
    {
      var cache :| cache in rest;
      RenameEntry(snapshot.caches, heap, cache);
      rest, done := rest - {cache}, done + {cache};
      urls := urls + {heap[cache]};
      var meta := snapshot.GetMeta(cache).value;
      if !Skipped(meta, now) {
        requests := requests + {heap[cache]};
      }
    }
    assert done == caches;
  }

  // The state of the select loop: still going, or done with a legal outcome.
  ghost predicate LoopState(w: World, cfg: Settings, race: Race, asked: set<Url>, turns: seq<Turn>, clock: Instant,
                            requests: set<Url>, end: Option<End>) {
    match end
    case None => Partial(w, cfg, race, race.start, asked, turns, clock, requests)
    case Some(e) => Legal(w, cfg, race, race.start, asked, turns, e)
  }

  lemma LoopExpires(w: World, cfg: Settings, race: Race, asked: set<Url>, turns: seq<Turn>, clock: Instant,
                    requests: set<Url>, at: Instant)
    requires LoopState(w, cfg, race, asked, turns, clock, requests, None)
    requires Wakes(w, race, clock, requests, at) && race.deadline <= at
    ensures LoopState(w, cfg, race, asked, turns, at, requests, Some(Expired(at)))
  {
    PartialEnds(w, cfg, race, race.start, asked, turns, clock, requests, [], Expired(at));
    assert turns + [] == turns;
  }

  // What taking a reply leads to: the answer, a report that is never accepted,
  // or the next select.
  function EndedBy(w: World, cfg: Settings, turn: Turn): Option<End>
    requires turn.cache in w.replies
  {
    if w.replies[turn.cache].outcome.Found? then Some(Answered(turn.cache, turn.at))
    else if Hold(w, cfg, turn.cache).None? then Some(Hung(turn.cache, turn.at))
    else None
  }

  lemma LoopTakes(w: World, cfg: Settings, race: Race, asked: set<Url>, turns: seq<Turn>, clock: Instant,
                  requests: set<Url>, turn: Turn)
    requires LoopState(w, cfg, race, asked, turns, clock, requests, None)
    requires CanTake(w, race, clock, requests, turn)
    ensures LoopState(w, cfg, race, asked, turns + [turn], turn.at + Hold(w, cfg, turn.cache).GetOr(0),
                      requests - {turn.cache}, EndedBy(w, cfg, turn))
    ensures CachesOf(turns + [turn]) == CachesOf(turns) + {turn.cache}
    ensures Failures(w, turns + [turn]) ==
            Failures(w, turns) + if w.replies[turn.cache].outcome.Failed? then [turn.cache] else []
  {
    match EndedBy(w, cfg, turn)
    case Some(end) =>
      assert Legal(w, cfg, race, clock, requests, [turn], end);
      PartialEnds(w, cfg, race, race.start, asked, turns, clock, requests, [turn], end);
    case None =>
      PartialSnoc(w, cfg, race, race.start, asked, turns, clock, requests, turn);
    CachesOfSnoc(turns, turn);
    assert (turns + [turn])[..|turns|] == turns;
  }

  // The select loop of one bucket. The alternatives are the arms of the select:
  // with both ready either may be taken. It returns, or waits for ever in a
  // report that the manager never accepts, which is the end `Hung`.
  method RunBucket(w: World, cfg: Settings, race: Race, bucket: set<Url>, asked: set<Url>)
    returns (turns: seq<Turn>, end: End, waitingFor: set<Url>, reports: seq<Url>)
    ensures Outcomes(w, cfg, race, asked, turns, end)
    ensures waitingFor == bucket - CachesOf(turns)
    ensures reports == if cfg.reporting then Failures(w, turns) else []
  {
    waitingFor := bucket;
    turns, reports := [], [];
    var requests := asked;
    var clock: Instant := race.start;
    var result: Option<End> := None;
    while result.None?
      invariant LoopState(w, cfg, race, asked, turns, clock, requests, result)
      invariant waitingFor == bucket - CachesOf(turns)
      invariant reports == if cfg.reporting then Failures(w, turns) else []
      decreases requests, result.None?
    {
      var at := WakeTime(w, race, clock, requests);
      if
      case race.deadline <= at =>
        LoopExpires(w, cfg, race, asked, turns, clock, requests, at);
        result := Some(Expired(at));
        clock := at;
      case cache :| cache in requests && Ready(w, race, cache, at) =>
        LoopTakes(w, cfg, race, asked, turns, clock, requests, Turn(cache, at));
        turns := turns + [Turn(cache, at)];
        requests := requests - {cache};
        waitingFor := waitingFor - {cache};
        clock := at;
        var outcome := w.replies[cache].outcome;
        if outcome.Found? {
          result := Some(Answered(cache, at));
        } else if outcome.Failed? && cfg.reporting {
          reports := reports + [cache];
          match w.lag(cache) {
            case None => result := Some(Hung(cache, at));
            case Some(lag) => clock := clock + lag;
          }
        }
    }
    end := result.value;
  }

  lemma CachesOfSnoc(turns: seq<Turn>, turn: Turn)
    ensures CachesOf(turns + [turn]) == CachesOf(turns) + {turn.cache}
  {
    assert forall i | 0 <= i < |turns| :: (turns + [turn])[i] == turns[i];
    assert (turns + [turn])[|turns|] == turn;
  }

  // Every cache still waited for is reported, one after the other, until a
  // report is never accepted.
  method ReportLate(w: World, cfg: Settings, waitingFor: set<Url>, at: Instant)
    returns (late: seq<Url>, clock: Option<Instant>)
    ensures GoesThrough(w, cfg, late, waitingFor)
    ensures clock == LateEnd(w, cfg, at, late)
  {
    late, clock := [], Some(at);
    var rest := waitingFor;
    while rest != {} && clock.Some?
      invariant rest <= waitingFor
      invariant Distinct(late) && forall c :: c in late <==> c in waitingFor && c !in rest
      invariant clock == LateEnd(w, cfg, at, late)
      invariant forall i | 0 <= i < |late| - 1 :: LagOf(w, cfg, late[i]).Some?
      invariant late != [] ==> (clock.None? <==> LagOf(w, cfg, late[|late| - 1]).None?)
      decreases rest
    {
      var cache :| cache in rest;
      rest := rest - {cache};
      assert (late + [cache])[..|late|] == late;
      late := late + [cache];
      match LagOf(w, cfg, cache) {
        case None => clock := None;
        case Some(lag) => clock := Some(clock.value + lag);
      }
    }
  }

  // A request at the instant `start`, on the table published then, whose pointers
  // it reads through the heap. It returns, or waits for ever in a report it has
  // begun, which is the response `Never`; on any schedule what it does is a legal
  // request on the table of URLs.
  method Proxy(snapshot: CacheData<Addr>, heap: map<Addr, Url>, w: World, cfg: Settings, start: Instant)
    returns (response: Response, reports: seq<Url>, visits: seq<Visit>)
    requires snapshot.Valid() && Readable(snapshot.caches, heap)
    ensures var table := Rename(snapshot.caches, heap);
            LegalRequest(w, cfg, table, start, Ascending(GroupBy(table).Keys), visits)
    ensures response == ResponseOf(w, cfg, visits)
    ensures reports == ReportsOf(w, cfg, visits)
    ensures response == Never <==> exists c | c in reports :: LagOf(w, cfg, c).None?
  {
    ghost var table := Rename(snapshot.caches, heap);
    IndexFollows(snapshot.caches, heap);
    response, reports, visits := TryBuckets(snapshot, heap, w, cfg, start, snapshot.IterPriorities());
    NeverIffReportNotAccepted(w, cfg, table, start, Ascending(GroupBy(table).Keys), visits);
  }

  // The visits so far all ended without an answer, the last one at `clock`.
  ghost predicate Trying(w: World, cfg: Settings, caches: map<Url, Meta>, start: Instant, ps: seq<byte>,
                         visits: seq<Visit>, clock: Instant) {
    && LegalSoFar(w, cfg, caches, start, ps, visits)
    && Some(clock) == if visits == [] then Some(start) else Next(w, cfg, visits[|visits| - 1])
  }

  method TryBuckets(snapshot: CacheData<Addr>, heap: map<Addr, Url>, w: World, cfg: Settings, start: Instant,
                    ps: seq<byte>)
    returns (response: Response, reports: seq<Url>, visits: seq<Visit>)
    requires snapshot.Valid() && Readable(snapshot.caches, heap)
    requires forall p | p in ps :: p in snapshot.priorityMap
    ensures LegalRequest(w, cfg, Rename(snapshot.caches, heap), start, ps, visits)
    ensures response == ResponseOf(w, cfg, visits)
    ensures reports == ReportsOf(w, cfg, visits)
  {
    ghost var table := Rename(snapshot.caches, heap);
    reports, visits := [], [];
    var clock: Instant := start;
    for n := 0 to |ps|
      invariant |visits| == n
      invariant Trying(w, cfg, table, start, ps, visits, clock)
      invariant reports == ReportsOf(w, cfg, visits)
    {
      var visit, failures, next := VisitBucket(snapshot, heap, w, cfg, ps[n], clock);
      OneMoreVisit(w, cfg, table, start, ps, visits, visit);
      assert (visits + [visit])[..n] == visits;
      reports := reports + failures;
      visits := visits + [visit];
      if visit.end.Answered? {
        response := Fetched(visit.end.cache);
        return;
      }
      if next.None? {
        response := Never;
        return;
      }
      clock := next.value;
    }
    response := NotFound;
  }

  method VisitBucket(snapshot: CacheData<Addr>, heap: map<Addr, Url>, w: World, cfg: Settings, p: byte, now: Instant)
    returns (visit: Visit, reports: seq<Url>, next: Option<Instant>)
    requires snapshot.Valid() && Readable(snapshot.caches, heap) && p in snapshot.priorityMap
    ensures LegalVisit(w, cfg, Rename(snapshot.caches, heap), p, visit) && visit.start == now
    ensures reports == VisitReports(w, cfg, visit)
    ensures next == Next(w, cfg, visit)
  {
    var urls, requests := StartRequests(snapshot, heap, snapshot.priorityMap[p], now);
    BucketOf(snapshot.caches, heap, p);
    var turns, end, waitingFor, failures := RunBucket(w, cfg, RaceOf(cfg, p, now), urls, requests);
    var late := [];
    next := None;
    if end.Expired? {
      late, next := ReportLate(w, cfg, waitingFor, end.at);
    }
    visit := Visit(p, now, turns, end, late);
    reports := failures + if cfg.reporting then late else [];
  }

  lemma BucketOf(caches: map<Addr, Meta>, heap: map<Addr, Url>, p: byte)
    requires Readable(caches, heap) && p in GroupBy(caches)
    ensures Bucket(Rename(caches, heap), p) == set a | a in GroupBy(caches)[p] :: heap[a]
  {
    IndexFollows(caches, heap);
    assert GroupBy(Rename(caches, heap))[p] == Bucket(Rename(caches, heap), p);
  }
}
