// Requests against the tables a running system publishes.

module EndToEnd {
  import opened Types
  import opened CacheMap
  import opened Discovery
  import opened ManagerSteps
  import opened System
  import opened ProxyRuns
  import opened RequestRuns
  import opened Channels
  import Provenance
  import Timeouts
  import M = ManagerRuns

  // A request that loads the table published at state n.
  ghost predicate RequestAt(node: Node, cfg: Config, states: seq<State>, labels: seq<Label>, n: nat,
                            w: World, settings: Settings, visits: seq<Visit>) {
    && IsRun(node, cfg, states, labels) && n < |states|
    && LegalRequest(w, settings, states[n].mgr.caches, states[n].clock, Ascending(GroupBy(states[n].mgr.caches).Keys),
                    visits)
  }

  ghost predicate Trusted(node: Node, cfg: Config, states: seq<State>, labels: seq<Label>, n: nat, u: Url) {
    || u in ConfiguredCaches(cfg.binaryCaches)
    || exists i: nat :: Provenance.IsOrigin(node, states, labels, i, n, u)
  }

  // Whatever the schedule, a request is answered only by a cache that is
  // configured or that an authentic datagram of another machine advertised
  // before the request, and never by one whose timeout was not over.
  lemma AnswersAreTrusted(node: Node, cfg: Config, states: seq<State>, labels: seq<Label>, n: nat,
                          w: World, settings: Settings, visits: seq<Visit>, c: Url)
    requires RequestAt(node, cfg, states, labels, n, w, settings, visits)
    requires ResponseOf(w, settings, visits) == Fetched(c)
    ensures Trusted(node, cfg, states, labels, n, c)
    ensures c in states[n].mgr.caches && !Timeouts.Skipped(states[n].mgr.caches[c], visits[|visits| - 1].start)
  {
    var caches := states[n].mgr.caches;
    SkippedNeverAnswers(w, settings, caches, states[n].clock, Ascending(GroupBy(caches).Keys), visits, c);
    Provenance.EveryEntryHasAnOrigin(node, cfg, states, labels, n, c);
  }

  // Once the manager has handled a report about a cache with a timeout of d at
  // the instant T, no request that loads a later table asks that cache in a
  // bucket it reaches before T + d, as long as the cache has not left the table.
  lemma TimeoutIsRespected(node: Node, cfg: Config, states: seq<State>, labels: seq<Label>, i: nat, n: nat,
                           w: World, settings: Settings, visits: seq<Visit>, u: Url, k: nat)
    requires RequestAt(node, cfg, states, labels, n, w, settings, visits)
    requires i < n && labels[i].ReportIn? && states[i].reports == Some(u)
    requires forall m | i <= m <= n :: u in states[m].mgr.caches
    requires states[i].mgr.caches[u].strategy.TimeoutFor?
    requires k < |visits| && visits[k].start < states[i].clock + states[i].mgr.caches[u].strategy.timeout
    ensures u !in Asked(states[n].mgr.caches, Bucket(states[n].mgr.caches, visits[k].priority), visits[k].start)
    ensures forall turn | turn in visits[k].turns :: turn.cache != u
  {
    Provenance.ReportedCacheIsSkipped(node, cfg, states, labels, i, n, u, visits[k].start);
    var caches := states[n].mgr.caches;
    var ps := Ascending(GroupBy(caches).Keys);
    var v := visits[k];
    assert LegalVisit(w, settings, caches, ps[k], v);
    LegalFacts(w, settings, RaceOf(settings, ps[k], v.start), v.start, Asked(caches, Bucket(caches, ps[k]), v.start),
               v.turns, v.end);
    forall turn | turn in v.turns
      ensures turn.cache in CachesOf(v.turns)
    {
    }
  }

  // ------------------------------------------ requests and a blocked manager

  // Nothing the system can still do from s takes in a report about c.
  ghost predicate NeverTakesIn(node: Node, cfg: Config, s: State, c: Url) {
    forall path, steps | IsPath(node, cfg, path, steps) && path[0] == s :: ReportMade(c) !in steps
  }

  // Step j of the run takes in the report, as long after it was begun as the
  // request waits for it.
  ghost predicate TakenAt(states: seq<State>, labels: seq<Label>, w: World, made: Made, j: nat) {
    && j < |labels| && j < |states| && labels[j] == ReportMade(made.cache)
    && w.lag(made.cache).Some? && states[j].clock == made.at + w.lag(made.cache).value
  }

  // A request as a process of the system: it loads the table of state n, its
  // reports are steps of the run in the order it makes them, and it hangs only
  // in a report that the system can never take in after the run.
  ghost predicate Served(node: Node, cfg: Config, states: seq<State>, labels: seq<Label>, n: nat,
                         w: World, settings: Settings, visits: seq<Visit>, steps: seq<nat>) {
    && RequestAt(node, cfg, states, labels, n, w, settings, visits)
    && var made := MadeOf(w, settings, visits);
    && |steps| == (if ResponseOf(w, settings, visits) == Never then |made| - 1 else |made|)
    && (forall i | 0 <= i < |steps| :: n <= steps[i] && TakenAt(states, labels, w, made[i], steps[i]))
    && (forall i, j | 0 <= i < j < |steps| :: steps[i] < steps[j])
    && (ResponseOf(w, settings, visits) == Never ==> NeverTakesIn(node, cfg, states[|labels|], made[|made| - 1].cache))
  }

  lemma {:induction false} MadeBefore(w: World, settings: Settings, visits: seq<Visit>, k: nat)
    requires k <= |visits|
    ensures MadeOf(w, settings, visits[..k]) <= MadeOf(w, settings, visits)
    decreases |visits|
  {
    var n := |visits|;
    assert visits[..n] == visits;
    if k < n {
      MadeBefore(w, settings, visits[..n - 1], k);
      assert visits[..n - 1][..k] == visits[..k];
    }
  }

  // In a run the next bucket starts at the very step that takes in the last late
  // report of the one before.
  lemma LastLateReportTaken(node: Node, cfg: Config, states: seq<State>, labels: seq<Label>, n: nat,
                            w: World, settings: Settings, visits: seq<Visit>, steps: seq<nat>, k: nat) returns (j: nat)
    requires Served(node, cfg, states, labels, n, w, settings, visits, steps) && settings.reporting
    requires k + 1 < |visits| && visits[k].late != []
    ensures j in steps && j < |labels| && labels[j] == ReportMade(visits[k].late[|visits[k].late| - 1])
    ensures states[j].clock == visits[k + 1].start
  {
    var caches := states[n].mgr.caches;
    assert Next(w, settings, visits[k]) == Some(visits[k + 1].start);
    if ResponseOf(w, settings, visits) == Never {
      HangingVisitMakes(w, settings, caches, states[n].clock, Ascending(GroupBy(caches).Keys), visits);
    }
    var i := LastMadeIn(w, settings, visits, k);
    j := steps[i];
    assert TakenAt(states, labels, w, MadeOf(w, settings, visits)[i], j);
  }

  // The last late report of the visit, after which the next one starts.
  ghost predicate LastLate(w: World, v: Visit, next: Instant, made: Made) {
    && v.late != [] && made.cache == v.late[|v.late| - 1]
    && w.lag(made.cache).Some? && next == made.at + w.lag(made.cache).value
  }

  // It is among all reports of the request.
  lemma LastMadeIn(w: World, settings: Settings, visits: seq<Visit>, k: nat) returns (i: nat)
    requires settings.reporting && k + 1 < |visits| && visits[k].end.Expired? && visits[k].late != []
    requires Next(w, settings, visits[k]) == Some(visits[k + 1].start)
    ensures i < |MadeOf(w, settings, visits[..|visits| - 1])| <= |MadeOf(w, settings, visits)|
    ensures LastLate(w, visits[k], visits[k + 1].start, MadeOf(w, settings, visits)[i])
  {
    LastMadeOf(w, settings, visits, k, visits[k + 1].start);
    i := |MadeOf(w, settings, visits[..k + 1])| - 1;
    MadeInBetween(w, settings, visits, k + 1);
  }

  lemma MadeInBetween(w: World, settings: Settings, visits: seq<Visit>, k: nat)
    requires k < |visits|
    ensures MadeOf(w, settings, visits[..k]) <= MadeOf(w, settings, visits[..|visits| - 1]) <= MadeOf(w, settings,
            visits)
  {
    var last := |visits| - 1;
    MadeBefore(w, settings, visits, last);
    MadeBefore(w, settings, visits[..last], k);
    assert visits[..last][..k] == visits[..k];
  }

  lemma LastMadeOf(w: World, settings: Settings, visits: seq<Visit>, k: nat, next: Instant)
    requires settings.reporting && k < |visits| && visits[k].end.Expired? && visits[k].late != []
    requires Next(w, settings, visits[k]) == Some(next)
    ensures var made := MadeOf(w, settings, visits[..k + 1]);
            made != [] && LastLate(w, visits[k], next, made[|made| - 1])
  {
    LastMade(w, settings, visits[k], next);
    assert visits[..k + 1][..k] == visits[..k];
  }

  lemma LastMade(w: World, settings: Settings, v: Visit, next: Instant)
    requires settings.reporting && v.end.Expired? && v.late != [] && Next(w, settings, v) == Some(next)
    ensures var made := VisitMade(w, settings, v); made != [] && LastLate(w, v, next, made[|made| - 1])
  {
  }

  lemma HangingVisitMakes(w: World, settings: Settings, caches: map<Url, Meta>, start: Instant, ps: seq<byte>,
                          visits: seq<Visit>)
    requires LegalSoFar(w, settings, caches, start, ps, visits)
    requires ResponseOf(w, settings, visits) == Never
    ensures visits != [] && |MadeOf(w, settings, visits[..|visits| - 1])| < |MadeOf(w, settings, visits)|
  {
    var last := |visits| - 1;
    VisitHangsIff(w, settings, caches, ps[last], visits[last]);
    VisitMadeIsReports(w, settings, caches, ps[last], visits[last]);
  }

  // Once the manager and discovery block each other with a report in the
  // channel, a request hangs exactly when it comes to make any report, and then
  // in the first one.
  lemma BlockedManagerHangsRequests(node: Node, cfg: Config, states: seq<State>, labels: seq<Label>, n: nat,
                                    w: World, settings: Settings, visits: seq<Visit>, steps: seq<nat>)
    requires Served(node, cfg, states, labels, n, w, settings, visits, steps)
    requires Deadlocked(states[n]) && states[n].reports.Some?
    ensures ResponseOf(w, settings, visits) == Never <==> ReportsOf(w, settings, visits) != []
    ensures |ReportsOf(w, settings, visits)| <= 1
  {
    var caches, made := states[n].mgr.caches, MadeOf(w, settings, visits);
    MadeAreReports(w, settings, caches, states[n].clock, Ascending(GroupBy(caches).Keys), visits);
    assert |made| == |ReportsOf(w, settings, visits)|;
    NoReportAccepted(node, cfg, states, labels, n, |labels|);
    assert steps != [] ==> TakenAt(states, labels, w, made[0], steps[0]);
  }

  // In every node and configuration such a state is reached, with the
  // configured table; a request that meets a failure in its first bucket then
  // hangs, although another cache of the bucket would answer in time.
  lemma RequestsCanHang(node: Node, cfg: Config, settings: Settings, bad: Url, failing: Url, serving: Url,
                        latency: Duration)
    returns (states: seq<State>, labels: seq<Label>, w: World, visits: seq<Visit>)
    requires settings.reporting && failing != serving
    requires var caches := ConfiguredCaches(cfg.binaryCaches);
             && failing in caches && serving in caches && caches[failing].priority == caches[serving].priority
             && (forall c | c in caches :: caches[failing].priority <= caches[c].priority)
             && latency < TimeoutOf(settings, caches[failing].priority)
    ensures IsRun(node, cfg, states, labels)
    ensures var s := states[|labels|];
            && Deadlocked(s) && s.reports == Some(bad) && s.mgr == Start(cfg)
            && Served(node, cfg, states, labels, |labels|, w, settings, visits, [])
            && ResponseOf(w, settings, visits) == Never
            && |visits| == 1 && HasHit(w, settings, s.mgr.caches, visits[0].priority, s.clock)
            && w.replies == map[failing := Reply(0, Failed), serving := Reply(latency, Found)]
  {
    states, labels := FullDeadlockIsReachable(node, cfg, bad);
    var s := states[|labels|];
    M.ConfiguredKeys(cfg.binaryCaches);
    w, visits := HangingRequest(settings, s.mgr.caches, failing, serving, latency, s.clock);
    forall path, steps | IsPath(node, cfg, path, steps) && path[0] == s
      ensures ReportMade(failing) !in steps
    {
      NoReportAccepted(node, cfg, path, steps, 0, |steps|);
    }
    assert NeverTakesIn(node, cfg, s, failing);
  }

  lemma HangingRequest(settings: Settings, caches: map<Url, Meta>, failing: Url, serving: Url, latency: Duration,
                       now: Instant)
    returns (w: World, visits: seq<Visit>)
    requires settings.reporting && failing != serving && NoneSkipped(caches, now)
    requires failing in caches && serving in caches && caches[failing].priority == caches[serving].priority
    requires forall c | c in caches :: caches[failing].priority <= caches[c].priority
    requires latency < TimeoutOf(settings, caches[failing].priority)
    ensures w == World(map[failing := Reply(0, Failed), serving := Reply(latency, Found)], w.lag)
    ensures forall c :: w.lag(c).None?
    ensures LegalRequest(w, settings, caches, now, Ascending(GroupBy(caches).Keys), visits)
    ensures ResponseOf(w, settings, visits) == Never
    ensures MadeOf(w, settings, visits) == [Made(failing, now)]
    ensures |visits| == 1 && HasHit(w, settings, caches, visits[0].priority, now)
  {
    w := World(map[failing := Reply(0, Failed), serving := Reply(latency, Found)], _ => None);
    var p := caches[failing].priority;
    FirstPriority(caches, failing);
    var asked := AskedAt(caches, p, now);
    assert failing in asked && HitWithin(w, caches, p, now, TimeoutOf(settings, p) - 1, serving);
    HangsAtOnce(w, settings, RaceOf(settings, p, now), asked, failing);
    visits := [Visit(p, now, [Turn(failing, now)], Hung(failing, now), [])];
    HangingMakes(w, settings, visits[0], failing, now);
  }

  lemma HangingMakes(w: World, settings: Settings, v: Visit, failing: Url, now: Instant)
    requires settings.reporting && failing in w.replies && w.replies[failing].outcome.Failed?
    requires v.turns == [Turn(failing, now)] && v.end.Hung?
    ensures MadeOf(w, settings, [v]) == [Made(failing, now)]
  {
    assert v.turns[..0] == [];
    assert FailureReports(w, v.turns) == [Made(failing, now)];
    assert [v][..0] == [];
  }

  lemma FirstPriority(caches: map<Url, Meta>, c: Url)
    requires c in caches && forall d | d in caches :: caches[c].priority <= caches[d].priority
    ensures var ps := Ascending(GroupBy(caches).Keys); ps != [] && ps[0] == caches[c].priority
  {
    var ps := Ascending(GroupBy(caches).Keys);
    assert caches[c].priority in ps;
    assert ps[0] in Priorities(caches);
  }

  lemma HangsAtOnce(w: World, settings: Settings, race: Race, asked: set<Url>, failing: Url)
    requires failing in asked && failing in w.replies && w.replies[failing] == Reply(0, Failed)
    requires settings.reporting && w.lag(failing).None?
    ensures Outcomes(w, settings, race, asked, [Turn(failing, race.start)], Hung(failing, race.start))
  {
    assert Ready(w, race, failing, race.start);
    assert CanTake(w, race, race.start, asked, Turn(failing, race.start));
  }
}
