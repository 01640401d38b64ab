// A cache that is timed out can be kept from answering for good: it is late in
// every bucket that runs out of time, and so it is reported again and again.

module Starvation {
  import opened Types
  import opened CacheMap
  import opened Discovery
  import opened ManagerSteps
  import opened System
  import opened ProxyRuns
  import opened RequestRuns
  import opened Retries
  import opened EndToEnd
  import Ownership
  import Provenance
  import Channels

  // ------------------------------------------------------------ on any schedule

  // A report about u is handled at step i, and a request that loads its table
  // at state n comes to the bucket of u, in its visit k, before the timeout of
  // that report is over.
  ghost predicate IsRetry(node: Node, cfg: Config, states: seq<State>, labels: seq<Label>, u: Url, i: nat, n: nat,
                          w: World, settings: Settings, visits: seq<Visit>, k: nat) {
    && RequestAt(node, cfg, states, labels, n, w, settings, visits)
    && i < n && i < |labels| && labels[i].ReportIn? && states[i].reports == Some(u)
    && Ownership.Permanent(cfg, u)
    && k < |visits| && visits[k].priority == ConfiguredCaches(cfg.binaryCaches)[u].priority
    && visits[k].start < states[i].clock + ConfiguredCaches(cfg.binaryCaches)[u].strategy.timeout
  }

  // Such a request does not ask u in any bucket, so u never answers it; and when
  // the bucket runs out of time u is reported once more, unless the request
  // hangs. Once that report is handled the next request may be such a retry.
  lemma RetryKeepsUnasked(node: Node, cfg: Config, states: seq<State>, labels: seq<Label>, u: Url, i: nat, n: nat,
                          w: World, settings: Settings, visits: seq<Visit>, k: nat)
    requires IsRetry(node, cfg, states, labels, u, i, n, w, settings, visits, k)
    ensures forall j | 0 <= j < |visits| :: u !in AskedAt(states[n].mgr.caches, visits[j].priority, visits[j].start)
    ensures ResponseOf(w, settings, visits) != Fetched(u)
    ensures visits[k].end.Expired? && settings.reporting && ResponseOf(w, settings, visits) != Never ==>
              u in ReportsOf(w, settings, visits)
  {
    forall m | i <= m <= n
      ensures Ownership.Carries(cfg, states[m].mgr.caches, u)
    {
      Provenance.PermanentCachesStayInSystem(node, cfg, states, labels, m, u);
    }
    TimeoutIsRespected(node, cfg, states, labels, i, n, w, settings, visits, u, k);
    var caches := states[n].mgr.caches;
    var ps := Ascending(GroupBy(caches).Keys);
    forall j | 0 <= j < |visits|
      ensures u !in AskedAt(caches, visits[j].priority, visits[j].start)
      ensures visits[j].end.Answered? ==> visits[j].end.cache != u
    {
      NotAskedElsewhere(w, settings, caches, ps, visits, k, j, u);
    }
    if visits[k].end.Expired? && settings.reporting {
      LateIsReported(w, settings, caches, states[n].clock, ps, visits, k, u);
    }
  }

  lemma NotAskedElsewhere(w: World, settings: Settings, caches: map<Url, Meta>, ps: seq<byte>, visits: seq<Visit>,
                          k: nat, j: nat, u: Url)
    requires |visits| <= |ps| && forall i | 0 <= i < |visits| :: LegalVisit(w, settings, caches, ps[i], visits[i])
    requires forall i, l | 0 <= i < l < |ps| :: ps[i] < ps[l]
    requires k < |visits| && j < |visits|
    requires u in Bucket(caches, visits[k].priority) && u !in AskedAt(caches, visits[k].priority, visits[k].start)
    ensures u !in AskedAt(caches, visits[j].priority, visits[j].start)
    ensures visits[j].end.Answered? ==> visits[j].end.cache != u
  {
    var v := visits[j];
    LegalFacts(w, settings, RaceOf(settings, ps[j], v.start), v.start, AskedAt(caches, ps[j], v.start), v.turns, v.end);
  }

  lemma LateIsReported(w: World, settings: Settings, caches: map<Url, Meta>, start: Instant, ps: seq<byte>,
                       visits: seq<Visit>, k: nat, u: Url)
    requires LegalSoFar(w, settings, caches, start, ps, visits) && settings.reporting
    requires forall i, l | 0 <= i < l < |ps| :: ps[i] < ps[l]
    requires k < |visits| && visits[k].end.Expired?
    requires u in Bucket(caches, visits[k].priority) && u !in AskedAt(caches, visits[k].priority, visits[k].start)
    ensures ResponseOf(w, settings, visits) != Never ==> u in ReportsOf(w, settings, visits)
  {
    var v := visits[k];
    LegalFacts(w, settings, RaceOf(settings, ps[k], v.start), v.start, AskedAt(caches, ps[k], v.start), v.turns, v.end);
    ReportsExact(w, settings, caches, start, ps, visits);
    assert ReportedIn(w, caches, ps, visits, k, u);
  }

  // -------------------------------------------------------------- in any run

  // What a step that handles no report about u does to its entry.
  lemma EntryStays(node: Node, cfg: Config, states: seq<State>, labels: seq<Label>, m: nat, u: Url)
    requires IsRun(node, cfg, states, labels) && m < |labels| && Ownership.Permanent(cfg, u)
    requires !(labels[m].ReportIn? && states[m].reports == Some(u))
    ensures u in states[m].mgr.caches && u in states[m + 1].mgr.caches
    ensures states[m + 1].mgr.caches[u] == states[m].mgr.caches[u]
  {
    Provenance.SystemInvariants(node, cfg, states, labels, m);
    StepInside(node, cfg, states[m], labels[m]);
    Ownership.EntryUntouched(cfg, states[m].mgr, InputOf(states[m], labels[m]), u);
  }

  ghost predicate Unreported(states: seq<State>, labels: seq<Label>, u: Url, i: nat, n: nat) {
    && i <= n && n <= |labels| && n < |states|
    && forall m | i <= m < n :: !(labels[m].ReportIn? && states[m].reports == Some(u))
  }

  // A report about u is handled at step i, and no other before state n.
  ghost predicate LastReport(states: seq<State>, labels: seq<Label>, u: Url, i: nat, n: nat) {
    i < n && i < |labels| && i < |states| && labels[i].ReportIn? && states[i].reports == Some(u)
      && Unreported(states, labels, u, i + 1, n)
  }

  lemma {:induction false} TimeoutStays(node: Node, cfg: Config, states: seq<State>, labels: seq<Label>, i: nat, n: nat,
                                        u: Url)
    requires IsRun(node, cfg, states, labels) && Ownership.Permanent(cfg, u) && LastReport(states, labels, u, i, n)
    ensures TimedOut(states[n].mgr.caches, u, states[i].clock + ConfiguredCaches(cfg.binaryCaches)[u].strategy.timeout)
    decreases n
  {
    if n == i + 1 {
      Provenance.PermanentCachesStayInSystem(node, cfg, states, labels, i, u);
    } else {
      TimeoutStays(node, cfg, states, labels, i, n - 1, u);
      EntryStays(node, cfg, states, labels, n - 1, u);
    }
  }

  // The buckets of the table of state n, in the order requests try them.
  ghost function OrderAt(states: seq<State>, n: nat): seq<byte>
    requires n < |states|
  {
    Ascending(GroupBy(states[n].mgr.caches).Keys)
  }

  // In every run: a request that loads its table some time after the last report
  // about a permanent cache fetches from it, when it alone would serve, exactly
  // when that time and the timeouts of the buckets before its own are no shorter
  // than its timeout. Otherwise it misses it.
  lemma NextRetryIff(node: Node, cfg: Config, states: seq<State>, labels: seq<Label>, u: Url, i: nat, n: nat,
                     w: World, settings: Settings, visits: seq<Visit>, k: nat)
    requires RequestAt(node, cfg, states, labels, n, w, settings, visits) && OnlyServes(w, u)
    requires Ownership.Permanent(cfg, u) && LastReport(states, labels, u, i, n)
    requires InBucket(settings, states[n].mgr.caches, OrderAt(states, n), u, k)
    ensures var until := states[i].clock + ConfiguredCaches(cfg.binaryCaches)[u].strategy.timeout;
            FetchesOrMisses(w, settings, visits, u, until, states[n].clock, OrderAt(states, n), k)
  {
    var until := states[i].clock + ConfiguredCaches(cfg.binaryCaches)[u].strategy.timeout;
    TimeoutStays(node, cfg, states, labels, i, n, u);
    RetryAnswers(w, settings, states[n].mgr.caches, u, until, states[n].clock, OrderAt(states, n), visits, k);
  }

  // What the buckets other than bucket k take together.
  ghost function OthersTime(settings: Settings, ps: seq<byte>, k: nat): int
    requires k < |ps|
  {
    StartOf(settings, 0, ps, |ps|) - TimeoutOf(settings, ps[k])
  }

  // So when a request that missed u had its report handled at once, and the next
  // one starts when it is over, with the same buckets, that one fetches from u
  // exactly when the timeouts of the other buckets together are no shorter.
  lemma NextInTurnIff(node: Node, cfg: Config, states: seq<State>, labels: seq<Label>, u: Url,
                      w0: World, visits0: seq<Visit>, start0: Instant, i: nat, n: nat,
                      w: World, settings: Settings, visits: seq<Visit>, k: nat)
    requires RequestAt(node, cfg, states, labels, n, w, settings, visits) && OnlyServes(w, u)
    requires Ownership.Permanent(cfg, u) && LastReport(states, labels, u, i, n)
    requires InBucket(settings, states[n].mgr.caches, OrderAt(states, n), u, k)
    requires var ps := OrderAt(states, n);
             Misses(w0, settings, visits0, u, k, start0 + StartOf(settings, 0, ps, k + 1),
                    start0 + StartOf(settings, 0, ps, |ps|))
    requires Some(states[i].clock) == Next(w0, settings, visits0[k])
    requires Some(states[n].clock) == Next(w0, settings, visits0[|visits0| - 1])
    ensures ResponseOf(w, settings, visits) ==
            if OthersTime(settings, OrderAt(states, n), k) >= ConfiguredCaches(cfg.binaryCaches)[u].strategy.timeout
            then Fetched(u) else NotFound
  {
    NextRetryIff(node, cfg, states, labels, u, i, n, w, settings, visits, k);
  }

  // ------------------------------------------------------------------ for good

  // Round r of a run: a report about u is handled, the next request loads its
  // table after some pause, and it is at the end of u's bucket when the next
  // report is made.
  ghost predicate RoundAt(base: map<Url, Meta>, states: seq<State>, labels: seq<Label>, u: Url, pause: Duration,
                          x: Duration, r: nat) {
    var i := 4 * r;
    && i + 5 < |states| && i + 4 < |labels|
    && labels[i] == ReportMade(u) && labels[i + 1] == ReportIn
    && labels[i + 2] == Wait(pause) && labels[i + 3] == Wait(x)
    && labels[i + 4] == ReportMade(u)
    && states[i + 3].mgr.caches == Punish(base, u, states[i].clock)
    && states[i + 3].clock == states[i].clock + pause
    && states[i + 4].clock == states[i + 3].clock + x
  }

  // The last step made a report about u, and no other cache has been touched.
  ghost predicate JustMade(base: map<Url, Meta>, states: seq<State>, labels: seq<Label>, u: Url) {
    && labels != [] && |states| == |labels| + 1 && labels[|labels| - 1] == ReportMade(u)
    && var s := states[|labels|];
    && s.mpc.Selecting? && s.reports == Some(u) && s.clock == states[|labels| - 1].clock
    && forall t :: Punish(s.mgr.caches, u, t) == Punish(base, u, t)
  }

  lemma {:induction false} Rounds(node: Node, cfg: Config, u: Url, pauses: seq<Duration>, x: Duration)
    returns (states: seq<State>, labels: seq<Label>)
    requires Ownership.Permanent(cfg, u)
    ensures IsRun(node, cfg, states, labels) && |labels| == 4 * |pauses| + 1
    ensures forall r: nat | r < |pauses| ::
              RoundAt(ConfiguredCaches(cfg.binaryCaches), states, labels, u, pauses[r], x, r)
    ensures JustMade(ConfiguredCaches(cfg.binaryCaches), states, labels, u)
  {
    var base := ConfiguredCaches(cfg.binaryCaches);
    if pauses == [] {
      states, labels := Channels.Extend(node, cfg, [Init(cfg)], [], ReportMade(u));
    } else {
      var n := |pauses| - 1;
      var states0, labels0 := Rounds(node, cfg, u, pauses[..n], x);
      states, labels := OneMoreRound(node, cfg, base, states0, labels0, u, pauses[n], x, n);
      forall r: nat | r < n
        ensures RoundAt(base, states, labels, u, pauses[r], x, r)
      {
        assert pauses[r] == pauses[..n][r];
        RoundStays(base, states0, labels0, states, labels, u, pauses[r], x, r);
      }
    }
  }

  lemma RoundStays(base: map<Url, Meta>, states0: seq<State>, labels0: seq<Label>, states: seq<State>,
                   labels: seq<Label>,
                   u: Url, pause: Duration, x: Duration, r: nat)
    requires RoundAt(base, states0, labels0, u, pause, x, r)
    requires states0 <= states && labels0 <= labels
    ensures RoundAt(base, states, labels, u, pause, x, r)
  {
  }

  lemma OneMoreRound(node: Node, cfg: Config, base: map<Url, Meta>, states0: seq<State>, labels0: seq<Label>,
                     u: Url, pause: Duration, x: Duration, r: nat)
    returns (states: seq<State>, labels: seq<Label>)
    requires IsRun(node, cfg, states0, labels0) && |labels0| == 4 * r + 1
    requires JustMade(base, states0, labels0, u) && u in base && base[u].strategy.TimeoutFor?
    ensures IsRun(node, cfg, states, labels) && |labels| == |labels0| + 4
    ensures states0 <= states && labels0 <= labels
    ensures RoundAt(base, states, labels, u, pause, x, r)
    ensures JustMade(base, states, labels, u)
  {
    states, labels := Channels.Extend(node, cfg, states0, labels0, ReportIn);
    states, labels := Channels.Extend(node, cfg, states, labels, Wait(pause));
    states, labels := Channels.Extend(node, cfg, states, labels, Wait(x));
    states, labels := Channels.Extend(node, cfg, states, labels, ReportMade(u));
  }

  // The order in which requests try the buckets of the configured table.
  ghost function ConfiguredOrder(cfg: Config): seq<byte> {
    Ascending(GroupBy(ConfiguredCaches(cfg.binaryCaches)).Keys)
  }

  lemma SameOrder(base: map<Url, Meta>, u: Url, now: Instant)
    requires u in base && base[u].strategy.TimeoutFor?
    ensures Ascending(GroupBy(Punish(base, u, now)).Keys) == Ascending(GroupBy(base).Keys)
  {
    GroupBySamePriority(base, u, Punish(base, u, now)[u]);
  }

  // A request on the table after a report about u.
  lemma AnswersAfterReport(w: World, settings: Settings, base: map<Url, Meta>, caches: map<Url, Meta>, u: Url,
                           now: Instant,
                           start: Instant, ps: seq<byte>, visits: seq<Visit>, k: nat)
    requires caches == Punish(base, u, now) && u in base && base[u].strategy.TimeoutFor?
    requires InBucket(settings, base, ps, u, k) && OnlyServes(w, u)
    requires LegalRequest(w, settings, caches, start, ps, visits)
    ensures FetchesOrMisses(w, settings, visits, u, now + base[u].strategy.timeout, start, ps, k)
  {
    RetryAnswers(w, settings, caches, u, now + base[u].strategy.timeout, start, ps, visits, k);
  }

  // Its report, when it misses u, is taken in at step j.
  lemma ReportTaken(node: Node, cfg: Config, states: seq<State>, labels: seq<Label>, n: nat, j: nat,
                    w: World, settings: Settings, visits: seq<Visit>, u: Url)
    requires RequestAt(node, cfg, states, labels, n, w, settings, visits) && OnlyServes(w, u)
    requires ResponseOf(w, settings, visits) == NotFound
    requires n <= j < |labels| && labels[j] == ReportMade(u)
    requires MadeOf(w, settings, visits) == [Made(u, states[j].clock)]
    ensures Served(node, cfg, states, labels, n, w, settings, visits, [j])
  {
    assert TakenAt(states, labels, w, Made(u, states[j].clock), j);
  }

  // A request that loads its table at state n, when the only other answers are
  // that the others do not have what is asked.
  ghost predicate InRound(node: Node, cfg: Config, states: seq<State>, labels: seq<Label>, n: nat,
                          w: World, settings: Settings, visits: seq<Visit>, u: Url) {
    && RequestAt(node, cfg, states, labels, n, w, settings, visits) && OnlyServes(w, u)
    && OthersAnswer(w, settings, states[n].mgr.caches, u, states[n].clock)
  }

  // The cache of the rounds: configured, with its bucket, and never removed.
  ghost predicate RoundsOf(cfg: Config, settings: Settings, u: Url, k: nat, x: Duration) {
    && settings.reporting && Ownership.Permanent(cfg, u)
    && InBucket(settings, ConfiguredCaches(cfg.binaryCaches), ConfiguredOrder(cfg), u, k)
    && x == StartOf(settings, 0, ConfiguredOrder(cfg), k + 1)
  }

  lemma RoundDecides(node: Node, cfg: Config, states: seq<State>, labels: seq<Label>, settings: Settings, u: Url,
                     k: nat,
                     pause: Duration, x: Duration, r: nat, n: nat, w: World, visits: seq<Visit>)
    requires RoundsOf(cfg, settings, u, k, x) && n == 4 * r + 3
    requires RoundAt(ConfiguredCaches(cfg.binaryCaches), states, labels, u, pause, x, r)
    requires InRound(node, cfg, states, labels, n, w, settings, visits, u)
    ensures FetchesOrMisses(w, settings, visits, u,
                            states[4 * r].clock + ConfiguredCaches(cfg.binaryCaches)[u].strategy.timeout,
                            states[n].clock, ConfiguredOrder(cfg), k)
  {
    var base, s, now := ConfiguredCaches(cfg.binaryCaches), states[n], states[4 * r].clock;
    SameOrder(base, u, now);
    AnswersAfterReport(w, settings, base, s.mgr.caches, u, now, s.clock, ConfiguredOrder(cfg), visits, k);
  }

  lemma RoundServes(node: Node, cfg: Config, states: seq<State>, labels: seq<Label>, settings: Settings, u: Url, k: nat,
                    pause: Duration, x: Duration, r: nat, n: nat, w: World, visits: seq<Visit>)
    requires RoundsOf(cfg, settings, u, k, x) && n == 4 * r + 3
    requires RoundAt(ConfiguredCaches(cfg.binaryCaches), states, labels, u, pause, x, r)
    requires InRound(node, cfg, states, labels, n, w, settings, visits, u)
    requires ResponseOf(w, settings, visits) == NotFound
    ensures Served(node, cfg, states, labels, n, w, settings, visits, [n + 1])
  {
    var base, s, now := ConfiguredCaches(cfg.binaryCaches), states[n], states[4 * r].clock;
    RoundDecides(node, cfg, states, labels, settings, u, k, pause, x, r, n, w, visits);
    SameOrder(base, u, now);
    ReportAfterReport(w, settings, base, s.mgr.caches, u, now, s.clock, ConfiguredOrder(cfg), visits, k,
                      states[n + 1].clock);
    ReportTaken(node, cfg, states, labels, n, n + 1, w, settings, visits, u);
  }

  lemma ReportAfterReport(w: World, settings: Settings, base: map<Url, Meta>, caches: map<Url, Meta>, u: Url,
                          now: Instant,
                          start: Instant, ps: seq<byte>, visits: seq<Visit>, k: nat, reported: Instant)
    requires caches == Punish(base, u, now) && u in base && base[u].strategy.TimeoutFor? && settings.reporting
    requires InBucket(settings, base, ps, u, k) && OnlyServes(w, u) && OthersAnswer(w, settings, caches, u, start)
    requires LegalRequest(w, settings, caches, start, ps, visits) && ResponseOf(w, settings, visits) == NotFound
    requires FetchesOrMisses(w, settings, visits, u, now + base[u].strategy.timeout, start, ps, k)
    requires reported == start + StartOf(settings, 0, ps, k + 1)
    ensures MadeOf(w, settings, visits) == [Made(u, reported)]
  {
    MissReports(w, settings, caches, u, start, ps, visits, k, now + base[u].strategy.timeout,
                start + StartOf(settings, 0, ps, k), reported, start + StartOf(settings, 0, ps, |ps|));
  }

  // Every request that loads its table at state n fetches from u or misses u.
  ghost predicate AnswersAt(node: Node, cfg: Config, states: seq<State>, labels: seq<Label>, settings: Settings, u: Url,
                            k: nat,
                            ps: seq<byte>, until: Instant, n: nat)
    requires k < |ps| && n < |states|
  {
    forall w, visits | InRound(node, cfg, states, labels, n, w, settings, visits, u) ::
      FetchesOrMisses(w, settings, visits, u, until, states[n].clock, ps, k)
  }

  // If one that loads its table at state n misses u, it makes one report, which
  // is step j of the run.
  ghost predicate ReportsAt(node: Node, cfg: Config, states: seq<State>, labels: seq<Label>, settings: Settings, u: Url,
                            n: nat, j: nat) {
    forall w, visits |
      InRound(node, cfg, states, labels, n, w, settings, visits, u) && ResponseOf(w, settings, visits) == NotFound ::
      Served(node, cfg, states, labels, n, w, settings, visits, [j])
  }

  // When the timeout of round r is over.
  ghost function UntilOf(cfg: Config, states: seq<State>, u: Url, r: nat): Instant
    requires Ownership.Permanent(cfg, u) && 4 * r < |states|
  {
    states[4 * r].clock + ConfiguredCaches(cfg.binaryCaches)[u].strategy.timeout
  }

  lemma AnswersOfRound(node: Node, cfg: Config, states: seq<State>, labels: seq<Label>, settings: Settings, u: Url,
                       k: nat,
                       pause: Duration, x: Duration, r: nat, n: nat)
    requires RoundsOf(cfg, settings, u, k, x) && n == 4 * r + 3
    requires RoundAt(ConfiguredCaches(cfg.binaryCaches), states, labels, u, pause, x, r)
    ensures AnswersAt(node, cfg, states, labels, settings, u, k, ConfiguredOrder(cfg), UntilOf(cfg, states, u, r), n)
  {
    forall w, visits | InRound(node, cfg, states, labels, n, w, settings, visits, u)
      ensures FetchesOrMisses(w, settings, visits, u, UntilOf(cfg, states, u, r), states[n].clock, ConfiguredOrder(cfg),
                              k)
    {
      RoundDecides(node, cfg, states, labels, settings, u, k, pause, x, r, n, w, visits);
    }
  }

  lemma ReportsOfRound(node: Node, cfg: Config, states: seq<State>, labels: seq<Label>, settings: Settings, u: Url,
                       k: nat,
                       pause: Duration, x: Duration, r: nat, n: nat)
    requires RoundsOf(cfg, settings, u, k, x) && n == 4 * r + 3
    requires RoundAt(ConfiguredCaches(cfg.binaryCaches), states, labels, u, pause, x, r)
    ensures ReportsAt(node, cfg, states, labels, settings, u, n, n + 1)
  {
    forall w, visits |
      InRound(node, cfg, states, labels, n, w, settings, visits, u) && ResponseOf(w, settings, visits) == NotFound
      ensures Served(node, cfg, states, labels, n, w, settings, visits, [n + 1])
    {
      RoundServes(node, cfg, states, labels, settings, u, k, pause, x, r, n, w, visits);
    }
  }

  // For any pauses there is a run in which requests follow each other, each a
  // pause after the report of the one before was handled.
  lemma RetriesInTurn(node: Node, cfg: Config, settings: Settings, u: Url, k: nat, x: Duration, pauses: seq<Duration>)
    returns (states: seq<State>, labels: seq<Label>)
    requires RoundsOf(cfg, settings, u, k, x)
    ensures IsRun(node, cfg, states, labels) && |labels| == 4 * |pauses| + 1
    ensures forall r: nat | r < |pauses| ::
              RoundAt(ConfiguredCaches(cfg.binaryCaches), states, labels, u, pauses[r], x, r)
    ensures forall r: nat | r < |pauses| ::
              AnswersAt(node, cfg, states, labels, settings, u, k, ConfiguredOrder(cfg), UntilOf(cfg, states, u, r),
                        4 * r + 3)
    ensures forall r: nat | r < |pauses| :: ReportsAt(node, cfg, states, labels, settings, u, 4 * r + 3, 4 * r + 4)
  {
    states, labels := Rounds(node, cfg, u, pauses, x);
    forall r: nat | r < |pauses|
      ensures AnswersAt(node, cfg, states, labels, settings, u, k, ConfiguredOrder(cfg), UntilOf(cfg, states, u, r),
                        4 * r + 3)
    {
      AnswersOfRound(node, cfg, states, labels, settings, u, k, pauses[r], x, r, 4 * r + 3);
    }
    forall r: nat | r < |pauses|
      ensures ReportsAt(node, cfg, states, labels, settings, u, 4 * r + 3, 4 * r + 4)
    {
      ReportsOfRound(node, cfg, states, labels, settings, u, k, pauses[r], x, r, 4 * r + 3);
    }
  }

  // For requests each of which starts when the one before is over: while the
  // other buckets together take less time than the timeout of u, every request
  // that loads its table at state n misses u, at the instant of state n + 1, and
  // is over `rest` later; otherwise every such request fetches from u.
  ghost predicate TurnAt(node: Node, cfg: Config, states: seq<State>, labels: seq<Label>, settings: Settings, u: Url,
                         k: nat,
                         ps: seq<byte>, timeout: Duration, rest: Duration, n: nat)
    requires k < |ps| && n + 1 < |states|
  {
    forall w, visits | InRound(node, cfg, states, labels, n, w, settings, visits, u) ::
      TurnAnswer(w, settings, visits, u, k, ps, timeout, rest, states[n + 1].clock)
  }

  ghost predicate TurnAnswer(w: World, settings: Settings, visits: seq<Visit>, u: Url, k: nat, ps: seq<byte>,
                             timeout: Duration,
                             rest: Duration, reported: Instant)
    requires k < |ps|
  {
    if OthersTime(settings, ps, k) < timeout then Misses(w, settings, visits, u, k, reported, reported + rest)
    else ResponseOf(w, settings, visits) == Fetched(u)
  }

  lemma AnswersInTurn(w: World, settings: Settings, visits: seq<Visit>, u: Url, k: nat, ps: seq<byte>,
                      timeout: Duration,
                      until: Instant, start: Instant, rest: Duration, reported: Instant)
    requires k < |ps| && FetchesOrMisses(w, settings, visits, u, until, start, ps, k)
    requires start + timeout == until + rest && reported == start + StartOf(settings, 0, ps, k + 1)
    requires StartOf(settings, 0, ps, k + 1) + rest == StartOf(settings, 0, ps, |ps|)
    ensures TurnAnswer(w, settings, visits, u, k, ps, timeout, rest, reported)
  {
    assert OthersTime(settings, ps, k) == rest + StartOf(settings, 0, ps, k);
  }

  lemma TurnOfRound(node: Node, cfg: Config, states: seq<State>, labels: seq<Label>, settings: Settings, u: Url, k: nat,
                    ps: seq<byte>, until: Instant, timeout: Duration, rest: Duration, n: nat)
    requires k < |ps| && n + 1 < |states|
    requires AnswersAt(node, cfg, states, labels, settings, u, k, ps, until, n)
    requires StartOf(settings, 0, ps, k + 1) + rest == StartOf(settings, 0, ps, |ps|)
    requires states[n].clock + timeout == until + rest
    requires states[n + 1].clock == states[n].clock + StartOf(settings, 0, ps, k + 1)
    ensures TurnAt(node, cfg, states, labels, settings, u, k, ps, timeout, rest, n)
  {
    forall w, visits | InRound(node, cfg, states, labels, n, w, settings, visits, u)
      ensures TurnAnswer(w, settings, visits, u, k, ps, timeout, rest, states[n + 1].clock)
    {
      AnswersInTurn(w, settings, visits, u, k, ps, timeout, until, states[n].clock, rest, states[n + 1].clock);
    }
  }

  // Without pauses of their own, requests starve a cache that would answer at
  // once, any number of them in a row, if and only if the timeouts of the other
  // buckets together are shorter than its own.
  lemma CacheStarvesIff(node: Node, cfg: Config, settings: Settings, u: Url, k: nat, x: Duration, rest: Duration,
                        n: nat)
    returns (states: seq<State>, labels: seq<Label>)
    requires RoundsOf(cfg, settings, u, k, x)
    requires x + rest == StartOf(settings, 0, ConfiguredOrder(cfg), |ConfiguredOrder(cfg)|)
    ensures IsRun(node, cfg, states, labels) && |labels| == 4 * n + 1
    ensures forall r: nat | r < n :: RoundAt(ConfiguredCaches(cfg.binaryCaches), states, labels, u, rest, x, r)
    ensures var timeout := ConfiguredCaches(cfg.binaryCaches)[u].strategy.timeout;
            forall r: nat | r < n ::
              TurnAt(node, cfg, states, labels, settings, u, k, ConfiguredOrder(cfg), timeout, rest, 4 * r + 3)
    ensures forall r: nat | r < n :: ReportsAt(node, cfg, states, labels, settings, u, 4 * r + 3, 4 * r + 4)
  {
    var pauses := seq(n, _ => rest);
    var timeout := ConfiguredCaches(cfg.binaryCaches)[u].strategy.timeout;
    states, labels := RetriesInTurn(node, cfg, settings, u, k, x, pauses);
    forall r: nat | r < n
      ensures RoundAt(ConfiguredCaches(cfg.binaryCaches), states, labels, u, rest, x, r)
    {
      assert pauses[r] == rest;
    }
    forall r: nat | r < n
      ensures TurnAt(node, cfg, states, labels, settings, u, k, ConfiguredOrder(cfg), timeout, rest, 4 * r + 3)
    {
      assert RoundAt(ConfiguredCaches(cfg.binaryCaches), states, labels, u, rest, x, r);
      TurnOfRound(node, cfg, states, labels, settings, u, k, ConfiguredOrder(cfg), UntilOf(cfg, states, u, r), timeout,
                  rest, 4 * r + 3);
    }
  }
}
