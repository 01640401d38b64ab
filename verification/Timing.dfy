// The instants of a request, told from latencies, settings and report times.

module Timing {
  import opened Types
  import opened CacheMap
  import opened Timeouts
  import opened ProxyRuns
  import opened RequestRuns

  // The timeout configured for the bucket, or the default one.
  ghost predicate Configured(cfg: Settings, p: byte, timeout: Duration) {
    if p in cfg.timeouts then timeout == cfg.timeouts[p] else timeout == cfg.defaultTimeout
  }

  // With the loop at its select at `free`, the reply is taken when it comes, or
  // at once.
  ghost predicate TakenFrom(w: World, start: Instant, free: Instant, turn: Turn) {
    && turn.cache in w.replies
    && var due := start + w.replies[turn.cache].latency;
    turn.at == if free < due then due else free
  }

  // After the turn the loop is back at its select at `free`: when the report
  // about a failure has been accepted, and at once after a bad status.
  ghost predicate BackAfter(w: World, cfg: Settings, turn: Turn, free: Instant) {
    && turn.cache in w.replies
    && match w.replies[turn.cache].outcome
       case Failed => if cfg.reporting then w.lag(turn.cache).Some? && free == turn.at + w.lag(turn.cache).value
           else free == turn.at
       case BadStatus => free == turn.at
       case Found => false
  }

  ghost predicate Follows(w: World, cfg: Settings, start: Instant, before: Turn, turn: Turn) {
    exists free: Instant :: BackAfter(w, cfg, before, free) && TakenFrom(w, start, free, turn)
  }

  // The loop runs out of time at the deadline, or when it is back after it.
  ghost predicate EndsFrom(free: Instant, deadline: Instant, at: Instant) {
    at == if free < deadline then deadline else free
  }

  ghost predicate TimesFrom(w: World, cfg: Settings, race: Race, t: Instant, turns: seq<Turn>, end: End) {
    && (turns != [] ==> TakenFrom(w, race.start, t, turns[0]))
    && (forall i | 0 <= i < |turns| - 1 :: Follows(w, cfg, race.start, turns[i], turns[i + 1]))
    && match end
       case Expired(at) =>
         if turns == [] then EndsFrom(t, race.deadline, at)
         else exists free: Instant :: BackAfter(w, cfg, turns[|turns| - 1], free) && EndsFrom(free, race.deadline, at)
       case Answered(c, at) => turns != [] && turns[|turns| - 1] == Turn(c, at)
       case Hung(c, at) => turns != [] && turns[|turns| - 1] == Turn(c, at)
  }

  lemma {:induction false} TurnTimes(w: World, cfg: Settings, race: Race, t: Instant, outstanding: set<Url>,
                                     turns: seq<Turn>, end: End)
    requires Legal(w, cfg, race, t, outstanding, turns, end)
    ensures TimesFrom(w, cfg, race, t, turns, end)
    decreases |turns|
  {
    if turns != [] {
      var turn, rest := turns[0], turns[1..];
      var hold := Hold(w, cfg, turn.cache);
      if !IsHit(w, turn.cache) && hold.Some? {
        TurnTimes(w, cfg, race, turn.at + hold.value, outstanding - {turn.cache}, rest, end);
        assert BackAfter(w, cfg, turn, turn.at + hold.value);
        TurnFirst(w, cfg, race, turn, rest, end, turn.at + hold.value);
        assert turns == [turn] + rest;
      }
    }
  }

  lemma TurnFirst(w: World, cfg: Settings, race: Race, turn: Turn, rest: seq<Turn>, end: End, free: Instant)
    requires BackAfter(w, cfg, turn, free) && TimesFrom(w, cfg, race, free, rest, end)
    ensures forall i | 0 <= i < |rest| :: Follows(w, cfg, race.start, ([turn] + rest)[i], ([turn] + rest)[i + 1])
    ensures match end
            case Expired(at) =>
              exists f: Instant :: BackAfter(w, cfg, ([turn] + rest)[|rest|], f) && EndsFrom(f, race.deadline, at)
            case Answered(c, at) => ([turn] + rest)[|rest|] == Turn(c, at)
            case Hung(c, at) => ([turn] + rest)[|rest|] == Turn(c, at)
  {
  }

  // On every schedule the instants of a visit are these: what is taken and when
  // the bucket is over depend on its own configured timeout, on latencies, and
  // on how long the reports about failures take.
  lemma VisitTimes(w: World, cfg: Settings, caches: map<Url, Meta>, p: byte, v: Visit, timeout: Duration)
    requires LegalVisit(w, cfg, caches, p, v) && Configured(cfg, p, timeout)
    ensures TimesFrom(w, cfg, Race(v.start, v.start + timeout), v.start, v.turns, v.end)
  {
    TurnTimes(w, cfg, RaceOf(cfg, p, v.start), v.start, AskedAt(caches, p, v.start), v.turns, v.end);
  }

  // The manager, if there is one, accepts every report about these caches at once.
  ghost predicate AcceptsAtOnce(w: World, cfg: Settings, caches: map<Url, Meta>) {
    cfg.reporting ==> forall c | c in caches :: w.lag(c) == Some(0)
  }

  // Then a bucket is over at its configured timeout exactly, or at its answer,
  // which comes no later.
  lemma BucketIsOver(w: World, cfg: Settings, caches: map<Url, Meta>, p: byte, v: Visit, timeout: Duration)
    requires LegalVisit(w, cfg, caches, p, v) && Configured(cfg, p, timeout) && AcceptsAtOnce(w, cfg, caches)
    ensures match v.end
            case Expired(at) => at == v.start + timeout
            case Answered(c, at) => c in w.replies && at == v.start + w.replies[c].latency && at <= v.start + timeout
            case Hung(_, _) => false
  {
    var race, asked := RaceOf(cfg, p, v.start), AskedAt(caches, p, v.start);
    SwiftBucket(w, cfg, race, v.start, asked, asked, v.turns, v.end);
  }

  // No other cache of the bucket has what is asked.
  ghost predicate LoneHit(w: World, caches: map<Url, Meta>, p: byte, now: Instant, hit: Url) {
    && hit in caches && caches[hit].priority == p
    && (caches[hit].timedOutUntil.Some? ==> caches[hit].timedOutUntil.value <= now)
    && hit in w.replies && w.replies[hit].outcome.Found?
    && forall c | c in caches && c != hit && caches[c].priority == p && c in w.replies :: !w.replies[c].outcome.Found?
  }

  // A lone hit is fetched when its latency is below the configured timeout, and
  // passed over when it is above.
  lemma LoneHitIff(w: World, cfg: Settings, caches: map<Url, Meta>, p: byte, v: Visit, timeout: Duration, hit: Url)
    requires LegalVisit(w, cfg, caches, p, v) && Configured(cfg, p, timeout) && AcceptsAtOnce(w, cfg, caches)
    requires LoneHit(w, caches, p, v.start, hit)
    ensures w.replies[hit].latency < timeout ==> v.end == Answered(hit, v.start + w.replies[hit].latency)
    ensures w.replies[hit].latency > timeout ==> v.end == Expired(v.start + timeout)
  {
    var race, asked := RaceOf(cfg, p, v.start), AskedAt(caches, p, v.start);
    assert hit in asked && IsHit(w, hit);
    BucketIsOver(w, cfg, caches, p, v, timeout);
    SwiftBucket(w, cfg, race, v.start, asked, asked, v.turns, v.end);
  }

  // ------------------------------------------------------- between two buckets

  // A report begun at `at` is accepted at `after`.
  ghost predicate Accepted(w: World, cfg: Settings, c: Url, at: Instant, after: Instant) {
    if cfg.reporting then w.lag(c).Some? && after == at + w.lag(c).value else after == at
  }

  // The late reports are accepted one after the other, at these instants.
  ghost predicate AcceptedAt(w: World, cfg: Settings, at: Instant, late: seq<Url>, times: seq<Instant>) {
    && |times| == |late| + 1 && times[0] == at
    && forall i | 0 <= i < |late| :: Accepted(w, cfg, late[i], times[i], times[i + 1])
  }

  lemma {:induction false} LateTimes(w: World, cfg: Settings, at: Instant, late: seq<Url>) returns (times: seq<Instant>)
    requires LateEnd(w, cfg, at, late).Some?
    ensures AcceptedAt(w, cfg, at, late, times)
    ensures times[|late|] == LateEnd(w, cfg, at, late).value
  {
    if late == [] {
      times := [at];
    } else {
      var n := |late| - 1;
      times := LateTimes(w, cfg, at, late[..n]);
      assert forall i | 0 <= i < n :: late[..n][i] == late[i];
      times := times + [LateEnd(w, cfg, at, late).value];
    }
  }

  function SumOfLags(w: World, late: seq<Url>): Duration {
    if late == [] then 0 else w.lag(late[0]).GetOr(0) + SumOfLags(w, late[1..])
  }

  lemma {:induction false} TimesSum(w: World, cfg: Settings, at: Instant, late: seq<Url>, times: seq<Instant>)
    requires AcceptedAt(w, cfg, at, late, times)
    ensures times[|late|] == at + if cfg.reporting then SumOfLags(w, late) else 0
    decreases |late|
  {
    if late != [] {
      var rest, after := late[1..], times[1..];
      forall i | 0 <= i < |rest|
        ensures Accepted(w, cfg, rest[i], after[i], after[i + 1])
      {
        assert Accepted(w, cfg, late[i + 1], times[i + 1], times[i + 1 + 1]);
      }
      TimesSum(w, cfg, times[1], rest, after);
    }
  }

  // On every schedule the next bucket starts when the late reports of the one
  // before have been accepted, one after the other; and at once without a
  // manager.
  lemma NextBucketStarts(w: World, cfg: Settings, caches: map<Url, Meta>, start: Instant, ps: seq<byte>,
                         visits: seq<Visit>, k: nat) returns (times: seq<Instant>)
    requires LegalSoFar(w, cfg, caches, start, ps, visits) && k + 1 < |visits|
    ensures visits[k].end.Expired? && AcceptedAt(w, cfg, visits[k].end.at, visits[k].late, times)
    ensures visits[k + 1].start == times[|visits[k].late|]
    ensures visits[k + 1].start == visits[k].end.at + if cfg.reporting then SumOfLags(w, visits[k].late) else 0
  {
    assert Next(w, cfg, visits[k]) == Some(visits[k + 1].start);
    times := LateTimes(w, cfg, visits[k].end.at, visits[k].late);
    TimesSum(w, cfg, visits[k].end.at, visits[k].late, times);
  }

  // ------------------------------------------------------ when reports are begun

  lemma {:induction false} FailureIsBegun(w: World, turns: seq<Turn>, i: nat)
    requires i < |turns| && turns[i].cache in w.replies && w.replies[turns[i].cache].outcome.Failed?
    ensures Made(turns[i].cache, turns[i].at) in FailureReports(w, turns)
  {
    if i < |turns| - 1 {
      FailureIsBegun(w, turns[..|turns| - 1], i);
    }
  }

  lemma AcceptedSoFar(w: World, cfg: Settings, at: Instant, late: seq<Url>, times: seq<Instant>, n: nat)
    requires AcceptedAt(w, cfg, at, late, times) && n <= |late|
    ensures AcceptedAt(w, cfg, at, late[..n], times[..n + 1])
  {
    forall i | 0 <= i < n
      ensures Accepted(w, cfg, late[..n][i], times[..n + 1][i], times[..n + 1][i + 1])
    {
      assert Accepted(w, cfg, late[i], times[i], times[i + 1]);
    }
  }

  lemma {:induction false} AcceptedIsLateEnd(w: World, cfg: Settings, at: Instant, late: seq<Url>, times: seq<Instant>)
    requires AcceptedAt(w, cfg, at, late, times)
    ensures LateEnd(w, cfg, at, late) == Some(times[|late|])
  {
    if late != [] {
      var n := |late| - 1;
      AcceptedSoFar(w, cfg, at, late, times, n);
      AcceptedIsLateEnd(w, cfg, at, late[..n], times[..n + 1]);
      assert times[n + 1] == times[|late|];
    }
  }

  lemma {:induction false} LateIsBegun(w: World, cfg: Settings, at: Instant, late: seq<Url>, times: seq<Instant>,
                                       i: nat)
    requires AcceptedAt(w, cfg, at, late, times) && i < |late|
    ensures Made(late[i], times[i]) in LateReports(w, cfg, at, late)
  {
    var n := |late| - 1;
    AcceptedSoFar(w, cfg, at, late, times, n);
    if i < n {
      LateIsBegun(w, cfg, at, late[..n], times[..n + 1], i);
    } else {
      AcceptedIsLateEnd(w, cfg, at, late[..n], times[..n + 1]);
    }
  }

  lemma {:induction false} VisitIsIn(w: World, cfg: Settings, visits: seq<Visit>, k: nat, made: Made)
    requires k < |visits| && made in VisitMade(w, cfg, visits[k])
    ensures made in MadeOf(w, cfg, visits)
    decreases |visits|
  {
    if k < |visits| - 1 {
      VisitIsIn(w, cfg, visits[..|visits| - 1], k, made);
    }
  }

  // A failure is reported when it is taken, and a late cache when the late ones
  // before it have been accepted.
  lemma ReportsBegin(w: World, cfg: Settings, visits: seq<Visit>, k: nat)
    requires cfg.reporting && k < |visits|
    ensures forall i | 0 <= i < |visits[k].turns| && visits[k].turns[i].cache in w.replies
                       && w.replies[visits[k].turns[i].cache].outcome.Failed? ::
              Made(visits[k].turns[i].cache, visits[k].turns[i].at) in MadeOf(w, cfg, visits)
    ensures visits[k].end.Expired? ==>
              forall times, i | AcceptedAt(w, cfg, visits[k].end.at, visits[k].late, times) &&
                       0 <= i < |visits[k].late| ::
                Made(visits[k].late[i], times[i]) in MadeOf(w, cfg, visits)
  {
    var v := visits[k];
    forall i | 0 <= i < |v.turns| && v.turns[i].cache in w.replies && w.replies[v.turns[i].cache].outcome.Failed?
      ensures Made(v.turns[i].cache, v.turns[i].at) in MadeOf(w, cfg, visits)
    {
      FailureIsBegun(w, v.turns, i);
      VisitIsIn(w, cfg, visits, k, Made(v.turns[i].cache, v.turns[i].at));
    }
    if v.end.Expired? {
      forall times, i | AcceptedAt(w, cfg, v.end.at, v.late, times) && 0 <= i < |v.late|
        ensures Made(v.late[i], times[i]) in MadeOf(w, cfg, visits)
      {
        LateIsBegun(w, cfg, v.end.at, v.late, times, i);
        VisitIsIn(w, cfg, visits, k, Made(v.late[i], times[i]));
      }
    }
  }

  // Without a manager nothing is reported.
  lemma {:induction false} NoManagerNoReports(w: World, cfg: Settings, visits: seq<Visit>)
    requires !cfg.reporting
    ensures ReportsOf(w, cfg, visits) == [] && MadeOf(w, cfg, visits) == []
  {
    if visits != [] {
      NoManagerNoReports(w, cfg, visits[..|visits| - 1]);
    }
  }
}
