// Requests that only one cache would serve, while that cache is timed out: what
// they answer, when they report it, and when they are over.

module Retries {
  import opened Types
  import opened CacheMap
  import opened Timeouts
  import opened ProxyRuns
  import opened RequestRuns

  // ------------------------------------------------ the only cache that serves

  // Only u has what is asked for and would answer at once; reports are accepted
  // at once.
  ghost predicate OnlyServes(w: World, u: Url) {
    && u in w.replies && w.replies[u] == Reply(0, Found)
    && (forall c | c in w.replies && c != u :: w.replies[c].outcome.BadStatus?)
    && forall c :: w.lag(c) == Some(0)
  }

  ghost predicate TimedOut(caches: map<Url, Meta>, u: Url, until: Instant) {
    u in caches && caches[u].timedOutUntil == Some(until)
  }

  // Bucket k is that of u, and it is given some time.
  ghost predicate InBucket(settings: Settings, caches: map<Url, Meta>, ps: seq<byte>, u: Url, k: nat) {
    && (forall i, j | 0 <= i < j < |ps| :: ps[i] < ps[j])
    && u in caches && k < |ps| && ps[k] == caches[u].priority && TimeoutOf(settings, ps[k]) > 0
  }

  // It fetches from u exactly when the timeouts of the buckets before u's make
  // it wait until the timeout of u is over; otherwise it finds nothing.
  lemma RetryFindsIff(w: World, settings: Settings, caches: map<Url, Meta>, u: Url, until: Instant, start: Instant,
                      ps: seq<byte>, visits: seq<Visit>, k: nat)
    requires OnlyServes(w, u) && TimedOut(caches, u, until) && InBucket(settings, caches, ps, u, k)
    requires LegalRequest(w, settings, caches, start, ps, visits)
    ensures ResponseOf(w, settings, visits) == if StartOf(settings, start, ps, k) >= until then Fetched(u) else NotFound
  {
    SwiftAnswer(w, settings, caches, start, ps, visits);
    ServesIff(w, settings, caches, u, until, StartOf(settings, start, ps, k));
    match ResponseOf(w, settings, visits)
    case Fetched(c) =>
      var j: nat :| FirstToHit(w, settings, caches, start, ps, j, c);
      assert WinsBucket(w, settings, caches, ps[j], StartOf(settings, start, ps, j), c);
      assert j == k;
    case NotFound =>
      assert !HasHit(w, settings, caches, ps[k], StartOf(settings, start, ps, k));
  }

  lemma ServesIff(w: World, settings: Settings, caches: map<Url, Meta>, u: Url, until: Instant, at: Instant)
    requires OnlyServes(w, u) && TimedOut(caches, u, until) && TimeoutOf(settings, caches[u].priority) > 0
    ensures u in AskedAt(caches, caches[u].priority, at) <==> at >= until
    ensures HasHit(w, settings, caches, caches[u].priority, at) <== at >= until
  {
    if at >= until {
      assert HitWithin(w, caches, caches[u].priority, at, TimeoutOf(settings, caches[u].priority) - 1, u);
    }
  }

  // The request finds nothing, reports u when the time of its bucket k is up,
  // and is over when the time of its last bucket is.
  ghost predicate Misses(w: World, settings: Settings, visits: seq<Visit>, u: Url, k: nat, reported: Instant,
                         over: Instant) {
    && ResponseOf(w, settings, visits) == NotFound
    && k < |visits| && visits[k].end == Expired(reported) && u in visits[k].late
    && Next(w, settings, visits[k]) == Some(reported)
    && Next(w, settings, visits[|visits| - 1]) == Some(over)
  }

  lemma RetryMisses(w: World, settings: Settings, caches: map<Url, Meta>, u: Url, until: Instant, start: Instant,
                    ps: seq<byte>, visits: seq<Visit>, k: nat, reported: Instant, over: Instant)
    requires OnlyServes(w, u) && TimedOut(caches, u, until) && InBucket(settings, caches, ps, u, k)
    requires LegalRequest(w, settings, caches, start, ps, visits)
    requires StartOf(settings, start, ps, k) < until
    requires reported == StartOf(settings, start, ps, k + 1) && over == StartOf(settings, start, ps, |ps|)
    ensures Misses(w, settings, visits, u, k, reported, over)
    ensures |visits| == |ps|
  {
    RetryFindsIff(w, settings, caches, u, until, start, ps, visits, k);
    EndsInTime(w, settings, caches, start, ps, visits, k);
    ServesIff(w, settings, caches, u, until, visits[k].start);
    LateInVisit(w, settings, caches, ps[k], visits[k], u);
  }

  // It fetches from u when it comes to u's bucket no sooner than that, and misses
  // u otherwise.
  ghost predicate Decides(w: World, settings: Settings, visits: seq<Visit>, u: Url, k: nat, until: Instant,
                          reached: Instant, reported: Instant, over: Instant) {
    if reached >= until then ResponseOf(w, settings, visits) == Fetched(u)
    else Misses(w, settings, visits, u, k, reported, over)
  }

  lemma RetryDecides(w: World, settings: Settings, caches: map<Url, Meta>, u: Url, until: Instant, start: Instant,
                     ps: seq<byte>, visits: seq<Visit>, k: nat, reached: Instant, reported: Instant, over: Instant)
    requires OnlyServes(w, u) && TimedOut(caches, u, until) && InBucket(settings, caches, ps, u, k)
    requires LegalRequest(w, settings, caches, start, ps, visits)
    requires reached == StartOf(settings, start, ps, k)
    requires reported == StartOf(settings, start, ps, k + 1) && over == StartOf(settings, start, ps, |ps|)
    ensures Decides(w, settings, visits, u, k, until, reached, reported, over)
  {
    if reached >= until {
      RetryFindsIff(w, settings, caches, u, until, start, ps, visits, k);
    } else {
      RetryMisses(w, settings, caches, u, until, start, ps, visits, k, reported, over);
    }
  }

  // The same, counted from the start of the request.
  ghost predicate FetchesOrMisses(w: World, settings: Settings, visits: seq<Visit>, u: Url, until: Instant,
                                  start: Instant,
                                  ps: seq<byte>, k: nat)
    requires k < |ps|
  {
    Decides(w, settings, visits, u, k, until, start + StartOf(settings, 0, ps, k),
            start + StartOf(settings, 0, ps, k + 1), start + StartOf(settings, 0, ps, |ps|))
  }

  lemma RetryAnswers(w: World, settings: Settings, caches: map<Url, Meta>, u: Url, until: Instant, start: Instant,
                     ps: seq<byte>, visits: seq<Visit>, k: nat)
    requires OnlyServes(w, u) && TimedOut(caches, u, until) && InBucket(settings, caches, ps, u, k)
    requires LegalRequest(w, settings, caches, start, ps, visits)
    ensures FetchesOrMisses(w, settings, visits, u, until, start, ps, k)
  {
    StartMoves(settings, start, ps, k);
    StartMoves(settings, start, ps, k + 1);
    StartMoves(settings, start, ps, |ps|);
    RetryDecides(w, settings, caches, u, until, start, ps, visits, k, start + StartOf(settings, 0, ps, k),
                 start + StartOf(settings, 0, ps, k + 1), start + StartOf(settings, 0, ps, |ps|));
  }

  lemma {:induction false} StartMoves(settings: Settings, start: Instant, ps: seq<byte>, k: nat)
    requires k <= |ps|
    ensures StartOf(settings, start, ps, k) == start + StartOf(settings, 0, ps, k)
  {
    if k > 0 {
      StartMoves(settings, start, ps, k - 1);
    }
  }

  lemma LateInVisit(w: World, settings: Settings, caches: map<Url, Meta>, p: byte, v: Visit, u: Url)
    requires LegalVisit(w, settings, caches, p, v) && Swift(w, settings, caches.Keys)
    requires v.end.Expired? && u in Bucket(caches, p) && u !in AskedAt(caches, p, v.start)
    ensures u in v.late
  {
    LegalFacts(w, settings, RaceOf(settings, p, v.start), v.start, AskedAt(caches, p, v.start), v.turns, v.end);
    SwiftVisit(w, settings, caches, p, v);
  }

  // With reports accepted at once, the buckets of a request that finds nothing
  // take exactly their timeouts.
  lemma EndsInTime(w: World, settings: Settings, caches: map<Url, Meta>, start: Instant, ps: seq<byte>,
                   visits: seq<Visit>, k: nat)
    requires LegalRequest(w, settings, caches, start, ps, visits) && Swift(w, settings, caches.Keys)
    requires ResponseOf(w, settings, visits) == NotFound && k < |ps|
    ensures |visits| == |ps|
    ensures visits[k].start == StartOf(settings, start, ps, k)
    ensures visits[k].end == Expired(StartOf(settings, start, ps, k + 1))
    ensures Next(w, settings, visits[k]) == Some(StartOf(settings, start, ps, k + 1))
    ensures Next(w, settings, visits[|visits| - 1]) == Some(StartOf(settings, start, ps, |ps|))
  {
    var last := |visits| - 1;
    SwiftStarts(w, settings, caches, start, ps, visits, last);
    SwiftStarts(w, settings, caches, start, ps, visits, k);
    assert k < last ==> Next(w, settings, visits[k]) == Some(visits[k + 1].start);
    SwiftVisit(w, settings, caches, ps[k], visits[k]);
  }

  // ------------------------------------------------------- the only report made

  // The other caches are asked, and say in time that they do not have it.
  ghost predicate OthersAnswer(w: World, settings: Settings, caches: map<Url, Meta>, u: Url, start: Instant) {
    forall c | c in caches && c != u ::
      !Skipped(caches[c], start) && c in w.replies && w.replies[c].latency < TimeoutOf(settings, caches[c].priority)
  }

  lemma VisitReportsOnly(w: World, settings: Settings, caches: map<Url, Meta>, p: byte, v: Visit, u: Url,
                         start: Instant)
    requires OnlyServes(w, u) && OthersAnswer(w, settings, caches, u, start) && settings.reporting
    requires LegalVisit(w, settings, caches, p, v) && v.end.Expired? && start <= v.start
    ensures VisitMade(w, settings, v) == if u in v.late then [Made(u, v.end.at)] else []
  {
    var race, asked := RaceOf(settings, p, v.start), AskedAt(caches, p, v.start);
    forall c | c in Bucket(caches, p) && c != u
      ensures c in CachesOf(v.turns)
    {
      SwiftHears(w, settings, race, v.start, asked, asked, v.turns, v.end, c);
    }
    NothingFailed(w, v.turns, u);
    if v.late != [] {
      if |v.late| > 1 {
        TwoInIt(v.late);
      }
      assert v.late[0] in v.late;
      assert v.late == [u];
      assert v.late[..0] == [];
      assert LateReports(w, settings, v.end.at, v.late) == [Made(u, v.end.at)];
    }
  }

  lemma TwoInIt(late: seq<Url>)
    requires Distinct(late) && |late| > 1
    ensures exists c, d :: c in late && d in late && c != d
  {
    assert late[0] in late && late[1] in late;
  }

  lemma {:induction false} NothingFailed(w: World, turns: seq<Turn>, u: Url)
    requires OnlyServes(w, u)
    ensures FailureReports(w, turns) == []
  {
    if turns != [] {
      NothingFailed(w, turns[..|turns| - 1], u);
    }
  }

  // Then a request that misses u makes no other report.
  lemma ReportsOnlyIn(w: World, settings: Settings, caches: map<Url, Meta>, u: Url, start: Instant,
                      ps: seq<byte>, visits: seq<Visit>, k: nat, j: nat)
    requires OnlyServes(w, u) && OthersAnswer(w, settings, caches, u, start) && settings.reporting
    requires InBucket(settings, caches, ps, u, k)
    requires LegalSoFar(w, settings, caches, start, ps, visits)
    requires k < |visits| && j < |visits| && u in visits[k].late && visits[j].end.Expired?
    ensures VisitMade(w, settings, visits[j]) == if j == k then [Made(u, visits[k].end.at)] else []
  {
    NeverBeforeStart(w, settings, caches, start, ps, visits, j);
    VisitReportsOnly(w, settings, caches, ps[j], visits[j], u, start);
    assert j < k ==> ps[j] < ps[k];
    assert k < j ==> ps[k] < ps[j];
  }

  // Only visit k makes a report, and only this one.
  ghost predicate ReportsOnceIn(w: World, settings: Settings, visits: seq<Visit>, made: Made, k: nat) {
    forall j {:trigger visits[j]} | 0 <= j < |visits| ::
      VisitMade(w, settings, visits[j]) == if j == k then [made] else []
  }

  lemma {:induction false} MakesOneReport(w: World, settings: Settings, visits: seq<Visit>, made: Made, k: nat, n: nat)
    requires n <= |visits| && ReportsOnceIn(w, settings, visits, made, k)
    ensures MadeOf(w, settings, visits[..n]) == if n <= k then [] else [made]
  {
    if n > 0 {
      MakesOneReport(w, settings, visits, made, k, n - 1);
      assert visits[..n][..n - 1] == visits[..n - 1];
    }
  }

  lemma MissReports(w: World, settings: Settings, caches: map<Url, Meta>, u: Url, start: Instant,
                    ps: seq<byte>, visits: seq<Visit>, k: nat, until: Instant, reached: Instant, reported: Instant,
                        over: Instant)
    requires OnlyServes(w, u) && OthersAnswer(w, settings, caches, u, start) && settings.reporting
    requires InBucket(settings, caches, ps, u, k)
    requires LegalRequest(w, settings, caches, start, ps, visits)
    requires Decides(w, settings, visits, u, k, until, reached, reported, over)
    requires ResponseOf(w, settings, visits) == NotFound
    ensures MadeOf(w, settings, visits) == [Made(u, reported)]
  {
    OneVisitReports(w, settings, caches, u, start, ps, visits, k);
    OneReport(w, settings, visits, Made(u, reported), k);
  }

  lemma OneReport(w: World, settings: Settings, visits: seq<Visit>, made: Made, k: nat)
    requires k < |visits| && ReportsOnceIn(w, settings, visits, made, k)
    ensures MadeOf(w, settings, visits) == [made]
  {
    MakesOneReport(w, settings, visits, made, k, |visits|);
    assert visits[..|visits|] == visits;
  }

  lemma OneVisitReports(w: World, settings: Settings, caches: map<Url, Meta>, u: Url, start: Instant,
                        ps: seq<byte>, visits: seq<Visit>, k: nat)
    requires OnlyServes(w, u) && OthersAnswer(w, settings, caches, u, start) && settings.reporting
    requires InBucket(settings, caches, ps, u, k)
    requires LegalRequest(w, settings, caches, start, ps, visits) && ResponseOf(w, settings, visits) == NotFound
    requires k < |visits| && u in visits[k].late && visits[k].end.Expired?
    ensures ReportsOnceIn(w, settings, visits, Made(u, visits[k].end.at), k)
  {
    forall j | 0 <= j < |visits|
      ensures VisitMade(w, settings, visits[j]) == if j == k then [Made(u, visits[k].end.at)] else []
    {
      RetryVisitReports(w, settings, caches, u, start, ps, visits, k, j);
    }
  }

  lemma RetryVisitReports(w: World, settings: Settings, caches: map<Url, Meta>, u: Url, start: Instant,
                          ps: seq<byte>, visits: seq<Visit>, k: nat, j: nat)
    requires OnlyServes(w, u) && OthersAnswer(w, settings, caches, u, start) && settings.reporting
    requires InBucket(settings, caches, ps, u, k)
    requires LegalRequest(w, settings, caches, start, ps, visits) && ResponseOf(w, settings, visits) == NotFound
    requires k < |visits| && j < |visits| && u in visits[k].late
    ensures VisitMade(w, settings, visits[j]) == if j == k then [Made(u, visits[k].end.at)] else []
  {
    EndsInTime(w, settings, caches, start, ps, visits, j);
    ReportsOnlyIn(w, settings, caches, u, start, ps, visits, k, j);
  }
}
