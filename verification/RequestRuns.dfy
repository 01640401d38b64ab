// A whole request: the buckets of a table one after the other, the answer, the
// reports and the time, on any schedule.

module RequestRuns {
  import opened Types
  import opened CacheMap
  import opened Timeouts
  import opened ProxyRuns

  // One bucket that was tried: what happened in its select loop, and the caches
  // found late when its time was up, in the order they were gone through.
  datatype Visit = Visit(priority: byte, start: Instant, turns: seq<Turn>, end: End, late: seq<Url>)

  ghost predicate Distinct(cs: seq<Url>) {
    forall i, j | 0 <= i < j < |cs| :: cs[i] != cs[j]
  }

  function RaceOf(cfg: Settings, p: byte, start: Instant): Race {
    Race(start, start + TimeoutOf(cfg, p))
  }

  function AskedAt(caches: map<Url, Meta>, p: byte, start: Instant): set<Url> {
    Asked(caches, Bucket(caches, p), start)
  }

  // The late caches are gone through one by one, all of them unless a report is
  // never accepted.
  ghost predicate GoesThrough(w: World, cfg: Settings, late: seq<Url>, s: set<Url>) {
    && Distinct(late)
    && (forall c | c in late :: c in s)
    && (forall i | 0 <= i < |late| - 1 :: LagOf(w, cfg, late[i]).Some?)
    && ((late != [] && LagOf(w, cfg, late[|late| - 1]).None?) || forall c | c in s :: c in late)
  }

  // Late is the whole bucket but the caches that replied: the ones that were
  // skipped are among them.
  ghost predicate LegalVisit(w: World, cfg: Settings, caches: map<Url, Meta>, p: byte, v: Visit) {
    && v.priority == p
    && Outcomes(w, cfg, RaceOf(cfg, p, v.start), AskedAt(caches, p, v.start), v.turns, v.end)
    && if v.end.Expired? then GoesThrough(w, cfg, v.late, Bucket(caches, p) - CachesOf(v.turns)) else v.late == []
  }

  // When the reports about these caches have been accepted.
  function LateEnd(w: World, cfg: Settings, at: Instant, late: seq<Url>): Option<Instant> {
    if late == [] then Some(at)
    else
      match LateEnd(w, cfg, at, late[..|late| - 1])
      case None => None
      case Some(t) =>
        match LagOf(w, cfg, late[|late| - 1])
        case None => None
        case Some(lag) => Some(t + lag)
  }

  // When a visit without an answer is over, None when it never is.
  function Next(w: World, cfg: Settings, v: Visit): Option<Instant> {
    if v.end.Expired? then LateEnd(w, cfg, v.end.at, v.late) else None
  }

  predicate Hangs(w: World, cfg: Settings, v: Visit) {
    !v.end.Answered? && Next(w, cfg, v).None?
  }

  // The visits a request may have made so far.
  ghost predicate LegalSoFar(w: World, cfg: Settings, caches: map<Url, Meta>, start: Instant, ps: seq<byte>,
                             visits: seq<Visit>) {
    && |visits| <= |ps|
    && (forall i {:trigger visits[i]} | 0 <= i < |visits| :: LegalVisit(w, cfg, caches, ps[i], visits[i]))
    && (visits != [] ==> visits[0].start == start)
    && (forall i {:trigger Next(w, cfg, visits[i])} | 0 <= i < |visits| - 1 ::
        Next(w, cfg, visits[i]) == Some(visits[i + 1].start))
  }

  // The visits of a request that has an answer, has tried every bucket, or hangs.
  ghost predicate LegalRequest(w: World, cfg: Settings, caches: map<Url, Meta>, start: Instant, ps: seq<byte>,
                               visits: seq<Visit>) {
    && LegalSoFar(w, cfg, caches, start, ps, visits)
    && (|visits| < |ps| ==> visits != [] && Next(w, cfg, visits[|visits| - 1]).None?)
  }

  // A request may come to the bucket after these visits, at this instant.
  ghost predicate Comes(w: World, cfg: Settings, caches: map<Url, Meta>, start: Instant, ps: seq<byte>,
                        visits: seq<Visit>, at: Instant) {
    && LegalSoFar(w, cfg, caches, start, ps, visits) && |visits| < |ps|
    && Some(at) == if visits == [] then Some(start) else Next(w, cfg, visits[|visits| - 1])
  }

  lemma OneMoreVisit(w: World, cfg: Settings, caches: map<Url, Meta>, start: Instant, ps: seq<byte>, visits: seq<Visit>,
                     v: Visit)
    requires Comes(w, cfg, caches, start, ps, visits, v.start)
    requires LegalVisit(w, cfg, caches, ps[|visits|], v)
    ensures LegalSoFar(w, cfg, caches, start, ps, visits + [v])
  {
  }

  lemma ComesToVisit(w: World, cfg: Settings, caches: map<Url, Meta>, start: Instant, ps: seq<byte>, visits: seq<Visit>,
                     k: nat)
    requires LegalSoFar(w, cfg, caches, start, ps, visits) && k < |visits|
    ensures Comes(w, cfg, caches, start, ps, visits[..k], visits[k].start)
  {
    if k > 0 {
      assert visits[..k][k - 1] == visits[k - 1];
    }
  }

  datatype Response = Fetched(cache: Url) | NotFound | Never

  function ResponseOf(w: World, cfg: Settings, visits: seq<Visit>): Response {
    if visits == [] then NotFound
    else
      var last := visits[|visits| - 1];
      if last.end.Answered? then Fetched(last.end.cache)
      else if Hangs(w, cfg, last) then Never
      else NotFound
  }

  // ------------------------------------------------------------- the reports

  // The reports a visit begins to make, in order.
  function VisitReports(w: World, cfg: Settings, v: Visit): seq<Url> {
    if cfg.reporting then Failures(w, v.turns) + v.late else []
  }

  function ReportsOf(w: World, cfg: Settings, visits: seq<Visit>): seq<Url> {
    if visits == [] then []
    else ReportsOf(w, cfg, visits[..|visits| - 1]) + VisitReports(w, cfg, visits[|visits| - 1])
  }

  function FailedOf(w: World, turns: seq<Turn>): set<Url> {
    set c | c in CachesOf(turns) && c in w.replies && w.replies[c].outcome.Failed?
  }

  lemma {:induction false} FailuresListed(w: World, turns: seq<Turn>)
    requires forall i, j | 0 <= i < j < |turns| :: turns[i].cache != turns[j].cache
    ensures Distinct(Failures(w, turns))
    ensures forall c :: c in Failures(w, turns) <==> c in FailedOf(w, turns)
  {
    if turns != [] {
      var n := |turns| - 1;
      var c := turns[n].cache;
      FailuresListed(w, turns[..n]);
      assert forall i | 0 <= i < n :: turns[..n][i] == turns[i];
      assert CachesOf(turns) == CachesOf(turns[..n]) + {c};
      assert c !in CachesOf(turns[..n]);
      var before := Failures(w, turns[..n]);
      assert c !in before;
      assert forall d :: d in Failures(w, turns) <==> d in before || (d == c && c in FailedOf(w, turns));
    }
  }

  // The caches a visit gives reason to report: those that failed, and when the
  // deadline ended it, all of the bucket that had not replied by then.
  ghost predicate Reportable(w: World, caches: map<Url, Meta>, v: Visit, c: Url) {
    || c in FailedOf(w, v.turns)
    || (v.end.Expired? && c in Bucket(caches, v.priority) && c !in CachesOf(v.turns))
  }

  lemma VisitReportsExact(w: World, cfg: Settings, caches: map<Url, Meta>, p: byte, v: Visit)
    requires LegalVisit(w, cfg, caches, p, v) && cfg.reporting
    ensures Distinct(VisitReports(w, cfg, v))
    ensures forall c | c in VisitReports(w, cfg, v) :: c in Bucket(caches, p) && Reportable(w, caches, v, c)
    ensures !Hangs(w, cfg, v) ==>
              forall c | c in Bucket(caches, p) && Reportable(w, caches, v, c) :: c in VisitReports(w, cfg, v)
  {
    LegalFacts(w, cfg, RaceOf(cfg, p, v.start), v.start, AskedAt(caches, p, v.start), v.turns, v.end);
    FailuresListed(w, v.turns);
    var failed := Failures(w, v.turns);
    assert forall c :: c in failed + v.late <==> c in failed || c in v.late;
    NoRepeats(failed, v.late);
    if v.late != [] && LagOf(w, cfg, v.late[|v.late| - 1]).None? {
      assert LateEnd(w, cfg, v.end.at, v.late).None?;
    }
  }

  ghost predicate ReportedIn(w: World, caches: map<Url, Meta>, ps: seq<byte>, visits: seq<Visit>, k: nat, c: Url) {
    k < |visits| && k < |ps| && c in Bucket(caches, ps[k]) && Reportable(w, caches, visits[k], c)
  }

  ghost predicate EverReported(w: World, caches: map<Url, Meta>, ps: seq<byte>, visits: seq<Visit>, c: Url) {
    exists k: nat :: ReportedIn(w, caches, ps, visits, k, c)
  }

  // Every cache is reported at most once in a request, only when some bucket
  // that was tried gave reason to, and always then unless the request hangs.
  lemma {:induction false} ReportsExact(w: World, cfg: Settings, caches: map<Url, Meta>, start: Instant, ps: seq<byte>,
                                        visits: seq<Visit>)
    requires cfg.reporting
    requires LegalSoFar(w, cfg, caches, start, ps, visits)
    requires forall i, j | 0 <= i < j < |ps| :: ps[i] < ps[j]
    ensures Distinct(ReportsOf(w, cfg, visits))
    ensures forall c | c in ReportsOf(w, cfg, visits) :: EverReported(w, caches, ps, visits, c)
    ensures ResponseOf(w, cfg, visits) != Never ==>
              forall c | EverReported(w, caches, ps, visits, c) :: c in ReportsOf(w, cfg, visits)
  {
    if visits != [] {
      var n := |visits| - 1;
      ReportsExact(w, cfg, caches, start, ps, visits[..n]);
      VisitReportsExact(w, cfg, caches, ps[n], visits[n]);
      var before, last := ReportsOf(w, cfg, visits[..n]), VisitReports(w, cfg, visits[n]);
      if n > 0 {
        assert visits[..n][n - 1] == visits[n - 1];
      }
      forall c
        ensures c in before + last ==> EverReported(w, caches, ps, visits, c)
        ensures !Hangs(w, cfg, visits[n]) && EverReported(w, caches, ps, visits, c) ==> c in before + last
        ensures !(c in before && c in last)
      {
        ReportedSplit(w, caches, ps, visits, visits[..n], n, c);
      }
      NoRepeats(before, last);
    }
  }

  lemma ReportedSplit(w: World, caches: map<Url, Meta>, ps: seq<byte>, visits: seq<Visit>, before: seq<Visit>, n: nat,
                      c: Url)
    requires |visits| == n + 1 <= |ps| && before == visits[..n]
    requires forall i, j | 0 <= i < j < |ps| :: ps[i] < ps[j]
    ensures EverReported(w, caches, ps, visits, c) <==>
            ReportedIn(w, caches, ps, visits, n, c) || EverReported(w, caches, ps, before, c)
    ensures !(ReportedIn(w, caches, ps, visits, n, c) && EverReported(w, caches, ps, before, c))
  {
    forall k: nat | k < n
      ensures ReportedIn(w, caches, ps, visits, k, c) <==> ReportedIn(w, caches, ps, before, k, c)
    {
    }
    if k: nat :| ReportedIn(w, caches, ps, visits, k, c) {
      assert k < n ==> ReportedIn(w, caches, ps, before, k, c);
    }
    if k: nat :| ReportedIn(w, caches, ps, before, k, c) {
      assert ReportedIn(w, caches, ps, visits, k, c);
      assert ps[k] < ps[n];
    }
  }

  lemma NoRepeats(a: seq<Url>, b: seq<Url>)
    requires Distinct(a) && Distinct(b)
    requires forall c :: !(c in a && c in b)
    ensures Distinct(a + b)
  {
    forall i, j | 0 <= i < j < |a + b|
      ensures (a + b)[i] != (a + b)[j]
    {
      if i < |a| <= j {
        assert a[i] in a && b[j - |a|] in b;
      }
    }
  }

  // A report with the instant at which the request begins to make it.
  datatype Made = Made(cache: Url, at: Instant)

  function CachesMade(made: seq<Made>): seq<Url> {
    seq(|made|, i requires 0 <= i < |made| => made[i].cache)
  }

  function FailureReports(w: World, turns: seq<Turn>): seq<Made> {
    if turns == [] then []
    else
      var turn := turns[|turns| - 1];
      FailureReports(w, turns[..|turns| - 1]) +
      if turn.cache in w.replies && w.replies[turn.cache].outcome.Failed? then [Made(turn.cache, turn.at)] else []
  }

  function LateReports(w: World, cfg: Settings, at: Instant, late: seq<Url>): seq<Made> {
    if late == [] then []
    else
      var n := |late| - 1;
      var begin := LateEnd(w, cfg, at, late[..n]);
      LateReports(w, cfg, at, late[..n]) + if begin.Some? then [Made(late[n], begin.value)] else []
  }

  function VisitMade(w: World, cfg: Settings, v: Visit): seq<Made> {
    if !cfg.reporting then []
    else FailureReports(w, v.turns) + if v.end.Expired? then LateReports(w, cfg, v.end.at, v.late) else []
  }

  function MadeOf(w: World, cfg: Settings, visits: seq<Visit>): seq<Made> {
    if visits == [] then []
    else MadeOf(w, cfg, visits[..|visits| - 1]) + VisitMade(w, cfg, visits[|visits| - 1])
  }

  lemma {:induction false} FailuresMade(w: World, turns: seq<Turn>)
    ensures CachesMade(FailureReports(w, turns)) == Failures(w, turns)
  {
    if turns != [] {
      FailuresMade(w, turns[..|turns| - 1]);
    }
  }

  lemma {:induction false} LateMade(w: World, cfg: Settings, at: Instant, late: seq<Url>)
    requires forall i | 0 <= i < |late| - 1 :: LagOf(w, cfg, late[i]).Some?
    ensures CachesMade(LateReports(w, cfg, at, late)) == late
  {
    if late != [] {
      var n := |late| - 1;
      LateMade(w, cfg, at, late[..n]);
      LateEndsIff(w, cfg, at, late[..n]);
      assert late == late[..n] + [late[n]];
    }
  }

  // They are the reports of the request, in order.
  lemma {:induction false} MadeAreReports(w: World, cfg: Settings, caches: map<Url, Meta>, start: Instant,
                                          ps: seq<byte>, visits: seq<Visit>)
    requires LegalSoFar(w, cfg, caches, start, ps, visits)
    ensures CachesMade(MadeOf(w, cfg, visits)) == ReportsOf(w, cfg, visits)
  {
    if visits != [] {
      var n := |visits| - 1;
      var v := visits[n];
      MadeAreReports(w, cfg, caches, start, ps, visits[..n]);
      VisitMadeIsReports(w, cfg, caches, ps[n], v);
      MadeJoin(MadeOf(w, cfg, visits[..n]), VisitMade(w, cfg, v));
    }
  }

  lemma VisitMadeIsReports(w: World, cfg: Settings, caches: map<Url, Meta>, p: byte, v: Visit)
    requires LegalVisit(w, cfg, caches, p, v)
    ensures CachesMade(VisitMade(w, cfg, v)) == VisitReports(w, cfg, v)
  {
    FailuresMade(w, v.turns);
    if v.end.Expired? {
      LateMade(w, cfg, v.end.at, v.late);
    }
    MadeJoin(FailureReports(w, v.turns), if v.end.Expired? then LateReports(w, cfg, v.end.at, v.late) else []);
  }

  lemma MadeJoin(a: seq<Made>, b: seq<Made>)
    ensures CachesMade(a + b) == CachesMade(a) + CachesMade(b)
  {
  }

  // No cache is asked in two buckets of a request, nor heard from twice.
  lemma AskedOnce(w: World, cfg: Settings, caches: map<Url, Meta>, ps: seq<byte>, visits: seq<Visit>, i: nat, j: nat)
    requires |visits| <= |ps| && forall k | 0 <= k < |visits| :: LegalVisit(w, cfg, caches, ps[k], visits[k])
    requires forall k, l | 0 <= k < l < |ps| :: ps[k] < ps[l]
    requires i < |visits| && j < |visits|
    ensures i != j ==> AskedAt(caches, ps[i], visits[i].start) !! AskedAt(caches, ps[j], visits[j].start)
    ensures forall a, b | 0 <= a < |visits[i].turns| && 0 <= b < |visits[j].turns| ::
              visits[i].turns[a].cache == visits[j].turns[b].cache <==> i == j && a == b
  {
    var v, u := visits[i], visits[j];
    LegalFacts(w, cfg, RaceOf(cfg, ps[i], v.start), v.start, AskedAt(caches, ps[i], v.start), v.turns, v.end);
    LegalFacts(w, cfg, RaceOf(cfg, ps[j], u.start), u.start, AskedAt(caches, ps[j], u.start), u.turns, u.end);
    assert forall a | 0 <= a < |v.turns| :: v.turns[a].cache in CachesOf(v.turns);
    assert forall b | 0 <= b < |u.turns| :: u.turns[b].cache in CachesOf(u.turns);
  }

  // A skipped cache never answers, on any schedule.
  lemma SkippedNeverAnswers(w: World, cfg: Settings, caches: map<Url, Meta>, start: Instant, ps: seq<byte>,
                            visits: seq<Visit>, c: Url)
    requires LegalSoFar(w, cfg, caches, start, ps, visits)
    requires ResponseOf(w, cfg, visits) == Fetched(c)
    ensures c in caches && !Skipped(caches[c], visits[|visits| - 1].start)
    ensures IsHit(w, c)
  {
    var k := |visits| - 1;
    var v := visits[k];
    LegalFacts(w, cfg, RaceOf(cfg, ps[k], v.start), v.start, AskedAt(caches, ps[k], v.start), v.turns, v.end);
  }

  // ------------------------------------------------- does the request ever end?

  lemma {:induction false} LateEndsIff(w: World, cfg: Settings, at: Instant, late: seq<Url>)
    ensures LateEnd(w, cfg, at, late).Some? <==> forall c | c in late :: LagOf(w, cfg, c).Some?
  {
    if late != [] {
      var n := |late| - 1;
      LateEndsIff(w, cfg, at, late[..n]);
      assert forall c :: c in late <==> c in late[..n] || c == late[n];
    }
  }

  lemma VisitHangsIff(w: World, cfg: Settings, caches: map<Url, Meta>, p: byte, v: Visit)
    requires LegalVisit(w, cfg, caches, p, v)
    ensures Hangs(w, cfg, v) <==> exists c | c in VisitReports(w, cfg, v) :: LagOf(w, cfg, c).None?
  {
    LegalFacts(w, cfg, RaceOf(cfg, p, v.start), v.start, AskedAt(caches, p, v.start), v.turns, v.end);
    FailuresListed(w, v.turns);
    LateEndsIff(w, cfg, v.end.at, v.late);
    forall c | c in Failures(w, v.turns)
      ensures v.end.Hung? || LagOf(w, cfg, c).Some?
    {
      var i :| 0 <= i < |v.turns| && v.turns[i].cache == c;
      assert Hold(w, cfg, c) == LagOf(w, cfg, c);
    }
    if v.end.Hung? {
      assert v.end.cache in CachesOf(v.turns);
      assert v.end.cache in Failures(w, v.turns);
      assert v.end.cache in VisitReports(w, cfg, v);
    }
    if v.end.Expired? && LateEnd(w, cfg, v.end.at, v.late).None? {
      var c :| c in v.late && LagOf(w, cfg, c).None?;
      assert c in VisitReports(w, cfg, v);
    }
  }

  // On any schedule a request never ends exactly when one of the reports it
  // begins is never accepted, which is then its last.
  lemma {:induction false} NeverIffReportNotAccepted(w: World, cfg: Settings, caches: map<Url, Meta>, start: Instant,
                                                     ps: seq<byte>, visits: seq<Visit>)
    requires LegalSoFar(w, cfg, caches, start, ps, visits)
    ensures ResponseOf(w, cfg, visits) == Never <==> exists c | c in ReportsOf(w, cfg, visits) :: LagOf(w, cfg, c).None?
  {
    if visits != [] {
      var n := |visits| - 1;
      VisitHangsIff(w, cfg, caches, ps[n], visits[n]);
      NeverIffReportNotAccepted(w, cfg, caches, start, ps, visits[..n]);
      if n > 0 {
        assert visits[..n][n - 1] == visits[n - 1];
        assert Next(w, cfg, visits[n - 1]) == Some(visits[n].start);
      }
      var before, last := ReportsOf(w, cfg, visits[..n]), VisitReports(w, cfg, visits[n]);
      assert forall c :: c in before + last <==> c in before || c in last;
    }
  }

  // The bucket, reached at this instant, cannot hang: no report in the reach of
  // its select loop goes unaccepted, and none about a cache that can be late.
  // Computed from latencies and lags alone.
  ghost predicate BucketEnds(w: World, cfg: Settings, caches: map<Url, Meta>, p: byte, at: Instant) {
    var race, asked := RaceOf(cfg, p, at), AskedAt(caches, p, at);
    && LatestSelect(w, cfg, race, asked).Some?
    && forall c | c in Bucket(caches, p) && CanBeLate(w, cfg, race, asked, c) :: LagOf(w, cfg, c).Some?
  }

  lemma BucketEndsIff(w: World, cfg: Settings, caches: map<Url, Meta>, p: byte, at: Instant)
    ensures BucketEnds(w, cfg, caches, p, at) <==>
            forall v | LegalVisit(w, cfg, caches, p, v) && v.start == at :: !Hangs(w, cfg, v)
  {
    var race, asked := RaceOf(cfg, p, at), AskedAt(caches, p, at);
    LoopEndsIff(w, cfg, race, asked);
    if BucketEnds(w, cfg, caches, p, at) {
      forall v | LegalVisit(w, cfg, caches, p, v) && v.start == at
        ensures !Hangs(w, cfg, v)
      {
        if v.end.Expired? {
          forall c | c in v.late
            ensures LagOf(w, cfg, c).Some?
          {
            CanBeLateIff(w, cfg, race, asked, c);
          }
          LateEndsIff(w, cfg, v.end.at, v.late);
        }
      }
    } else {
      var v := HangingVisit(w, cfg, caches, p, at);
    }
  }

  lemma HangingVisit(w: World, cfg: Settings, caches: map<Url, Meta>, p: byte, at: Instant) returns (v: Visit)
    requires !BucketEnds(w, cfg, caches, p, at)
    ensures LegalVisit(w, cfg, caches, p, v) && v.start == at && Hangs(w, cfg, v)
  {
    var race, asked := RaceOf(cfg, p, at), AskedAt(caches, p, at);
    LoopEndsIff(w, cfg, race, asked);
    var turns, end;
    if LatestSelect(w, cfg, race, asked).None? {
      turns, end :| Outcomes(w, cfg, race, asked, turns, end) && end.Hung?;
      v := Visit(p, at, turns, end, []);
    } else {
      var c :| c in Bucket(caches, p) && CanBeLate(w, cfg, race, asked, c) && LagOf(w, cfg, c).None?;
      CanBeLateIff(w, cfg, race, asked, c);
      turns, end :| Outcomes(w, cfg, race, asked, turns, end) && end.Expired? && c !in CachesOf(turns);
      v := Visit(p, at, turns, end, [c]);
      assert v.late[..0] == [];
    }
  }

  ghost predicate AlwaysEnds(w: World, cfg: Settings, caches: map<Url, Meta>, start: Instant, ps: seq<byte>) {
    forall visits: seq<Visit> | LegalSoFar(w, cfg, caches, start, ps, visits) :: ResponseOf(w, cfg, visits) != Never
  }

  // A request ends on every schedule if and only if no bucket can hang at an
  // instant at which the request may come to it.
  lemma AlwaysEndsIff(w: World, cfg: Settings, caches: map<Url, Meta>, start: Instant, ps: seq<byte>)
    ensures AlwaysEnds(w, cfg, caches, start, ps) <==>
            forall visits: seq<Visit>, at | Comes(w, cfg, caches, start, ps, visits, at) ::
                     BucketEnds(w, cfg, caches, ps[|visits|], at)
  {
    if visits: seq<Visit>, at :|
        Comes(w, cfg, caches, start, ps, visits, at) && !BucketEnds(w, cfg, caches, ps[|visits|], at) {
      var v := HangingVisit(w, cfg, caches, ps[|visits|], at);
      OneMoreVisit(w, cfg, caches, start, ps, visits, v);
      assert ResponseOf(w, cfg, visits + [v]) == Never;
    } else {
      forall visits: seq<Visit> | LegalSoFar(w, cfg, caches, start, ps, visits)
        ensures ResponseOf(w, cfg, visits) != Never
      {
        if visits != [] {
          var k := |visits| - 1;
          ComesToVisit(w, cfg, caches, start, ps, visits, k);
          BucketEndsIff(w, cfg, caches, ps[k], visits[k].start);
        }
      }
    }
  }

  // --------------------------------------------------- is the answer right?

  // Bucket p, tried from this instant, gives the right answer whatever arms its
  // selects take. Computed from latencies and lags alone.
  ghost predicate SafeAt(w: World, cfg: Settings, caches: map<Url, Meta>, p: byte, at: Instant) {
    Safe(w, cfg, RaceOf(cfg, p, at), AskedAt(caches, p, at))
  }

  ghost predicate VisitRight(w: World, cfg: Settings, caches: map<Url, Meta>, v: Visit) {
    RightAnswer(w, RaceOf(cfg, v.priority, v.start), AskedAt(caches, v.priority, v.start), v.end)
  }

  ghost predicate VisitsRight(w: World, cfg: Settings, caches: map<Url, Meta>, visits: seq<Visit>) {
    forall k | 0 <= k < |visits| :: VisitRight(w, cfg, caches, visits[k])
  }

  // Every bucket a request tries gives the right answer on every schedule, if
  // and only if each is safe at every instant the request may come to it.
  lemma VisitsAlwaysRightIff(w: World, cfg: Settings, caches: map<Url, Meta>, start: Instant, ps: seq<byte>)
    ensures (forall visits: seq<Visit> | LegalSoFar(w, cfg, caches, start, ps, visits) ::
             VisitsRight(w, cfg, caches, visits)) <==>
            forall visits: seq<Visit>, at | Comes(w, cfg, caches, start, ps, visits, at) ::
                     SafeAt(w, cfg, caches, ps[|visits|], at)
  {
    if visits: seq<Visit>, at :|
        Comes(w, cfg, caches, start, ps, visits, at) && !SafeAt(w, cfg, caches, ps[|visits|], at) {
      var v := WrongVisit(w, cfg, caches, ps[|visits|], at);
      OneMoreVisit(w, cfg, caches, start, ps, visits, v);
      assert (visits + [v])[|visits|] == v;
      assert !VisitsRight(w, cfg, caches, visits + [v]);
    } else {
      forall visits: seq<Visit>, k | LegalSoFar(w, cfg, caches, start, ps, visits) && 0 <= k < |visits|
        ensures VisitRight(w, cfg, caches, visits[k])
      {
        ComesToVisit(w, cfg, caches, start, ps, visits, k);
        SafeVisit(w, cfg, caches, ps[k], visits[k]);
      }
    }
  }

  lemma SafeVisit(w: World, cfg: Settings, caches: map<Url, Meta>, p: byte, v: Visit)
    requires LegalVisit(w, cfg, caches, p, v) && SafeAt(w, cfg, caches, p, v.start)
    ensures VisitRight(w, cfg, caches, v)
  {
    AlwaysRightIff(w, cfg, RaceOf(cfg, p, v.start), AskedAt(caches, p, v.start));
  }

  lemma WrongVisit(w: World, cfg: Settings, caches: map<Url, Meta>, p: byte, at: Instant) returns (v: Visit)
    requires !SafeAt(w, cfg, caches, p, at)
    ensures LegalVisit(w, cfg, caches, p, v) && v.start == at && !VisitRight(w, cfg, caches, v)
  {
    var race, asked := RaceOf(cfg, p, at), AskedAt(caches, p, at);
    AlwaysRightIff(w, cfg, race, asked);
    var turns, end :| Outcomes(w, cfg, race, asked, turns, end) && !RightAnswer(w, race, asked, end);
    var late := [];
    if end.Expired? {
      late := SomeOrder(w, cfg, Bucket(caches, p) - CachesOf(turns));
    }
    v := Visit(p, at, turns, end, late);
  }

  lemma {:induction false} SomeOrder(w: World, cfg: Settings, s: set<Url>) returns (late: seq<Url>)
    ensures GoesThrough(w, cfg, late, s)
    decreases s
  {
    if s == {} {
      late := [];
    } else {
      var c :| c in s;
      if LagOf(w, cfg, c).None? {
        late := [c];
      } else {
        var rest := SomeOrder(w, cfg, s - {c});
        late := [c] + rest;
        assert forall d :: d in late <==> d == c || d in rest;
      }
    }
  }

  // A cache of the bucket that would answer within the given time.
  ghost predicate HitWithin(w: World, caches: map<Url, Meta>, p: byte, at: Instant, time: int, c: Url) {
    c in AskedAt(caches, p, at) && IsHit(w, c) && w.replies[c].latency <= time
  }

  // The bucket has a hit that comes before its deadline.
  ghost predicate HasHit(w: World, cfg: Settings, caches: map<Url, Meta>, p: byte, at: Instant) {
    exists c | c in AskedAt(caches, p, at) :: HitWithin(w, caches, p, at, TimeoutOf(cfg, p) - 1, c)
  }

  // The bucket has a hit that comes at the instant of its deadline at the latest.
  ghost predicate MayHit(w: World, cfg: Settings, caches: map<Url, Meta>, p: byte, at: Instant) {
    exists c | c in AskedAt(caches, p, at) :: HitWithin(w, caches, p, at, TimeoutOf(cfg, p), c)
  }

  // The cache is a fastest hit of the bucket, within its timeout.
  ghost predicate WinsBucket(w: World, cfg: Settings, caches: map<Url, Meta>, p: byte, at: Instant, c: Url) {
    && HitWithin(w, caches, p, at, TimeoutOf(cfg, p), c)
    && forall d | d in AskedAt(caches, p, at) && IsHit(w, d) :: w.replies[c].latency <= w.replies[d].latency
  }

  // With reports of any length: when the buckets were safe at the instants the
  // request came to them, the answer is a fastest hit, within its timeout, of a
  // bucket before which no bucket had a hit before its deadline; not found means
  // that all buckets were tried and none had one; and a request that hangs does
  // so after a bucket without one.
  lemma AnswerIsFirstHit(w: World, cfg: Settings, caches: map<Url, Meta>, start: Instant, ps: seq<byte>,
                         visits: seq<Visit>)
    requires LegalRequest(w, cfg, caches, start, ps, visits)
    requires forall k {:trigger visits[k]} | 0 <= k < |visits| :: SafeAt(w, cfg, caches, ps[k], visits[k].start)
    ensures forall k {:trigger visits[k]} | 0 <= k < |visits| - 1 :: !HasHit(w, cfg, caches, ps[k], visits[k].start)
    ensures match ResponseOf(w, cfg, visits)
            case Fetched(c) =>
              var k := |visits| - 1;
              k >= 0 && WinsBucket(w, cfg, caches, ps[k], visits[k].start, c)
            case NotFound => |visits| == |ps| && forall k {:trigger visits[k]} | 0 <= k < |visits| ::
                !HasHit(w, cfg, caches, ps[k], visits[k].start)
            case Never => forall k {:trigger visits[k]} | 0 <= k < |visits| ::
                !HasHit(w, cfg, caches, ps[k], visits[k].start)
  {
    forall k | 0 <= k < |visits|
      ensures VisitRight(w, cfg, caches, visits[k])
      ensures visits[k].end.Expired? ==> !HasHit(w, cfg, caches, ps[k], visits[k].start)
      ensures k < |visits| - 1 ==> visits[k].end.Expired?
    {
      SafeVisit(w, cfg, caches, ps[k], visits[k]);
      if k < |visits| - 1 {
        assert Next(w, cfg, visits[k]) == Some(visits[k + 1].start);
      }
    }
  }

  // Away from ties, not found or never is the answer exactly when no bucket
  // that was tried had a hit in time.
  lemma NoAnswerIff(w: World, cfg: Settings, caches: map<Url, Meta>, start: Instant, ps: seq<byte>, visits: seq<Visit>)
    requires LegalRequest(w, cfg, caches, start, ps, visits)
    requires forall k {:trigger visits[k]} | 0 <= k < |visits| :: SafeAt(w, cfg, caches, ps[k], visits[k].start)
    requires forall k | 0 <= k < |visits| && MayHit(w, cfg, caches, ps[k], visits[k].start) ::
               HasHit(w, cfg, caches, ps[k], visits[k].start)
    ensures !ResponseOf(w, cfg, visits).Fetched? <==>
            forall k {:trigger visits[k]} | 0 <= k < |visits| :: !HasHit(w, cfg, caches, ps[k], visits[k].start)
  {
    AnswerIsFirstHit(w, cfg, caches, start, ps, visits);
    if ResponseOf(w, cfg, visits).Fetched? {
      var k := |visits| - 1;
      assert MayHit(w, cfg, caches, ps[k], visits[k].start);
    }
  }

  // -------------------------------------- when no timeout is running any more

  // No cache of the table is skipped by a request that starts now.
  ghost predicate NoneSkipped(caches: map<Url, Meta>, now: Instant) {
    forall c | c in caches :: !Skipped(caches[c], now)
  }

  lemma {:induction false} LateEndNotBefore(w: World, cfg: Settings, at: Instant, late: seq<Url>)
    ensures var t := LateEnd(w, cfg, at, late); t.Some? ==> at <= t.value
  {
    if late != [] {
      LateEndNotBefore(w, cfg, at, late[..|late| - 1]);
    }
  }

  lemma {:induction false} NeverBeforeStart(w: World, cfg: Settings, caches: map<Url, Meta>, start: Instant,
                                            ps: seq<byte>, visits: seq<Visit>, k: nat)
    requires LegalSoFar(w, cfg, caches, start, ps, visits) && k < |visits|
    ensures start <= visits[k].start
    ensures var t := Next(w, cfg, visits[k]); t.Some? ==> start <= t.value
  {
    if k > 0 {
      NeverBeforeStart(w, cfg, caches, start, ps, visits, k - 1);
      assert Next(w, cfg, visits[k - 1]) == Some(visits[k - 1 + 1].start);
    }
    var v := visits[k];
    LegalFacts(w, cfg, RaceOf(cfg, ps[k], v.start), v.start, AskedAt(caches, ps[k], v.start), v.turns, v.end);
    LateEndNotBefore(w, cfg, v.end.at, v.late);
  }

  lemma VerdictAtStart(w: World, cfg: Settings, caches: map<Url, Meta>, p: byte, start: Instant, at: Instant)
    requires NoneSkipped(caches, start) && start <= at
    ensures SafeAt(w, cfg, caches, p, at) <==> SafeAt(w, cfg, caches, p, start)
    ensures BucketEnds(w, cfg, caches, p, at) <==> BucketEnds(w, cfg, caches, p, start)
    ensures CanPass(w, cfg, caches, p, at) <==> CanPass(w, cfg, caches, p, start)
  {
    assert AskedAt(caches, p, at) == AskedAt(caches, p, start) == Bucket(caches, p);
    assert RaceOf(cfg, p, at) == Moved(RaceOf(cfg, p, start), at - start);
    VerdictMoves(w, cfg, RaceOf(cfg, p, start), AskedAt(caches, p, start), at - start);
  }

  // Some visit to the bucket from this instant ends without an answer and without
  // hanging, so that the request goes on. Computed from latencies and lags alone:
  // a cache whose report is never accepted is asked, gives a bad status, and can
  // be heard from in time.
  ghost predicate CanPass(w: World, cfg: Settings, caches: map<Url, Meta>, p: byte, at: Instant) {
    var asked, never := AskedAt(caches, p, at), NeverAccepted(w, cfg, Bucket(caches, p));
    && (forall c | c in never :: c in asked && c in w.replies && w.replies[c].outcome.BadStatus?)
    && CanHearAll(w, cfg, RaceOf(cfg, p, at), asked, never)
  }

  ghost function NeverAccepted(w: World, cfg: Settings, bucket: set<Url>): set<Url> {
    set c | c in bucket && LagOf(w, cfg, c).None?
  }

  ghost predicate Passes(w: World, cfg: Settings, caches: map<Url, Meta>, p: byte, at: Instant, v: Visit) {
    LegalVisit(w, cfg, caches, p, v) && v.start == at && Next(w, cfg, v).Some?
  }

  lemma CanPassIff(w: World, cfg: Settings, caches: map<Url, Meta>, p: byte, at: Instant)
    ensures CanPass(w, cfg, caches, p, at) <==> exists v :: Passes(w, cfg, caches, p, at, v)
  {
    if CanPass(w, cfg, caches, p, at) {
      var v := PassingVisit(w, cfg, caches, p, at);
    }
    if v :| Passes(w, cfg, caches, p, at, v) {
      PassWasPossible(w, cfg, caches, p, v);
    }
  }

  lemma PassingVisit(w: World, cfg: Settings, caches: map<Url, Meta>, p: byte, at: Instant) returns (v: Visit)
    requires CanPass(w, cfg, caches, p, at)
    ensures Passes(w, cfg, caches, p, at, v)
  {
    var race, asked, never := RaceOf(cfg, p, at), AskedAt(caches, p, at), NeverAccepted(w, cfg, Bucket(caches, p));
    CanHearAllIff(w, cfg, race, asked, never);
    var turns, end :| Outcomes(w, cfg, race, asked, turns, end) && end.Expired? && never <= CachesOf(turns);
    var late := SomeOrder(w, cfg, Bucket(caches, p) - CachesOf(turns));
    LateEndsIff(w, cfg, end.at, late);
    v := Visit(p, at, turns, end, late);
  }

  lemma PassWasPossible(w: World, cfg: Settings, caches: map<Url, Meta>, p: byte, v: Visit)
    requires LegalVisit(w, cfg, caches, p, v) && Next(w, cfg, v).Some?
    ensures CanPass(w, cfg, caches, p, v.start)
  {
    var race, asked := RaceOf(cfg, p, v.start), AskedAt(caches, p, v.start);
    var never, hits := NeverAccepted(w, cfg, Bucket(caches, p)), Hits(w, asked);
    LegalFacts(w, cfg, race, v.start, asked, v.turns, v.end);
    LateEndsIff(w, cfg, v.end.at, v.late);
    forall c | c in never
      ensures c in CachesOf(v.turns) && w.replies[c].outcome.BadStatus?
    {
      assert c !in v.late;
      assert c in CachesOf(v.turns) && Hold(w, cfg, c).Some? && !IsHit(w, c);
    }
    NothingHangs(w, cfg, race, race.start, hits, Takeable(w, asked, hits));
    CanHearAllIff(w, cfg, race, asked, never);
  }

  // The request may come to bucket k.
  ghost predicate Reaches(w: World, cfg: Settings, caches: map<Url, Meta>, start: Instant, ps: seq<byte>, k: nat) {
    exists visits: seq<Visit>, at :: Comes(w, cfg, caches, start, ps, visits, at) && |visits| == k
  }

  // All buckets before bucket k can be passed, judged when the request starts.
  ghost predicate AllPass(w: World, cfg: Settings, caches: map<Url, Meta>, start: Instant, ps: seq<byte>, k: nat)
    requires k <= |ps|
  {
    forall j: nat | j < k :: CanPass(w, cfg, caches, ps[j], start)
  }

  lemma VerdictWhenReached(w: World, cfg: Settings, caches: map<Url, Meta>, start: Instant, ps: seq<byte>,
                           visits: seq<Visit>, at: Instant)
    requires NoneSkipped(caches, start) && Comes(w, cfg, caches, start, ps, visits, at)
    ensures start <= at
    ensures SafeAt(w, cfg, caches, ps[|visits|], at) <==> SafeAt(w, cfg, caches, ps[|visits|], start)
    ensures BucketEnds(w, cfg, caches, ps[|visits|], at) <==> BucketEnds(w, cfg, caches, ps[|visits|], start)
    ensures CanPass(w, cfg, caches, ps[|visits|], at) <==> CanPass(w, cfg, caches, ps[|visits|], start)
  {
    if visits != [] {
      NeverBeforeStart(w, cfg, caches, start, ps, visits, |visits| - 1);
    }
    VerdictAtStart(w, cfg, caches, ps[|visits|], start, at);
  }

  lemma PassedOnTheWay(w: World, cfg: Settings, caches: map<Url, Meta>, start: Instant, ps: seq<byte>,
                       visits: seq<Visit>, at: Instant, j: nat)
    requires NoneSkipped(caches, start) && Comes(w, cfg, caches, start, ps, visits, at) && j < |visits|
    ensures CanPass(w, cfg, caches, ps[j], start)
  {
    assert j < |visits| - 1 ==> Next(w, cfg, visits[j]) == Some(visits[j + 1].start);
    PassWasPossible(w, cfg, caches, ps[j], visits[j]);
    ComesToVisit(w, cfg, caches, start, ps, visits, j);
    VerdictWhenReached(w, cfg, caches, start, ps, visits[..j], visits[j].start);
  }

  lemma {:induction false} ComesThrough(w: World, cfg: Settings, caches: map<Url, Meta>, start: Instant, ps: seq<byte>,
                                        k: nat)
    returns (visits: seq<Visit>, at: Instant)
    requires NoneSkipped(caches, start) && k < |ps| && AllPass(w, cfg, caches, start, ps, k)
    ensures Comes(w, cfg, caches, start, ps, visits, at) && |visits| == k
  {
    visits, at := [], start;
    if k > 0 {
      visits, at := ComesThrough(w, cfg, caches, start, ps, k - 1);
      VerdictWhenReached(w, cfg, caches, start, ps, visits, at);
      var v := PassingVisit(w, cfg, caches, ps[k - 1], at);
      ComesAfter(w, cfg, caches, start, ps, visits, v);
      visits, at := visits + [v], Next(w, cfg, v).value;
    }
  }

  lemma ComesAfter(w: World, cfg: Settings, caches: map<Url, Meta>, start: Instant, ps: seq<byte>, visits: seq<Visit>,
                   v: Visit)
    requires Comes(w, cfg, caches, start, ps, visits, v.start) && |visits| + 1 < |ps|
    requires Passes(w, cfg, caches, ps[|visits|], v.start, v)
    ensures Comes(w, cfg, caches, start, ps, visits + [v], Next(w, cfg, v).value)
  {
    OneMoreVisit(w, cfg, caches, start, ps, visits, v);
  }

  // A request may come to a bucket if and only if it can pass those before.
  lemma ReachesIff(w: World, cfg: Settings, caches: map<Url, Meta>, start: Instant, ps: seq<byte>, k: nat)
    requires NoneSkipped(caches, start) && k < |ps|
    ensures Reaches(w, cfg, caches, start, ps, k) <==> AllPass(w, cfg, caches, start, ps, k)
  {
    if AllPass(w, cfg, caches, start, ps, k) {
      var visits, at := ComesThrough(w, cfg, caches, start, ps, k);
    }
    if visits: seq<Visit>, at :| Comes(w, cfg, caches, start, ps, visits, at) && |visits| == k {
      forall j: nat | j < k
        ensures CanPass(w, cfg, caches, ps[j], start)
      {
        PassedOnTheWay(w, cfg, caches, start, ps, visits, at, j);
      }
    }
  }

  // Then all is known when the request starts: every bucket it tries gives the
  // right answer on every schedule, if and only if each bucket is safe before
  // which all can be passed; and the request always ends, if and only if each
  // such bucket does.
  lemma RightKnownAtStart(w: World, cfg: Settings, caches: map<Url, Meta>, start: Instant, ps: seq<byte>)
    requires NoneSkipped(caches, start)
    ensures (forall visits: seq<Visit> | LegalSoFar(w, cfg, caches, start, ps, visits) ::
             VisitsRight(w, cfg, caches, visits)) <==>
            forall k: nat | k < |ps| && AllPass(w, cfg, caches, start, ps, k) :: SafeAt(w, cfg, caches, ps[k], start)
  {
    VisitsAlwaysRightIff(w, cfg, caches, start, ps);
    forall visits: seq<Visit>, at | Comes(w, cfg, caches, start, ps, visits, at)
      ensures AllPass(w, cfg, caches, start, ps, |visits|)
      ensures SafeAt(w, cfg, caches, ps[|visits|], at) <==> SafeAt(w, cfg, caches, ps[|visits|], start)
    {
      ReachesIff(w, cfg, caches, start, ps, |visits|);
      VerdictWhenReached(w, cfg, caches, start, ps, visits, at);
    }
    forall k: nat | k < |ps| && AllPass(w, cfg, caches, start, ps, k)
      ensures Reaches(w, cfg, caches, start, ps, k)
    {
      ReachesIff(w, cfg, caches, start, ps, k);
    }
  }

  lemma EndKnownAtStart(w: World, cfg: Settings, caches: map<Url, Meta>, start: Instant, ps: seq<byte>)
    requires NoneSkipped(caches, start)
    ensures AlwaysEnds(w, cfg, caches, start, ps) <==>
            forall k: nat | k < |ps| && AllPass(w, cfg, caches, start, ps, k) ::
                     BucketEnds(w, cfg, caches, ps[k], start)
  {
    AlwaysEndsIff(w, cfg, caches, start, ps);
    forall visits: seq<Visit>, at | Comes(w, cfg, caches, start, ps, visits, at)
      ensures AllPass(w, cfg, caches, start, ps, |visits|)
      ensures BucketEnds(w, cfg, caches, ps[|visits|], at) <==> BucketEnds(w, cfg, caches, ps[|visits|], start)
    {
      ReachesIff(w, cfg, caches, start, ps, |visits|);
      VerdictWhenReached(w, cfg, caches, start, ps, visits, at);
    }
    forall k: nat | k < |ps| && AllPass(w, cfg, caches, start, ps, k)
      ensures Reaches(w, cfg, caches, start, ps, k)
    {
      ReachesIff(w, cfg, caches, start, ps, k);
    }
  }

  // ------------------------------------------- with reports accepted at once

  // When bucket k is reached: all the buckets before it used up their time.
  function StartOf(cfg: Settings, start: Instant, ps: seq<byte>, k: nat): Instant
    requires k <= |ps|
  {
    if k == 0 then start else StartOf(cfg, start, ps, k - 1) + TimeoutOf(cfg, ps[k - 1])
  }

  lemma {:induction false} SwiftStarts(w: World, cfg: Settings, caches: map<Url, Meta>, start: Instant, ps: seq<byte>,
                                       visits: seq<Visit>, k: nat)
    requires LegalSoFar(w, cfg, caches, start, ps, visits) && Swift(w, cfg, caches.Keys)
    requires k < |visits|
    ensures visits[k].start == StartOf(cfg, start, ps, k)
    ensures SafeAt(w, cfg, caches, ps[k], visits[k].start)
    ensures visits[k].end.Expired? ==> Next(w, cfg, visits[k]) == Some(StartOf(cfg, start, ps, k + 1))
  {
    if k > 0 {
      SwiftStarts(w, cfg, caches, start, ps, visits, k - 1);
      assert Next(w, cfg, visits[k - 1]) == Some(visits[k - 1 + 1].start);
    }
    SwiftVisit(w, cfg, caches, ps[k], visits[k]);
  }

  // The bucket is safe, and without an answer it is over at its deadline.
  lemma SwiftVisit(w: World, cfg: Settings, caches: map<Url, Meta>, p: byte, v: Visit)
    requires LegalVisit(w, cfg, caches, p, v) && Swift(w, cfg, caches.Keys)
    ensures SafeAt(w, cfg, caches, p, v.start)
    ensures v.end.Expired? ==> v.end.at == v.start + TimeoutOf(cfg, p) && Next(w, cfg, v) == Some(v.end.at)
  {
    var race, asked := RaceOf(cfg, p, v.start), AskedAt(caches, p, v.start);
    SwiftIsSafe(w, cfg, race, asked);
    SwiftBucket(w, cfg, race, v.start, asked, asked, v.turns, v.end);
    if v.end.Expired? {
      SwiftLate(w, cfg, caches.Keys, v.end.at, v.late);
    }
  }

  lemma {:induction false} SwiftLate(w: World, cfg: Settings, s: set<Url>, at: Instant, late: seq<Url>)
    requires Swift(w, cfg, s) && forall c | c in late :: c in s
    ensures LateEnd(w, cfg, at, late) == Some(at)
  {
    if late != [] {
      assert late[|late| - 1] in late;
      SwiftLate(w, cfg, s, at, late[..|late| - 1]);
    }
  }

  // No bucket before k has a hit that comes before its deadline.
  ghost predicate NoneBefore(w: World, cfg: Settings, caches: map<Url, Meta>, start: Instant, ps: seq<byte>, k: nat)
    requires k <= |ps|
  {
    forall j: nat {:trigger HasHit(w, cfg, caches, ps[j], StartOf(cfg, start, ps, j))} | j < k ::
      !HasHit(w, cfg, caches, ps[j], StartOf(cfg, start, ps, j))
  }

  ghost predicate FirstToHit(w: World, cfg: Settings, caches: map<Url, Meta>, start: Instant, ps: seq<byte>, k: nat,
                             c: Url) {
    k < |ps| && WinsBucket(w, cfg, caches, ps[k], StartOf(cfg, start, ps, k), c) &&
        NoneBefore(w, cfg, caches, start, ps, k)
  }

  // Then the instants are known beforehand, the request ends, and the lowest
  // bucket with a hit in time decides: only a hit at the very instant of a
  // deadline can go either way.
  lemma SwiftAnswer(w: World, cfg: Settings, caches: map<Url, Meta>, start: Instant, ps: seq<byte>, visits: seq<Visit>)
    requires LegalRequest(w, cfg, caches, start, ps, visits) && Swift(w, cfg, caches.Keys)
    ensures match ResponseOf(w, cfg, visits)
            case Fetched(c) => exists k: nat :: FirstToHit(w, cfg, caches, start, ps, k, c)
            case NotFound => NoneBefore(w, cfg, caches, start, ps, |ps|)
            case Never => false
  {
    SwiftVisits(w, cfg, caches, start, ps, visits);
    SwiftEnds(w, cfg, caches, start, ps, visits);
    AnswerIsFirstHit(w, cfg, caches, start, ps, visits);
    match ResponseOf(w, cfg, visits)
    case Fetched(c) =>
      var k := |visits| - 1;
      NoneUpTo(w, cfg, caches, start, ps, visits, k);
      assert FirstToHit(w, cfg, caches, start, ps, k, c);
    case NotFound =>
      NoneUpTo(w, cfg, caches, start, ps, visits, |ps|);
    case Never =>
  }

  lemma SwiftEnds(w: World, cfg: Settings, caches: map<Url, Meta>, start: Instant, ps: seq<byte>, visits: seq<Visit>)
    requires LegalSoFar(w, cfg, caches, start, ps, visits) && Swift(w, cfg, caches.Keys)
    ensures ResponseOf(w, cfg, visits) != Never
  {
    SwiftVisits(w, cfg, caches, start, ps, visits);
    if visits != [] {
      var k := |visits| - 1;
      SafeVisit(w, cfg, caches, ps[k], visits[k]);
    }
  }

  lemma SwiftVisits(w: World, cfg: Settings, caches: map<Url, Meta>, start: Instant, ps: seq<byte>, visits: seq<Visit>)
    requires LegalSoFar(w, cfg, caches, start, ps, visits) && Swift(w, cfg, caches.Keys)
    ensures forall k {:trigger visits[k]} | 0 <= k < |visits| ::
              && visits[k].start == StartOf(cfg, start, ps, k)
              && SafeAt(w, cfg, caches, ps[k], visits[k].start)
              && (visits[k].end.Expired? ==> Next(w, cfg, visits[k]).Some?)
  {
    forall k | 0 <= k < |visits|
      ensures visits[k].start == StartOf(cfg, start, ps, k)
      ensures SafeAt(w, cfg, caches, ps[k], visits[k].start)
      ensures visits[k].end.Expired? ==> Next(w, cfg, visits[k]).Some?
    {
      SwiftStarts(w, cfg, caches, start, ps, visits, k);
    }
  }

  lemma NoneUpTo(w: World, cfg: Settings, caches: map<Url, Meta>, start: Instant, ps: seq<byte>, visits: seq<Visit>,
                 n: nat)
    requires n <= |visits| && n <= |ps|
    requires forall k {:trigger visits[k]} | 0 <= k < n :: visits[k].start == StartOf(cfg, start, ps, k)
    requires forall k {:trigger visits[k]} | 0 <= k < n :: !HasHit(w, cfg, caches, ps[k], visits[k].start)
    ensures NoneBefore(w, cfg, caches, start, ps, n)
  {
    forall k: nat | k < n
      ensures !HasHit(w, cfg, caches, ps[k], StartOf(cfg, start, ps, k))
    {
      assert visits[k].start == StartOf(cfg, start, ps, k);
    }
  }

  // ---------------------------------------------------------------- the time

  function TotalWaiting(w: World, cfg: Settings, visits: seq<Visit>): int {
    if visits == [] then 0
    else
      var v := visits[|visits| - 1];
      TotalWaiting(w, cfg, visits[..|visits| - 1]) + Waiting(w, cfg, v.start, v.turns, v.end)
  }

  lemma VisitTime(w: World, cfg: Settings, caches: map<Url, Meta>, p: byte, v: Visit)
    requires LegalVisit(w, cfg, caches, p, v)
    ensures 0 <= Waiting(w, cfg, v.start, v.turns, v.end) <= TimeoutOf(cfg, p)
    ensures v.end.Expired? ==> v.start + TimeoutOf(cfg, p) <= v.end.at
  {
    WaitingBounded(w, cfg, RaceOf(cfg, p, v.start), v.start, AskedAt(caches, p, v.start), v.turns, v.end);
    LegalFacts(w, cfg, RaceOf(cfg, p, v.start), v.start, AskedAt(caches, p, v.start), v.turns, v.end);
  }

  // On every schedule the selects take no longer than the timeouts of the
  // buckets visited, and a bucket without an answer was held to its deadline.
  lemma {:induction false} TimeBounded(w: World, cfg: Settings, caches: map<Url, Meta>, ps: seq<byte>,
                                       visits: seq<Visit>, start: Instant)
    requires |visits| <= |ps| && forall i {:trigger visits[i]} | 0 <= i < |visits| ::
               LegalVisit(w, cfg, caches, ps[i], visits[i])
    ensures start + TotalWaiting(w, cfg, visits) <= StartOf(cfg, start, ps, |visits|)
    ensures forall i {:trigger visits[i]} | 0 <= i < |visits| && visits[i].end.Expired? ::
              visits[i].start + TimeoutOf(cfg, ps[i]) <= visits[i].end.at
  {
    if visits != [] {
      var k := |visits| - 1;
      TimeBounded(w, cfg, caches, ps, visits[..k], start);
      VisitTime(w, cfg, caches, ps[k], visits[k]);
    }
    forall i | 0 <= i < |visits| && visits[i].end.Expired?
      ensures visits[i].start + TimeoutOf(cfg, ps[i]) <= visits[i].end.at
    {
      VisitTime(w, cfg, caches, ps[i], visits[i]);
    }
  }
}
