// One request: the buckets of a fixed table are tried in order, all caches of
// a bucket at once, until one of them answers or the bucket's deadline is up.
// This module says what the select loop of a bucket may do on any schedule.

module ProxyRuns {
  import opened Types
  import opened Timeouts

  datatype Outcome = Found | BadStatus | Failed

  // How a cache would answer: how long after being asked, and what.
  datatype Reply = Reply(latency: Duration, outcome: Outcome)

  // What the request meets. A cache without a reply never answers; `lag` is how
  // long the manager takes to accept a report about a cache, and None when it
  // never does.
  datatype World = World(replies: map<Url, Reply>, lag: Url -> Option<Duration>)

  datatype Settings = Settings(timeouts: map<byte, Duration>, defaultTimeout: Duration, reporting: bool)

  function TimeoutOf(cfg: Settings, p: byte): Duration {
    if p in cfg.timeouts then cfg.timeouts[p] else cfg.defaultTimeout
  }

  // Without a manager nothing is reported and nothing waited for.
  function LagOf(w: World, cfg: Settings, c: Url): Option<Duration> {
    if cfg.reporting then w.lag(c) else Some(0)
  }

  // The caches of a bucket that are asked.
  function Asked(caches: map<Url, Meta>, bucket: set<Url>, now: Instant): set<Url> {
    set c | c in bucket && c in caches && !Skipped(caches[c], now)
  }

  predicate IsHit(w: World, c: Url) {
    c in w.replies && w.replies[c].outcome.Found?
  }

  function Hits(w: World, s: set<Url>): set<Url> {
    set c | c in s && IsHit(w, c)
  }

  // ------------------------------------------------------------- one bucket

  // One turn of the select loop that took a reply, and when.
  datatype Turn = Turn(cache: Url, at: Instant)

  // How the loop ends: with a hit, by its deadline, or in a report that is
  // never accepted.
  datatype End = Answered(cache: Url, at: Instant) | Expired(at: Instant) | Hung(cache: Url, at: Instant)

  // A bucket being tried: when it was started and when its time is up.
  datatype Race = Race(start: Instant, deadline: Instant)

  function Due(w: World, race: Race, c: Url): Instant
    requires c in w.replies
  {
    race.start + w.replies[c].latency
  }

  predicate Ready(w: World, race: Race, c: Url, at: Instant) {
    c in w.replies && Due(w, race, c) <= at
  }

  // A select entered at t returns at the first instant one of its arms is
  // ready: a reply that is still outstanding, or the deadline.
  predicate Wakes(w: World, race: Race, t: Instant, outstanding: set<Url>, at: Instant) {
    && t <= at
    && (race.deadline <= at || exists c | c in outstanding :: Ready(w, race, c, at))
    && (t < at ==> at <= race.deadline && forall c | c in outstanding && c in w.replies :: at <= Due(w, race, c))
  }

  // How long a reply that was not the answer keeps the loop from its select.
  function Hold(w: World, cfg: Settings, c: Url): Option<Duration>
    requires c in w.replies
  {
    if w.replies[c].outcome.Failed? then LagOf(w, cfg, c) else Some(0)
  }

  predicate CanTake(w: World, race: Race, t: Instant, outstanding: set<Url>, turn: Turn) {
    && Wakes(w, race, t, outstanding, turn.at)
    && turn.cache in outstanding && Ready(w, race, turn.cache, turn.at)
  }

  // The select loop entered at t may take these turns and end like that. With
  // several arms ready any of them may be taken; the deadline arm stays in the
  // select when no reply is outstanding, so the loop has no other way out.
  ghost predicate Legal(w: World, cfg: Settings, race: Race, t: Instant, outstanding: set<Url>, turns: seq<Turn>,
                        end: End)
    decreases |turns|
  {
    if turns == [] then
      end.Expired? && race.deadline <= end.at && Wakes(w, race, t, outstanding, end.at)
    else
      var turn := turns[0];
      && CanTake(w, race, t, outstanding, turn)
      && if w.replies[turn.cache].outcome.Found? then |turns| == 1 && end == Answered(turn.cache, turn.at)
         else match Hold(w, cfg, turn.cache)
           case None => |turns| == 1 && end == Hung(turn.cache, turn.at)
           case Some(h) => Legal(w, cfg, race, turn.at + h, outstanding - {turn.cache}, turns[1..], end)
  }

  // Turns without a hit, whose reports were accepted, bring the loop from t to
  // t', with those requests left.
  ghost predicate Partial(w: World, cfg: Settings, race: Race, t: Instant, outstanding: set<Url>, turns: seq<Turn>,
                          t': Instant, left: set<Url>)
    decreases |turns|
  {
    if turns == [] then t' == t && left == outstanding
    else
      var turn := turns[0];
      && CanTake(w, race, t, outstanding, turn) && !w.replies[turn.cache].outcome.Found?
      && Hold(w, cfg, turn.cache).Some?
      && Partial(w, cfg, race, turn.at + Hold(w, cfg, turn.cache).value, outstanding - {turn.cache}, turns[1..], t',
                 left)
  }

  lemma {:induction false} PartialEnds(w: World, cfg: Settings, race: Race, t: Instant, outstanding: set<Url>,
                                       turns: seq<Turn>, t': Instant, left: set<Url>, last: seq<Turn>, end: End)
    requires Partial(w, cfg, race, t, outstanding, turns, t', left)
    requires Legal(w, cfg, race, t', left, last, end)
    ensures Legal(w, cfg, race, t, outstanding, turns + last, end)
    decreases |turns|
  {
    if turns == [] {
      assert turns + last == last;
    } else {
      var turn := turns[0];
      PartialEnds(w, cfg, race, turn.at + Hold(w, cfg, turn.cache).value, outstanding - {turn.cache}, turns[1..], t',
                  left, last, end);
      assert (turns + last)[1..] == turns[1..] + last;
    }
  }

  // What is possible in a bucket on some schedule.
  ghost predicate Outcomes(w: World, cfg: Settings, race: Race, asked: set<Url>, turns: seq<Turn>, end: End) {
    Legal(w, cfg, race, race.start, asked, turns, end)
  }

  function CachesOf(turns: seq<Turn>): set<Url> {
    set i | 0 <= i < |turns| :: turns[i].cache
  }

  lemma CachesOfCons(turns: seq<Turn>)
    requires turns != []
    ensures CachesOf(turns) == {turns[0].cache} + CachesOf(turns[1..])
  {
  }

  // The caches whose failure a turn took, in order.
  function Failures(w: World, turns: seq<Turn>): seq<Url> {
    if turns == [] then []
    else
      var c := turns[|turns| - 1].cache;
      Failures(w, turns[..|turns| - 1]) + if c in w.replies && w.replies[c].outcome.Failed? then [c] else []
  }

  // On every schedule: each reply is taken once, only asked caches reply, an
  // answer is a hit that was taken, a bucket without one is held until its
  // deadline, and the loop hangs only on the failure it took last, when the
  // report about that cache is never accepted.
  lemma {:induction false} LegalFacts(w: World, cfg: Settings, race: Race, t: Instant, outstanding: set<Url>,
                                      turns: seq<Turn>, end: End)
    requires Legal(w, cfg, race, t, outstanding, turns, end)
    ensures CachesOf(turns) <= outstanding
    ensures forall i, j | 0 <= i < j < |turns| :: turns[i].cache != turns[j].cache
    ensures forall c | c in CachesOf(turns) :: c in w.replies
    ensures t <= end.at
    ensures forall i | 0 <= i < |turns| - 1 :: Hold(w, cfg, turns[i].cache).Some? && !IsHit(w, turns[i].cache)
    ensures match end
            case Answered(c, at) =>
              turns != [] && c == turns[|turns| - 1].cache && c in outstanding && IsHit(w, c) && Ready(w, race, c, at)
            case Expired(at) =>
              && race.deadline <= at
              && forall c | c in CachesOf(turns) :: !IsHit(w, c) && Hold(w, cfg, c).Some?
            case Hung(c, at) =>
              turns != [] && c == turns[|turns| - 1].cache && c in outstanding && w.replies[c].outcome.Failed?
                && LagOf(w, cfg, c) == None
    decreases |turns|
  {
    if turns != [] {
      CachesOfCons(turns);
      var turn := turns[0];
      if !IsHit(w, turn.cache) && Hold(w, cfg, turn.cache).Some? {
        var rest := turns[1..];
        LegalFacts(w, cfg, race, turn.at + Hold(w, cfg, turn.cache).value, outstanding - {turn.cache}, rest, end);
        assert forall i | 0 < i < |turns| :: turns[i] == rest[i - 1] && turns[i].cache in CachesOf(rest);
      } else {
        assert turns[1..] == [];
      }
    }
  }

  // Time spent waiting in the selects, which leaves out the time reports take.
  function Waiting(w: World, cfg: Settings, t: Instant, turns: seq<Turn>, end: End): int
    decreases |turns|
  {
    if turns == [] then end.at - t
    else
      var turn := turns[0];
      turn.at - t +
      if turn.cache !in w.replies || IsHit(w, turn.cache) || Hold(w, cfg, turn.cache).None? then 0
      else Waiting(w, cfg, turn.at + Hold(w, cfg, turn.cache).value, turns[1..], end)
  }

  // Whatever the schedule, a bucket keeps the request waiting no longer than
  // what was left until its deadline when it was entered.
  lemma {:induction false} WaitingBounded(w: World, cfg: Settings, race: Race, t: Instant, outstanding: set<Url>,
                                          turns: seq<Turn>, end: End)
    requires Legal(w, cfg, race, t, outstanding, turns, end)
    ensures 0 <= Waiting(w, cfg, t, turns, end) <= (if t <= race.deadline then race.deadline - t else 0)
    decreases |turns|
  {
    if turns != [] {
      var turn := turns[0];
      if !IsHit(w, turn.cache) && Hold(w, cfg, turn.cache).Some? {
        WaitingBounded(w, cfg, race, turn.at + Hold(w, cfg, turn.cache).value, outstanding - {turn.cache}, turns[1..],
                       end);
      }
    }
  }

  // -------------------------------- the latest the loop can be at its select

  // A reply that a loop at its select at t cannot be kept from: it is due, or
  // due before the deadline and before every reply that is not to be taken.
  predicate InReach(w: World, race: Race, t: Instant, kept: set<Url>, c: Url)
    requires c in w.replies
  {
    || Due(w, race, c) <= t
    || (&& Due(w, race, c) <= race.deadline
        && forall k | k in kept && k in w.replies :: Due(w, race, c) <= Due(w, race, k))
  }

  ghost predicate IsSoonest(w: World, pending: set<Url>, c: Url)
    requires pending <= w.replies.Keys
  {
    c in pending && forall d | d in pending :: w.replies[c].latency <= w.replies[d].latency
  }

  ghost function Soonest(w: World, pending: set<Url>): (c: Url)
    requires pending != {} && pending <= w.replies.Keys
    ensures IsSoonest(w, pending, c)
  {
    assert exists c :: IsSoonest(w, pending, c) by {
      var c := FindSoonest(w, pending);
    }
    var c :| IsSoonest(w, pending, c);
    c
  }

  lemma {:induction false} FindSoonest(w: World, pending: set<Url>) returns (c: Url)
    requires pending != {} && pending <= w.replies.Keys
    ensures IsSoonest(w, pending, c)
    decreases pending
  {
    var e :| e in pending;
    var others := pending - {e};
    assert forall d | d in pending :: d == e || d in others;
    c := e;
    if others != {} {
      var other := FindSoonest(w, others);
      if w.replies[other].latency < w.replies[e].latency {
        c := other;
      }
    }
  }

  // The instant up to which the loop can be kept away from the end of the
  // bucket without taking a reply of `kept`: one pass over the other replies in
  // order of latency, each adding what it holds the loop up. None when a report
  // on the way is never accepted.
  ghost function Latest(w: World, cfg: Settings, race: Race, t: Instant, kept: set<Url>,
                        pending: set<Url>): Option<Instant>
    requires pending <= w.replies.Keys
    decreases pending
  {
    if pending == {} then Some(t)
    else
      var c := Soonest(w, pending);
      if !InReach(w, race, t, kept, c) then Some(t)
      else
        match Hold(w, cfg, c)
        case None => None
        case Some(h) => Latest(w, cfg, race, (if t < Due(w, race, c) then Due(w, race, c) else t) + h, kept,
                               pending - {c})
  }

  // The replies of the requests that may be taken.
  function Takeable(w: World, outstanding: set<Url>, kept: set<Url>): set<Url> {
    set c | c in outstanding && c in w.replies && c !in kept
  }

  function After(w: World, cfg: Settings, race: Race, at: Instant, c: Url): Option<Instant>
    requires c in w.replies
  {
    match Hold(w, cfg, c)
    case None => None
    case Some(h) => Some(at + h)
  }

  ghost function LatestFrom(w: World, cfg: Settings, race: Race, t: Option<Instant>, kept: set<Url>,
                            pending: set<Url>): Option<Instant>
    requires pending <= w.replies.Keys
  {
    match t
    case None => None
    case Some(at) => Latest(w, cfg, race, at, kept, pending)
  }

  // Replies that are due can be passed over in any order.
  lemma {:induction false} DueInAnyOrder(w: World, cfg: Settings, race: Race, t: Instant, kept: set<Url>,
                                         pending: set<Url>, x: Url)
    requires pending <= w.replies.Keys && x in pending && Due(w, race, x) <= t
    ensures Latest(w, cfg, race, t, kept, pending) ==
              LatestFrom(w, cfg, race, After(w, cfg, race, t, x), kept, pending - {x})
    decreases pending
  {
    var c := Soonest(w, pending);
    SoonestFirst(w, cfg, race, t, kept, pending);
    if c != x {
      var hc, hx := Hold(w, cfg, c), Hold(w, cfg, x);
      var withoutC, withoutX := pending - {c}, pending - {x};
      var both := withoutC - {x};
      assert withoutX - {c} == both;
      if hc.Some? {
        DueInAnyOrder(w, cfg, race, t + hc.value, kept, withoutC, x);
      }
      if hx.Some? {
        DueInAnyOrder(w, cfg, race, t + hx.value, kept, withoutX, c);
      }
      EitherFirst(w, cfg, race, t, kept, withoutC, withoutX, both, c, x);
    }
  }

  lemma EitherFirst(w: World, cfg: Settings, race: Race, t: Instant, kept: set<Url>, withoutC: set<Url>,
                    withoutX: set<Url>, both: set<Url>, c: Url, x: Url)
    requires withoutC <= w.replies.Keys && withoutX <= w.replies.Keys && both <= w.replies.Keys
    requires c in w.replies && x in w.replies
    requires var h := Hold(w, cfg, c);
             h.Some? ==>
               Latest(w, cfg, race, t + h.value, kept, withoutC) ==
               LatestFrom(w, cfg, race, After(w, cfg, race, t + h.value, x), kept, both)
    requires var h := Hold(w, cfg, x);
             h.Some? ==>
               Latest(w, cfg, race, t + h.value, kept, withoutX) ==
               LatestFrom(w, cfg, race, After(w, cfg, race, t + h.value, c), kept, both)
    ensures LatestFrom(w, cfg, race, After(w, cfg, race, t, c), kept, withoutC) ==
              LatestFrom(w, cfg, race, After(w, cfg, race, t, x), kept, withoutX)
  {
  }

  lemma SoonestFirst(w: World, cfg: Settings, race: Race, t: Instant, kept: set<Url>, pending: set<Url>)
    requires pending != {} && pending <= w.replies.Keys && Due(w, race, Soonest(w, pending)) <= t
    ensures var c := Soonest(w, pending);
            Latest(w, cfg, race, t, kept, pending) ==
                LatestFrom(w, cfg, race, After(w, cfg, race, t, c), kept, pending - {c})
  {
  }

  // The latest instant is an invariant of the loop, whatever it takes.
  lemma LatestInvariant(w: World, cfg: Settings, race: Race, t: Instant, outstanding: set<Url>, kept: set<Url>,
                        turn: Turn)
    requires CanTake(w, race, t, outstanding, turn)
    requires kept <= outstanding && turn.cache !in kept
    ensures Takeable(w, outstanding - {turn.cache}, kept) == Takeable(w, outstanding, kept) - {turn.cache}
    ensures Latest(w, cfg, race, t, kept, Takeable(w, outstanding, kept)) ==
            LatestFrom(w, cfg, race, After(w, cfg, race, turn.at, turn.cache), kept,
                       Takeable(w, outstanding - {turn.cache}, kept))
  {
    var pending, x, at := Takeable(w, outstanding, kept), turn.cache, turn.at;
    assert x in pending && Takeable(w, outstanding - {x}, kept) == pending - {x};
    if t < at {
      // Nothing was due before, so the soonest reply is due now too.
      var c := Soonest(w, pending);
      assert Due(w, race, x) == at;
      assert Due(w, race, c) == at;
      assert InReach(w, race, t, kept, c) && InReach(w, race, at, kept, c);
      assert Latest(w, cfg, race, t, kept, pending) == Latest(w, cfg, race, at, kept, pending);
    }
    DueInAnyOrder(w, cfg, race, at, kept, pending, x);
  }

  lemma {:induction false} LatestNotBefore(w: World, cfg: Settings, race: Race, t: Instant, kept: set<Url>,
                                           pending: set<Url>)
    requires pending <= w.replies.Keys
    ensures var l := Latest(w, cfg, race, t, kept, pending); l.Some? ==> t <= l.value
    decreases pending
  {
    if pending != {} {
      var c := Soonest(w, pending);
      if InReach(w, race, t, kept, c) && Hold(w, cfg, c).Some? {
        LatestNotBefore(w, cfg, race, (if t < Due(w, race, c) then Due(w, race, c) else t) + Hold(w, cfg, c).value,
                        kept, pending - {c});
      }
    }
  }

  // The turns have brought the loop to l, took nothing of `kept`, and left
  // nothing else in reach.
  ghost predicate Reached(w: World, cfg: Settings, race: Race, t: Instant, outstanding: set<Url>, kept: set<Url>,
                          turns: seq<Turn>, l: Instant, left: set<Url>) {
    && Partial(w, cfg, race, t, outstanding, turns, l, left)
    && kept <= left <= outstanding && CachesOf(turns) !! kept
    && forall c | c in Takeable(w, left, kept) :: !InReach(w, race, l, kept, c)
  }

  // These turns lead to the latest instant, or to the report that is never
  // accepted on the way there.
  ghost predicate Leads(w: World, cfg: Settings, race: Race, t: Instant, outstanding: set<Url>, kept: set<Url>,
                        turns: seq<Turn>, left: set<Url>, end: End) {
    match Latest(w, cfg, race, t, kept, Takeable(w, outstanding, kept))
    case None => end.Hung? && Legal(w, cfg, race, t, outstanding, turns, end)
    case Some(l) => Reached(w, cfg, race, t, outstanding, kept, turns, l, left)
  }

  // The schedule that takes the replies in reach in that order does.
  lemma {:induction false} ReachLatest(w: World, cfg: Settings, race: Race, t: Instant, outstanding: set<Url>,
                                       kept: set<Url>)
    returns (turns: seq<Turn>, left: set<Url>, end: End)
    requires Hits(w, outstanding) <= kept <= outstanding
    ensures Leads(w, cfg, race, t, outstanding, kept, turns, left, end)
    decreases outstanding
  {
    var pending := Takeable(w, outstanding, kept);
    if pending != {} && InReach(w, race, t, kept, Soonest(w, pending)) {
      var c := Soonest(w, pending);
      var turn := Turn(c, if t < Due(w, race, c) then Due(w, race, c) else t);
      match Hold(w, cfg, c)
      case None =>
        turns, left, end := [turn], {}, Hung(c, turn.at);
      case Some(h) =>
        var rest;
        rest, left, end := ReachLatest(w, cfg, race, turn.at + h, outstanding - {c}, kept);
        turns := [turn] + rest;
        LeadsOn(w, cfg, race, t, outstanding, kept, turn, rest, left, end);
    } else {
      turns, left, end := [], outstanding, Expired(0);
    }
  }

  // The turn takes the soonest of the replies in reach.
  ghost predicate TakesSoonest(w: World, race: Race, t: Instant, outstanding: set<Url>, kept: set<Url>, turn: Turn) {
    var pending := Takeable(w, outstanding, kept);
    && pending != {} && turn.cache == Soonest(w, pending) && InReach(w, race, t, kept, turn.cache)
    && turn.at == (if t < Due(w, race, turn.cache) then Due(w, race, turn.cache) else t)
    && CanTake(w, race, t, outstanding, turn) && !IsHit(w, turn.cache)
    && Takeable(w, outstanding - {turn.cache}, kept) == pending - {turn.cache}
  }

  lemma LeadsOn(w: World, cfg: Settings, race: Race, t: Instant, outstanding: set<Url>, kept: set<Url>, turn: Turn,
                rest: seq<Turn>, left: set<Url>, end: End)
    requires TakesSoonest(w, race, t, outstanding, kept, turn) && Hold(w, cfg, turn.cache).Some?
    requires Leads(w, cfg, race, turn.at + Hold(w, cfg, turn.cache).value, outstanding - {turn.cache}, kept, rest, left,
                   end)
    ensures Leads(w, cfg, race, t, outstanding, kept, [turn] + rest, left, end)
  {
    assert ([turn] + rest)[1..] == rest;
    CachesOfCons([turn] + rest);
  }

  // ------------------------------------------------ does the loop always end?

  // The latest instant at which the loop of a bucket can be at its select.
  ghost function LatestSelect(w: World, cfg: Settings, race: Race, asked: set<Url>): Option<Instant> {
    Latest(w, cfg, race, race.start, Hits(w, asked), Takeable(w, asked, Hits(w, asked)))
  }

  lemma {:induction false} HangingHasNoLatest(w: World, cfg: Settings, race: Race, t: Instant, outstanding: set<Url>,
                                              kept: set<Url>, turns: seq<Turn>, end: End)
    requires Legal(w, cfg, race, t, outstanding, turns, end) && end.Hung?
    requires kept <= outstanding && CachesOf(turns) !! kept
    ensures Latest(w, cfg, race, t, kept, Takeable(w, outstanding, kept)) == None
    decreases |turns|
  {
    var turn := turns[0];
    CachesOfCons(turns);
    LatestInvariant(w, cfg, race, t, outstanding, kept, turn);
    if Hold(w, cfg, turn.cache).Some? {
      HangingHasNoLatest(w, cfg, race, turn.at + Hold(w, cfg, turn.cache).value, outstanding - {turn.cache}, kept,
                         turns[1..], end);
    }
  }

  // The select loop ends on every schedule if and only if every report in its
  // reach is accepted.
  lemma LoopEndsIff(w: World, cfg: Settings, race: Race, asked: set<Url>)
    ensures (forall turns, end :: Outcomes(w, cfg, race, asked, turns, end) ==> !end.Hung?)
       <==> LatestSelect(w, cfg, race, asked).Some?
  {
    if LatestSelect(w, cfg, race, asked).None? {
      var turns, left, end := ReachLatest(w, cfg, race, race.start, asked, Hits(w, asked));
      assert Outcomes(w, cfg, race, asked, turns, end);
    } else {
      forall turns, end | Outcomes(w, cfg, race, asked, turns, end)
        ensures !end.Hung?
      {
        if end.Hung? {
          HungTakesNoHit(w, cfg, race, race.start, asked, turns, end);
          HangingHasNoLatest(w, cfg, race, race.start, asked, Hits(w, asked), turns, end);
        }
      }
    }
  }

  lemma HungTakesNoHit(w: World, cfg: Settings, race: Race, t: Instant, asked: set<Url>, turns: seq<Turn>, end: End)
    requires Legal(w, cfg, race, t, asked, turns, end) && !end.Answered?
    ensures CachesOf(turns) !! Hits(w, asked)
  {
    LegalFacts(w, cfg, race, t, asked, turns, end);
  }

  // --------------------------------------------------- is the answer right?

  // What the timeout of a bucket promises: the answer is a fastest hit and in
  // time, and only a bucket without a hit in time has none.
  ghost predicate RightAnswer(w: World, race: Race, asked: set<Url>, end: End) {
    match end
    case Answered(c, _) =>
      && c in asked && IsHit(w, c) && Due(w, race, c) <= race.deadline
      && forall d | d in asked && IsHit(w, d) :: w.replies[c].latency <= w.replies[d].latency
    case Expired(_) => forall d | d in asked && IsHit(w, d) :: race.deadline <= Due(w, race, d)
    case Hung(_, _) => false
  }

  // A select entered at t finds a hit ready that it may pass over or should not
  // take: past the deadline, unless the hit is due at that very instant, or next
  // to a faster hit.
  ghost predicate Hazard(w: World, race: Race, t: Instant, asked: set<Url>) {
    exists c :: c in asked && IsHit(w, c) && Ready(w, race, c, t)
      && ((race.deadline <= t && Due(w, race, c) != race.deadline)
          || exists d :: d in asked && IsHit(w, d) && w.replies[d].latency < w.replies[c].latency)
  }

  // The arm that makes a hazard go wrong.
  lemma HazardMisses(w: World, cfg: Settings, race: Race, t: Instant, asked: set<Url>, outstanding: set<Url>)
    returns (turns: seq<Turn>, end: End)
    requires Hazard(w, race, t, asked)
    requires Hits(w, asked) <= outstanding <= asked
    ensures Legal(w, cfg, race, t, outstanding, turns, end)
    ensures !RightAnswer(w, race, asked, end)
  {
    var c :| c in asked && IsHit(w, c) && Ready(w, race, c, t)
      && ((race.deadline <= t && Due(w, race, c) != race.deadline)
          || exists d :: d in asked && IsHit(w, d) && w.replies[d].latency < w.replies[c].latency);
    assert c in Hits(w, asked);
    if race.deadline <= t && Due(w, race, c) < race.deadline {
      turns, end := [], Expired(t);
    } else {
      turns, end := [Turn(c, t)], Answered(c, t);
    }
  }

  // A loop at its select at t, with these requests left, can come to a hazard.
  ghost predicate HazardAhead(w: World, cfg: Settings, race: Race, t: Instant, asked: set<Url>, outstanding: set<Url>) {
    var l := Latest(w, cfg, race, t, Hits(w, asked), Takeable(w, outstanding, Hits(w, asked)));
    l.Some? ==> Hazard(w, race, l.value, asked)
  }

  lemma {:induction false} WrongIsHazard(w: World, cfg: Settings, race: Race, t: Instant, asked: set<Url>,
                                         outstanding: set<Url>, turns: seq<Turn>, end: End)
    requires Legal(w, cfg, race, t, outstanding, turns, end)
    requires !RightAnswer(w, race, asked, end)
    requires Hits(w, asked) <= outstanding <= asked
    ensures HazardAhead(w, cfg, race, t, asked, outstanding)
    decreases |turns|
  {
    if turns == [] || IsHit(w, turns[0].cache) {
      HazardStays(w, cfg, race, t, asked, outstanding);
    } else {
      var turn := turns[0];
      if Hold(w, cfg, turn.cache).Some? {
        WrongIsHazard(w, cfg, race, turn.at + Hold(w, cfg, turn.cache).value, asked, outstanding - {turn.cache},
                      turns[1..], end);
      }
      HazardBefore(w, cfg, race, t, asked, outstanding, turn);
    }
  }

  lemma HazardBefore(w: World, cfg: Settings, race: Race, t: Instant, asked: set<Url>, outstanding: set<Url>,
                     turn: Turn)
    requires CanTake(w, race, t, outstanding, turn) && !IsHit(w, turn.cache)
    requires Hits(w, asked) <= outstanding
    requires var h := Hold(w, cfg, turn.cache);
             h.Some? ==> HazardAhead(w, cfg, race, turn.at + h.value, asked, outstanding - {turn.cache})
    ensures HazardAhead(w, cfg, race, t, asked, outstanding)
  {
    LatestInvariant(w, cfg, race, t, outstanding, Hits(w, asked), turn);
  }

  lemma HazardStays(w: World, cfg: Settings, race: Race, t: Instant, asked: set<Url>, outstanding: set<Url>)
    requires Hazard(w, race, t, asked)
    ensures HazardAhead(w, cfg, race, t, asked, outstanding)
  {
    var kept := Hits(w, asked);
    var pending := Takeable(w, outstanding, kept);
    LatestNotBefore(w, cfg, race, t, kept, pending);
  }

  ghost predicate AlwaysRight(w: World, cfg: Settings, race: Race, asked: set<Url>) {
    forall turns, end :: Outcomes(w, cfg, race, asked, turns, end) ==> RightAnswer(w, race, asked, end)
  }

  // Computed from latencies and lags alone.
  ghost predicate Safe(w: World, cfg: Settings, race: Race, asked: set<Url>) {
    LatestSelect(w, cfg, race, asked).Some? && !Hazard(w, race, LatestSelect(w, cfg, race, asked).value, asked)
  }

  // Whatever arms the selects take, the bucket answers with a fastest hit in
  // time, or not at all when it has none, if and only if the latest select finds
  // no hazard.
  lemma AlwaysRightIff(w: World, cfg: Settings, race: Race, asked: set<Url>)
    ensures AlwaysRight(w, cfg, race, asked) <==> Safe(w, cfg, race, asked)
  {
    var kept := Hits(w, asked);
    if Safe(w, cfg, race, asked) {
      forall turns, end | Outcomes(w, cfg, race, asked, turns, end)
        ensures RightAnswer(w, race, asked, end)
      {
        if !RightAnswer(w, race, asked, end) {
          WrongIsHazard(w, cfg, race, race.start, asked, asked, turns, end);
        }
      }
    } else {
      var turns, left, end := ReachLatest(w, cfg, race, race.start, asked, kept);
      if LatestSelect(w, cfg, race, asked).Some? {
        var last;
        last, end := HazardMisses(w, cfg, race, LatestSelect(w, cfg, race, asked).value, asked, left);
        PartialEnds(w, cfg, race, race.start, asked, turns, LatestSelect(w, cfg, race, asked).value, left, last, end);
        turns := turns + last;
      }
      assert Outcomes(w, cfg, race, asked, turns, end) && !RightAnswer(w, race, asked, end);
    }
  }

  // --------------------------------- which caches can be late, and the reports

  // The loop can be kept from its end until the deadline without taking a reply
  // of `kept`: the latest select is that late, or nothing of it is due before.
  ghost predicate ReachesDeadline(w: World, race: Race, l: Instant, kept: set<Url>) {
    race.deadline <= l || forall k | k in kept && k in w.replies :: race.deadline <= Due(w, race, k)
  }

  // The bucket can run out of time with c not heard from. Computed from latencies
  // and lags alone.
  ghost predicate CanBeLate(w: World, cfg: Settings, race: Race, asked: set<Url>, c: Url) {
    var kept := Hits(w, asked) + (asked * {c});
    var l := Latest(w, cfg, race, race.start, kept, Takeable(w, asked, kept));
    l.Some? ==> ReachesDeadline(w, race, l.value, kept)
  }

  lemma {:induction false} LateWasPossible(w: World, cfg: Settings, race: Race, t: Instant, outstanding: set<Url>,
                                           kept: set<Url>, turns: seq<Turn>, end: End)
    requires Legal(w, cfg, race, t, outstanding, turns, end) && end.Expired?
    requires kept <= outstanding && CachesOf(turns) !! kept
    ensures var l := Latest(w, cfg, race, t, kept, Takeable(w, outstanding, kept));
            l.Some? ==> ReachesDeadline(w, race, l.value, kept)
    decreases |turns|
  {
    if turns == [] {
      LatestNotBefore(w, cfg, race, t, kept, Takeable(w, outstanding, kept));
    } else {
      var turn := turns[0];
      CachesOfCons(turns);
      LatestInvariant(w, cfg, race, t, outstanding, kept, turn);
      LateWasPossible(w, cfg, race, turn.at + Hold(w, cfg, turn.cache).value, outstanding - {turn.cache}, kept,
                      turns[1..], end);
    }
  }

  lemma {:induction false} PartialLeaves(w: World, cfg: Settings, race: Race, t: Instant, outstanding: set<Url>,
                                         turns: seq<Turn>, t': Instant, left: set<Url>)
    requires Partial(w, cfg, race, t, outstanding, turns, t', left)
    ensures left == outstanding - CachesOf(turns)
    decreases |turns|
  {
    if turns != [] {
      var turn := turns[0];
      CachesOfCons(turns);
      PartialLeaves(w, cfg, race, turn.at + Hold(w, cfg, turn.cache).value, outstanding - {turn.cache}, turns[1..], t',
                    left);
    }
  }

  // The schedule that goes to the latest select and there lets the deadline win:
  // it takes nothing of `kept`, and everything else in reach.
  lemma ExpiresKeeping(w: World, cfg: Settings, race: Race, asked: set<Url>, kept: set<Url>, l: Instant)
    returns (turns: seq<Turn>, end: End)
    requires Hits(w, asked) <= kept <= asked
    requires Latest(w, cfg, race, race.start, kept, Takeable(w, asked, kept)) == Some(l)
    requires ReachesDeadline(w, race, l, kept)
    ensures Outcomes(w, cfg, race, asked, turns, end) && end.Expired?
    ensures CachesOf(turns) !! kept
    ensures forall c | c in Takeable(w, asked, kept) && InReach(w, race, l, kept, c) :: c in CachesOf(turns)
  {
    var left;
    turns, left, end := ReachLatest(w, cfg, race, race.start, asked, kept);
    PartialLeaves(w, cfg, race, race.start, asked, turns, l, left);
    end := Expired(if l < race.deadline then race.deadline else l);
    forall d | d in left && d in w.replies
      ensures l < race.deadline ==> race.deadline <= Due(w, race, d)
    {
      assert d in kept || d in Takeable(w, left, kept);
    }
    assert Legal(w, cfg, race, l, left, [], end);
    PartialEnds(w, cfg, race, race.start, asked, turns, l, left, [], end);
    assert turns + [] == turns;
    forall c | c in Takeable(w, asked, kept) && InReach(w, race, l, kept, c)
      ensures c in CachesOf(turns)
    {
      assert c in left ==> c in Takeable(w, left, kept);
    }
  }

  // Some schedule ends the bucket by its deadline with c not heard from, exactly
  // when the computation says so, if no schedule hangs.
  lemma CanBeLateIff(w: World, cfg: Settings, race: Race, asked: set<Url>, c: Url)
    requires LatestSelect(w, cfg, race, asked).Some?
    ensures CanBeLate(w, cfg, race, asked, c) <==>
            exists turns, end :: Outcomes(w, cfg, race, asked, turns, end) && end.Expired? && c !in CachesOf(turns)
  {
    var kept := Hits(w, asked) + (asked * {c});
    if CanBeLate(w, cfg, race, asked, c) {
      LatestIsThere(w, cfg, race, asked, kept);
      var l := Latest(w, cfg, race, race.start, kept, Takeable(w, asked, kept)).value;
      var turns, end := ExpiresKeeping(w, cfg, race, asked, kept, l);
      LegalFacts(w, cfg, race, race.start, asked, turns, end);
      assert c in CachesOf(turns) ==> c in kept;
      assert Outcomes(w, cfg, race, asked, turns, end);
    }
    forall turns, end | Outcomes(w, cfg, race, asked, turns, end) && end.Expired? && c !in CachesOf(turns)
      ensures CanBeLate(w, cfg, race, asked, c)
    {
      HungTakesNoHit(w, cfg, race, race.start, asked, turns, end);
      LateWasPossible(w, cfg, race, race.start, asked, kept, turns, end);
    }
  }

  // Without a schedule that hangs there is a latest select whatever is kept.
  lemma LatestIsThere(w: World, cfg: Settings, race: Race, asked: set<Url>, kept: set<Url>)
    requires LatestSelect(w, cfg, race, asked).Some?
    requires Hits(w, asked) <= kept <= asked
    ensures Latest(w, cfg, race, race.start, kept, Takeable(w, asked, kept)).Some?
  {
    var turns, left, end := ReachLatest(w, cfg, race, race.start, asked, kept);
    LoopEndsIff(w, cfg, race, asked);
    if Latest(w, cfg, race, race.start, kept, Takeable(w, asked, kept)).None? {
      assert Outcomes(w, cfg, race, asked, turns, end);
    }
  }

  // --------------------------------------- which caches can be heard from in time

  // The bucket can run out of time with all of these caches heard from. Computed
  // from latencies and lags alone.
  ghost predicate CanHearAll(w: World, cfg: Settings, race: Race, asked: set<Url>, must: set<Url>) {
    var hits, l := Hits(w, asked), LatestSelect(w, cfg, race, asked);
    && l.Some? && ReachesDeadline(w, race, l.value, hits)
    && forall c | c in must :: c in Takeable(w, asked, hits) && InReach(w, race, l.value, hits, c)
  }

  // What the loop can have heard, the latest it can be at its select.
  ghost predicate HeardBy(w: World, cfg: Settings, race: Race, t: Instant, outstanding: set<Url>, kept: set<Url>,
                          heard: set<Url>) {
    var l := Latest(w, cfg, race, t, kept, Takeable(w, outstanding, kept));
    l.Some? ==> t <= l.value && forall c | c in heard :: c in w.replies && Due(w, race, c) <= l.value
  }

  lemma {:induction false} HeardWereInReach(w: World, cfg: Settings, race: Race, t: Instant, outstanding: set<Url>,
                                            kept: set<Url>,
                                            turns: seq<Turn>, end: End)
    requires Legal(w, cfg, race, t, outstanding, turns, end) && end.Expired?
    requires kept <= outstanding && CachesOf(turns) !! kept
    ensures HeardBy(w, cfg, race, t, outstanding, kept, CachesOf(turns))
    decreases |turns|
  {
    LatestNotBefore(w, cfg, race, t, kept, Takeable(w, outstanding, kept));
    if turns != [] {
      var turn, rest := turns[0], CachesOf(turns[1..]);
      var at, left := turn.at + Hold(w, cfg, turn.cache).value, outstanding - {turn.cache};
      CachesOfCons(turns);
      assert turn.cache !in kept && rest !! kept && kept <= left;
      HeardWereInReach(w, cfg, race, at, left, kept, turns[1..], end);
      HeardFirst(w, cfg, race, t, outstanding, kept, turn, rest);
    }
  }

  lemma HeardFirst(w: World, cfg: Settings, race: Race, t: Instant, outstanding: set<Url>, kept: set<Url>, turn: Turn,
                   heard: set<Url>)
    requires CanTake(w, race, t, outstanding, turn) && Hold(w, cfg, turn.cache).Some?
    requires kept <= outstanding && turn.cache !in kept
    requires HeardBy(w, cfg, race, turn.at + Hold(w, cfg, turn.cache).value, outstanding - {turn.cache}, kept, heard)
    ensures HeardBy(w, cfg, race, t, outstanding, kept, {turn.cache} + heard)
  {
    LatestInvariant(w, cfg, race, t, outstanding, kept, turn);
  }

  // With a latest select, some schedule ends the bucket by its deadline with all
  // of these caches heard from, exactly when the computation says so.
  lemma CanHearAllIff(w: World, cfg: Settings, race: Race, asked: set<Url>, must: set<Url>)
    requires LatestSelect(w, cfg, race, asked).Some?
    ensures CanHearAll(w, cfg, race, asked, must) <==>
            exists turns, end :: Outcomes(w, cfg, race, asked, turns, end) && end.Expired? && must <= CachesOf(turns)
  {
    var hits, l := Hits(w, asked), LatestSelect(w, cfg, race, asked).value;
    if CanHearAll(w, cfg, race, asked, must) {
      var turns, end := ExpiresKeeping(w, cfg, race, asked, hits, l);
      assert Outcomes(w, cfg, race, asked, turns, end) && must <= CachesOf(turns);
    }
    forall turns, end | Outcomes(w, cfg, race, asked, turns, end) && end.Expired? && must <= CachesOf(turns)
      ensures CanHearAll(w, cfg, race, asked, must)
    {
      HungTakesNoHit(w, cfg, race, race.start, asked, turns, end);
      LegalFacts(w, cfg, race, race.start, asked, turns, end);
      LateWasPossible(w, cfg, race, race.start, asked, hits, turns, end);
      HeardWereInReach(w, cfg, race, race.start, asked, hits, turns, end);
    }
  }

  // A pass over replies none of which holds the loop up for ever has an end.
  lemma {:induction false} NothingHangs(w: World, cfg: Settings, race: Race, t: Instant, kept: set<Url>,
                                        pending: set<Url>)
    requires pending <= w.replies.Keys && forall c | c in pending :: Hold(w, cfg, c).Some?
    ensures Latest(w, cfg, race, t, kept, pending).Some?
    decreases pending
  {
    if pending != {} {
      var c := Soonest(w, pending);
      if InReach(w, race, t, kept, c) {
        var at := if t < Due(w, race, c) then Due(w, race, c) else t;
        NothingHangs(w, cfg, race, at + Hold(w, cfg, c).value, kept, pending - {c});
      }
    }
  }

  // ------------------------------------------------ when the bucket is tried

  function Moved(race: Race, d: Duration): Race {
    Race(race.start + d, race.deadline + d)
  }

  lemma {:induction false} LatestMoves(w: World, cfg: Settings, race: Race, t: Instant, d: Duration, kept: set<Url>,
                                       pending: set<Url>)
    requires pending <= w.replies.Keys
    ensures var l := Latest(w, cfg, race, t, kept, pending);
            Latest(w, cfg, Moved(race, d), t + d, kept, pending) == if l.Some? then Some(l.value + d) else None
    decreases pending
  {
    if pending != {} {
      var c := Soonest(w, pending);
      assert InReach(w, Moved(race, d), t + d, kept, c) == InReach(w, race, t, kept, c);
      if InReach(w, race, t, kept, c) && Hold(w, cfg, c).Some? {
        LatestMoves(w, cfg, race, (if t < Due(w, race, c) then Due(w, race, c) else t) + Hold(w, cfg, c).value, d, kept,
                    pending - {c});
      }
    }
  }

  // Whether a bucket is safe, which of its caches can be late and which can be
  // heard from, depends on what is asked, not on when.
  lemma VerdictMoves(w: World, cfg: Settings, race: Race, asked: set<Url>, d: Duration)
    ensures LatestSelect(w, cfg, Moved(race, d), asked).Some? <==> LatestSelect(w, cfg, race, asked).Some?
    ensures Safe(w, cfg, Moved(race, d), asked) <==> Safe(w, cfg, race, asked)
    ensures forall c :: CanBeLate(w, cfg, Moved(race, d), asked, c) <==> CanBeLate(w, cfg, race, asked, c)
    ensures forall must :: CanHearAll(w, cfg, Moved(race, d), asked, must) <==> CanHearAll(w, cfg, race, asked, must)
  {
    var hits := Hits(w, asked);
    LatestMoves(w, cfg, race, race.start, d, hits, Takeable(w, asked, hits));
    forall c
      ensures CanBeLate(w, cfg, Moved(race, d), asked, c) <==> CanBeLate(w, cfg, race, asked, c)
    {
      LateMoves(w, cfg, race, asked, d, c);
    }
  }

  lemma LateMoves(w: World, cfg: Settings, race: Race, asked: set<Url>, d: Duration, c: Url)
    ensures CanBeLate(w, cfg, Moved(race, d), asked, c) <==> CanBeLate(w, cfg, race, asked, c)
  {
    var kept := Hits(w, asked) + (asked * {c});
    SelectMoves(w, cfg, race, d, kept, Takeable(w, asked, kept));
  }

  lemma SelectMoves(w: World, cfg: Settings, race: Race, d: Duration, kept: set<Url>, pending: set<Url>)
    requires pending <= w.replies.Keys
    ensures var moved := Moved(race, d);
            var l, l' := Latest(w, cfg, race, race.start, kept, pending),
                Latest(w, cfg, moved, moved.start, kept, pending);
            match l
            case None => l' == None
            case Some(at) =>
              && l'.Some?
              && (ReachesDeadline(w, moved, l'.value, kept) <==> ReachesDeadline(w, race, at, kept))
              && forall c | c in w.replies :: InReach(w, moved, l'.value, kept, c) <==> InReach(w, race, at, kept, c)
  {
    LatestMoves(w, cfg, race, race.start, d, kept, pending);
  }

  // ------------------------------------------------------- when reports are swift

  // Reports about these caches are accepted at once.
  ghost predicate Swift(w: World, cfg: Settings, s: set<Url>) {
    forall c | c in s :: LagOf(w, cfg, c) == Some(0)
  }

  // The bucket behaves as promised to the instant.
  ghost predicate Punctual(w: World, race: Race, asked: set<Url>, end: End) {
    && RightAnswer(w, race, asked, end)
    && end.at == if end.Answered? then Due(w, race, end.cache) else race.deadline
  }

  lemma {:induction false} SwiftBucket(w: World, cfg: Settings, race: Race, t: Instant, asked: set<Url>,
                                       outstanding: set<Url>, turns: seq<Turn>, end: End)
    requires Legal(w, cfg, race, t, outstanding, turns, end)
    requires Swift(w, cfg, asked)
    requires race.start <= t <= race.deadline
    requires Hits(w, asked) <= outstanding <= asked
    requires forall c | c in outstanding && c in w.replies :: t <= Due(w, race, c)
    ensures Punctual(w, race, asked, end)
    decreases |turns|
  {
    if turns != [] && !IsHit(w, turns[0].cache) {
      SwiftBucket(w, cfg, race, turns[0].at, asked, outstanding - {turns[0].cache}, turns[1..], end);
    } else if turns == [] {
      assert forall d | d in asked && IsHit(w, d) :: d in Hits(w, asked);
    } else {
      assert forall d | d in asked && IsHit(w, d) :: d in Hits(w, asked);
    }
  }

  // With reports accepted at once, every reply that is due before the deadline is
  // taken before the bucket runs out of time.
  lemma {:induction false} SwiftHears(w: World, cfg: Settings, race: Race, t: Instant, asked: set<Url>,
                                      outstanding: set<Url>,
                                      turns: seq<Turn>, end: End, c: Url)
    requires Legal(w, cfg, race, t, outstanding, turns, end) && end.Expired?
    requires Swift(w, cfg, asked) && outstanding <= asked
    requires forall d | d in outstanding && d in w.replies :: t <= Due(w, race, d)
    requires c in outstanding && c in w.replies && Due(w, race, c) < race.deadline
    ensures c in CachesOf(turns)
    decreases |turns|
  {
    if turns != [] {
      var turn := turns[0];
      CachesOfCons(turns);
      if turn.cache != c {
        SwiftHears(w, cfg, race, turn.at, asked, outstanding - {turn.cache}, turns[1..], end, c);
      }
    }
  }

  lemma SwiftIsSafe(w: World, cfg: Settings, race: Race, asked: set<Url>)
    requires race.start <= race.deadline && Swift(w, cfg, asked)
    ensures Safe(w, cfg, race, asked)
  {
    forall turns, end | Outcomes(w, cfg, race, asked, turns, end)
      ensures RightAnswer(w, race, asked, end)
    {
      SwiftBucket(w, cfg, race, race.start, asked, asked, turns, end);
    }
    AlwaysRightIff(w, cfg, race, asked);
  }

  // ------------------------------------------------------------ two witnesses

  // A cache that fails at once, and whose report takes as long as the timeout,
  // hides a hit that was ready before the deadline; and one whose report is
  // never accepted keeps the loop from ever ending.
  lemma SlowReportHidesHit(failing: Url, serving: Url, timeout: Duration, latency: Duration, start: Instant,
                           lag: Option<Duration>)
    requires failing != serving && latency < timeout
    requires lag.Some? ==> lag.value >= timeout
    ensures var w := World(map[failing := Reply(0, Failed), serving := Reply(latency, Found)], _ => lag);
            var cfg := Settings(map[], timeout, true);
            var race := Race(start, start + timeout);
            var end := if lag.Some? then Expired(start + lag.value) else Hung(failing, start);
            && Outcomes(w, cfg, race, {failing, serving}, [Turn(failing, start)], end)
            && !RightAnswer(w, race, {failing, serving}, end)
            && !Safe(w, cfg, race, {failing, serving})
  {
    var w := World(map[failing := Reply(0, Failed), serving := Reply(latency, Found)], _ => lag);
    var cfg := Settings(map[], timeout, true);
    var race := Race(start, start + timeout);
    HoldsUp(w, cfg, race, failing, serving, lag);
    AlwaysRightIff(w, cfg, race, {failing, serving});
  }

  lemma HoldsUp(w: World, cfg: Settings, race: Race, failing: Url, serving: Url, lag: Option<Duration>)
    requires failing in w.replies && w.replies[failing] == Reply(0, Failed)
    requires IsHit(w, serving) && Due(w, race, serving) < race.deadline
    requires cfg.reporting && w.lag(failing) == lag
    requires lag.Some? ==> race.deadline <= race.start + lag.value
    ensures var end := if lag.Some? then Expired(race.start + lag.value) else Hung(failing, race.start);
            && Outcomes(w, cfg, race, {failing, serving}, [Turn(failing, race.start)], end)
            && !RightAnswer(w, race, {failing, serving}, end)
  {
    var asked, turns := {failing, serving}, [Turn(failing, race.start)];
    var end := if lag.Some? then Expired(race.start + lag.value) else Hung(failing, race.start);
    assert Ready(w, race, failing, race.start);
    assert CanTake(w, race, race.start, asked, turns[0]);
    assert turns[1..] == [];
    if lag.Some? {
      assert Legal(w, cfg, race, race.start + lag.value, asked - {failing}, turns[1..], end);
      assert Legal(w, cfg, race, race.start, asked, turns, end);
    }
    assert serving in asked;
  }
}
