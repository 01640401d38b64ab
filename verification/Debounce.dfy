// Collapsing a stream of events into one tick per burst.

module Debounce {
  import opened Types

  // Events i - 1 and i belong to the same burst. When the quiet period ends at
  // the very instant an event is there, either arm may win: `timerWins` says
  // which one did.
  predicate Joined(arrivals: seq<Instant>, timeout: Duration, timerWins: seq<bool>, i: nat)
    requires |arrivals| <= |timerWins| && 0 < i < |arrivals|
  {
    || arrivals[i] < arrivals[i - 1] + timeout
    || (arrivals[i] == arrivals[i - 1] + timeout && !timerWins[i])
  }

  // `cuts` lists, in order, where each maximal burst among the first n events
  // ends.
  ghost predicate SplitsIntoBursts(arrivals: seq<Instant>, timeout: Duration, timerWins: seq<bool>, n: nat,
                                   cuts: seq<nat>)
    requires |arrivals| <= |timerWins| && n <= |arrivals|
  {
    && (forall k | 0 <= k < |cuts| :: 0 < cuts[k] <= n)
    && (forall k, l | 0 <= k < l < |cuts| :: cuts[k] < cuts[l])
    && (n > 0 <==> n in cuts)
    && (forall i | 0 < i < n :: i in cuts <==> !Joined(arrivals, timeout, timerWins, i))
  }

  function Later(a: Instant, b: Instant): Instant {
    if a < b then b else a
  }

  // `holds` says how long the consumer keeps the task from its input when it
  // sends tick k, and is None when that tick is never taken.
  type Consumer = nat -> Option<Duration>

  // When the task is back at its input for burst k.
  function FreeFor(ticks: seq<Instant>, holds: Consumer, k: nat): Instant
    requires k <= |ticks|
  {
    if k == 0 then 0 else ticks[k - 1] + holds(k - 1).GetOr(0)
  }

  predicate InBurst(cuts: seq<nat>, k: nat, i: nat)
    requires k < |cuts|
  {
    (k > 0 ==> cuts[k - 1] <= i) && i < cuts[k]
  }

  // An event is taken when it arrives, or when the task is back at its input.
  ghost predicate TakenInTurn(arrivals: seq<Instant>, holds: Consumer, received: seq<Instant>, ticks: seq<Instant>,
                              cuts: seq<nat>)
    requires |received| <= |arrivals| && |ticks| == |cuts|
  {
    forall k, i | 0 <= k < |cuts| && 0 <= i < |received| && InBurst(cuts, k, i) ::
      received[i] == Later(arrivals[i], FreeFor(ticks, holds, k))
  }

  // Event c, which the task could take from the instant `free` on, is not there
  // before the quiet period is over.
  predicate Apart(arrivals: seq<Instant>, timerWins: seq<bool>, c: nat, timer: Instant, free: Instant)
    requires c < |arrivals| <= |timerWins|
  {
    var at := Later(arrivals[c], free);
    timer < at || (timer == at && timerWins[c])
  }

  // The tick of burst k comes a quiet period after its last event, and the burst
  // ended because the next event was not there in time.
  ghost predicate EndsRight(arrivals: seq<Instant>, timeout: Duration, timerWins: seq<bool>, holds: Consumer,
                            received: seq<Instant>, ticks: seq<Instant>, cuts: seq<nat>, k: nat)
    requires |received| <= |arrivals| <= |timerWins| && k < |ticks| == |cuts|
  {
    && 0 < cuts[k] <= |received|
    && ticks[k] == received[cuts[k] - 1] + timeout
    && (cuts[k] < |arrivals| ==> Apart(arrivals, timerWins, cuts[k], ticks[k], FreeFor(ticks, holds, k)))
  }

  // The bursts taken so far, each with its tick.
  ghost predicate Bursts(arrivals: seq<Instant>, timeout: Duration, timerWins: seq<bool>, holds: Consumer,
                         received: seq<Instant>, ticks: seq<Instant>, cuts: seq<nat>)
    requires |arrivals| <= |timerWins|
  {
    && |received| <= |arrivals| && |ticks| == |cuts|
    && (cuts == [] <==> received == [])
    && SplitsIntoBursts(received, timeout, timerWins, |received|, cuts)
    && TakenInTurn(arrivals, holds, received, ticks, cuts)
    && (forall k: nat | k < |cuts| :: EndsRight(arrivals, timeout, timerWins, holds, received, ticks, cuts, k))
    && (forall k | 0 <= k < |cuts| - 1 :: holds(k).Some?)
  }

  // The select loop of one burst, entered at the instant `free` with the first
  // event of the burst still to be taken.
  method TakeBurst(arrivals: seq<Instant>, timeout: Duration, timerWins: seq<bool>, free: Instant, before: seq<Instant>)
    returns (received: seq<Instant>)
    requires |before| < |arrivals| <= |timerWins|
    ensures TookBurst(arrivals, timeout, timerWins, free, before, received)
  {
    var i := |before|;
    received := before + [Later(arrivals[i], free)];
    var timer := received[i] + timeout;
    i := i + 1;
    while i < |arrivals| && (Later(arrivals[i], free) < timer || (Later(arrivals[i], free) == timer && !timerWins[i]))
      invariant |before| < i == |received| <= |arrivals| && received[..|before|] == before
      invariant timer == received[i - 1] + timeout
      invariant forall j | |before| <= j < i :: received[j] == Later(arrivals[j], free)
      invariant forall j | |before| < j < i :: Joined(received, timeout, timerWins, j)
    {
      JoinedGrows(received, Later(arrivals[i], free), timeout, timerWins);
      received := received + [Later(arrivals[i], free)];
      timer := received[i] + timeout;
      i := i + 1;
    }
  }

  lemma JoinedGrows(received: seq<Instant>, at: Instant, timeout: Duration, timerWins: seq<bool>)
    requires |received| < |timerWins|
    ensures forall j | 0 < j < |received| ::
              Joined(received + [at], timeout, timerWins, j) == Joined(received, timeout, timerWins, j)
  {
  }

  // What a burst took, and how it came to stop.
  ghost predicate TookBurst(arrivals: seq<Instant>, timeout: Duration, timerWins: seq<bool>, free: Instant,
                            before: seq<Instant>, received: seq<Instant>)
    requires |arrivals| <= |timerWins|
  {
    && |before| < |received| <= |arrivals| && received[..|before|] == before
    && (forall i | |before| <= i < |received| :: received[i] == Later(arrivals[i], free))
    && (forall i | |before| < i < |received| :: Joined(received, timeout, timerWins, i))
    && (|received| < |arrivals| ==> Apart(arrivals, timerWins, |received|, received[|received| - 1] + timeout, free))
  }

  // The debouncing task. The input ends after the last arrival; a tick that is
  // pending then is still sent before the output ends. Bursts are bursts of the
  // events as they are taken, and only a tick that is never taken stops it.
  method Run(arrivals: seq<Instant>, timeout: Duration, timerWins: seq<bool>, holds: Consumer)
    returns (received: seq<Instant>, ticks: seq<Instant>, cuts: seq<nat>)
    requires |arrivals| <= |timerWins|
    requires forall i, j | 0 <= i < j < |arrivals| :: arrivals[i] <= arrivals[j]
    ensures Bursts(arrivals, timeout, timerWins, holds, received, ticks, cuts)
    ensures |received| < |arrivals| ==> cuts != [] && holds(|cuts| - 1).None?
  {
    received, ticks, cuts := [], [], [];
    var free: Option<Instant> := Some(0);
    while |received| < |arrivals| && free.Some?
      invariant Bursts(arrivals, timeout, timerWins, holds, received, ticks, cuts)
      invariant BackAtInput(holds, ticks, free)
      decreases |arrivals| - |received|
    {
      received, ticks, cuts, free := RunBurst(arrivals, timeout, timerWins, holds, free.value, received, ticks, cuts);
    }
  }

  // One turn of the outer loop: a burst, and the tick after it.
  method RunBurst(arrivals: seq<Instant>, timeout: Duration, timerWins: seq<bool>, holds: Consumer, free: Instant,
                  before: seq<Instant>, ticks: seq<Instant>, cuts: seq<nat>)
    returns (received: seq<Instant>, ticks': seq<Instant>, cuts': seq<nat>, free': Option<Instant>)
    requires |before| < |arrivals| <= |timerWins|
    requires Bursts(arrivals, timeout, timerWins, holds, before, ticks, cuts) && BackAtInput(holds, ticks, Some(free))
    ensures |before| < |received|
    ensures Bursts(arrivals, timeout, timerWins, holds, received, ticks', cuts') && BackAtInput(holds, ticks', free')
  {
    received := TakeBurst(arrivals, timeout, timerWins, free, before);
    var timer := received[|received| - 1] + timeout;
    ticks', cuts' := ticks + [timer], cuts + [|received|];
    OneMoreTick(arrivals, timeout, timerWins, holds, free, before, received, ticks, ticks', cuts, cuts');
    match holds(|ticks|) {
      case None => free' := None;
      case Some(hold) => free' := Some(timer + hold);
    }
  }

  // When the task is back at its input, None when the last tick is never taken.
  ghost predicate BackAtInput(holds: Consumer, ticks: seq<Instant>, free: Option<Instant>) {
    && (ticks != [] ==> (free.Some? <==> holds(|ticks| - 1).Some?))
    && if free.Some? then free.value == FreeFor(ticks, holds, |ticks|) else ticks != []
  }

  lemma OneMoreTick(arrivals: seq<Instant>, timeout: Duration, timerWins: seq<bool>, holds: Consumer, free: Instant,
                    before: seq<Instant>, received: seq<Instant>,
                    ticks: seq<Instant>, ticks': seq<Instant>, cuts: seq<nat>, cuts': seq<nat>)
    requires |before| < |arrivals| <= |timerWins|
    requires Bursts(arrivals, timeout, timerWins, holds, before, ticks, cuts) && BackAtInput(holds, ticks, Some(free))
    requires TookBurst(arrivals, timeout, timerWins, free, before, received)
    requires ticks' == ticks + [received[|received| - 1] + timeout] && cuts' == cuts + [|received|]
    ensures Bursts(arrivals, timeout, timerWins, holds, received, ticks', cuts')
  {
    BurstsDisjoint(arrivals, timeout, timerWins, holds, free, before, received, ticks, cuts);
    OneMoreBurst(timeout, timerWins, before, received, cuts);
    OneMoreTaken(arrivals, holds, before, received, ticks, ticks', cuts, cuts');
    forall k: nat | k < |cuts'|
      ensures EndsRight(arrivals, timeout, timerWins, holds, received, ticks', cuts', k)
    {
      if k < |cuts| {
        assert EndsRight(arrivals, timeout, timerWins, holds, before, ticks, cuts, k);
      }
    }
  }

  lemma BurstsDisjoint(arrivals: seq<Instant>, timeout: Duration, timerWins: seq<bool>, holds: Consumer, free: Instant,
                       before: seq<Instant>, received: seq<Instant>,
                       ticks: seq<Instant>, cuts: seq<nat>)
    requires |before| < |arrivals| <= |timerWins|
    requires Bursts(arrivals, timeout, timerWins, holds, before, ticks, cuts) && BackAtInput(holds, ticks, Some(free))
    requires TookBurst(arrivals, timeout, timerWins, free, before, received)
    ensures cuts != [] ==> cuts[|cuts| - 1] == |before|
    ensures before != [] ==> !Joined(received, timeout, timerWins, |before|)
  {
    if cuts != [] {
      var last := |cuts| - 1;
      var k :| 0 <= k < |cuts| && cuts[k] == |before|;
      assert EndsRight(arrivals, timeout, timerWins, holds, before, ticks, cuts, last);
      assert received[|before| - 1] == before[|before| - 1];
    }
  }

  lemma OneMoreTaken(arrivals: seq<Instant>, holds: Consumer, before: seq<Instant>, received: seq<Instant>,
                     ticks0: seq<Instant>, ticks: seq<Instant>, cuts0: seq<nat>, cuts: seq<nat>)
    requires |before| < |received| <= |arrivals| && received[..|before|] == before
    requires |ticks0| == |cuts0| && |ticks| == |cuts|
    requires TakenInTurn(arrivals, holds, before, ticks0, cuts0)
    requires ticks0 <= ticks && cuts == cuts0 + [|received|]
    requires if cuts0 == [] then before == [] else cuts0[|cuts0| - 1] == |before|
    requires forall k, l | 0 <= k < l < |cuts0| :: cuts0[k] < cuts0[l]
    requires forall i | |before| <= i < |received| :: received[i] == Later(arrivals[i], FreeFor(ticks0, holds, |cuts0|))
    ensures TakenInTurn(arrivals, holds, received, ticks, cuts)
  {
    forall k, i | 0 <= k < |cuts| && 0 <= i < |received| && InBurst(cuts, k, i)
      ensures received[i] == Later(arrivals[i], FreeFor(ticks, holds, k))
    {
      if k < |cuts0| {
        assert InBurst(cuts0, k, i) && i < |before| && received[i] == before[i];
      }
    }
  }

  lemma OneMoreBurst(timeout: Duration, timerWins: seq<bool>, before: seq<Instant>, received: seq<Instant>,
                     cuts: seq<nat>)
    requires |before| < |received| <= |timerWins| && received[..|before|] == before
    requires SplitsIntoBursts(before, timeout, timerWins, |before|, cuts)
    requires before != [] ==> !Joined(received, timeout, timerWins, |before|)
    requires forall j | |before| < j < |received| :: Joined(received, timeout, timerWins, j)
    ensures SplitsIntoBursts(received, timeout, timerWins, |received|, cuts + [|received|])
  {
  }

  // An event is taken when it arrives or, if that is later, when the consumer has
  // taken the tick before; and a burst ends when the next event is there no sooner
  // than its tick.
  lemma TakenWhenBack(arrivals: seq<Instant>, timeout: Duration, timerWins: seq<bool>, holds: Consumer,
                      received: seq<Instant>, ticks: seq<Instant>, cuts: seq<nat>, k: nat, i: nat)
    requires |arrivals| <= |timerWins|
    requires Bursts(arrivals, timeout, timerWins, holds, received, ticks, cuts)
    requires k < |cuts| && i < |received| && InBurst(cuts, k, i)
    ensures k == 0 ==> received[i] == arrivals[i]
    ensures k > 0 ==> holds(k - 1).Some?
    ensures k > 0 && arrivals[i] <= ticks[k - 1] + holds(k - 1).value ==>
              received[i] == ticks[k - 1] + holds(k - 1).value
    ensures k > 0 && ticks[k - 1] + holds(k - 1).value <= arrivals[i] ==> received[i] == arrivals[i]
    ensures cuts[k] < |received| ==> ticks[k] <= received[cuts[k]]
    ensures ticks[k] == received[cuts[k] - 1] + timeout
  {
    assert EndsRight(arrivals, timeout, timerWins, holds, received, ticks, cuts, k);
    assert received[i] == Later(arrivals[i], FreeFor(ticks, holds, k));
    if cuts[k] < |received| {
      assert cuts[k] in cuts && !Joined(received, timeout, timerWins, cuts[k]);
    }
  }

  // A consumer that takes every tick at once.
  ghost predicate Prompt(holds: Consumer) {
    forall k :: holds(k) == Some(0)
  }

  // Then every event is taken when it arrives, so that the bursts are bursts of
  // the arrivals.
  lemma PromptConsumer(arrivals: seq<Instant>, timeout: Duration, timerWins: seq<bool>, holds: Consumer,
                       received: seq<Instant>, ticks: seq<Instant>, cuts: seq<nat>)
    requires |arrivals| <= |timerWins| && forall i, j | 0 <= i < j < |arrivals| :: arrivals[i] <= arrivals[j]
    requires Bursts(arrivals, timeout, timerWins, holds, received, ticks, cuts) && Prompt(holds)
    ensures received == arrivals[..|received|]
  {
    forall i | 0 <= i < |received|
      ensures received[i] == arrivals[i]
    {
      var k := BurstOf(cuts, |received|, i);
      PromptTakes(arrivals, timeout, timerWins, holds, received, ticks, cuts, k, i);
    }
  }

  lemma {:induction false} BurstOf(cuts: seq<nat>, n: nat, i: nat) returns (k: nat)
    requires n in cuts && i < n
    ensures k < |cuts| && InBurst(cuts, k, i)
    decreases |cuts|
  {
    k := |cuts| - 1;
    if k > 0 && (cuts[k] <= i || i < cuts[k - 1]) {
      var shorter := cuts[..k];
      assert forall j | 0 <= j < k :: shorter[j] == cuts[j];
      var m := if cuts[k] <= i then n else cuts[k - 1];
      assert m in shorter;
      k := BurstOf(shorter, m, i);
      assert InBurst(shorter, k, i);
    }
  }

  lemma {:induction false} PromptTakes(arrivals: seq<Instant>, timeout: Duration, timerWins: seq<bool>, holds: Consumer,
                                       received: seq<Instant>, ticks: seq<Instant>, cuts: seq<nat>, k: nat, i: nat)
    requires |arrivals| <= |timerWins| && forall i, j | 0 <= i < j < |arrivals| :: arrivals[i] <= arrivals[j]
    requires Bursts(arrivals, timeout, timerWins, holds, received, ticks, cuts) && Prompt(holds)
    requires k < |cuts| && i < |received| && InBurst(cuts, k, i)
    ensures FreeFor(ticks, holds, k) <= arrivals[i] && received[i] == arrivals[i]
    decreases k
  {
    if k > 0 {
      var c := cuts[k - 1];
      assert InBurst(cuts, k - 1, c - 1);
      PromptTakes(arrivals, timeout, timerWins, holds, received, ticks, cuts, k - 1, c - 1);
      assert EndsRight(arrivals, timeout, timerWins, holds, received, ticks, cuts, k - 1);
    }
    assert received[i] == Later(arrivals[i], FreeFor(ticks, holds, k));
  }

  // The quiet period after a burst is over when the next burst begins, and it
  // is not over before any event inside the burst.
  lemma TicksFallBetweenBursts(arrivals: seq<Instant>, timeout: Duration, timerWins: seq<bool>, cuts: seq<nat>)
    requires |arrivals| <= |timerWins|
    requires SplitsIntoBursts(arrivals, timeout, timerWins, |arrivals|, cuts)
    ensures forall k | 0 <= k < |cuts| && cuts[k] < |arrivals| :: arrivals[cuts[k] - 1] + timeout <= arrivals[cuts[k]]
    ensures forall i | 0 < i < |arrivals| && i !in cuts :: arrivals[i] <= arrivals[i - 1] + timeout
  {
    forall k | 0 <= k < |cuts| && cuts[k] < |arrivals|
      ensures arrivals[cuts[k] - 1] + timeout <= arrivals[cuts[k]]
    {
      assert cuts[k] in cuts;
    }
  }

  // The split, and so the sequence of ticks, is determined by the arrivals.
  lemma {:induction false} SplitIsUnique(arrivals: seq<Instant>, timeout: Duration, timerWins: seq<bool>, c1: seq<nat>,
                                         c2: seq<nat>)
    requires |arrivals| <= |timerWins|
    requires SplitsIntoBursts(arrivals, timeout, timerWins, |arrivals|, c1)
    requires SplitsIntoBursts(arrivals, timeout, timerWins, |arrivals|, c2)
    ensures c1 == c2
  {
    assert forall i :: i in c1 <==> i in c2;
    AscendingUnique(c1, c2);
  }

  lemma {:induction false} AscendingUnique(c1: seq<nat>, c2: seq<nat>)
    requires forall k, l | 0 <= k < l < |c1| :: c1[k] < c1[l]
    requires forall k, l | 0 <= k < l < |c2| :: c2[k] < c2[l]
    requires forall i :: i in c1 <==> i in c2
    ensures c1 == c2
  {
    assert c1 == [] || c1[0] in c1;
    assert c2 == [] || c2[0] in c2;
    if c1 != [] && c2 != [] {
      assert c1[0] in c2 && c2[0] in c1;
      assert c1[0] == c2[0];
      var d1, d2 := c1[1..], c2[1..];
      forall i
        ensures i in d1 <==> i in d2
      {
        if i in d1 {
          assert i in c2;
        }
        if i in d2 {
          assert i in c1;
        }
      }
      AscendingUnique(d1, d2);
      assert c1 == [c1[0]] + d1 && c2 == [c2[0]] + d2;
    }
  }
}
