// How long a cache that failed stays timed out.

module Timeouts {
  import opened Types
  import opened ManagerSteps
  import opened ManagerRuns

  // The end of a cache's timeout, before every instant when it has none.
  function Until(meta: Meta): int {
    match meta.timedOutUntil
    case None => -1
    case Some(t) => t
  }

  // A request skips a cache whose timeout is not over.
  predicate Skipped(meta: Meta, now: Instant) {
    meta.timedOutUntil.Some? && meta.timedOutUntil.value > now
  }

  // Reports are handled at instants that never decrease.
  ghost predicate Clocked(inputs: seq<Input>) {
    forall i, j | 0 <= i < j < |inputs| && inputs[i].Report? && inputs[j].Report? :: inputs[i].now <= inputs[j].now
  }

  // No timeout reaches further than its length from `now`.
  ghost predicate Bounded(caches: map<Url, Meta>, now: Instant) {
    forall u | u in caches && caches[u].timedOutUntil.Some? ::
      caches[u].strategy.TimeoutFor? && caches[u].timedOutUntil.value <= now + caches[u].strategy.timeout
  }

  lemma {:induction false} TimeoutsBounded(cfg: Config, states: seq<ManagerState>, inputs: seq<Input>, n: nat,
                                           now: Instant)
    requires IsRun(cfg, states, inputs) && n < |states|
    requires forall i | 0 <= i < n && inputs[i].Report? :: inputs[i].now <= now
    ensures Bounded(states[n].caches, now)
  {
    if n == 0 {
      ConfiguredKeys(cfg.binaryCaches);
    } else {
      TimeoutsBounded(cfg, states, inputs, n - 1, now);
      if inputs[n - 1].Tick? {
        TickIsOrderIndependent(cfg, states[n - 1], inputs[n - 1].order);
      }
    }
  }

  lemma StepKeepsTimeout(cfg: Config, states: seq<ManagerState>, inputs: seq<Input>, k: nat, u: Url)
    requires IsRun(cfg, states, inputs) && Clocked(inputs) && k < |inputs|
    requires u in states[k].caches && u in states[k + 1].caches
    ensures states[k + 1].caches[u].strategy == states[k].caches[u].strategy
    ensures Until(states[k].caches[u]) <= Until(states[k + 1].caches[u])
  {
    match inputs[k]
    case Tick(order) =>
      TickIsOrderIndependent(cfg, states[k], order);
    case Report(bad, now) =>
      TimeoutsBounded(cfg, states, inputs, k, now);
    case _ =>
  }

  // While a cache stays in the table its timeout never moves back.
  lemma {:induction false} TimeoutNeverShrinks(cfg: Config, states: seq<ManagerState>, inputs: seq<Input>, i: nat,
                                               j: nat, u: Url)
    requires IsRun(cfg, states, inputs) && Clocked(inputs) && i <= j < |states|
    requires forall k | i <= k <= j :: u in states[k].caches
    ensures states[j].caches[u].strategy == states[i].caches[u].strategy
    ensures Until(states[i].caches[u]) <= Until(states[j].caches[u])
    decreases j
  {
    if i < j {
      TimeoutNeverShrinks(cfg, states, inputs, i, j - 1, u);
      StepKeepsTimeout(cfg, states, inputs, j - 1, u);
    }
  }

  // A report handled at T times the cache out until T + d at least, for every
  // later table it has not left since: no request reading such a table asks
  // that cache at an instant before T + d.
  lemma ReportedCacheIsLeftAlone(cfg: Config, states: seq<ManagerState>, inputs: seq<Input>, i: nat, j: nat, u: Url,
                                 now: Instant)
    requires IsRun(cfg, states, inputs) && Clocked(inputs) && i < |inputs| && i < j < |states|
    requires inputs[i].Report? && inputs[i].bad == u
    requires forall k | i <= k <= j :: u in states[k].caches
    requires states[i].caches[u].strategy.TimeoutFor?
    requires now < inputs[i].now + states[i].caches[u].strategy.timeout
    ensures Skipped(states[j].caches[u], now)
  {
    TimeoutNeverShrinks(cfg, states, inputs, i + 1, j, u);
  }
}
