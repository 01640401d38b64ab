// When the manager asks for adverts, told from the steps and clocks of a run.

module Refresh {
  import opened Types
  import opened Discovery
  import opened ManagerSteps
  import opened System

  // Step m took in an advert.
  ghost predicate TookAdvert(states: seq<State>, labels: seq<Label>, m: nat) {
    m < |labels| && m < |states| && labels[m].EventIn? && states[m].events.Some? && states[m].events.value.AdvFrom?
  }

  // Before state n an advert was taken in, less than the refresh time ago.
  ghost predicate HeardLately(cfg: Config, states: seq<State>, labels: seq<Label>, n: nat) {
    n < |states| && exists m: nat ::
        m < n && TookAdvert(states, labels, m) && states[n].clock < states[m].clock + cfg.refreshTime
  }

  ghost predicate Noted(states: seq<State>, labels: seq<Label>, n: nat) {
    && n < |states|
    && (forall m: nat | m < n && TookAdvert(states, labels, m) ::
          states[n].mgr.lastAdv.Some? && states[m].clock <= states[n].mgr.lastAdv.value)
    && (states[n].mgr.lastAdv.Some? ==>
          exists m: nat :: m < n && TookAdvert(states, labels, m) && states[m].clock == states[n].mgr.lastAdv.value)
  }

  lemma {:induction false} AdvertsAreNoted(node: Node, cfg: Config, states: seq<State>, labels: seq<Label>, n: nat)
    requires IsRun(node, cfg, states, labels) && n < |states|
    ensures Noted(states, labels, n)
  {
    if n > 0 {
      AdvertsAreNoted(node, cfg, states, labels, n - 1);
      if TookAdvert(states, labels, n - 1) {
        forall m: nat | m < n && TookAdvert(states, labels, m)
          ensures states[m].clock <= states[n - 1].clock
        {
          ClockAdvances(node, cfg, states, labels, m, n - 1);
        }
      }
    }
  }

  // In every run: when the interval fires, the manager goes on to ask for adverts
  // if and only if none was taken in less than the refresh time ago, and
  // otherwise nothing changes.
  lemma IntervalAsksIff(node: Node, cfg: Config, states: seq<State>, labels: seq<Label>, n: nat)
    requires IsRun(node, cfg, states, labels) && n < |labels| && labels[n] == Interval
    ensures states[n + 1].mpc == SendingReq <==> !HeardLately(cfg, states, labels, n)
    ensures states[n + 1] == if HeardLately(cfg, states, labels, n) then states[n] else states[n].(mpc := SendingReq)
  {
    AdvertsAreNoted(node, cfg, states, labels, n);
  }

  // It begins to ask at no other steps than those, and on every network change.
  lemma AsksIff(node: Node, cfg: Config, states: seq<State>, labels: seq<Label>, n: nat)
    requires IsRun(node, cfg, states, labels) && n < |labels|
    ensures states[n].mpc != SendingReq && states[n + 1].mpc == SendingReq <==>
            || (labels[n] == Interval && !HeardLately(cfg, states, labels, n))
            || (labels[n] == EventIn && states[n].events == Some(NetworkChanged))
  {
    if labels[n] == Interval {
      IntervalAsksIff(node, cfg, states, labels, n);
    }
  }
}
