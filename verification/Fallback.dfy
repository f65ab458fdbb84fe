/**
 The fallback health machine: a failure counter per metric in the ScaledObject status,
 fed by the results of many metrics and pruned when the HPA is rebuilt, and the value
 that stands in for a metric that failed too often.
 */
module Fallback {
  import opened Common

  datatype Behaviour = Static | CurrentReplicas | IfHigher | IfLower | Unset

  /** `threshold` is FailureThreshold, `replicas` the replica count to fall back to. */
  datatype Policy = Policy(threshold: int, replicas: int, behaviour: Behaviour)

  datatype MetricType = AverageValue | Value | Utilization

  /** A metric target in milli units. */
  datatype Target = Target(metricType: MetricType, milli: int)

  /** Scaling modifiers; `target` is None when it does not parse as an integer. */
  datatype Modifiers = Modifiers(target: Option<int>, metricType: MetricType)

  datatype Config = Config(policy: Option<Policy>, modifiers: Option<Modifiers>)

  datatype Health = Health(failures: int, failing: bool)

  /** The health map and the Fallback condition. */
  datatype Status = Status(health: map<string, Health>, falling: bool)

  /** `HasValidFallback`, for a ScaledObject that has a fallback at all. */
  predicate Enabled(cfg: Config) {
    && cfg.policy.Some? && cfg.policy.value.threshold >= 0 && cfg.policy.value.replicas >= 0
    && (cfg.modifiers.Some? ==> cfg.modifiers.value.target.Some? && cfg.modifiers.value.target.value > 0)
  }

  /** `getHealthStatus`: an unknown metric starts happy. */
  function HealthOf(health: map<string, Health>, metric: string): Health {
    if metric in health then health[metric] else Health(0, false)
  }

  function HealthAfter(was: Health, ok: bool): Health {
    if ok then Health(0, false) else Health(Wrap32(was.failures + 1), true)
  }

  predicate Over(h: Health, threshold: int) {
    h.failing && h.failures > threshold
  }

  /** `fallbackExistsInScaledObject`. */
  predicate FallbackExists(health: map<string, Health>, threshold: int) {
    exists m :: m in health && Over(health[m], threshold)
  }

  /** The status after one result. The condition is computed from the health map before the result. */
  function Observe(cfg: Config, status: Status, metric: string, ok: bool): Status {
    if !Enabled(cfg) then status
    else Status(status.health[metric := HealthAfter(HealthOf(status.health, metric), ok)],
                FallbackExists(status.health, cfg.policy.value.threshold))
  }

  function Prune(status: Status, names: set<string>): Status {
    status.(health := map m | m in status.health && m in names :: status.health[m])
  }

  // ---- Histories -----------------------------------------------------------

  /** A result of one metric, or a reconcile that keeps the health of the named metrics only. */
  datatype Event = Result(metric: string, ok: bool) | Reconciled(names: set<string>)

  function Replay(cfg: Config, history: seq<Event>): Status {
    if history == [] then Status(map[], false) else
      var before := Replay(cfg, history[..|history| - 1]);
      match history[|history| - 1]
      case Result(m, ok) => Observe(cfg, before, m, ok)
      case Reconciled(names) => Prune(before, names)
  }

  predicate Drops(e: Event, m: string) {
    e.Reconciled? && m !in e.names
  }

  predicate Resets(e: Event, m: string) {
    e == Result(m, true) || Drops(e, m)
  }

  /** Some result of m came after the last pruning of m. */
  ghost predicate Retained(history: seq<Event>, m: string) {
    exists i :: && 0 <= i < |history| && history[i].Result? && history[i].metric == m
                && forall j :: i < j < |history| ==> !Drops(history[j], m)
  }

  /** The positions of the errors of m that nothing has reset since. */
  function Trail(history: seq<Event>, m: string): set<int> {
    set i | && 0 <= i < |history| && history[i] == Result(m, false)
            && forall j :: i < j < |history| ==> !Resets(history[j], m)
  }

  lemma TrailExtend(history: seq<Event>, e: Event, m: string)
    ensures Trail(history + [e], m) == (if Resets(e, m) then {} else Trail(history, m)) +
                                       if e == Result(m, false) then {|history|} else {}
  {
    var h := history + [e];
    assert h[|history|] == e;
    forall i | 0 <= i < |history| && history[i] == Result(m, false)
      ensures i in Trail(h, m) <==> i in Trail(history, m) && !Resets(e, m)
    {
      assert h[i] == history[i];
      if i in Trail(history, m) && !Resets(e, m) {
        forall j | i < j < |h| ensures !Resets(h[j], m) {
          assert j < |history| ==> h[j] == history[j];
        }
      }
      if i in Trail(h, m) {
        forall j | i < j < |history| ensures !Resets(history[j], m) {
          assert h[j] == history[j];
        }
      }
    }
  }

  lemma TrailSize(history: seq<Event>, e: Event, m: string)
    ensures |Trail(history + [e], m)|
         == (if Resets(e, m) then 0 else |Trail(history, m)|) + if e == Result(m, false) then 1 else 0
  {
    TrailExtend(history, e, m);
    assert |history| !in Trail(history, m);
  }

  lemma RetainedExtend(history: seq<Event>, e: Event, m: string)
    ensures Retained(history + [e], m) <==> (e.Result? && e.metric == m) || (Retained(history, m) && !Drops(e, m))
  {
    var h := history + [e];
    assert h[|history|] == e;
    if Retained(history, m) && !Drops(e, m) {
      var i :| && 0 <= i < |history| && history[i].Result? && history[i].metric == m
               && forall j :: i < j < |history| ==> !Drops(history[j], m);
      assert h[i] == history[i];
      forall j | i < j < |h| ensures !Drops(h[j], m) {
        assert j < |history| ==> h[j] == history[j];
      }
    }
    if Retained(h, m) && !(e.Result? && e.metric == m) {
      var i :| && 0 <= i < |h| && h[i].Result? && h[i].metric == m && forall j :: i < j < |h| ==> !Drops(h[j], m);
      assert i < |history| && history[i] == h[i];
      forall j | i < j < |history| ensures !Drops(history[j], m) {
        assert h[j] == history[j];
      }
    }
  }

  /** The health of m says what its history says. */
  ghost predicate Faithful(health: map<string, Health>, history: seq<Event>, m: string) {
    && (m in health <==> Retained(history, m))
    && HealthOf(health, m).failures == Wrap32(|Trail(history, m)|)
    && (HealthOf(health, m).failing <==> Trail(history, m) != {})
  }

  lemma WrapStep(n: nat)
    ensures Wrap32(Wrap32(n) + 1) == Wrap32(n + 1)
  {
  }

  lemma FaithfulStep(cfg: Config, status: Status, history: seq<Event>, e: Event, m: string)
    requires Enabled(cfg) && Faithful(status.health, history, m)
    ensures e.Result? ==> Faithful(Observe(cfg, status, e.metric, e.ok).health, history + [e], m)
    ensures e.Reconciled? ==> Faithful(Prune(status, e.names).health, history + [e], m)
  {
    TrailSize(history, e, m);
    TrailExtend(history, e, m);
    RetainedExtend(history, e, m);
    WrapStep(|Trail(history, m)|);
  }

  /** Over any interleaving of results of many metrics and of prunings, each retained metric's counter is the length
      of its trailing run of errors since it was last pruned (as an int32), and the retained metrics are the entries. */
  lemma {:induction false} CounterIsTrailingRun(cfg: Config, history: seq<Event>, m: string)
    requires Enabled(cfg)
    ensures Faithful(Replay(cfg, history).health, history, m)
  {
    if history == [] {
      assert Trail(history, m) == {};
    } else {
      var init, last := history[..|history| - 1], history[|history| - 1];
      assert history == init + [last];
      CounterIsTrailingRun(cfg, init, m);
      FaithfulStep(cfg, Replay(cfg, init), init, last, m);
    }
  }

  /** A result of one metric leaves every other metric's entry alone. */
  lemma OthersUntouched(cfg: Config, status: Status, metric: string, ok: bool, other: string)
    requires other != metric
    ensures HealthOf(Observe(cfg, status, metric, ok).health, other) == HealthOf(status.health, other)
    ensures other in Observe(cfg, status, metric, ok).health <==> other in status.health
  {
  }

  // ---- The Fallback condition ----------------------------------------------

  /** Some retained metric's run exceeds the threshold. */
  ghost predicate SomeRunOver(history: seq<Event>, threshold: int) {
    exists m :: Retained(history, m) && Wrap32(|Trail(history, m)|) > threshold
  }

  lemma ExistsMeansRunOver(cfg: Config, history: seq<Event>)
    requires Enabled(cfg)
    ensures FallbackExists(Replay(cfg, history).health, cfg.policy.value.threshold) <==>
            SomeRunOver(history, cfg.policy.value.threshold)
  {
    var health, threshold := Replay(cfg, history).health, cfg.policy.value.threshold;
    if FallbackExists(health, threshold) {
      var m :| m in health && Over(health[m], threshold);
      CounterIsTrailingRun(cfg, history, m);
    }
    if SomeRunOver(history, threshold) {
      var m :| Retained(history, m) && Wrap32(|Trail(history, m)|) > threshold;
      CounterIsTrailingRun(cfg, history, m);
      assert m in health && Over(health[m], threshold);
    }
  }

  /** The condition written with a result tells which runs were over before that result, not after it. */
  lemma ConditionLagsOneResult(cfg: Config, history: seq<Event>, m: string, ok: bool)
    requires Enabled(cfg)
    ensures Replay(cfg, history + [Result(m, ok)]).falling <==> SomeRunOver(history, cfg.policy.value.threshold)
  {
    ExistsMeansRunOver(cfg, history);
    assert (history + [Result(m, ok)])[..|history|] == history;
  }

  /** Some metric other than m is over. */
  ghost predicate OtherRunOver(history: seq<Event>, m: string, threshold: int) {
    exists other :: other != m && Retained(history, other) && Wrap32(|Trail(history, other)|) > threshold
  }

  lemma OthersStay(history: seq<Event>, m: string, ok: bool, threshold: int)
    ensures OtherRunOver(history + [Result(m, ok)], m, threshold) <==> OtherRunOver(history, m, threshold)
  {
    var after := history + [Result(m, ok)];
    forall other | other != m
      ensures Trail(after, other) == Trail(history, other) && (Retained(after, other) <==> Retained(history, other))
    {
      TrailExtend(history, Result(m, ok), other);
      RetainedExtend(history, Result(m, ok), other);
    }
  }

  /** A metric that is not retained has no trailing errors. */
  lemma SplitOver(history: seq<Event>, m: string, threshold: nat)
    ensures SomeRunOver(history, threshold) <==>
            OtherRunOver(history, m, threshold) || Wrap32(|Trail(history, m)|) > threshold
  {
    if !Retained(history, m) {
      assert Trail(history, m) == {};
    }
  }

  /** So it is stale exactly when no other metric is over and this result takes m across the threshold, either way. */
  lemma ConditionStaleExactly(cfg: Config, history: seq<Event>, m: string, ok: bool)
    requires Enabled(cfg) && |Trail(history, m)| < 0x7fff_ffff
    ensures var threshold := cfg.policy.value.threshold;
            var after := history + [Result(m, ok)];
            (Replay(cfg, after).falling <==> !SomeRunOver(after, threshold)) <==>
            && !OtherRunOver(history, m, threshold)
            && (if ok then |Trail(history, m)| > threshold else |Trail(history, m)| == threshold)
  {
    var threshold := cfg.policy.value.threshold;
    ConditionLagsOneResult(cfg, history, m, ok);
    TrailSize(history, Result(m, ok), m);
    OthersStay(history, m, ok, threshold);
    SplitOver(history, m, threshold);
    SplitOver(history + [Result(m, ok)], m, threshold);
  }

  /** With threshold 0 the first error of the only metric makes it fall back, and the condition says that none does. */
  lemma FirstFallbackUnreported(cfg: Config, m: string)
    requires Enabled(cfg) && cfg.policy.value.threshold == 0
    ensures SomeRunOver([Result(m, false)], 0) && !Replay(cfg, [Result(m, false)]).falling
  {
    assert [] + [Result(m, false)] == [Result(m, false)];
    assert Trail([], m) == {};
    assert !OtherRunOver([], m, 0);
    ConditionStaleExactly(cfg, [], m, false);
    ConditionLagsOneResult(cfg, [], m, false);
    assert !SomeRunOver([], 0);
  }

  // ---- The stand-in value --------------------------------------------------

  /** The replica count the behaviour chooses. */
  function Chosen(p: Policy, current: int): (r: int)
    ensures p.behaviour == IfHigher ==> r >= current && r >= p.replicas
    ensures p.behaviour == IfLower ==> r <= current && r <= p.replicas
    ensures r == current || r == p.replicas
    ensures p.behaviour in {Static, Unset} ==> r == p.replicas
    ensures p.behaviour == CurrentReplicas ==> r == current
  {
    match p.behaviour
    case Static => p.replicas
    case CurrentReplicas => current
    case IfHigher => if current > p.replicas then current else p.replicas
    case IfLower => if current < p.replicas then current else p.replicas
    case Unset => p.replicas
  }

  function EffectiveType(cfg: Config, target: Target): MetricType {
    if cfg.modifiers.Some? then cfg.modifiers.value.metricType else target.metricType
  }

  /** The target in milli units; a modifiers target that does not parse reads 0. */
  function EffectiveMilli(cfg: Config, target: Target): int {
    if cfg.modifiers.Some? then
      (if cfg.modifiers.value.target.Some? then cfg.modifiers.value.target.value * 1000 else 0)
    else if target.metricType == Utilization then 0
    else target.milli
  }

  /** `doFallback` in exact arithmetic, truncated to milli units at the end. `ready` is None when it cannot be read. */
  function StandIn(cfg: Config, target: Target, current: int, ready: Option<nat>): Option<int>
    requires cfg.policy.Some?
  {
    var r, milli := Chosen(cfg.policy.value, current), EffectiveMilli(cfg, target);
    if EffectiveType(cfg, target) != Value then Some(milli * r)
    else if ready.None? || ready.value == 0 then None
    else Some(TruncDiv(milli * r, ready.value))
  }

  function CeilDiv(a: int, b: int): int
    requires 0 < b
  {
    -((-a) / b)
  }

  /** The replica count the HPA computes from an external metric, tolerance ignored. */
  function HpaReplicas(metricType: MetricType, value: int, milli: int, ready: nat): int
    requires 0 < milli
  {
    if metricType == Value then CeilDiv(ready * value, milli) else CeilDiv(value, milli)
  }

  lemma CeilOfMultiple(milli: int, r: int)
    requires 0 < milli
    ensures CeilDiv(milli * r, milli) == r
  {
    DivUnique(-(milli * r), milli, -r, 0);
  }

  /** Losing `rem` to rounding costs nothing exactly when it is less than one target. */
  lemma CeilAfterLoss(milli: int, r: int, rem: nat)
    requires 0 < milli
    ensures CeilDiv(milli * r - rem, milli) == r <==> rem < milli
  {
    var q, m := rem / milli, rem % milli;
    assert rem == milli * q + m;
    assert -(milli * r - rem) == milli * (q - r) + m;
    DivUnique(-(milli * r - rem), milli, q - r, m);
    if rem < milli {
      DivUnique(rem, milli, 0, rem);
    }
  }

  /** For a Value metric the HPA gets the chosen count back exactly when the division's remainder is below the
      target. */
  lemma ValueExact(milli: int, r: nat, ready: nat)
    requires 0 < milli && 0 < ready
    ensures CeilDiv(ready * TruncDiv(milli * r, ready), milli) == r <==> (milli * r) % ready < milli
  {
    assert milli * r >= 0;
    var rem := (milli * r) % ready;
    assert ready * ((milli * r) / ready) == milli * r - rem;
    CeilAfterLoss(milli, r, rem);
  }

  /** It gets every count back exactly when there are at most as many ready replicas as milli units in the target. */
  lemma ValueExactForAll(milli: int, ready: nat)
    requires 0 < milli && 0 < ready
    ensures (forall r: nat :: CeilDiv(ready * TruncDiv(milli * r, ready), milli) == r) <==> ready <= milli
  {
    if ready <= milli {
      forall r: nat ensures CeilDiv(ready * TruncDiv(milli * r, ready), milli) == r {
        ValueExact(milli, r, ready);
      }
    } else {
      ValueExact(milli, 1, ready);
      assert milli * 1 == milli;
      DivUnique(milli, ready, 0, milli);
    }
  }

  /** A target of one milli unit and two ready replicas: one replica is wanted, the value truncates to 0 and so does the
      HPA's answer. */
  lemma ValueLosesReplica()
    ensures CeilDiv(2 * TruncDiv(1 * 1, 2), 1) == 0
  {
  }

  /** The HPA computes the chosen count from a stand-in for an AverageValue target always, and for a Value target
      exactly when the remainder of the division by the ready replicas is below the target. */
  ghost predicate Reproduces(metricType: MetricType, milli: int, r: int, value: int, ready: nat)
    requires 0 < milli && (metricType == Value ==> 0 < ready)
  {
    HpaReplicas(metricType, value, milli, ready) == r <==> (metricType == Value ==> (milli * r) % ready < milli)
  }

  /** Without modifiers the target is the metric's own. */
  lemma StandInReproduces(policy: Policy, target: Target, current: nat, ready: nat)
    requires policy.replicas >= 0 && target.metricType != Utilization && target.milli > 0
    requires target.metricType == Value ==> ready > 0
    ensures var v := StandIn(Config(Some(policy), None), target, current, Some(ready));
            v.Some? && Reproduces(target.metricType, target.milli, Chosen(policy, current), v.value, ready)
  {
    var r := Chosen(policy, current);
    if target.metricType == Value {
      ValueExact(target.milli, r, ready);
    } else {
      CeilOfMultiple(target.milli, r);
    }
  }

  /** With modifiers it is theirs, in whole units, whatever the metric's own target says. */
  lemma CompositeStandInReproduces(policy: Policy, units: int, metricType: MetricType, target: Target, current: nat,
                                   ready: nat)
    requires policy.replicas >= 0 && units > 0 && (metricType == Value ==> ready > 0)
    ensures var cfg := Config(Some(policy), Some(Modifiers(Some(units), metricType)));
            var v := StandIn(cfg, target, current, Some(ready));
            v.Some? && Reproduces(metricType, units * 1000, Chosen(policy, current), v.value, ready)
  {
    var r := Chosen(policy, current);
    if metricType == Value {
      ValueExact(units * 1000, r, ready);
    } else {
      CeilOfMultiple(units * 1000, r);
    }
  }

  /** An average target of 10 and three fallback replicas: the stand-in is 30. */
  lemma TenTimesThree(ready: Option<nat>)
    ensures StandIn(Config(Some(Policy(0, 3, Static)), None), Target(AverageValue, 10_000), 0, ready) == Some(30_000)
  {
  }

  /** A Value stand-in needs ready replicas to divide by; the current replicas are not needed for the Static
      behaviour. */
  lemma AttemptExact(policy: Policy, modifiers: Option<Modifiers>, target: Target, current: Option<int>,
                     ready: Option<nat>)
    ensures var a := Attempt(Config(Some(policy), modifiers), target, current, ready);
            var value := if modifiers.Some? then modifiers.value.metricType == Value else target.metricType == Value;
            && (a == Suppressed <==> policy.behaviour != Static && current.None?)
            && (a == Failed <==> a != Suppressed && value && (ready.None? || ready.value == 0))
            && a != Metrics && (a.StandsIn? ==> a.composite == modifiers.Some?)
  {
  }

  /** The fallback is in force exactly if it is configured, with threshold and replicas not negative, and scaling
      modifiers, if any, have a positive integer target. */
  lemma EnabledExact(cfg: Config)
    ensures !Enabled(cfg) <==>
            || cfg.policy.None? || cfg.policy.value.threshold < 0 || cfg.policy.value.replicas < 0
            || (cfg.modifiers.Some? && (cfg.modifiers.value.target.None? || cfg.modifiers.value.target.value < 1))
  {
  }

  // ---- The operations ------------------------------------------------------

  datatype Answer = Metrics | Suppressed | Failed | StandsIn(milli: int, composite: bool)

  /** What is answered once the failures exceed the threshold; the current replicas are not read for Static. */
  function Attempt(cfg: Config, target: Target, current: Option<int>, ready: Option<nat>): Answer
    requires cfg.policy.Some?
  {
    var fixed := cfg.policy.value.behaviour == Static;
    if !fixed && current.None? then Suppressed else
      var v := StandIn(cfg, target, if fixed then 0 else current.value, ready);
      if v.None? then Failed else StandsIn(v.value, cfg.modifiers.Some?)
  }

  class Tracker {
    const cfg: Config
    var status: Status

    constructor (cfg: Config)
      ensures this.cfg == cfg && status == Status(map[], false) && status == Replay(cfg, [])
    {
      this.cfg := cfg;
      status := Status(map[], false);
    }

    /** `current` and `ready` are None when the replica count cannot be read. `history` is what the status saw so
        far. */
    method GetMetricsWithFallback(metric: string, ok: bool, target: Target, current: Option<int>, ready: Option<nat>,
                                  ghost history: seq<Event>)
      returns (answer: Answer)
      requires status == Replay(cfg, history)
      modifies this`status
      ensures status == Replay(cfg, history + [Result(metric, ok)])
      ensures answer == Metrics <==> ok
      ensures !Enabled(cfg) ==> status == old(status) && (!ok ==> answer == Suppressed)
      ensures !ok && Enabled(cfg) && |Trail(history + [Result(metric, ok)], metric)| <= cfg.policy.value.threshold
              ==> answer == Suppressed
      ensures answer.StandsIn? ==>
              Enabled(cfg) && |Trail(history + [Result(metric, ok)], metric)| > cfg.policy.value.threshold
      ensures answer.StandsIn? ==> answer == Attempt(cfg, target, current, ready)
      ensures !ok && Enabled(cfg) &&
              cfg.policy.value.threshold < |Trail(history + [Result(metric, ok)], metric)| < 0x8000_0000
              ==> answer == Attempt(cfg, target, current, ready)
    {
      ghost var after := history + [Result(metric, ok)];
      assert after[..|history|] == history;
      var healthStatus := HealthAfter(HealthOf(status.health, metric), ok);
      UpdateStatus(metric, healthStatus);
      if Enabled(cfg) {
        CounterIsTrailingRun(cfg, after, metric);
      }
      if ok {
        return Metrics;
      }
      if !Enabled(cfg) || healthStatus.failures <= cfg.policy.value.threshold {
        return Suppressed;
      }
      var currentReplicas := 0;
      if cfg.policy.value.behaviour != Static {
        if current.None? {
          return Suppressed;
        }
        currentReplicas := current.value;
      }
      var v := StandIn(cfg, target, currentReplicas, ready);
      answer := if v.None? then Failed else StandsIn(v.value, cfg.modifiers.Some?);
    }

    /** The condition is taken from the status as it was; without a valid fallback nothing is written. */
    method UpdateStatus(metric: string, healthStatus: Health)
      modifies this`status
      ensures status == if !Enabled(cfg) then old(status) else
                          Status(old(status).health[metric := healthStatus],
                                 FallbackExists(old(status).health, cfg.policy.value.threshold))
    {
      if Enabled(cfg) {
        var falling := FallbackExists(status.health, cfg.policy.value.threshold);
        status := Status(status.health[metric := healthStatus], falling);
      }
    }

    /** `updateHealthStatus`: rebuild the health map from the metric names in use. */
    method UpdateHealthStatus(names: seq<string>, ghost history: seq<Event>)
      requires status == Replay(cfg, history)
      modifies this`status
      ensures status == Replay(cfg, history + [Reconciled(Elements(names))])
    {
      var newHealth: map<string, Health> := map[];
      var i := 0;
      while i < |names|
        invariant 0 <= i <= |names|
        invariant newHealth == Prune(status, Elements(names[..i])).health
      {
        if names[i] in status.health {
          newHealth := newHealth[names[i] := status.health[names[i]]];
        }
        assert Elements(names[..i + 1]) == Elements(names[..i]) + {names[i]};
        i := i + 1;
      }
      assert names[..i] == names;
      assert (history + [Reconciled(Elements(names))])[..|history|] == history;
      status := status.(health := newHealth);
    }
  }
}
