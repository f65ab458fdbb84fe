/**
 The registered-resource and registered-trigger gauges. ScaledObjects and ScaledJobs
 each have a tracking map under a lock of its own, and share the trigger gauge: their
 updates interleave one increment or decrement at a time.
 */
module Gauges {
  import opened Common

  datatype Kind = Objects | Jobs

  /** What a tracking map remembers of a resource. */
  datatype Entry = Entry(namespace: string, triggers: seq<string>)

  datatype Gauge = Crd(kind: Kind, namespace: string) | Trigger(triggerType: string)

  /** One increment (`up`) or decrement of a gauge. */
  datatype Tick = Tick(gauge: Gauge, up: bool)

  type Tracking = map<string, Entry>

  /** A gauge that was never touched reads 0. */
  function Reading(gauges: map<Gauge, int>, g: Gauge): int {
    if g in gauges then gauges[g] else 0
  }

  function Bump(gauges: map<Gauge, int>, t: Tick): map<Gauge, int> {
    gauges[t.gauge := Reading(gauges, t.gauge) + if t.up then 1 else -1]
  }

  function Bumps(gauges: map<Gauge, int>, ticks: seq<Tick>): map<Gauge, int> {
    if ticks == [] then gauges else Bump(Bumps(gauges, ticks[..|ticks| - 1]), ticks[|ticks| - 1])
  }

  function Counted(namespace: string): string {
    if namespace == "" then "default" else namespace
  }

  // ---- What the gauges should read -----------------------------------------

  /** How much one entry is worth to a gauge. */
  function Weight(kind: Kind, e: Entry, g: Gauge): nat {
    match g
    case Crd(k, namespace) => if k == kind && Counted(e.namespace) == namespace then 1 else 0
    case Trigger(t) => if t == "" then 0 else multiset(e.triggers)[t]
  }

  function WeightOf(kind: Kind, e: Option<Entry>, g: Gauge): nat {
    if e.Some? then Weight(kind, e.value, g) else 0
  }

  /** The total worth of the tracked entries. */
  ghost function Tally(kind: Kind, tracked: Tracking, g: Gauge): int {
    SumOver(tracked.Keys, key => if key in tracked then Weight(kind, tracked[key], g) else 0)
  }

  function Lookup(tracked: Tracking, key: string): Option<Entry> {
    if key in tracked then Some(tracked[key]) else None
  }

  function Track(tracked: Tracking, key: string, next: Option<Entry>): Tracking {
    if next.Some? then tracked[key := next.value] else tracked - {key}
  }

  /** Replacing or dropping an entry changes the tally by the difference of the two worths. */
  lemma TrackTally(kind: Kind, tracked: Tracking, key: string, next: Option<Entry>, g: Gauge)
    ensures Tally(kind, Track(tracked, key, next), g)
         == Tally(kind, tracked, g) - WeightOf(kind, Lookup(tracked, key), g) + WeightOf(kind, next, g)
  {
    var rest := tracked - {key};
    TallyRemove(kind, tracked, key, g);
    TallyRemove(kind, Track(tracked, key, next), key, g);
    assert Track(tracked, key, next) - {key} == rest;
  }

  lemma TallyRemove(kind: Kind, tracked: Tracking, key: string, g: Gauge)
    ensures Tally(kind, tracked, g) == WeightOf(kind, Lookup(tracked, key), g) + Tally(kind, tracked - {key}, g)
  {
    var f := k => if k in tracked then Weight(kind, tracked[k], g) else 0;
    var rest := tracked - {key};
    assert rest.Keys == tracked.Keys - {key};
    if key in tracked {
      SumOverRemove(tracked.Keys, f, key);
      SumOverAgree(rest.Keys, f, k => if k in rest then Weight(kind, rest[k], g) else 0);
    } else {
      assert rest == tracked;
    }
  }

  /** The entries of a namespace; those without one belong to "default". */
  function EntriesIn(tracked: Tracking, namespace: string): set<string> {
    set k | k in tracked
            && if tracked[k].namespace == "" then namespace == "default" else tracked[k].namespace == namespace
  }

  lemma EntriesRemove(tracked: Tracking, key: string, namespace: string)
    requires key in tracked
    ensures |EntriesIn(tracked, namespace)|
         == |EntriesIn(tracked - {key}, namespace)| + if Counted(tracked[key].namespace) == namespace then 1 else 0
  {
    assert EntriesIn(tracked - {key}, namespace) == EntriesIn(tracked, namespace) - {key};
  }

  /** For a resource gauge the tally is the number of tracked entries of that namespace. */
  lemma {:induction false} CrdTallyCounts(kind: Kind, tracked: Tracking, namespace: string)
    ensures Tally(kind, tracked, Crd(kind, namespace)) == |EntriesIn(tracked, namespace)|
    decreases |tracked|
  {
    if tracked != map[] {
      var key :| key in tracked;
      var rest := tracked - {key};
      TallyRemove(kind, tracked, key, Crd(kind, namespace));
      CrdTallyCounts(kind, rest, namespace);
      EntriesRemove(tracked, key, namespace);
    }
  }

  lemma TallyOther(kind: Kind, other: Kind, tracked: Tracking, namespace: string)
    requires kind != other
    ensures Tally(kind, tracked, Crd(other, namespace)) == 0
  {
    var g := Crd(other, namespace);
    SumOverAgree(tracked.Keys, key => if key in tracked then Weight(kind, tracked[key], g) else 0, key => 0);
    ZeroSum(tracked.Keys);
  }

  lemma {:induction false} ZeroSum(s: set<string>)
    ensures SumOver(s, key => 0) == 0
    decreases |s|
  {
    if s != {} {
      var x :| x in s;
      SumOverRemove(s, key => 0, x);
      ZeroSum(s - {x});
    }
  }

  lemma {:induction false} TallyNonNegative(kind: Kind, tracked: Tracking, g: Gauge)
    ensures Tally(kind, tracked, g) >= 0
    decreases |tracked|
  {
    if tracked != map[] {
      var key :| key in tracked;
      TallyRemove(kind, tracked, key, g);
      TallyNonNegative(kind, tracked - {key}, g);
    }
  }

  // ---- The ticks an update issues ------------------------------------------

  function TriggerTicks(triggers: seq<string>, up: bool): seq<Tick> {
    if triggers == [] then [] else
      var t := triggers[|triggers| - 1];
      TriggerTicks(triggers[..|triggers| - 1], up) + if t == "" then [] else [Tick(Trigger(t), up)]
  }

  function EntryTicks(kind: Kind, e: Entry, up: bool): seq<Tick> {
    [Tick(Crd(kind, Counted(e.namespace)), up)] + TriggerTicks(e.triggers, up)
  }

  function TicksOf(kind: Kind, e: Option<Entry>, up: bool): seq<Tick> {
    if e.Some? then EntryTicks(kind, e.value, up) else []
  }

  /** Take the old entry off the gauges, then put the new one on. */
  function Plan(kind: Kind, was: Option<Entry>, next: Option<Entry>): seq<Tick> {
    TicksOf(kind, was, false) + TicksOf(kind, next, true)
  }

  /** The net change of a gauge, and the part of it that goes up. */
  function Effect(ticks: seq<Tick>, g: Gauge): int {
    if ticks == [] then 0
    else (if ticks[0].gauge != g then 0 else if ticks[0].up then 1 else -1) + Effect(ticks[1..], g)
  }

  function Rises(ticks: seq<Tick>, g: Gauge): nat {
    if ticks == [] then 0 else (if ticks[0] == Tick(g, true) then 1 else 0) + Rises(ticks[1..], g)
  }

  lemma {:induction false} EffectConcat(a: seq<Tick>, b: seq<Tick>, g: Gauge)
    ensures Effect(a + b, g) == Effect(a, g) + Effect(b, g)
    ensures Rises(a + b, g) == Rises(a, g) + Rises(b, g)
  {
    if a == [] {
      assert a + b == b;
    } else {
      assert (a + b)[1..] == a[1..] + b;
      EffectConcat(a[1..], b, g);
    }
  }

  lemma {:induction false} EffectBound(ticks: seq<Tick>, g: Gauge)
    ensures Effect(ticks, g) <= Rises(ticks, g)
  {
    if ticks != [] {
      EffectBound(ticks[1..], g);
    }
  }

  lemma {:induction false} TriggerTicksEffect(triggers: seq<string>, up: bool, g: Gauge)
    ensures var n: int := if g.Trigger? && g.triggerType != "" then multiset(triggers)[g.triggerType] else 0;
            Effect(TriggerTicks(triggers, up), g) == (if up then n else -n) &&
              Rises(TriggerTicks(triggers, up), g) == if up then n else 0
  {
    if triggers != [] {
      var init, t := triggers[..|triggers| - 1], triggers[|triggers| - 1];
      assert triggers == init + [t];
      TriggerTicksEffect(init, up, g);
      var last := if t == "" then [] else [Tick(Trigger(t), up)];
      EffectConcat(TriggerTicks(init, up), last, g);
    }
  }

  lemma TicksOfEffect(kind: Kind, e: Option<Entry>, up: bool, g: Gauge)
    ensures var n: int := WeightOf(kind, e, g);
            Effect(TicksOf(kind, e, up), g) == (if up then n else -n) &&
              Rises(TicksOf(kind, e, up), g) == if up then n else 0
  {
    if e.Some? {
      TriggerTicksEffect(e.value.triggers, up, g);
      EffectConcat([Tick(Crd(kind, Counted(e.value.namespace)), up)], TriggerTicks(e.value.triggers, up), g);
    }
  }

  lemma PlanEffect(kind: Kind, was: Option<Entry>, next: Option<Entry>, g: Gauge)
    ensures Effect(Plan(kind, was, next), g) == WeightOf(kind, next, g) - WeightOf(kind, was, g)
    ensures Rises(Plan(kind, was, next), g) == WeightOf(kind, next, g)
  {
    TicksOfEffect(kind, was, false, g);
    TicksOfEffect(kind, next, true, g);
    EffectConcat(TicksOf(kind, was, false), TicksOf(kind, next, true), g);
  }

  lemma {:induction false} BumpsRead(gauges: map<Gauge, int>, ticks: seq<Tick>, g: Gauge)
    ensures Reading(Bumps(gauges, ticks), g) == Reading(gauges, g) + Effect(ticks, g)
  {
    if ticks != [] {
      var init, last := ticks[..|ticks| - 1], ticks[|ticks| - 1];
      assert ticks == init + [last];
      BumpsRead(gauges, init, g);
      EffectConcat(init, [last], g);
    }
  }

  lemma Associates(a: seq<Tick>, b: seq<Tick>, c: seq<Tick>)
    ensures a + b + c == a + (b + c)
  {
  }

  lemma BumpsSnoc(gauges: map<Gauge, int>, ticks: seq<Tick>, t: Tick)
    ensures Bumps(gauges, ticks + [t]) == Bump(Bumps(gauges, ticks), t)
  {
    assert (ticks + [t])[..|ticks|] == ticks;
  }

  lemma {:induction false} BumpsConcat(gauges: map<Gauge, int>, a: seq<Tick>, b: seq<Tick>)
    ensures Bumps(gauges, a + b) == Bumps(Bumps(gauges, a), b)
  {
    if b == [] {
      assert a + b == a;
    } else {
      var init, last := b[..|b| - 1], b[|b| - 1];
      assert (a + b)[..|a + b| - 1] == a + init;
      BumpsConcat(gauges, a, init);
    }
  }

  /** One more trigger in the loop is one more step of the plan. */
  lemma TriggerTicksExtend(triggers: seq<string>, i: nat, up: bool)
    requires i < |triggers|
    ensures TriggerTicks(triggers[..i + 1], up) == TriggerTicks(triggers[..i], up) + TriggerTicks([triggers[i]], up)
  {
    assert triggers[..i + 1][..i] == triggers[..i] && [triggers[i]][..0] == [];
  }
}
