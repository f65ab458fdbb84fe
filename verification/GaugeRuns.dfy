/**
 Conservation of the gauges: over every interleaving of the two controllers, tick by
 tick, and for the updates as the controllers perform them.
 */
module GaugeRuns {
  import opened Common
  import opened Gauges

  /** Under its lock a controller works off the planned ticks, then writes its tracking map. */
  datatype Worker = Idle | Busy(key: string, todo: seq<Tick>, next: Option<Entry>)

  datatype Side = Side(tracked: Tracking, worker: Worker)

  datatype State = State(gauges: map<Gauge, int>, objects: Side, jobs: Side)

  function SideOf(s: State, kind: Kind): Side {
    if kind == Objects then s.objects else s.jobs
  }

  function WithSide(s: State, kind: Kind, side: Side): State {
    if kind == Objects then s.(objects := side) else s.(jobs := side)
  }

  /** `Begin` with an entry is an update of a resource, with `None` a delete. */
  datatype Step = Begin(kind: Kind, key: string, next: Option<Entry>) | Proceed(kind: Kind) | Finish(kind: Kind)

  /** A step that is not possible in a state leaves it alone. */
  function Apply(s: State, step: Step): State {
    var side := SideOf(s, step.kind);
    match step
    case Begin(kind, key, next) =>
      if side.worker != Idle then s
      else WithSide(s, kind, Side(side.tracked, Busy(key, Plan(kind, Lookup(side.tracked, key), next), next)))
    case Proceed(kind) =>
      if side.worker == Idle || side.worker.todo == [] then s
      else WithSide(s.(gauges := Bump(s.gauges, side.worker.todo[0])), kind,
                    Side(side.tracked, side.worker.(todo := side.worker.todo[1..])))
    case Finish(kind) =>
      if side.worker == Idle || side.worker.todo != [] then s
      else WithSide(s, kind, Side(Track(side.tracked, side.worker.key, side.worker.next), Idle))
  }

  function Run(s: State, steps: seq<Step>): State {
    if steps == [] then s else Apply(Run(s, steps[..|steps| - 1]), steps[|steps| - 1])
  }

  const START := State(map[], Side(map[], Idle), Side(map[], Idle))

  /** The tracking map once the controller is done. */
  function Settled(side: Side): Tracking {
    if side.worker == Idle then side.tracked else Track(side.tracked, side.worker.key, side.worker.next)
  }

  /** What the ticks still to come will add. */
  function Due(side: Side, g: Gauge): int {
    if side.worker == Idle then 0 else Effect(side.worker.todo, g)
  }

  /** What one controller has contributed to a gauge so far. */
  ghost function Share(kind: Kind, side: Side, g: Gauge): int {
    Tally(kind, Settled(side), g) - Due(side, g)
  }

  /** The ticks still to come raise no gauge beyond the new entry's worth. */
  ghost predicate Modest(kind: Kind, side: Side, g: Gauge) {
    side.worker.Busy? ==> Rises(side.worker.todo, g) <= WeightOf(kind, side.worker.next, g)
  }

  ghost predicate InvAt(s: State, g: Gauge) {
    && Reading(s.gauges, g) == Share(Objects, s.objects, g) + Share(Jobs, s.jobs, g)
    && Modest(Objects, s.objects, g) && Modest(Jobs, s.jobs, g)
  }

  lemma BeginShare(kind: Kind, side: Side, key: string, next: Option<Entry>, g: Gauge)
    requires side.worker == Idle
    ensures var after := Side(side.tracked, Busy(key, Plan(kind, Lookup(side.tracked, key), next), next));
            Share(kind, after, g) == Share(kind, side, g) && Modest(kind, after, g)
  {
    PlanEffect(kind, Lookup(side.tracked, key), next, g);
    TrackTally(kind, side.tracked, key, next, g);
  }

  /** Working off a tick moves it from what is due to what is contributed. */
  lemma ProceedShare(kind: Kind, side: Side, gauges: map<Gauge, int>, g: Gauge)
    requires side.worker.Busy? && side.worker.todo != [] && Modest(kind, side, g)
    ensures var after := Side(side.tracked, side.worker.(todo := side.worker.todo[1..]));
            && Share(kind, after, g) - Share(kind, side, g)
               == Reading(Bump(gauges, side.worker.todo[0]), g) - Reading(gauges, g)
            && Modest(kind, after, g)
  {
  }

  lemma StepKeepsInv(s: State, step: Step, g: Gauge)
    requires InvAt(s, g)
    ensures InvAt(Apply(s, step), g)
  {
    var side := SideOf(s, step.kind);
    if step.Begin? && side.worker == Idle {
      BeginShare(step.kind, side, step.key, step.next, g);
    } else if step.Proceed? && side.worker.Busy? && side.worker.todo != [] {
      ProceedShare(step.kind, side, s.gauges, g);
    }
  }

  lemma {:induction false} RunKeepsInv(s: State, steps: seq<Step>, g: Gauge)
    requires InvAt(s, g)
    ensures InvAt(Run(s, steps), g)
  {
    if steps != [] {
      RunKeepsInv(s, steps[..|steps| - 1], g);
      StepKeepsInv(Run(s, steps[..|steps| - 1]), steps[|steps| - 1], g);
    }
  }

  lemma ReachableInv(steps: seq<Step>, g: Gauge)
    ensures InvAt(Run(START, steps), g)
  {
    assert InvAt(START, g);
    RunKeepsInv(START, steps, g);
  }

  lemma ShareNonNegative(kind: Kind, side: Side, g: Gauge)
    requires Modest(kind, side, g)
    ensures Share(kind, side, g) >= 0
  {
    if side.worker == Idle {
      TallyNonNegative(kind, side.tracked, g);
    } else {
      EffectBound(side.worker.todo, g);
      var settled, key := Settled(side), side.worker.key;
      TallyRemove(kind, settled, key, g);
      TallyNonNegative(kind, settled - {key}, g);
      assert Lookup(settled, key) == side.worker.next;
    }
  }

  /** No gauge is ever negative, even in the middle of two interleaved updates. */
  lemma NeverNegative(steps: seq<Step>, g: Gauge)
    ensures Reading(Run(START, steps).gauges, g) >= 0
  {
    ReachableInv(steps, g);
    var s := Run(START, steps);
    ShareNonNegative(Objects, s.objects, g);
    ShareNonNegative(Jobs, s.jobs, g);
  }

  /** How often a trigger type occurs in the tracked entries. */
  ghost function Multiplicity(tracked: Tracking, t: string): int {
    SumOver(tracked.Keys, key => if key in tracked then multiset(tracked[key].triggers)[t] else 0)
  }

  lemma TallyIsMultiplicity(kind: Kind, tracked: Tracking, t: string)
    requires t != ""
    ensures Tally(kind, tracked, Trigger(t)) == Multiplicity(tracked, t)
  {
    SumOverAgree(tracked.Keys, key => if key in tracked then Weight(kind, tracked[key], Trigger(t)) else 0,
                 key => if key in tracked then multiset(tracked[key].triggers)[t] else 0);
  }

  lemma EmptyTypeTally(kind: Kind, tracked: Tracking)
    ensures Tally(kind, tracked, Trigger("")) == 0
  {
    SumOverAgree(tracked.Keys, key => if key in tracked then Weight(kind, tracked[key], Trigger("")) else 0, key => 0);
    ZeroSum(tracked.Keys);
  }

  /** Whenever no update is under way, each trigger type's gauge is its total multiplicity across both maps, and there
      is none for the empty type. */
  lemma TriggerGaugeExact(steps: seq<Step>, t: string)
    requires var s := Run(START, steps); s.objects.worker == Idle && s.jobs.worker == Idle
    ensures var s := Run(START, steps);
            Reading(s.gauges, Trigger(t))
            == if t == "" then 0 else Multiplicity(s.objects.tracked, t) + Multiplicity(s.jobs.tracked, t)
  {
    var s := Run(START, steps);
    ReachableInv(steps, Trigger(t));
    if t == "" {
      EmptyTypeTally(Objects, s.objects.tracked);
      EmptyTypeTally(Jobs, s.jobs.tracked);
    } else {
      TallyIsMultiplicity(Objects, s.objects.tracked, t);
      TallyIsMultiplicity(Jobs, s.jobs.tracked, t);
    }
  }

  /** A resource gauge counts the tracked entries of its kind and namespace, whatever the other controller is doing. */
  lemma ResourceGaugeExact(steps: seq<Step>, kind: Kind, namespace: string)
    requires SideOf(Run(START, steps), kind).worker == Idle
    ensures var tracked := SideOf(Run(START, steps), kind).tracked;
            Reading(Run(START, steps).gauges, Crd(kind, namespace))
            == |set k | k in tracked && if tracked[k].namespace == "" then namespace == "default"
                                        else tracked[k].namespace == namespace|
  {
    var s, g := Run(START, steps), Crd(kind, namespace);
    var other := if kind == Objects then Jobs else Objects;
    ReachableInv(steps, g);
    CrdTallyCounts(kind, SideOf(s, kind).tracked, namespace);
    TallyOther(other, kind, Settled(SideOf(s, other)), namespace);
    ForeignTicks(steps, other, kind, namespace);
  }

  /** A controller has no ticks to come for the other kind's resource gauge. */
  lemma {:induction false} ForeignTicks(steps: seq<Step>, kind: Kind, other: Kind, namespace: string)
    requires kind != other
    ensures var side := SideOf(Run(START, steps), kind);
            side.worker.Busy? ==> forall i :: 0 <= i < |side.worker.todo| ==>
              side.worker.todo[i].gauge != Crd(other, namespace)
    ensures Due(SideOf(Run(START, steps), kind), Crd(other, namespace)) == 0
  {
    var side := SideOf(Run(START, steps), kind);
    if steps != [] {
      var init, last := steps[..|steps| - 1], steps[|steps| - 1];
      ForeignTicks(init, kind, other, namespace);
      var before := SideOf(Run(START, init), kind);
      if last.Begin? && last.kind == kind && before.worker == Idle {
        PlanOwn(kind, Lookup(before.tracked, last.key), last.next, other, namespace);
      }
    }
    if side.worker.Busy? {
      ForeignEffect(side.worker.todo, Crd(other, namespace));
    }
  }

  lemma {:induction false} TriggerTicksOwn(triggers: seq<string>, up: bool)
    ensures forall i :: 0 <= i < |TriggerTicks(triggers, up)| ==> TriggerTicks(triggers, up)[i].gauge.Trigger?
  {
    if triggers != [] {
      TriggerTicksOwn(triggers[..|triggers| - 1], up);
    }
  }

  lemma PlanOwn(kind: Kind, was: Option<Entry>, next: Option<Entry>, other: Kind, namespace: string)
    requires kind != other
    ensures var p := Plan(kind, was, next); forall i :: 0 <= i < |p| ==> p[i].gauge != Crd(other, namespace)
  {
    if was.Some? {
      TriggerTicksOwn(was.value.triggers, false);
    }
    if next.Some? {
      TriggerTicksOwn(next.value.triggers, true);
    }
  }

  lemma {:induction false} ForeignEffect(ticks: seq<Tick>, g: Gauge)
    requires forall i :: 0 <= i < |ticks| ==> ticks[i].gauge != g
    ensures Effect(ticks, g) == 0
  {
    if ticks != [] {
      ForeignEffect(ticks[1..], g);
    }
  }

  /** Deleting what is not tracked, in particular deleting twice, changes nothing. */
  lemma DeleteIdempotent(s: State, kind: Kind, key: string)
    requires SideOf(s, kind).worker == Idle && key !in SideOf(s, kind).tracked
    ensures Run(s, [Begin(kind, key, None), Finish(kind)]) == s
  {
    var side := SideOf(s, kind);
    var first, second := Begin(kind, key, None), Finish(kind);
    assert side.tracked - {key} == side.tracked;
    assert [first, second][..1] == [first] && [first][..0] == [];
    assert Run(s, []) == s;
    assert Plan(kind, Lookup(side.tracked, key), None) == [];
    var busy := Run(s, [first]);
    assert busy == Apply(s, first);
    assert busy == WithSide(s, kind, Side(side.tracked, Busy(key, [], None)));
    assert Run(s, [first, second]) == Apply(busy, second);
  }

  // ---- The updates as the controllers perform them -------------------------

  function Proceeds(kind: Kind, n: nat): seq<Step> {
    if n == 0 then [] else Proceeds(kind, n - 1) + [Proceed(kind)]
  }

  /** One whole update or delete with nothing in between. */
  function WholeUpdate(kind: Kind, key: string, next: Option<Entry>, ticks: nat): seq<Step> {
    [Begin(kind, key, next)] + (Proceeds(kind, ticks) + [Finish(kind)])
  }

  lemma RunSnoc(s: State, steps: seq<Step>, last: Step)
    ensures Run(s, steps + [last]) == Apply(Run(s, steps), last)
  {
    assert (steps + [last])[..|steps|] == steps;
  }

  /** A controller that has worked off n ticks. */
  function Proceeded(s: State, kind: Kind, n: nat): State
    requires SideOf(s, kind).worker.Busy? && n <= |SideOf(s, kind).worker.todo|
  {
    var w := SideOf(s, kind).worker;
    WithSide(s.(gauges := Bumps(s.gauges, w.todo[..n])), kind, SideOf(s, kind).(worker := w.(todo := w.todo[n..])))
  }

  lemma ProceedOnce(s: State, kind: Kind, n: nat)
    requires SideOf(s, kind).worker.Busy? && n < |SideOf(s, kind).worker.todo|
    ensures Apply(Proceeded(s, kind, n), Proceed(kind)) == Proceeded(s, kind, n + 1)
  {
    var todo := SideOf(s, kind).worker.todo;
    BumpsSnoc(s.gauges, todo[..n], todo[n]);
    assert todo[..n] + [todo[n]] == todo[..n + 1] && todo[n..][1..] == todo[n + 1..];
  }

  lemma ProceededNone(s: State, kind: Kind)
    requires SideOf(s, kind).worker.Busy?
    ensures Proceeded(s, kind, 0) == s
  {
    var todo := SideOf(s, kind).worker.todo;
    assert todo[..0] == [] && todo[0..] == todo;
  }

  /** Proceeding n times works off n ticks. */
  ghost predicate WorksOff(s: State, kind: Kind, n: nat) {
    SideOf(s, kind).worker.Busy? && n <= |SideOf(s, kind).worker.todo| ==>
      Run(s, Proceeds(kind, n)) == Proceeded(s, kind, n)
  }

  lemma WorksOffNone(s: State, kind: Kind)
    ensures WorksOff(s, kind, 0)
  {
    if SideOf(s, kind).worker.Busy? {
      ProceededNone(s, kind);
    }
  }

  lemma WorksOffNext(s: State, kind: Kind, n: nat)
    requires WorksOff(s, kind, n)
    ensures WorksOff(s, kind, n + 1)
  {
    if SideOf(s, kind).worker.Busy? && n < |SideOf(s, kind).worker.todo| {
      RunSnoc(s, Proceeds(kind, n), Proceed(kind));
      ProceedOnce(s, kind, n);
    }
  }

  lemma ProceedsRun(s: State, kind: Kind, n: nat)
    ensures WorksOff(s, kind, n)
  {
    WorksOffNone(s, kind);
    forall k: nat | WorksOff(s, kind, k) ensures WorksOff(s, kind, k + 1) {
      WorksOffNext(s, kind, k);
    }
    CountUp((k: nat) => WorksOff(s, kind, k), n);
  }

  /** From a controller at work to one that is done. */
  lemma BusyRuns(s: State, kind: Kind, key: string, plan: seq<Tick>, next: Option<Entry>)
    requires SideOf(s, kind).worker == Busy(key, plan, next)
    ensures Run(s, Proceeds(kind, |plan|) + [Finish(kind)])
         == WithSide(s.(gauges := Bumps(s.gauges, plan)), kind, Side(Track(SideOf(s, kind).tracked, key, next), Idle))
  {
    RunSnoc(s, Proceeds(kind, |plan|), Finish(kind));
    ProceedsRun(s, kind, |plan|);
    assert plan[..|plan|] == plan && plan[|plan|..] == [];
  }

  lemma BeginRuns(s: State, kind: Kind, key: string, next: Option<Entry>)
    requires SideOf(s, kind).worker == Idle
    ensures var side := SideOf(s, kind);
            Run(s, [Begin(kind, key, next)])
            == WithSide(s, kind, Side(side.tracked, Busy(key, Plan(kind, Lookup(side.tracked, key), next), next)))
  {
    RunSnoc(s, [], Begin(kind, key, next));
    assert [] + [Begin(kind, key, next)] == [Begin(kind, key, next)];
  }

  /** Run step by step, an update bumps the gauges by its plan and writes its entry. */
  lemma WholeUpdateRuns(s: State, kind: Kind, key: string, next: Option<Entry>, plan: seq<Tick>)
    requires SideOf(s, kind).worker == Idle && plan == Plan(kind, Lookup(SideOf(s, kind).tracked, key), next)
    ensures Run(s, WholeUpdate(kind, key, next, |plan|))
         == WithSide(s.(gauges := Bumps(s.gauges, plan)), kind, Side(Track(SideOf(s, kind).tracked, key, next), Idle))
  {
    var rest := Proceeds(kind, |plan|) + [Finish(kind)];
    var busy := WithSide(s, kind, Side(SideOf(s, kind).tracked, Busy(key, plan, next)));
    BeginRuns(s, kind, key, next);
    RunConcat(s, [Begin(kind, key, next)], rest);
    BusyRuns(busy, kind, key, plan, next);
  }

  lemma {:induction false} RunConcat(s: State, a: seq<Step>, b: seq<Step>)
    ensures Run(s, a + b) == Run(Run(s, a), b)
  {
    if b == [] {
      assert a + b == a;
    } else {
      var init := b[..|b| - 1];
      assert (a + b)[..|a + b| - 1] == a + init;
      RunConcat(s, a, init);
    }
  }

  /** The gauge vectors and the two tracking maps; `issued` logs every increment and decrement. */
  class Collector {
    var gauges: map<Gauge, int>
    var objects: Tracking
    var jobs: Tracking
    ghost var issued: seq<Tick>

    constructor ()
      ensures Valid() && Abs() == START && issued == []
    {
      gauges, objects, jobs, issued := map[], map[], map[], [];
    }

    function Tracked(kind: Kind): Tracking
      reads this
    {
      if kind == Objects then objects else jobs
    }

    ghost function Abs(): State
      reads this
    {
      State(gauges, Side(objects, Idle), Side(jobs, Idle))
    }

    /** The gauges show exactly the ticks issued. */
    ghost predicate Valid()
      reads this
    {
      gauges == Bumps(map[], issued)
    }

    ghost predicate Balanced()
      reads this
    {
      forall g :: Reading(gauges, g) == Tally(Objects, objects, g) + Tally(Jobs, jobs, g)
    }

    method Issue(t: Tick)
      requires Valid()
      modifies this`gauges, this`issued
      ensures Valid() && issued == old(issued) + [t]
    {
      BumpsSnoc(map[], issued, t);
      gauges := Bump(gauges, t);
      issued := issued + [t];
    }

    method IncrementTriggerTotal(triggerType: string)
      requires Valid()
      modifies this`gauges, this`issued
      ensures Valid() && issued == old(issued) + TriggerTicks([triggerType], true)
    {
      assert [triggerType][..0] == [];
      if triggerType != "" {
        Issue(Tick(Trigger(triggerType), true));
      }
    }

    method DecrementTriggerTotal(triggerType: string)
      requires Valid()
      modifies this`gauges, this`issued
      ensures Valid() && issued == old(issued) + TriggerTicks([triggerType], false)
    {
      assert [triggerType][..0] == [];
      if triggerType != "" {
        Issue(Tick(Trigger(triggerType), false));
      }
    }

    method IncrementCRDTotal(kind: Kind, namespace: string)
      requires Valid()
      modifies this`gauges, this`issued
      ensures Valid() && issued == old(issued) + [Tick(Crd(kind, Counted(namespace)), true)]
    {
      Issue(Tick(Crd(kind, Counted(namespace)), true));
    }

    method DecrementCRDTotal(kind: Kind, namespace: string)
      requires Valid()
      modifies this`gauges, this`issued
      ensures Valid() && issued == old(issued) + [Tick(Crd(kind, Counted(namespace)), false)]
    {
      Issue(Tick(Crd(kind, Counted(namespace)), false));
    }

    /** Takes a remembered entry off the gauges. */
    method TakeOff(kind: Kind, e: Entry)
      requires Valid()
      modifies this`gauges, this`issued
      ensures Valid() && issued == old(issued) + EntryTicks(kind, e, false)
    {
      DecrementCRDTotal(kind, e.namespace);
      ghost var first := issued;
      var i := 0;
      while i < |e.triggers|
        invariant 0 <= i <= |e.triggers| && Valid()
        invariant issued == first + TriggerTicks(e.triggers[..i], false)
      {
        TriggerTicksExtend(e.triggers, i, false);
        Associates(first, TriggerTicks(e.triggers[..i], false), TriggerTicks([e.triggers[i]], false));
        DecrementTriggerTotal(e.triggers[i]);
        i := i + 1;
      }
      assert e.triggers[..i] == e.triggers;
      Associates(old(issued), [Tick(Crd(kind, Counted(e.namespace)), false)], TriggerTicks(e.triggers, false));
    }

    /** Puts a resource on the gauges and collects its trigger types. */
    method PutOn(kind: Kind, namespace: string, triggers: seq<string>) returns (e: Entry)
      requires Valid()
      modifies this`gauges, this`issued
      ensures e == Entry(namespace, triggers)
      ensures Valid() && issued == old(issued) + EntryTicks(kind, e, true)
    {
      IncrementCRDTotal(kind, namespace);
      ghost var first := issued;
      var types: seq<string> := [];
      var i := 0;
      while i < |triggers|
        invariant 0 <= i <= |triggers| && types == triggers[..i] && Valid()
        invariant issued == first + TriggerTicks(triggers[..i], true)
      {
        TriggerTicksExtend(triggers, i, true);
        Associates(first, TriggerTicks(triggers[..i], true), TriggerTicks([triggers[i]], true));
        IncrementTriggerTotal(triggers[i]);
        types := types + [triggers[i]];
        i := i + 1;
      }
      assert triggers[..i] == triggers;
      Associates(old(issued), [Tick(Crd(kind, Counted(namespace)), true)], TriggerTicks(triggers, true));
      e := Entry(namespace, types);
    }

    method SetTracked(kind: Kind, tracked: Tracking)
      modifies this`objects, this`jobs
      ensures objects == (if kind == Objects then tracked else old(objects))
      ensures jobs == (if kind == Jobs then tracked else old(jobs))
    {
      if kind == Objects {
        objects := tracked;
      } else {
        jobs := tracked;
      }
    }

    /** `updatePromMetrics` of either controller: the planned ticks in the planned order, as in the tick model. */
    method UpdatePromMetrics(kind: Kind, key: string, namespace: string, triggers: seq<string>)
      requires Valid()
      modifies this
      ensures Valid()
      ensures var next := Some(Entry(namespace, triggers));
              var plan := Plan(kind, Lookup(old(Tracked(kind)), key), next);
              issued == old(issued) + plan && Abs() == Run(old(Abs()), WholeUpdate(kind, key, next, |plan|))
      ensures Tracked(kind) == old(Tracked(kind))[key := Entry(namespace, triggers)]
      ensures forall other :: other != kind ==> Tracked(other) == old(Tracked(other))
      ensures old(Balanced()) ==> Balanced()
    {
      ghost var was, log := Abs(), issued;
      var tracked := Tracked(kind);
      if key in tracked {
        TakeOff(kind, tracked[key]);
      }
      assert issued == log + TicksOf(kind, Lookup(tracked, key), false);
      var e := PutOn(kind, namespace, triggers);
      SetTracked(kind, tracked[key := e]);
      ghost var plan := Plan(kind, Lookup(tracked, key), Some(e));
      Associates(log, TicksOf(kind, Lookup(tracked, key), false), EntryTicks(kind, e, true));
      UpdateResults(was, log, kind, key, Some(e), plan);
    }

    /** `updatePromMetricsOnDelete` of either controller; an untracked key changes nothing. */
    method UpdatePromMetricsOnDelete(kind: Kind, key: string)
      requires Valid()
      modifies this
      ensures Valid()
      ensures var plan := Plan(kind, Lookup(old(Tracked(kind)), key), None);
              issued == old(issued) + plan && Abs() == Run(old(Abs()), WholeUpdate(kind, key, None, |plan|))
      ensures Tracked(kind) == old(Tracked(kind)) - {key}
      ensures forall other :: other != kind ==> Tracked(other) == old(Tracked(other))
      ensures key !in old(Tracked(kind)) ==> Abs() == old(Abs())
      ensures old(Balanced()) ==> Balanced()
    {
      ghost var was, log := Abs(), issued;
      var tracked := Tracked(kind);
      if key in tracked {
        TakeOff(kind, tracked[key]);
      }
      assert issued == log + TicksOf(kind, Lookup(tracked, key), false);
      assert key !in tracked ==> tracked - {key} == tracked;
      SetTracked(kind, tracked - {key});
      ghost var plan := Plan(kind, Lookup(tracked, key), None);
      assert issued == log + plan;
      UpdateResults(was, log, kind, key, None, plan);
    }
  }

  /** What issuing the plan after an earlier log amounts to. */
  lemma UpdateResults(s: State, log: seq<Tick>, kind: Kind, key: string, next: Option<Entry>, plan: seq<Tick>)
    requires SideOf(s, kind).worker == Idle && plan == Plan(kind, Lookup(SideOf(s, kind).tracked, key), next)
    requires s.gauges == Bumps(map[], log)
    ensures var tracked, gauges := SideOf(s, kind).tracked, Bumps(map[], log + plan);
            && Run(s, WholeUpdate(kind, key, next, |plan|))
               == WithSide(s.(gauges := gauges), kind, Side(Track(tracked, key, next), Idle))
            && (forall g :: Reading(gauges, g) - Tally(kind, Track(tracked, key, next), g)
                         == Reading(s.gauges, g) - Tally(kind, tracked, g))
  {
    BumpsConcat(map[], log, plan);
    WholeUpdateRuns(s, kind, key, next, plan);
    UpdateBalances(s, kind, key, next);
  }

  /** A whole update keeps the gauges balanced with the two tracking maps. */
  lemma UpdateBalances(s: State, kind: Kind, key: string, next: Option<Entry>)
    ensures var tracked := SideOf(s, kind).tracked;
            var gauges := Bumps(s.gauges, Plan(kind, Lookup(tracked, key), next));
            forall g :: Reading(gauges, g) - Tally(kind, Track(tracked, key, next), g)
                     == Reading(s.gauges, g) - Tally(kind, tracked, g)
  {
    var tracked := SideOf(s, kind).tracked;
    var plan := Plan(kind, Lookup(tracked, key), next);
    forall g ensures Reading(Bumps(s.gauges, plan), g) - Tally(kind, Track(tracked, key, next), g)
                  == Reading(s.gauges, g) - Tally(kind, tracked, g) {
      BumpsRead(s.gauges, plan, g);
      PlanEffect(kind, Lookup(tracked, key), next, g);
      TrackTally(kind, tracked, key, next, g);
    }
  }
}
