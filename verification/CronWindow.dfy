/**
 The cron scaler's window test. A schedule is the set of instants at which it fires;
 the code only ever asks for the next one.
 */
module CronWindow {

  type Schedule = int -> bool

  ghost predicate Unbounded(s: Schedule) {
    forall t: int :: FiresAfter(s, t)
  }

  ghost predicate FiresAfter(s: Schedule, t: int) {
    exists n :: t < n && s(n)
  }

  ghost predicate IsNext(s: Schedule, t: int, n: int) {
    t < n && s(n) && forall k :: t < k < n ==> !s(k)
  }

  lemma {:induction false} NextBelow(s: Schedule, t: int, bound: int) returns (n: int)
    requires t < bound && s(bound)
    ensures IsNext(s, t, n) && n <= bound
    decreases bound - t
  {
    if k :| t < k < bound && s(k) {
      n := NextBelow(s, t, k);
    } else {
      n := bound;
    }
  }

  /** `schedule.Next(t)`. */
  ghost function Next(s: Schedule, t: int): (n: int)
    requires Unbounded(s)
    ensures IsNext(s, t, n)
  {
    assert exists n :: IsNext(s, t, n) by {
      assert FiresAfter(s, t);
      var bound :| t < bound && s(bound);
      var n := NextBelow(s, t, bound);
    }
    var n :| IsNext(s, t, n);
    n
  }

  /** The window test, and the metric that goes with it. */
  method GetMetricsAndActivity(now: int, nextStart: int, nextEnd: int, desiredReplicas: int)
    returns (metric: int, active: bool)
    ensures now < nextStart && now < nextEnd ==> (active <==> nextEnd <= nextStart)
    ensures active == Within(now, nextStart, nextEnd)
    ensures metric == if active then desiredReplicas else 0
  {
    if nextStart < nextEnd {
      active := now > nextStart && now < nextEnd;
    } else {
      active := now > nextStart || now < nextEnd;
    }
    metric := if active then desiredReplicas else 0;
  }

  predicate Within(now: int, nextStart: int, nextEnd: int) {
    if nextStart < nextEnd then nextStart < now < nextEnd else nextStart < now || now < nextEnd
  }

  ghost predicate Active(start: Schedule, end: Schedule, t: int)
    requires Unbounded(start) && Unbounded(end)
  {
    Within(t, Next(start, t), Next(end, t))
  }

  /** The latest instant of either schedule at or before t. */
  ghost predicate IsLatest(start: Schedule, end: Schedule, t: int, l: int) {
    l <= t && (start(l) || end(l)) && forall k :: l < k <= t ==> !start(k) && !end(k)
  }

  ghost predicate Disjoint(start: Schedule, end: Schedule) {
    forall t :: !(start(t) && end(t))
  }

  ghost predicate Between(s: Schedule, a: int, b: int) {
    exists k :: a < k < b && s(k)
  }

  /** Between two instants of one schedule there is one of the other. */
  ghost predicate Alternating(start: Schedule, end: Schedule) {
    && (forall a, b :: a < b && start(a) && start(b) ==> Between(end, a, b))
    && (forall a, b :: a < b && end(a) && end(b) ==> Between(start, a, b))
  }

  /** The window is open at t exactly when the latest instant at or before t is a start. */
  ghost predicate OpenSinceStart(start: Schedule, end: Schedule, t: int)
    requires Unbounded(start) && Unbounded(end)
  {
    forall l :: IsLatest(start, end, t, l) ==> (Active(start, end, t) <==> start(l))
  }

  lemma AlternatingOpens(start: Schedule, end: Schedule, t: int, l: int)
    requires Unbounded(start) && Unbounded(end) && Disjoint(start, end) && Alternating(start, end)
    requires IsLatest(start, end, t, l)
    ensures Active(start, end, t) <==> start(l)
  {
    var s, e := Next(start, t), Next(end, t);
    if start(l) {
      assert Between(end, l, s);
      var k :| l < k < s && end(k);
      assert e <= k;
    } else {
      assert Between(start, l, e);
      var k :| l < k < e && start(k);
      assert s <= k;
    }
  }

  lemma OpeningAlternates(start: Schedule, end: Schedule, a: int, b: int)
    requires Unbounded(start) && Unbounded(end) && Disjoint(start, end) && OpenSinceStart(start, end, a) && a < b
    ensures start(a) && start(b) ==> Between(end, a, b)
    ensures end(a) && end(b) ==> Between(start, a, b)
  {
    var s, e := Next(start, a), Next(end, a);
    if start(a) && start(b) {
      assert IsLatest(start, end, a, a);
      assert e <= s && s <= b;
    }
    if end(a) && end(b) {
      assert IsLatest(start, end, a, a);
      assert s < e && e <= b;
    }
  }

  /** Looking only at next occurrences is right at every instant exactly when starts and ends alternate. */
  lemma WindowExact(start: Schedule, end: Schedule)
    requires Unbounded(start) && Unbounded(end) && Disjoint(start, end)
    ensures (forall t :: OpenSinceStart(start, end, t)) <==> Alternating(start, end)
  {
    if Alternating(start, end) {
      forall t, l | IsLatest(start, end, t, l) ensures Active(start, end, t) <==> start(l) {
        AlternatingOpens(start, end, t, l);
      }
    }
    if forall t :: OpenSinceStart(start, end, t) {
      forall a, b | a < b
        ensures start(a) && start(b) ==> Between(end, a, b)
        ensures end(a) && end(b) ==> Between(start, a, b)
      {
        OpeningAlternates(start, end, a, b);
      }
    }
  }
}
