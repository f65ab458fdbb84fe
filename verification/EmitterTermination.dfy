/**
 Without new events and registrations the emitter's work runs out: a measure
 that every internal step decreases.
 */
module EmitterTermination {
  import opened Common
  import opened EventFanOut
  import opened Emitter

  ghost function SumBag(m: multiset<EventData>, f: EventData -> nat): nat {
    if m == multiset{} then 0 else
      var x :| x in m;
      f(x) + SumBag(m - multiset{x}, f)
  }

  lemma {:induction false} SumBagRemove(m: multiset<EventData>, f: EventData -> nat, x: EventData)
    requires x in m
    ensures SumBag(m, f) == f(x) + SumBag(m - multiset{x}, f)
    decreases |m|
  {
    var y :| y in m && SumBag(m, f) == f(y) + SumBag(m - multiset{y}, f);
    if y != x {
      SumBagRemove(m - multiset{y}, f, x);
      SumBagRemove(m - multiset{x}, f, y);
      assert m - multiset{y} - multiset{x} == m - multiset{x} - multiset{y};
    }
  }

  lemma SumBagAdd(m: multiset<EventData>, f: EventData -> nat, x: EventData)
    ensures SumBag(m + multiset{x}, f) == SumBag(m, f) + f(x)
  {
    SumBagRemove(m + multiset{x}, f, x);
    assert m + multiset{x} - multiset{x} == m;
  }

  // ---- The work left -------------------------------------------------------

  /** The work a copy can still cause, with at most n handlers: each retry is a wait, a dequeue and a send. */
  function KeyedWork(retryTimes: nat): nat {
    if retryTimes <= MAX_RETRY then 3 * (MAX_RETRY - retryTimes) else 0
  }

  function WaitingWork(n: nat): EventData -> nat {
    (e: EventData) => if e.handlerKey == "" then 17 * n + 3 else KeyedWork(e.retryTimes) + 3
  }

  function QueuedWork(n: nat): EventData -> nat {
    (e: EventData) => if e.handlerKey == "" then 17 * n + 2 else KeyedWork(e.retryTimes) + 2
  }

  function FlyingWork(): EventData -> nat {
    (e: EventData) => KeyedWork(e.retryTimes) + 1
  }

  /** A loop still has a visit and a first send per handler ahead of it, and its end. */
  function WalkWork(w: Walk): nat {
    17 * |w.rest| + 1
  }

  ghost function WalksWork(walks: map<nat, Walk>): int {
    SumOver(walks.Keys, id => if id in walks then WalkWork(walks[id]) else 0)
  }

  ghost function Work(s: State, n: nat): int {
    SumBag(s.waiting, WaitingWork(n)) + SumBag(multiset(s.queue), QueuedWork(n)) + WalksWork(s.walks)
    + SumBag(s.inflight, FlyingWork())
  }

  lemma WalksWorkSplit(walks: map<nat, Walk>, id: nat)
    requires id in walks
    ensures WalksWork(walks) == WalkWork(walks[id]) + WalksWork(walks - {id})
  {
    var f := i => if i in walks then WalkWork(walks[i]) else 0;
    var rest := walks - {id};
    assert rest.Keys == walks.Keys - {id};
    SumOverRemove(walks.Keys, f, id);
    SumOverAgree(rest.Keys, f, i => if i in rest then WalkWork(rest[i]) else 0);
  }

  lemma WalksWorkPut(walks: map<nat, Walk>, id: nat, w: Walk)
    ensures WalksWork(walks[id := w]) == WalkWork(w) + WalksWork(walks - {id})
  {
    WalksWorkSplit(walks[id := w], id);
    assert walks[id := w] - {id} == walks - {id};
  }

  lemma {:induction false} WalksWorkNonNegative(walks: map<nat, Walk>)
    ensures WalksWork(walks) >= 0
    decreases |walks|
  {
    if walks != map[] {
      var id :| id in walks;
      WalksWorkSplit(walks, id);
      WalksWorkNonNegative(walks - {id});
    }
  }

  predicate Internal(step: Step) {
    step.Enqueue? || step.EnqueueTimeout? || step.Process? || step.Visit? || step.SendSucceeds? || step.SendFails?
  }

  // ---- Every internal step decreases it ------------------------------------

  lemma EnqueueDecreases(s: State, e: EventData, n: nat)
    requires e in s.waiting && |s.queue| < MAX_BUFFER
    ensures Work(Enqueued(s, e), n) < Work(s, n)
  {
    SumBagRemove(s.waiting, WaitingWork(n), e);
    assert multiset(s.queue + [e]) == multiset(s.queue) + multiset{e};
    SumBagAdd(multiset(s.queue), QueuedWork(n), e);
  }

  lemma DequeueWork(s: State, n: nat)
    requires s.queue != []
    ensures Work(Taken(s), n) == Work(s, n) - QueuedWork(n)(s.queue[0])
  {
    assert s.queue == [s.queue[0]] + s.queue[1..];
    assert multiset(s.queue) == multiset(s.queue[1..]) + multiset{s.queue[0]};
    SumBagAdd(multiset(s.queue[1..]), QueuedWork(n), s.queue[0]);
  }

  lemma SendWork(s: State, e: EventData, n: nat)
    ensures Work(Resent(s, e), n) == Work(s, n) + FlyingWork()(e)
  {
    SumBagAdd(s.inflight, FlyingWork(), e);
  }

  lemma StartWork(s: State, e: EventData, order: seq<string>, n: nat)
    requires e.id !in s.walks
    ensures Work(Started(s, e, order), n) == Work(s, n) + 17 * |order| + 1
  {
    WalksWorkPut(s.walks, e.id, Walk(e.eventType, order));
    assert s.walks - {e.id} == s.walks;
  }

  lemma DeactivateWork(s: State, key: string, n: nat)
    ensures Work(s.(handlers := Deactivate(s.handlers, key)), n) == Work(s, n)
  {
  }

  lemma StartIsLess(u: State, e: EventData, order: seq<string>, n: nat)
    requires |order| <= n && e.handlerKey == "" && e.id !in u.walks
    ensures Work(Started(u, e, order), n) < Work(u, n) + QueuedWork(n)(e)
  {
    StartWork(u, e, order, n);
  }

  lemma SendIsLess(u: State, e: EventData, n: nat)
    requires e.handlerKey != ""
    ensures Work(Resent(u, e), n) < Work(u, n) + QueuedWork(n)(e)
  {
    SendWork(u, e, n);
  }

  lemma EmitByHandlerWork(u: State, e: EventData, order: seq<string>, n: nat)
    requires |order| <= n && (e.handlerKey == "" ==> e.id !in u.walks)
    ensures Work(EmitByHandler(u, e, order), n) < Work(u, n) + QueuedWork(n)(e)
  {
    DeactivateWork(u, e.handlerKey, n);
    if e.handlerKey == "" {
      StartIsLess(u, e, order, n);
    } else {
      SendIsLess(u, e, n);
    }
  }

  lemma ProcessDecreases(s: State, order: seq<string>, n: nat)
    requires s.queue != [] && WalkOf(order, s.handlers.Keys) && |s.handlers.Keys| <= n
    requires s.queue[0].handlerKey == "" ==> s.queue[0].id !in s.walks
    ensures Work(Processed(s, order), n) < Work(s, n)
  {
    WalkLength(order, s.handlers.Keys);
    DequeueWork(s, n);
    EmitByHandlerWork(Taken(s), s.queue[0], order, n);
  }

  /** A loop that moves on by one handler, or ends. */
  lemma MoveWork(s: State, id: nat, n: nat)
    requires id in s.walks && s.walks[id].rest != []
    ensures var w := s.walks[id];
            Work(s.(walks := s.walks[id := w.(rest := w.rest[1..])]), n) == Work(s, n) - 17
  {
    var w := s.walks[id];
    WalksWorkSplit(s.walks, id);
    WalksWorkPut(s.walks, id, w.(rest := w.rest[1..]));
  }

  lemma EndWork(s: State, id: nat, n: nat)
    requires id in s.walks
    ensures Work(s.(walks := s.walks - {id}), n) < Work(s, n)
  {
    WalksWorkSplit(s.walks, id);
  }

  lemma VisitDecreases(s: State, id: nat, n: nat)
    requires id in s.walks
    ensures Work(Visited(s, id), n) < Work(s, n)
  {
    var w := s.walks[id];
    if w.rest == [] || Rejects(s.filters, w.rest[0], w.eventType) {
      EndWork(s, id, n);
    } else {
      var t := s.(walks := s.walks[id := w.(rest := w.rest[1..])]);
      var c := EventData(id, w.eventType, w.rest[0], 0);
      MoveWork(s, id, n);
      SendWork(t.(targets := t.targets[id := TargetsOf(t.targets, id) + {c.handlerKey}]), c, n);
    }
  }

  lemma RequeueWork(waiting: multiset<EventData>, inflight: multiset<EventData>, e: EventData, next: EventData, n: nat)
    requires e in inflight && WaitingWork(n)(next) < FlyingWork()(e)
    ensures SumBag(waiting + multiset{next}, WaitingWork(n)) + SumBag(inflight - multiset{e}, FlyingWork()) <
            SumBag(waiting, WaitingWork(n)) + SumBag(inflight, FlyingWork())
  {
    SumBagRemove(inflight, FlyingWork(), e);
    SumBagAdd(waiting, WaitingWork(n), next);
  }

  lemma RetriedIsLess(e: EventData, n: nat)
    requires e.handlerKey != "" && e.retryTimes < MAX_RETRY
    ensures WaitingWork(n)(Retried(e)) < FlyingWork()(e)
  {
  }

  lemma FailedFields(s: State, e: EventData)
    requires e.retryTimes < MAX_RETRY
    ensures var t := Failed(s, e);
            && t.waiting == s.waiting + multiset{Retried(e)} && t.inflight == s.inflight - multiset{e}
            && t.queue == s.queue && t.walks == s.walks
  {
  }

  /** Less work among the copies that wait or fly, and the same queue and loops, is less work. */
  lemma LessWork(s: State, t: State, n: nat)
    requires t.queue == s.queue && t.walks == s.walks
    requires SumBag(t.waiting, WaitingWork(n)) + SumBag(t.inflight, FlyingWork()) <
             SumBag(s.waiting, WaitingWork(n)) + SumBag(s.inflight, FlyingWork())
    ensures Work(t, n) < Work(s, n)
  {
  }

  lemma FailureDecreases(s: State, e: EventData, n: nat)
    requires e in s.inflight && e.handlerKey != "" && e.retryTimes < MAX_RETRY
    ensures Work(Failed(s, e), n) < Work(s, n)
  {
    RetriedIsLess(e, n);
    RequeueWork(s.waiting, s.inflight, e, Retried(e), n);
    FailedFields(s, e);
    LessWork(s, Failed(s, e), n);
  }

  lemma RetryFacts(s: State)
    requires Inv(s)
    ensures s.queue != [] && s.queue[0].handlerKey == "" ==> s.queue[0].id !in s.walks
    ensures forall e :: e in s.inflight ==> e.handlerKey != "" && e.retryTimes < MAX_RETRY
  {
    if s.queue != [] {
      TakenLive(s);
      assert s.queue[0].id in s.walks ==> WalkOk(s, s.queue[0].id, s.walks[s.queue[0].id]);
    }
  }

  lemma InternalDecreases(s: State, step: Step, n: nat)
    requires Enabled(s, step) && Internal(step) && |s.handlers.Keys| <= n
    requires s.queue != [] && s.queue[0].handlerKey == "" ==> s.queue[0].id !in s.walks
    requires forall e :: e in s.inflight ==> e.handlerKey != "" && e.retryTimes < MAX_RETRY
    ensures Work(Apply(s, step), n) < Work(s, n)
  {
    match step
    case Enqueue(e) => EnqueueDecreases(s, e, n);
    case EnqueueTimeout(e) => SumBagRemove(s.waiting, WaitingWork(n), e);
    case Process(order) => ProcessDecreases(s, order, n);
    case Visit(id) => VisitDecreases(s, id, n);
    case SendSucceeds(e) => SumBagRemove(s.inflight, FlyingWork(), e);
    case SendFails(e) => FailureDecreases(s, e, n);
  }

  /** Every internal step strictly decreases the remaining work. */
  lemma InternalStepDecreases(s: State, step: Step, n: nat)
    requires Inv(s) && Enabled(s, step) && Internal(step) && |s.handlers.Keys| <= n
    ensures Work(Apply(s, step), n) < Work(s, n)
  {
    RetryFacts(s);
    InternalDecreases(s, step, n);
  }

  // ---- Runs ----------------------------------------------------------------

  lemma DeactivateKeepsKeys(handlers: map<string, bool>, key: string)
    ensures Deactivate(handlers, key).Keys == handlers.Keys
  {
  }

  lemma InternalKeepsKeys(s: State, step: Step)
    requires Enabled(s, step) && Internal(step)
    ensures Apply(s, step).handlers.Keys == s.handlers.Keys
  {
    match step
    case Process(order) => DeactivateKeepsKeys(s.handlers, s.queue[0].handlerKey);
    case SendFails(e) => DeactivateKeepsKeys(s.handlers, e.handlerKey);
    case _ =>
  }

  /** A run of internal steps from a given state. */
  ghost predicate InternalRun(ss: seq<State>, steps: seq<Step>) {
    && |ss| == |steps| + 1
    && forall i :: 0 <= i < |steps| ==> InternalNext(ss[i], steps[i], ss[i + 1])
  }

  ghost predicate InternalNext(s: State, step: Step, t: State) {
    Internal(step) && Enabled(s, step) && t == Apply(s, step)
  }

  /** What every internal step hands on, and what it uses up. */
  ghost predicate Spends(s: State, t: State, n: nat) {
    Inv(s) && |s.handlers.Keys| <= n ==> Inv(t) && |t.handlers.Keys| <= n && 0 <= Work(t, n) < Work(s, n)
  }

  lemma WorkNonNegative(s: State, n: nat)
    ensures 0 <= Work(s, n)
  {
    WalksWorkNonNegative(s.walks);
  }

  lemma InternalSpends(s: State, step: Step, t: State, n: nat)
    requires InternalNext(s, step, t)
    ensures Spends(s, t, n)
  {
    if Inv(s) && |s.handlers.Keys| <= n {
      InternalKeepsKeys(s, step);
      StepKeepsInv(s, step);
      InternalStepDecreases(s, step, n);
      WorkNonNegative(t, n);
    }
  }

  lemma {:induction false} ChainSpends(ss: seq<State>, i: nat, n: nat)
    requires i < |ss| && forall j :: 0 <= j < |ss| - 1 ==> Spends(ss[j], ss[j + 1], n)
    requires Inv(ss[0]) && |ss[0].handlers.Keys| <= n
    ensures Inv(ss[i]) && |ss[i].handlers.Keys| <= n && Work(ss[i], n) + i <= Work(ss[0], n)
  {
    if 0 < i {
      ChainSpends(ss, i - 1, n);
      assert Spends(ss[i - 1], ss[i - 1 + 1], n);
    }
  }

  /** No run of internal steps is longer than the work present when it starts. */
  lemma WorkBoundsRuns(ss: seq<State>, steps: seq<Step>)
    requires InternalRun(ss, steps) && Inv(ss[0])
    ensures |steps| <= Work(ss[0], |ss[0].handlers.Keys|)
  {
    var n := |ss[0].handlers.Keys|;
    forall j | 0 <= j < |ss| - 1 ensures Spends(ss[j], ss[j + 1], n) {
      InternalSpends(ss[j], steps[j], ss[j + 1], n);
    }
    ChainSpends(ss, |steps|, n);
    WorkNonNegative(ss[|steps|], n);
  }
}
