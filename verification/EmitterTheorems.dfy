/** What every interleaving of the emitter's steps guarantees. */
module EmitterTheorems {
  import opened Common
  import opened EventFanOut
  import opened Emitter
  import opened HandlerKeys

  /** A run from the initial state. */
  ghost predicate Behaviour(ss: seq<State>, steps: seq<Step>) {
    && |ss| == |steps| + 1 && ss[0] == INITIAL
    && forall i :: 0 <= i < |steps| ==> Enabled(ss[i], steps[i]) && ss[i + 1] == Apply(ss[i], steps[i])
  }

  lemma {:induction false} BehaviourInv(ss: seq<State>, steps: seq<Step>, i: nat)
    requires Behaviour(ss, steps) && i < |ss|
    ensures Inv(ss[i])
  {
    if i == 0 {
      InitialInv();
    } else {
      BehaviourInv(ss, steps, i - 1);
      StepKeepsInv(ss[i - 1], steps[i - 1]);
    }
  }

  // ---- Counting sends ------------------------------------------------------

  function Only(s: seq<EventData>, p: EventData -> bool): seq<EventData> {
    if s == [] then [] else (if p(s[0]) then [s[0]] else []) + Only(s[1..], p)
  }

  lemma {:induction false} OnlyKeeps(s: seq<EventData>, p: EventData -> bool)
    ensures forall x :: x in Only(s, p) <==> x in s && p(x)
    ensures DistinctAttempts(s) ==> DistinctAttempts(Only(s, p))
  {
    if s != [] {
      OnlyKeeps(s[1..], p);
      assert s == [s[0]] + s[1..];
      var rest := Only(s[1..], p);
      if DistinctAttempts(s) {
        forall j | 0 <= j < |rest| ensures !SameAttempt(s[0], rest[j]) {
          assert rest[j] in s[1..];
        }
      }
    }
  }

  lemma {:induction false} OnlySplits(s: seq<EventData>, p: EventData -> bool)
    ensures |s| == |Only(s, p)| + |Only(s, x => !p(x))|
  {
    if s != [] {
      OnlySplits(s[1..], p);
    }
  }

  lemma SubsetSize<T>(a: set<T>, b: set<T>)
    requires a <= b
    ensures |a| <= |b|
  {
    assert b == a + (b - a);
  }

  /** Attempts for one event and key differ in their retry count, so there are at most five. */
  lemma AttemptsPerKey(s: seq<EventData>, id: nat, key: string)
    requires DistinctAttempts(s)
    requires forall x :: x in s ==> x.id == id && x.handlerKey == key && x.retryTimes < MAX_RETRY
    ensures |s| <= MAX_RETRY
  {
    var retries := seq(|s|, i requires 0 <= i < |s| => s[i].retryTimes);
    assert forall i :: 0 <= i < |s| ==> s[i] in s;
    assert Distinct(retries);
    WalkLength(retries, Elements(retries));
    forall r | r in Elements(retries) ensures r in {0, 1, 2, 3, 4} {
      var i :| 0 <= i < |retries| && retries[i] == r;
      assert s[i] in s;
    }
    SubsetSize(Elements(retries), {0, 1, 2, 3, 4});
  }

  lemma HeadIn(s: seq<EventData>)
    ensures s == [] || s[0] in s
  {
  }

  lemma {:induction false} AttemptsPerEvent(s: seq<EventData>, id: nat, keys: set<string>)
    requires DistinctAttempts(s)
    requires forall x :: x in s ==> x.id == id && x.handlerKey in keys && x.retryTimes < MAX_RETRY
    ensures |s| <= MAX_RETRY * |keys|
    decreases |keys|
  {
    if keys == {} {
      HeadIn(s);
    } else {
      var k :| k in keys;
      var under := (x: EventData) => x.handlerKey == k;
      var mine, others := Only(s, under), Only(s, x => !under(x));
      OnlyKeeps(s, under);
      OnlyKeeps(s, x => !under(x));
      OnlySplits(s, under);
      AttemptsPerKey(mine, id, k);
      AttemptsPerEvent(others, id, keys - {k});
    }
  }

  /** The sends made for one event, and for one event under one key. */
  function SendsOf(s: State, id: nat): seq<EventData> {
    Only(s.sent, (x: EventData) => x.id == id)
  }

  function SendsUnder(s: State, id: nat, key: string): seq<EventData> {
    Only(s.sent, (x: EventData) => x.id == id && x.handlerKey == key)
  }

  /** At most one copy of each event and key exists, and it is sent at most five times. */
  lemma AtMostOneCopyFiveSends(ss: seq<State>, steps: seq<Step>, i: nat, id: nat, key: string)
    requires Behaviour(ss, steps) && i < |ss|
    ensures forall e, f :: e in Live(ss[i]) && f in Live(ss[i]) && e.id == f.id && e.handlerKey == f.handlerKey ==>
              e == f && Live(ss[i])[e] == 1
    ensures |SendsUnder(ss[i], id, key)| <= MAX_RETRY
  {
    BehaviourInv(ss, steps, i);
    var p := (x: EventData) => x.id == id && x.handlerKey == key;
    OnlyKeeps(ss[i].sent, p);
    AttemptsPerKey(Only(ss[i].sent, p), id, key);
  }

  /** An event fanned out to n handlers causes at most 5n sends; before fan-out it causes none. */
  lemma SendsBoundedByFanOut(ss: seq<State>, steps: seq<Step>, i: nat, id: nat)
    requires Behaviour(ss, steps) && i < |ss|
    ensures |SendsOf(ss[i], id)| <= if id in ss[i].targets then MAX_RETRY * |ss[i].targets[id]| else 0
  {
    BehaviourInv(ss, steps, i);
    var p := (x: EventData) => x.id == id;
    OnlyKeeps(ss[i].sent, p);
    var sends := Only(ss[i].sent, p);
    if id in ss[i].targets {
      AttemptsPerEvent(sends, id, ss[i].targets[id]);
    } else {
      assert sends != [] ==> sends[0] in sends;
    }
  }

  /** The give-up branch of the failure callback is never taken: a failing send always has retries left. */
  lemma GiveUpUnreachable(ss: seq<State>, steps: seq<Step>, i: nat)
    requires Behaviour(ss, steps) && i < |steps| && steps[i].SendFails?
    ensures steps[i].e.retryTimes < MAX_RETRY && ss[i + 1].handlers == ss[i].handlers
  {
    BehaviourInv(ss, steps, i);
    FailureRequeues(ss[i], steps[i].e);
  }

  /** The only ways a key can turn inactive: an exhausted copy is dequeued, or the give-up branch runs. */
  lemma TurnsInactiveBy(s: State, step: Step, key: string)
    requires Enabled(s, step) && key in s.handlers && s.handlers[key]
    requires key in Apply(s, step).handlers && !Apply(s, step).handlers[key]
    ensures (step.Process? && s.queue[0].retryTimes >= MAX_RETRY && s.queue[0].handlerKey == key)
         || (step.SendFails? && step.e.retryTimes >= MAX_RETRY)
  {
  }

  lemma ExhaustedAttempts(s: State)
    requires Inv(s) && s.queue != [] && s.queue[0].retryTimes >= MAX_RETRY
    ensures FailedFive(s.failed, s.queue[0].id, s.queue[0].eventType, s.queue[0].handlerKey)
    ensures forall x :: x in s.failed ==> x in s.sent
  {
    TakenLive(s);
    ExhaustedFailedFive(s, s.queue[0]);
  }

  /** A key turns inactive only when one event has failed five sends under it. */
  lemma DeactivationNeedsFiveFailures(ss: seq<State>, steps: seq<Step>, i: nat, key: string)
    requires Behaviour(ss, steps) && i < |steps|
    requires key in ss[i].handlers && ss[i].handlers[key]
    requires key in ss[i + 1].handlers && !ss[i + 1].handlers[key]
    ensures exists id, t :: FailedFive(ss[i].failed, id, t, key)
                         && forall r :: 0 <= r < MAX_RETRY ==> EventData(id, t, key, r) in ss[i].sent
  {
    TurnsInactiveBy(ss[i], steps[i], key);
    if steps[i].SendFails? {
      GiveUpUnreachable(ss, steps, i);
    }
    BehaviourInv(ss, steps, i);
    ExhaustedAttempts(ss[i]);
    var e := ss[i].queue[0];
    assert FailedFive(ss[i].failed, e.id, e.eventType, key);
  }

  /** Exactly these deactivations happen: a copy that has had its five sends comes out of the queue. */
  lemma DeactivationExact(ss: seq<State>, steps: seq<Step>, i: nat, key: string)
    requires Behaviour(ss, steps) && i < |steps| && key in ss[i].handlers && ss[i].handlers[key]
    requires key in ss[i + 1].handlers
    ensures !ss[i + 1].handlers[key] <==>
            steps[i].Process? && ss[i].queue[0].handlerKey == key && ss[i].queue[0].retryTimes >= 5
  {
    if !ss[i + 1].handlers[key] {
      TurnsInactiveBy(ss[i], steps[i], key);
      if steps[i].SendFails? {
        GiveUpUnreachable(ss, steps, i);
      }
    }
  }

  /** A registered handler is active and checked against the filter it was registered with; an unregistered one is
      gone. */
  lemma RegistrationTakesEffect(s: State, kind: string, namespace: string, name: string, handlerType: string,
                                f: EventFilter, eventType: string)
    requires DotFree(kind) && DotFree(namespace) && DotFree(name) && s.walks == map[]
    ensures var id := Identifier(kind, namespace, name);
            var key := NewEventHandlerKey(id, handlerType);
            key != "" ==>
              var t := Apply(s, Register(id, key, f));
              && key in t.handlers && t.handlers[key]
              && (Rejects(t.filters, key, eventType) <==> FilterEvent(f, eventType))
              && key !in Apply(t, Unregister(id, key)).handlers
  {
    var id := Identifier(kind, namespace, name);
    OwnFilterConsulted(s.filters[id := f], kind, namespace, name, handlerType, eventType);
  }

  // ---- Retries -------------------------------------------------------------

  /** A requeued copy that comes out of the queue with sends left is sent again exactly if its handler is registered and
      active at that moment; nothing else is sent. */
  lemma RetrySentExactly(ss: seq<State>, steps: seq<Step>, i: nat)
    requires Behaviour(ss, steps) && i < |steps| && steps[i].Process?
    requires ss[i].queue[0].handlerKey != "" && ss[i].queue[0].retryTimes < 5
    ensures var e := ss[i].queue[0];
            ss[i + 1].sent
            == ss[i].sent + if e.handlerKey in ss[i].handlers && ss[i].handlers[e.handlerKey] then [e] else []
  {
  }

  /** The copy is given up: it finds no room in the channel in time, or it comes out of the queue with its sends used up
      or its handler gone or inactive. */
  ghost predicate GivenUp(s: State, step: Step, y: EventData) {
    || step == EnqueueTimeout(y)
    || (step.Process? && s.queue != [] && s.queue[0] == y
        && !(y.retryTimes < 5 && y.handlerKey in s.handlers && s.handlers[y.handlerKey]))
  }

  /** A copy is waiting, queued, in flight or sent, or was given up before state i. */
  ghost predicate Accounted(ss: seq<State>, steps: seq<Step>, i: nat, y: EventData)
    requires i < |ss| && |ss| == |steps| + 1
  {
    || y in Live(ss[i]) || y in ss[i].sent
    || exists j :: 0 <= j < i && GivenUp(ss[j], steps[j], y)
  }

  predicate Resends(s: State, e: EventData) {
    e.handlerKey != "" && e.retryTimes < MAX_RETRY && e.handlerKey in s.handlers && s.handlers[e.handlerKey]
  }

  /** What each kind of step does to the live copies and to the log. */
  lemma EmitByHandlerLive(u: State, e: EventData, order: seq<string>)
    ensures var t := EmitByHandler(u, e, order);
            if Resends(u, e) then Live(t) == Live(u) + multiset{e} && t.sent == u.sent + [e]
            else Live(t) == Live(u) && t.sent == u.sent
  {
    assert Live(Resent(u, e)) == Live(u) + multiset{e};
  }

  lemma VisitedLive(s: State, id: nat) returns (c: EventData)
    requires id in s.walks
    ensures var t := Visited(s, id);
            || (Live(t) == Live(s) && t.sent == s.sent)
            || (Live(t) == Live(s) + multiset{c} && t.sent == s.sent + [c])
    ensures c.id == id && c.eventType == s.walks[id].eventType
  {
    var w := s.walks[id];
    c := EventData(id, w.eventType, if w.rest == [] then "" else w.rest[0], 0);
    assert s.waiting + multiset(s.queue) + (s.inflight + multiset{c}) == Live(s) + multiset{c};
  }

  lemma FailedLive(s: State, e: EventData)
    requires e in s.inflight && e.retryTimes < MAX_RETRY
    ensures Live(Failed(s, e)) == Live(s) - multiset{e} + multiset{Retried(e)} && Failed(s, e).sent == s.sent
  {
  }

  lemma ProcessAccounts(s: State, order: seq<string>, y: EventData)
    requires s.queue != [] && y in Live(s) && y.handlerKey != ""
    ensures y in Live(Processed(s, order)) || GivenUp(s, Process(order), y)
  {
    TakenLive(s);
    EmitByHandlerLive(Taken(s), s.queue[0], order);
  }

  lemma FailAccounts(s: State, e: EventData, y: EventData)
    requires Inv(s) && e in s.inflight && y in Live(s)
    ensures y in Live(Failed(s, e)) || y in Failed(s, e).sent
  {
    FailureRequeues(s, e);
    FailedLive(s, e);
  }

  lemma SuccessAccounts(s: State, e: EventData, y: EventData)
    requires Inv(s) && e in s.inflight && y in Live(s)
    ensures y in Live(Succeeded(s, e)) || y in Succeeded(s, e).sent
  {
    assert Live(Succeeded(s, e)) == Live(s) - multiset{e};
    assert e in s.sent;
  }

  lemma EnqueueAccounts(s: State, e: EventData, y: EventData)
    requires e in s.waiting && y in Live(s)
    ensures y in Live(Enqueued(s, e)) && (y != e ==> y in Live(TimedOut(s, e)))
  {
    assert multiset(s.queue + [e]) == multiset(s.queue) + multiset{e};
    assert Live(Enqueued(s, e)) == Live(s) && Live(TimedOut(s, e)) == Live(s) - multiset{e};
  }

  lemma VisitAccounts(s: State, id: nat, y: EventData)
    requires id in s.walks && y in Live(s)
    ensures y in Live(Visited(s, id))
  {
    var c := VisitedLive(s, id);
  }

  lemma StepAccounts(s: State, step: Step, y: EventData)
    requires Inv(s) && Enabled(s, step) && y in Live(s) && y.handlerKey != ""
    ensures y in Live(Apply(s, step)) || y in Apply(s, step).sent || GivenUp(s, step, y)
  {
    match step
    case Process(order) => ProcessAccounts(s, order, y);
    case Visit(id) => VisitAccounts(s, id, y);
    case Enqueue(e) => EnqueueAccounts(s, e, y);
    case EnqueueTimeout(e) => EnqueueAccounts(s, e, y);
    case SendSucceeds(e) => SuccessAccounts(s, e, y);
    case SendFails(e) => FailAccounts(s, e, y);
    case _ =>
  }

  lemma AccountedNext(ss: seq<State>, steps: seq<Step>, i: nat, y: EventData)
    requires Behaviour(ss, steps) && i < |steps| && y.handlerKey != "" && Accounted(ss, steps, i, y)
    ensures Accounted(ss, steps, i + 1, y)
  {
    if y in Live(ss[i]) {
      BehaviourInv(ss, steps, i);
      StepAccounts(ss[i], steps[i], y);
    } else if y in ss[i].sent {
      SentGrows(ss[i], steps[i]);
    }
  }

  lemma FailsBy(s: State, step: Step, x: EventData)
    requires Enabled(s, step) && x in Apply(s, step).failed && x !in s.failed
    ensures step == Step.SendFails(x)
  {
  }

  lemma NewFailure(s: State, step: Step, x: EventData)
    requires Inv(s) && Enabled(s, step) && x in Apply(s, step).failed && x !in s.failed
    ensures Retried(x) in Live(Apply(s, step))
  {
    FailsBy(s, step, x);
    FailureRequeues(s, x);
  }

  lemma NewFailureNext(ss: seq<State>, steps: seq<Step>, i: nat, x: EventData)
    requires Behaviour(ss, steps) && i < |steps| && x in ss[i + 1].failed && x !in ss[i].failed
    ensures Retried(x) in Live(ss[i + 1])
  {
    BehaviourInv(ss, steps, i);
    NewFailure(ss[i], steps[i], x);
  }

  lemma FailedKeyed(ss: seq<State>, steps: seq<Step>, i: nat, x: EventData)
    requires Behaviour(ss, steps) && i < |ss| && x in ss[i].failed
    ensures x.handlerKey != ""
  {
    BehaviourInv(ss, steps, i);
  }

  ghost predicate AllAccounted(ss: seq<State>, steps: seq<Step>, i: int)
    requires 0 <= i < |ss| && |ss| == |steps| + 1
  {
    forall x :: x in ss[i].failed ==> Accounted(ss, steps, i, Retried(x))
  }

  lemma AllAccountedNext(ss: seq<State>, steps: seq<Step>, i: nat)
    requires Behaviour(ss, steps) && i < |steps| && AllAccounted(ss, steps, i)
    ensures AllAccounted(ss, steps, i + 1)
  {
    forall x | x in ss[i + 1].failed ensures Accounted(ss, steps, i + 1, Retried(x)) {
      if x in ss[i].failed {
        FailedKeyed(ss, steps, i, x);
        AccountedNext(ss, steps, i, Retried(x));
      } else {
        NewFailureNext(ss, steps, i, x);
      }
    }
  }

  lemma {:induction false} ChainAccounted(ss: seq<State>, steps: seq<Step>, i: nat)
    requires i < |ss| && |ss| == |steps| + 1 && AllAccounted(ss, steps, 0)
    requires forall j :: 0 <= j < |steps| && AllAccounted(ss, steps, j) ==> AllAccounted(ss, steps, j + 1)
    ensures AllAccounted(ss, steps, i)
  {
    if i > 0 {
      ChainAccounted(ss, steps, i - 1);
      assert AllAccounted(ss, steps, i - 1 + 1);
    }
  }

  /** No failed attempt is forgotten: in every state of every run its next attempt is on its way, or has been sent, or
      was given up for one of those reasons. */
  lemma FailedIsRetried(ss: seq<State>, steps: seq<Step>, i: nat, x: EventData)
    requires Behaviour(ss, steps) && i < |ss| && x in ss[i].failed
    ensures Accounted(ss, steps, i, Retried(x))
  {
    forall j | 0 <= j < |steps| && AllAccounted(ss, steps, j) ensures AllAccounted(ss, steps, j + 1) {
      AllAccountedNext(ss, steps, j);
    }
    ChainAccounted(ss, steps, i);
  }

  // ---- Types ---------------------------------------------------------------

  ghost predicate CopiesTyped(live: multiset<EventData>, sent: seq<EventData>, id: nat, eventType: string) {
    && (forall e :: e in live && e.id == id ==> e.eventType == eventType)
    && (forall x :: x in sent && x.id == id ==> x.eventType == eventType)
  }

  /** Whatever exists of an event has this type. */
  ghost predicate TypeIs(s: State, id: nat, eventType: string) {
    && id < s.nextId && CopiesTyped(Live(s), s.sent, id, eventType)
    && (id in s.walks ==> s.walks[id].eventType == eventType)
  }

  /** One copy more, of the right type if it is of this event. */
  lemma TypedMore(live: multiset<EventData>, sent: seq<EventData>, id: nat, eventType: string, c: EventData)
    requires CopiesTyped(live, sent, id, eventType) && (c.id == id ==> c.eventType == eventType)
    ensures CopiesTyped(live + multiset{c}, sent, id, eventType)
    ensures CopiesTyped(live + multiset{c}, sent + [c], id, eventType)
  {
    assert forall e :: e in live + multiset{c} <==> e in live || e == c;
  }

  lemma TypedFewer(live: multiset<EventData>, sent: seq<EventData>, id: nat, eventType: string, e: EventData)
    requires CopiesTyped(live, sent, id, eventType)
    ensures CopiesTyped(live - multiset{e}, sent, id, eventType)
  {
  }

  lemma EmitTypes(s: State, eventType: string)
    requires Inv(s) && s.handlers != map[]
    ensures TypeIs(Emitted(s, eventType), s.nextId, eventType)
  {
    var t, e := Emitted(s, eventType), EventData(s.nextId, eventType, "", 0);
    assert Live(t) == Live(s) + multiset{e};
    assert s.nextId in s.walks ==> WalkOk(s, s.nextId, s.walks[s.nextId]);
    TypedMore(Live(s), s.sent, s.nextId, eventType, e);
  }

  lemma ArrivalTypes(s: State, t: string, id: nat, eventType: string)
    requires TypeIs(s, id, eventType)
    ensures TypeIs(Emitted(s, t), id, eventType)
  {
    var e := EventData(s.nextId, t, "", 0);
    assert s.waiting + multiset{e} + multiset(s.queue) + s.inflight == Live(s) + multiset{e};
    TypedMore(Live(s), s.sent, id, eventType, e);
  }

  lemma QueueTypes(s: State, e: EventData, id: nat, eventType: string)
    requires e in s.waiting && TypeIs(s, id, eventType)
    ensures TypeIs(Enqueued(s, e), id, eventType) && TypeIs(TimedOut(s, e), id, eventType)
  {
    assert multiset(s.queue + [e]) == multiset(s.queue) + multiset{e};
    assert Live(Enqueued(s, e)) == Live(s) && Live(TimedOut(s, e)) == Live(s) - multiset{e};
    TypedFewer(Live(s), s.sent, id, eventType, e);
  }

  lemma HeadTyped(s: State, id: nat, eventType: string)
    requires s.queue != [] && CopiesTyped(Live(s), s.sent, id, eventType)
    ensures CopiesTyped(Live(Taken(s)), s.sent, id, eventType)
    ensures s.queue[0].id == id ==> s.queue[0].eventType == eventType
  {
    TakenLive(s);
  }

  lemma EmitByHandlerTypes(u: State, e: EventData, order: seq<string>, id: nat, eventType: string)
    requires TypeIs(u, id, eventType) && (e.id == id ==> e.eventType == eventType)
    ensures TypeIs(EmitByHandler(u, e, order), id, eventType)
  {
    EmitByHandlerLive(u, e, order);
    TypedMore(Live(u), u.sent, id, eventType, e);
  }

  lemma VisitedWalks(s: State, i: nat)
    requires i in s.walks
    ensures var t := Visited(s, i);
            && t.nextId == s.nextId
            && forall id :: id in t.walks ==> id in s.walks && t.walks[id].eventType == s.walks[id].eventType
  {
  }

  lemma VisitTypes(s: State, i: nat, id: nat, eventType: string)
    requires i in s.walks && TypeIs(s, id, eventType)
    ensures TypeIs(Visited(s, i), id, eventType)
  {
    var c := VisitedLive(s, i);
    TypedMore(Live(s), s.sent, id, eventType, c);
    VisitedWalks(s, i);
  }

  lemma FailTypes(s: State, e: EventData, id: nat, eventType: string)
    requires e in s.inflight && e.retryTimes < MAX_RETRY && TypeIs(s, id, eventType)
    ensures TypeIs(Failed(s, e), id, eventType)
  {
    assert e in Live(s);
    FailedLive(s, e);
    TypedFewer(Live(s), s.sent, id, eventType, e);
    TypedMore(Live(s) - multiset{e}, s.sent, id, eventType, Retried(e));
  }

  lemma SuccessTypes(s: State, e: EventData, id: nat, eventType: string)
    requires e in s.inflight && TypeIs(s, id, eventType)
    ensures TypeIs(Succeeded(s, e), id, eventType)
  {
    assert Live(Succeeded(s, e)) == Live(s) - multiset{e};
    TypedFewer(Live(s), s.sent, id, eventType, e);
  }

  lemma StepTypes(s: State, step: Step, id: nat, eventType: string)
    requires Enabled(s, step) && TypeIs(s, id, eventType) && (step.SendFails? ==> step.e.retryTimes < MAX_RETRY)
    ensures TypeIs(Apply(s, step), id, eventType)
  {
    match step
    case Emit(t) => ArrivalTypes(s, t, id, eventType);
    case Enqueue(e) => QueueTypes(s, e, id, eventType);
    case EnqueueTimeout(e) => QueueTypes(s, e, id, eventType);
    case Process(order) =>
      HeadTyped(s, id, eventType);
      EmitByHandlerTypes(Taken(s), s.queue[0], order, id, eventType);
    case Visit(i) => VisitTypes(s, i, id, eventType);
    case SendFails(e) => FailTypes(s, e, id, eventType);
    case SendSucceeds(e) => SuccessTypes(s, e, id, eventType);
    case _ => assert Live(Apply(s, step)) == Live(s);
  }

  lemma NextTyped(ss: seq<State>, steps: seq<Step>, i: nat, id: nat, eventType: string)
    requires Behaviour(ss, steps) && i < |steps| && TypeIs(ss[i], id, eventType)
    ensures TypeIs(ss[i + 1], id, eventType)
  {
    if steps[i].SendFails? {
      GiveUpUnreachable(ss, steps, i);
    }
    StepTypes(ss[i], steps[i], id, eventType);
  }

  /** Every send of an event, whenever it happens, carries the type the event was emitted with. */
  lemma {:induction false} SendsCarryType(ss: seq<State>, steps: seq<Step>, i: nat, k: nat)
    requires Behaviour(ss, steps) && i < k < |ss| && steps[i].Emit? && ss[i].handlers != map[]
    ensures TypeIs(ss[k], ss[i].nextId, steps[i].eventType)
  {
    if k == i + 1 {
      BehaviourInv(ss, steps, i);
      EmitTypes(ss[i], steps[i].eventType);
    } else {
      SendsCarryType(ss, steps, i, k - 1);
      NextTyped(ss, steps, k - 1, ss[i].nextId, steps[i].eventType);
    }
  }

  /** No send, first or retry, reaches a handler whose filter rejected the event at fan-out. */
  lemma RejectedNeverReceives(ss: seq<State>, steps: seq<Step>, i: nat, x: EventData)
    requires Behaviour(ss, steps) && i < |ss| && x in ss[i].sent
    ensures Target(x.id, x.handlerKey) !in ss[i].rejected
  {
    BehaviourInv(ss, steps, i);
  }

  // ---- First sends ---------------------------------------------------------

  /** The first sends made for one event under one key. */
  function FirstSends(s: State, id: nat, key: string): seq<EventData> {
    Only(s.sent, (x: EventData) => x.id == id && x.handlerKey == key && x.retryTimes == 0)
  }

  ghost predicate HasFirstSend(s: State, id: nat, key: string) {
    exists x :: x in s.sent && x.id == id && x.handlerKey == key && x.retryTimes == 0
  }

  /** Every receiver has been sent to. */
  ghost predicate ReceiversServed(s: State) {
    forall id, k :: id in s.targets && k in s.targets[id] ==> HasFirstSend(s, id, k)
  }

  lemma SentGrows(s: State, step: Step)
    requires Enabled(s, step)
    ensures s.sent <= Apply(s, step).sent
  {
  }

  lemma FirstSendStays(s: State, step: Step, id: nat, key: string)
    requires Enabled(s, step) && HasFirstSend(s, id, key)
    ensures HasFirstSend(Apply(s, step), id, key)
  {
    SentGrows(s, step);
    var x :| x in s.sent && x.id == id && x.handlerKey == key && x.retryTimes == 0;
    assert x in Apply(s, step).sent;
  }

  /** A new receiver is a handler that a loop has just visited, and it has been sent to. */
  lemma NewReceiver(s: State, step: Step, id: nat, key: string)
    requires Enabled(s, step) && key in TargetsOf(Apply(s, step).targets, id) && key !in TargetsOf(s.targets, id)
    ensures step == Visit(id) && s.walks[id].rest != [] && s.walks[id].rest[0] == key
    ensures HasFirstSend(Apply(s, step), id, key)
  {
    var c := EventData(id, s.walks[id].eventType, key, 0);
    assert Apply(s, step).sent[|s.sent|] == c;
  }

  lemma ReceiversServedStep(s: State, step: Step)
    requires Enabled(s, step) && ReceiversServed(s)
    ensures ReceiversServed(Apply(s, step))
  {
    var t := Apply(s, step);
    forall id, k | id in t.targets && k in t.targets[id] ensures HasFirstSend(t, id, k) {
      if k in TargetsOf(s.targets, id) {
        FirstSendStays(s, step, id, k);
      } else {
        NewReceiver(s, step, id, k);
      }
    }
  }

  lemma {:induction false} BehaviourServes(ss: seq<State>, steps: seq<Step>, i: nat)
    requires Behaviour(ss, steps) && i < |ss|
    ensures ReceiversServed(ss[i])
  {
    if i > 0 {
      BehaviourServes(ss, steps, i - 1);
      ReceiversServedStep(ss[i - 1], steps[i - 1]);
    }
  }

  lemma RepeatedAttempt(r: seq<EventData>, id: nat, key: string)
    requires 1 < |r| && forall x :: x in r ==> x.id == id && x.handlerKey == key && x.retryTimes == 0
    ensures !DistinctAttempts(r)
  {
    assert r[0] in r && r[1] in r && SameAttempt(r[0], r[1]);
  }

  lemma FirstSendsBounded(s: State, id: nat, key: string)
    requires DistinctAttempts(s.sent)
    ensures |FirstSends(s, id, key)| <= 1 && (FirstSends(s, id, key) != [] <==> HasFirstSend(s, id, key))
  {
    var p := (x: EventData) => x.id == id && x.handlerKey == key && x.retryTimes == 0;
    OnlyKeeps(s.sent, p);
    var r := Only(s.sent, p);
    HeadIn(r);
    if 1 < |r| {
      RepeatedAttempt(r, id, key);
    }
  }

  lemma LogFacts(ss: seq<State>, steps: seq<Step>, i: nat)
    requires Behaviour(ss, steps) && i < |ss|
    ensures DistinctAttempts(ss[i].sent)
    ensures forall x :: x in ss[i].sent ==> x.handlerKey in TargetsOf(ss[i].targets, x.id)
  {
    BehaviourInv(ss, steps, i);
  }

  /** In every state of every run each receiver of an event has exactly one first send of it, everyone else none. */
  lemma OneFirstSendPerReceiver(ss: seq<State>, steps: seq<Step>, i: nat, id: nat, key: string)
    requires Behaviour(ss, steps) && i < |ss|
    ensures |FirstSends(ss[i], id, key)| == if key in TargetsOf(ss[i].targets, id) then 1 else 0
  {
    LogFacts(ss, steps, i);
    BehaviourServes(ss, steps, i);
    FirstSendsBounded(ss[i], id, key);
    if key in TargetsOf(ss[i].targets, id) {
      assert HasFirstSend(ss[i], id, key);
    }
  }

  /** The loop over an event is past a handler, or over. */
  ghost predicate Past(s: State, id: nat, key: string) {
    id in s.targets && (id in s.walks ==> key !in s.walks[id].rest)
  }

  lemma NotStartedTwice(s: State, id: nat)
    requires Inv(s) && s.queue != [] && s.queue[0].handlerKey == "" && id in s.targets
    ensures s.queue[0].id != id
  {
    TakenLive(s);
  }

  /** The loop over an event and its receivers are the same in both states, and under the loop the filters. */
  ghost predicate SameWalk(s: State, t: State, id: nat) {
    && (id in t.walks <==> id in s.walks) && (id in s.walks ==> t.walks[id] == s.walks[id] && t.filters == s.filters)
    && (id in t.targets <==> id in s.targets) && TargetsOf(t.targets, id) == TargetsOf(s.targets, id)
  }

  lemma ProcessOther(s: State, e: EventData, order: seq<string>, id: nat)
    requires e.handlerKey == "" ==> e.id != id
    ensures SameWalk(s, EmitByHandler(s, e, order), id)
  {
  }

  lemma VisitOther(s: State, other: nat, id: nat)
    requires other in s.walks && other != id
    ensures SameWalk(s, Visited(s, other), id)
  {
  }

  lemma FailOther(s: State, e: EventData, id: nat)
    ensures SameWalk(s, Failed(s, e), id)
  {
  }

  /** Only its own visits move the loop over an event and add receivers; under a loop the filters stay. */
  lemma OtherStep(s: State, step: Step, id: nat)
    requires Enabled(s, step) && step != Visit(id)
    requires step.Process? && s.queue[0].handlerKey == "" ==> s.queue[0].id != id
    ensures SameWalk(s, Apply(s, step), id)
  {
    match step
    case Process(order) => ProcessOther(Taken(s), s.queue[0], order, id);
    case Visit(other) => VisitOther(s, other, id);
    case SendFails(e) => FailOther(s, e, id);
    case _ =>
  }

  /** A handler the loop is past is a receiver afterwards exactly if it was before. */
  ghost predicate Keeps(s: State, t: State, id: nat, key: string) {
    Past(s, id, key) ==>
      Past(t, id, key) && (key in TargetsOf(t.targets, id) <==> key in TargetsOf(s.targets, id))
  }

  lemma VisitKeeps(s: State, id: nat, key: string)
    requires id in s.walks
    ensures Keeps(s, Visited(s, id), id, key)
  {
  }

  lemma BehaviourKeeps(ss: seq<State>, steps: seq<Step>, i: nat, id: nat, key: string)
    requires Behaviour(ss, steps) && i < |steps|
    ensures Keeps(ss[i], ss[i + 1], id, key)
  {
    if id in ss[i].targets {
      BehaviourInv(ss, steps, i);
      if steps[i] == Visit(id) {
        VisitKeeps(ss[i], id, key);
      } else {
        if steps[i].Process? && ss[i].queue[0].handlerKey == "" {
          NotStartedTwice(ss[i], id);
        }
        OtherStep(ss[i], steps[i], id);
      }
    }
  }

  lemma {:induction false} ChainKeeps(ss: seq<State>, i: nat, k: nat, id: nat, key: string)
    requires i <= k < |ss| && forall j :: 0 <= j < |ss| - 1 ==> Keeps(ss[j], ss[j + 1], id, key)
    ensures Keeps(ss[i], ss[k], id, key)
  {
    if i < k {
      ChainKeeps(ss, i, k - 1, id, key);
      assert Keeps(ss[k - 1], ss[k - 1 + 1], id, key);
    }
  }

  /** A handler the loop is past is a receiver for good, or never. */
  lemma PastForever(ss: seq<State>, steps: seq<Step>, i: nat, k: nat, id: nat, key: string)
    requires Behaviour(ss, steps) && i <= k < |ss| && Past(ss[i], id, key)
    ensures Past(ss[k], id, key)
    ensures key in TargetsOf(ss[k].targets, id) <==> key in TargetsOf(ss[i].targets, id)
  {
    forall j | 0 <= j < |ss| - 1 ensures Keeps(ss[j], ss[j + 1], id, key) {
      BehaviourKeeps(ss, steps, j, id, key);
    }
    ChainKeeps(ss, i, k, id, key);
  }

  /** The loop over event id is about to visit key. */
  ghost predicate Visits(s: State, step: Step, id: nat, key: string) {
    step == Visit(id) && id in s.walks && s.walks[id].rest != [] && s.walks[id].rest[0] == key
  }

  /** The visit decides: the handler becomes a receiver exactly if its filter accepts and it is active at that
      moment. */
  lemma VisitDecides(s: State, id: nat, key: string)
    requires Inv(s) && Visits(s, Visit(id), id, key)
    ensures Past(Visited(s, id), id, key) && key in s.handlers
    ensures key in TargetsOf(Visited(s, id).targets, id) <==>
            !Rejects(s.filters, key, s.walks[id].eventType) && s.handlers[key]
  {
    var rest := s.walks[id].rest;
    assert WalkOk(s, id, s.walks[id]);
    assert rest[0] in rest;
    assert rest[0] !in rest[1..];
  }

  /** From its visit on, in every later state, a handler has exactly one first send of the event if its filter accepted
      the event and it was active when the loop came to it, and none otherwise. */
  lemma FirstSendsExact(ss: seq<State>, steps: seq<Step>, j: nat, k: nat, id: nat, key: string)
    requires Behaviour(ss, steps) && j < k < |ss| && Visits(ss[j], steps[j], id, key) && key in ss[j].handlers
    ensures |FirstSends(ss[k], id, key)|
         == if !Rejects(ss[j].filters, key, ss[j].walks[id].eventType) && ss[j].handlers[key] then 1 else 0
  {
    BehaviourInv(ss, steps, j);
    VisitDecides(ss[j], id, key);
    PastForever(ss, steps, j + 1, k, id, key);
    OneFirstSendPerReceiver(ss, steps, k, id, key);
  }

  /** The loop over event id has key ahead of it, and no rejecting filter. */
  ghost predicate Ahead(s: State, id: nat, eventType: string, key: string) {
    && id in s.walks && s.walks[id].eventType == eventType && key in s.walks[id].rest
    && forall h :: h in s.walks[id].rest ==> !Rejects(s.filters, h, eventType)
  }

  lemma VisitAhead(s: State, id: nat, eventType: string, key: string)
    requires Ahead(s, id, eventType, key) && !Visits(s, Visit(id), id, key)
    ensures Ahead(Visited(s, id), id, eventType, key)
  {
    var rest := s.walks[id].rest;
    assert rest == [rest[0]] + rest[1..] && rest[0] in rest;
  }

  /** Nothing but its visit takes a handler out of the loop's way. */
  lemma AheadNext(ss: seq<State>, steps: seq<Step>, i: nat, id: nat, eventType: string, key: string)
    requires Behaviour(ss, steps) && i < |steps| && Ahead(ss[i], id, eventType, key)
    ensures Visits(ss[i], steps[i], id, key) || Ahead(ss[i + 1], id, eventType, key)
  {
    if steps[i] != Visit(id) {
      BehaviourInv(ss, steps, i);
      assert WalkOk(ss[i], id, ss[i].walks[id]);
      if steps[i].Process? && ss[i].queue[0].handlerKey == "" {
        NotStartedTwice(ss[i], id);
      }
      OtherStep(ss[i], steps[i], id);
    } else if !Visits(ss[i], steps[i], id, key) {
      VisitAhead(ss[i], id, eventType, key);
    }
  }

  /** If the loop is over, it visited the handler. */
  lemma {:induction false} AheadMeansVisited(ss: seq<State>, steps: seq<Step>, i: nat, k: nat, id: nat,
                                             eventType: string, key: string)
    returns (j: nat)
    requires Behaviour(ss, steps) && i <= k < |ss| && Ahead(ss[i], id, eventType, key) && id !in ss[k].walks
    ensures i <= j < k && Visits(ss[j], steps[j], id, key) && Ahead(ss[j], id, eventType, key)
    decreases k - i
  {
    AheadNext(ss, steps, i, id, eventType, key);
    if Visits(ss[i], steps[i], id, key) {
      j := i;
    } else {
      j := AheadMeansVisited(ss, steps, i + 1, k, id, eventType, key);
    }
  }

  /** The event at the head of the queue is about to be fanned out, and no filter rejects it. */
  ghost predicate FansOut(s: State, step: Step) {
    && step.Process? && s.queue != [] && s.queue[0].handlerKey == ""
    && forall h :: h in s.handlers ==> !Rejects(s.filters, h, s.queue[0].eventType)
  }

  lemma StartsAhead(s: State, order: seq<string>, key: string)
    requires Inv(s) && FansOut(s, Process(order)) && WalkOf(order, s.handlers.Keys) && key in s.handlers
    ensures Ahead(Processed(s, order), s.queue[0].id, s.queue[0].eventType, key)
  {
    TakenLive(s);
    UnkeyedAlone(s, s.queue[0]);
    assert forall k :: k in order <==> k in Elements(order);
  }

  /** If no filter rejects an event, a handler that stays active until its fan-out loop is over has exactly one first
      send of it from then on, however the loop's iterations interleave with everything else. */
  lemma ActiveGetOneFirstSend(ss: seq<State>, steps: seq<Step>, i: nat, k: nat, m: nat, key: string)
    requires Behaviour(ss, steps) && i < k <= m < |ss| && FansOut(ss[i], steps[i]) && key in ss[i].handlers
    requires ss[i].queue[0].id !in ss[k].walks
    requires forall j :: i < j < k ==> key in ss[j].handlers && ss[j].handlers[key]
    ensures |FirstSends(ss[m], ss[i].queue[0].id, key)| == 1
  {
    var e := ss[i].queue[0];
    BehaviourInv(ss, steps, i);
    StartsAhead(ss[i], steps[i].order, key);
    var j := AheadMeansVisited(ss, steps, i + 1, k, e.id, e.eventType, key);
    FirstSendsExact(ss, steps, j, m, e.id, key);
  }
}
