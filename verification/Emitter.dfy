/**
 The CloudEvent emitter as interleaved atomic steps: goroutines waiting to
 enqueue, the bounded channel, fan-out loops that visit one handler at a time,
 sends in flight, failure callbacks that requeue, and handlers that get
 deactivated, also under a loop that has not reached them yet. Several loops may
 be under way at once. The state also records the history of sends, failures and
 fan-outs.
 */
module Emitter {
  import opened Common
  import opened EventFanOut

  const MAX_RETRY := 5
  const MAX_BUFFER := 1024

  /** A copy of an event. `id` is the Emit call it stems from; an empty key means not yet fanned out. */
  datatype EventData = EventData(id: nat, eventType: string, handlerKey: string, retryTimes: nat)

  /** A fan-out loop under way: the event's type and the handlers not visited yet. */
  datatype Walk = Walk(eventType: string, rest: seq<string>)

  datatype Target = Target(id: nat, key: string)

  datatype State = State(
    handlers: map<string, bool>,
    filters: map<string, EventFilter>,
    nextId: nat,
    waiting: multiset<EventData>,
    queue: seq<EventData>,
    walks: map<nat, Walk>,
    inflight: multiset<EventData>,
    // history
    sent: seq<EventData>,
    failed: set<EventData>,
    targets: map<nat, set<string>>,
    rejected: set<Target>)

  const INITIAL := State(map[], map[], 0, multiset{}, [], map[], multiset{}, [], {}, map[], {})

  datatype Step =
    | Register(identifier: string, key: string, filter: EventFilter)
    | Unregister(identifier: string, key: string)
    | Emit(eventType: string)
    | Enqueue(e: EventData)
    | EnqueueTimeout(e: EventData)
    | Process(order: seq<string>)
    | Visit(id: nat)
    | SendSucceeds(e: EventData)
    | SendFails(e: EventData)

  function ActiveKeys(handlers: map<string, bool>): set<string> {
    set k | k in handlers && handlers[k]
  }

  /** Registration takes the filter lock for writing, and a fan-out loop holds it for reading. */
  ghost predicate Enabled(s: State, step: Step) {
    match step
    case Register(_, key, _) => key != "" && s.walks == map[]
    case Unregister(_, _) => s.walks == map[]
    case Emit(_) => true
    case Enqueue(e) => e in s.waiting && |s.queue| < MAX_BUFFER
    case EnqueueTimeout(e) => e in s.waiting
    case Process(order) => s.queue != [] && WalkOf(order, s.handlers.Keys)
    case Visit(id) => id in s.walks
    case SendSucceeds(e) => e in s.inflight
    case SendFails(e) => e in s.inflight
  }

  function Deactivate(handlers: map<string, bool>, key: string): map<string, bool> {
    if key in handlers then handlers[key := false] else handlers
  }

  /** The handlers whose filter rejects e. */
  function RejectedTargets(handlers: map<string, bool>, filters: map<string, EventFilter>, e: EventData): set<Target> {
    set k | k in handlers && Rejects(filters, k, e.eventType) :: Target(e.id, k)
  }

  /** A fan-out loop over the handlers starts. */
  function Started(s: State, e: EventData, order: seq<string>): State {
    s.(walks := s.walks[e.id := Walk(e.eventType, order)],
       targets := s.targets[e.id := {}],
       rejected := s.rejected + RejectedTargets(s.handlers, s.filters, e))
  }

  function Resent(s: State, e: EventData): State {
    s.(inflight := s.inflight + multiset{e}, sent := s.sent + [e])
  }

  /** `emitEventByHandler` on a copy just taken from the queue, up to the first iteration of the fan-out loop. */
  function EmitByHandler(s: State, e: EventData, order: seq<string>): State {
    if e.retryTimes >= MAX_RETRY then s.(handlers := Deactivate(s.handlers, e.handlerKey))
    else if e.handlerKey == "" then Started(s, e, order)
    else if e.handlerKey in s.handlers && s.handlers[e.handlerKey] then Resent(s, e)
    else s
  }

  function TargetsOf(targets: map<nat, set<string>>, id: nat): set<string> {
    if id in targets then targets[id] else {}
  }

  /** The first send of an event to a handler. */
  function FirstSent(s: State, c: EventData): State {
    Resent(s.(targets := s.targets[c.id := TargetsOf(s.targets, c.id) + {c.handlerKey}]), c)
  }

  /** One iteration of a fan-out loop: it ends at a rejecting filter or after the last handler; otherwise the next
      handler is sent to if it is active at this moment. */
  function Visited(s: State, id: nat): State
    requires id in s.walks
  {
    var w := s.walks[id];
    if w.rest == [] || Rejects(s.filters, w.rest[0], w.eventType) then s.(walks := s.walks - {id}) else
      var t := s.(walks := s.walks[id := w.(rest := w.rest[1..])]);
      if w.rest[0] in s.handlers && s.handlers[w.rest[0]]
      then FirstSent(t, EventData(id, w.eventType, w.rest[0], 0)) else t
  }

  /** `emitErrorHandle` on a copy whose send just failed. */
  function ErrorHandle(s: State, e: EventData): State {
    if e.retryTimes >= MAX_RETRY then s.(handlers := Deactivate(s.handlers, e.handlerKey))
    else s.(waiting := s.waiting + multiset{Retried(e)})
  }

  function Retried(e: EventData): EventData {
    e.(retryTimes := e.retryTimes + 1)
  }

  function Emitted(s: State, eventType: string): State {
    if s.handlers == map[] then s
    else s.(waiting := s.waiting + multiset{EventData(s.nextId, eventType, "", 0)}, nextId := s.nextId + 1)
  }

  function Enqueued(s: State, e: EventData): State {
    s.(waiting := s.waiting - multiset{e}, queue := s.queue + [e])
  }

  function TimedOut(s: State, e: EventData): State {
    s.(waiting := s.waiting - multiset{e})
  }

  /** The state after the head of the queue has been taken. */
  function Taken(s: State): State
    requires s.queue != []
  {
    s.(queue := s.queue[1..])
  }

  function Processed(s: State, order: seq<string>): State
    requires s.queue != []
  {
    EmitByHandler(Taken(s), s.queue[0], order)
  }

  function Succeeded(s: State, e: EventData): State {
    s.(inflight := s.inflight - multiset{e})
  }

  function Failed(s: State, e: EventData): State {
    ErrorHandle(s.(inflight := s.inflight - multiset{e}, failed := s.failed + {e}), e)
  }

  ghost function Apply(s: State, step: Step): State
    requires Enabled(s, step)
  {
    match step
    case Register(identifier, key, filter) =>
      s.(handlers := s.handlers[key := true], filters := s.filters[identifier := filter])
    case Unregister(identifier, key) =>
      s.(handlers := s.handlers - {key}, filters := s.filters - {identifier})
    case Emit(eventType) => Emitted(s, eventType)
    case Enqueue(e) => Enqueued(s, e)
    case EnqueueTimeout(e) => TimedOut(s, e)
    case Process(order) => Processed(s, order)
    case Visit(id) => Visited(s, id)
    case SendSucceeds(e) => Succeeded(s, e)
    case SendFails(e) => Failed(s, e)
  }

  // ---- The invariant -------------------------------------------------------

  /** Every copy that waits, is queued or is in flight. */
  function Live(s: State): multiset<EventData> {
    s.waiting + multiset(s.queue) + s.inflight
  }

  ghost predicate CopiesOk(live: multiset<EventData>, inflight: multiset<EventData>, nextId: nat) {
    && (forall e :: e in live ==> live[e] == 1 && e.id < nextId && e.retryTimes <= MAX_RETRY)
    && (forall e :: e in live && e.handlerKey == "" ==> e.retryTimes == 0)
    && (forall e :: e in inflight ==> e.handlerKey != "" && e.retryTimes < MAX_RETRY)
  }

  predicate SameTarget(e: EventData, f: EventData) {
    e.id == f.id && e.handlerKey == f.handlerKey
  }

  /** At most one copy per event and key. */
  ghost predicate OneCopy(live: multiset<EventData>) {
    forall e, f :: e in live && f in live && SameTarget(e, f) ==> e == f
  }

  predicate SameAttempt(e: EventData, f: EventData) {
    SameTarget(e, f) && e.retryTimes == f.retryTimes
  }

  /** No attempt, that is, event, key and retry count, is logged twice. */
  ghost predicate DistinctAttempts(sent: seq<EventData>) {
    forall i, j :: 0 <= i < j < |sent| ==> !SameAttempt(sent[i], sent[j])
  }

  /** The log holds each attempt once; a live copy is ahead of, or at, its logged attempts. */
  ghost predicate LogOk(sent: seq<EventData>, live: multiset<EventData>, inflight: multiset<EventData>) {
    && DistinctAttempts(sent)
    && (forall x :: x in sent ==> x.handlerKey != "" && x.retryTimes < MAX_RETRY)
    && (forall x, e :: x in sent && e in live && SameTarget(x, e) ==>
          x.retryTimes < e.retryTimes || (x.retryTimes == e.retryTimes && e in inflight))
  }

  /** An event has failed all its attempts under a key. */
  ghost predicate Exhausted(failed: set<EventData>, key: string) {
    exists id, t :: FailedFive(failed, id, t, key)
  }

  ghost predicate FailedFive(failed: set<EventData>, id: nat, eventType: string, key: string) {
    forall r :: 0 <= r < MAX_RETRY ==> EventData(id, eventType, key, r) in failed
  }

  ghost predicate FailuresOk(sent: seq<EventData>, failed: set<EventData>, inflight: multiset<EventData>,
                             live: multiset<EventData>) {
    && (forall x :: x in failed ==> x in sent)
    && (forall e, r :: e in live && 0 <= r < e.retryTimes ==> EventData(e.id, e.eventType, e.handlerKey, r) in failed)
    && (forall e :: e in inflight ==> e in sent)
  }

  ghost predicate HandlersOk(handlers: map<string, bool>, failed: set<EventData>) {
    "" !in handlers && forall k :: k in handlers && !handlers[k] ==> Exhausted(failed, k)
  }

  /** Attempts stay within the receivers chosen by the fan-out loop; an event has no receivers before its loop. */
  ghost predicate RoutesOk(targets: map<nat, set<string>>, nextId: nat, sent: seq<EventData>,
                           live: multiset<EventData>) {
    && (forall x :: x in sent ==> x.id in targets && x.handlerKey in targets[x.id])
    && (forall e :: e in live && e.handlerKey != "" ==> e.id in targets && e.handlerKey in targets[e.id])
    && (forall e :: e in live && e.handlerKey == "" ==> e.id !in targets)
    && (forall id :: id in targets ==> id < nextId)
  }

  /** The receivers keep away from handlers that reject the event. */
  ghost predicate RejectedOk(targets: map<nat, set<string>>, rejected: set<Target>) {
    && (forall id, k :: id in targets && k in targets[id] ==> Target(id, k) !in rejected)
    && (forall p :: p in rejected ==> p.id in targets)
  }

  /** A loop has ahead of it registered handlers that are no receivers yet, and knows which of them reject. */
  ghost predicate WalkOk(s: State, id: nat, w: Walk) {
    && id in s.targets && Distinct(w.rest)
    && forall k :: k in w.rest ==>
         k in s.handlers && k !in s.targets[id] && (Rejects(s.filters, k, w.eventType) <==> Target(id, k) in s.rejected)
  }

  ghost predicate WalksOk(s: State) {
    forall id :: id in s.walks ==> WalkOk(s, id, s.walks[id])
  }

  ghost predicate Inv(s: State) {
    && |s.queue| <= MAX_BUFFER
    && CopiesOk(Live(s), s.inflight, s.nextId) && OneCopy(Live(s))
    && LogOk(s.sent, Live(s), s.inflight)
    && FailuresOk(s.sent, s.failed, s.inflight, Live(s)) && HandlersOk(s.handlers, s.failed)
    && RoutesOk(s.targets, s.nextId, s.sent, Live(s)) && RejectedOk(s.targets, s.rejected)
    && WalksOk(s)
  }

  lemma InitialInv()
    ensures Inv(INITIAL)
  {
    assert Live(INITIAL) == multiset{};
  }

  // ---- Steps that leave the copies alone -----------------------------------

  lemma RegistrationKeepsInv(s: State, step: Step)
    requires Inv(s) && (step.Register? || step.Unregister?) && Enabled(s, step)
    ensures Inv(Apply(s, step))
  {
    var t := Apply(s, step);
    assert Live(t) == Live(s);
    assert HandlersOk(t.handlers, t.failed);
  }

  lemma EnqueueKeepsInv(s: State, e: EventData)
    requires Inv(s) && e in s.waiting && |s.queue| < MAX_BUFFER
    ensures Inv(Enqueued(s, e))
  {
    var t := Enqueued(s, e);
    assert multiset(s.queue + [e]) == multiset(s.queue) + multiset{e};
    assert Live(t) == Live(s);
    WalksFrame(s, t);
  }

  /** The loops depend on the handler keys, the filters and the receivers only. */
  lemma WalksFrame(s: State, t: State)
    requires WalksOk(s) && t.walks == s.walks && t.handlers.Keys == s.handlers.Keys && t.filters == s.filters
    requires t.targets == s.targets && t.rejected == s.rejected
    ensures WalksOk(t)
  {
    forall id | id in t.walks ensures WalkOk(t, id, t.walks[id]) {
      assert WalkOk(s, id, s.walks[id]);
      assert forall k :: k in s.handlers <==> k in t.handlers.Keys;
    }
  }

  // ---- A new event ---------------------------------------------------------

  lemma EmitCopies(live: multiset<EventData>, inflight: multiset<EventData>, nextId: nat, e: EventData)
    requires CopiesOk(live, inflight, nextId) && OneCopy(live)
    requires e.id == nextId && e.handlerKey == "" && e.retryTimes == 0
    ensures CopiesOk(live + multiset{e}, inflight, nextId + 1) && OneCopy(live + multiset{e})
  {
    assert forall f :: f in live + multiset{e} <==> f in live || f == e;
    assert e !in live;
  }

  lemma EmitRest(s: State, live: multiset<EventData>, e: EventData)
    requires LogOk(s.sent, live, s.inflight) && FailuresOk(s.sent, s.failed, s.inflight, live)
    requires RoutesOk(s.targets, s.nextId, s.sent, live)
    requires e.id == s.nextId && e.handlerKey == "" && e.retryTimes == 0
    ensures LogOk(s.sent, live + multiset{e}, s.inflight)
    ensures FailuresOk(s.sent, s.failed, s.inflight, live + multiset{e})
    ensures RoutesOk(s.targets, s.nextId + 1, s.sent, live + multiset{e})
  {
    assert forall f :: f in live + multiset{e} <==> f in live || f == e;
  }

  lemma EmitKeepsInv(s: State, eventType: string)
    requires Inv(s)
    ensures Inv(Emitted(s, eventType))
  {
    if s.handlers != map[] {
      var t, e := Emitted(s, eventType), EventData(s.nextId, eventType, "", 0);
      assert Live(t) == Live(s) + multiset{e};
      EmitCopies(Live(s), s.inflight, s.nextId, e);
      EmitRest(s, Live(s), e);
      WalksFrame(s, t);
    }
  }

  // ---- A copy goes away ----------------------------------------------------

  /** A copy of the live set with e gone; e was there once. */
  lemma WithoutCopy(live: multiset<EventData>, e: EventData)
    requires e in live && live[e] == 1
    ensures forall f :: f in live - multiset{e} <==> f in live && f != e
    ensures forall f :: f in live && f != e ==> (live - multiset{e})[f] == live[f]
  {
  }

  /** Fewer in flight, but of the copies other than e the same. */
  ghost predicate Lands(inflight: multiset<EventData>, inflight': multiset<EventData>, e: EventData) {
    && (forall f :: f in inflight' ==> f in inflight)
    && (forall f :: f in inflight && f != e ==> f in inflight')
  }

  lemma DropCopies(live: multiset<EventData>, inflight: multiset<EventData>, inflight': multiset<EventData>,
                   nextId: nat, e: EventData)
    requires CopiesOk(live, inflight, nextId) && OneCopy(live) && e in live && Lands(inflight, inflight', e)
    ensures CopiesOk(live - multiset{e}, inflight', nextId) && OneCopy(live - multiset{e})
  {
    WithoutCopy(live, e);
  }

  lemma DropLog(sent: seq<EventData>, live: multiset<EventData>, inflight: multiset<EventData>,
                inflight': multiset<EventData>, e: EventData)
    requires LogOk(sent, live, inflight) && e in live && live[e] == 1 && Lands(inflight, inflight', e)
    ensures LogOk(sent, live - multiset{e}, inflight')
  {
    WithoutCopy(live, e);
  }

  lemma DropRest(s: State, live: multiset<EventData>, inflight': multiset<EventData>, e: EventData)
    requires FailuresOk(s.sent, s.failed, s.inflight, live) && RoutesOk(s.targets, s.nextId, s.sent, live)
    requires e in live && live[e] == 1 && Lands(s.inflight, inflight', e)
    ensures FailuresOk(s.sent, s.failed, inflight', live - multiset{e})
    ensures RoutesOk(s.targets, s.nextId, s.sent, live - multiset{e})
  {
    WithoutCopy(live, e);
  }

  /** Dropping a copy keeps the invariant. */
  lemma CopyDropped(s: State, t: State, e: EventData)
    requires Inv(s) && e in Live(s) && Live(t) == Live(s) - multiset{e}
    requires t == s.(waiting := t.waiting, queue := t.queue, inflight := t.inflight)
    requires |t.queue| <= MAX_BUFFER && Lands(s.inflight, t.inflight, e)
    ensures Inv(t)
  {
    DropCopies(Live(s), s.inflight, t.inflight, s.nextId, e);
    DropLog(s.sent, Live(s), s.inflight, t.inflight, e);
    DropRest(s, Live(s), t.inflight, e);
    WalksFrame(s, t);
  }

  lemma TimeoutKeepsInv(s: State, e: EventData)
    requires Inv(s) && e in s.waiting
    ensures Inv(TimedOut(s, e))
  {
    var t := TimedOut(s, e);
    assert Live(t) == Live(s) - multiset{e};
    CopyDropped(s, t, e);
  }

  lemma LandedOnce(s: State, e: EventData)
    requires Inv(s) && e in s.inflight
    ensures e in Live(s) && Live(s)[e] == 1 && s.inflight[e] == 1 && Lands(s.inflight, s.inflight - multiset{e}, e)
  {
    assert e in Live(s);
    assert Live(s)[e] == 1;
  }

  lemma SuccessKeepsInv(s: State, e: EventData)
    requires Inv(s) && e in s.inflight
    ensures Inv(Succeeded(s, e))
  {
    var t := Succeeded(s, e);
    LandedOnce(s, e);
    assert Live(t) == Live(s) - multiset{e};
    CopyDropped(s, t, e);
  }

  // ---- A failing send ------------------------------------------------------

  /** A copy in flight has attempts left, so the failure callback always requeues. */
  lemma FailureRequeues(s: State, e: EventData)
    requires Inv(s) && e in s.inflight
    ensures e.retryTimes < MAX_RETRY
    ensures Failed(s, e).handlers == s.handlers && Retried(e) in Failed(s, e).waiting
  {
  }

  /** What requeueing does to the live copies. */
  lemma RequeueMembers(live: multiset<EventData>, e: EventData, next: EventData)
    requires e in live && live[e] == 1 && next !in live && next != e
    ensures var live' := live - multiset{e} + multiset{next};
            && (forall f :: f in live' <==> (f in live && f != e) || f == next)
            && live'[next] == 1 && (forall f :: f in live && f != e ==> live'[f] == live[f])
  {
  }

  lemma RequeueCopies(live: multiset<EventData>, inflight: multiset<EventData>, inflight': multiset<EventData>,
                      nextId: nat, e: EventData)
    requires CopiesOk(live, inflight, nextId) && OneCopy(live) && e in inflight && e in live
    requires Lands(inflight, inflight', e)
    ensures Retried(e) !in live
    ensures CopiesOk(live - multiset{e} + multiset{Retried(e)}, inflight', nextId)
    ensures OneCopy(live - multiset{e} + multiset{Retried(e)})
  {
    assert SameTarget(e, Retried(e));
    RequeueMembers(live, e, Retried(e));
  }

  lemma RequeueLog(sent: seq<EventData>, live: multiset<EventData>, inflight: multiset<EventData>,
                   inflight': multiset<EventData>, e: EventData)
    requires LogOk(sent, live, inflight) && e in live && live[e] == 1 && Retried(e) !in live
    requires Lands(inflight, inflight', e)
    ensures LogOk(sent, live - multiset{e} + multiset{Retried(e)}, inflight')
  {
    RequeueMembers(live, e, Retried(e));
    assert forall x :: SameTarget(x, Retried(e)) <==> SameTarget(x, e);
  }

  lemma RequeueFailures(s: State, live: multiset<EventData>, inflight': multiset<EventData>, e: EventData)
    requires FailuresOk(s.sent, s.failed, s.inflight, live) && e in s.inflight && e in live && live[e] == 1
    requires Retried(e) !in live && Lands(s.inflight, inflight', e)
    ensures FailuresOk(s.sent, s.failed + {e}, inflight', live - multiset{e} + multiset{Retried(e)})
  {
    RequeueMembers(live, e, Retried(e));
    forall f, r | f in live - multiset{e} + multiset{Retried(e)} && 0 <= r < f.retryTimes
      ensures EventData(f.id, f.eventType, f.handlerKey, r) in s.failed + {e}
    {
      if f == Retried(e) && r < e.retryTimes {
        assert EventData(e.id, e.eventType, e.handlerKey, r) in s.failed;
      }
    }
  }

  lemma RequeueRest(s: State, live: multiset<EventData>, e: EventData)
    requires RoutesOk(s.targets, s.nextId, s.sent, live) && HandlersOk(s.handlers, s.failed)
    requires e in live && live[e] == 1 && Retried(e) !in live && e.handlerKey != ""
    ensures RoutesOk(s.targets, s.nextId, s.sent, live - multiset{e} + multiset{Retried(e)})
    ensures HandlersOk(s.handlers, s.failed + {e})
  {
    RequeueMembers(live, e, Retried(e));
    forall k | k in s.handlers && !s.handlers[k] ensures Exhausted(s.failed + {e}, k) {
      var id, t :| FailedFive(s.failed, id, t, k);
      assert FailedFive(s.failed + {e}, id, t, k);
    }
  }

  lemma FailureKeepsInv(s: State, e: EventData)
    requires Inv(s) && e in s.inflight
    ensures Inv(Failed(s, e))
  {
    var t := Failed(s, e);
    LandedOnce(s, e);
    assert e.retryTimes < MAX_RETRY && e.handlerKey != "";
    assert Live(t) == Live(s) - multiset{e} + multiset{Retried(e)};
    RequeueCopies(Live(s), s.inflight, t.inflight, s.nextId, e);
    RequeueLog(s.sent, Live(s), s.inflight, t.inflight, e);
    RequeueFailures(s, Live(s), t.inflight, e);
    RequeueRest(s, Live(s), e);
    WalksFrame(s, t);
  }

  // ---- Taking a copy from the queue ----------------------------------------

  lemma TakenLive(s: State)
    requires s.queue != []
    ensures Live(s) == Live(Taken(s)) + multiset{s.queue[0]} && s.queue[0] in Live(s)
  {
    var e := s.queue[0];
    assert s.queue == [e] + s.queue[1..];
    assert multiset(s.queue) == multiset{e} + multiset(s.queue[1..]);
  }

  lemma TakenInv(s: State)
    requires Inv(s) && s.queue != []
    ensures Inv(Taken(s)) && s.queue[0] !in Live(Taken(s)) && s.queue[0] !in s.inflight
  {
    TakenLive(s);
    var e := s.queue[0];
    assert Live(s)[e] == 1;
    assert Live(Taken(s)) == Live(s) - multiset{e};
    CopyDropped(s, Taken(s), e);
  }

  lemma DeactivateKeepsInv(u: State, key: string)
    requires Inv(u) && Exhausted(u.failed, key)
    ensures Inv(u.(handlers := Deactivate(u.handlers, key)))
  {
    var t := u.(handlers := Deactivate(u.handlers, key));
    assert Live(t) == Live(u);
    assert HandlersOk(t.handlers, t.failed);
    WalksFrame(u, t);
  }

  lemma ExhaustedFailedFive(s: State, e: EventData)
    requires Inv(s) && e in Live(s) && e.retryTimes >= MAX_RETRY
    ensures FailedFive(s.failed, e.id, e.eventType, e.handlerKey)
  {
  }

  lemma ResendCopies(live: multiset<EventData>, inflight: multiset<EventData>, nextId: nat, e: EventData)
    requires CopiesOk(live, inflight, nextId) && e.handlerKey != "" && e.retryTimes < MAX_RETRY
    ensures CopiesOk(live, inflight + multiset{e}, nextId)
  {
  }

  lemma AttemptAppended(sent: seq<EventData>, e: EventData)
    requires DistinctAttempts(sent) && forall x :: x in sent ==> !SameAttempt(x, e)
    ensures DistinctAttempts(sent + [e]) && forall x :: x in sent + [e] <==> x in sent || x == e
  {
    forall i | 0 <= i < |sent| ensures !SameAttempt(sent[i], e) {
      assert sent[i] in sent;
    }
  }

  lemma ResendLog(sent: seq<EventData>, live: multiset<EventData>, inflight: multiset<EventData>, e: EventData)
    requires OneCopy(live) && LogOk(sent, live, inflight)
    requires e in live && e !in inflight && e.handlerKey != "" && e.retryTimes < MAX_RETRY
    ensures LogOk(sent + [e], live, inflight + multiset{e})
  {
    AttemptAppended(sent, e);
  }

  lemma ResendRest(s: State, live: multiset<EventData>, e: EventData)
    requires FailuresOk(s.sent, s.failed, s.inflight, live) && RoutesOk(s.targets, s.nextId, s.sent, live)
    requires e in live && e.handlerKey != ""
    ensures FailuresOk(s.sent + [e], s.failed, s.inflight + multiset{e}, live)
    ensures RoutesOk(s.targets, s.nextId, s.sent + [e], live)
  {
  }

  lemma ResendKeepsInv(s: State)
    requires Inv(s) && s.queue != [] && s.queue[0].handlerKey != "" && s.queue[0].retryTimes < MAX_RETRY
    ensures Inv(Resent(Taken(s), s.queue[0]))
  {
    TakenLive(s);
    TakenInv(s);
    var e, t := s.queue[0], Resent(Taken(s), s.queue[0]);
    assert Live(t) == Live(s);
    ResendCopies(Live(s), s.inflight, s.nextId, e);
    ResendLog(s.sent, Live(s), s.inflight, e);
    ResendRest(s, Live(s), e);
    WalksFrame(s, t);
  }

  // ---- Fan-out -------------------------------------------------------------

  lemma StartWalks(s: State, e: EventData, order: seq<string>)
    requires WalksOk(s) && RejectedOk(s.targets, s.rejected) && e.id !in s.targets && WalkOf(order, s.handlers.Keys)
    ensures WalksOk(Started(s, e, order)) && RejectedOk(Started(s, e, order).targets, Started(s, e, order).rejected)
  {
    var t := Started(s, e, order);
    forall id | id in t.walks ensures WalkOk(t, id, t.walks[id]) {
      if id != e.id {
        assert WalkOk(s, id, s.walks[id]);
      } else {
        assert forall k :: k in order <==> k in Elements(order);
        assert forall k :: Target(e.id, k) !in s.rejected;
      }
    }
  }

  lemma StartRoutes(s: State, live: multiset<EventData>, e: EventData)
    requires RoutesOk(s.targets, s.nextId, s.sent, live) && e.id !in s.targets && e.id < s.nextId
    requires forall f :: f in live ==> f.id != e.id
    ensures RoutesOk(s.targets[e.id := {}], s.nextId, s.sent, live)
  {
  }

  /** An event that is not fanned out yet has no other copy and no receivers. */
  lemma UnkeyedAlone(s: State, e: EventData)
    requires CopiesOk(Live(s), s.inflight, s.nextId) && OneCopy(Live(s))
    requires RoutesOk(s.targets, s.nextId, s.sent, Live(s))
    requires e in Live(s) && e.handlerKey == ""
    ensures e.id !in s.targets && e.id < s.nextId && e.retryTimes == 0
    ensures forall f :: f in Live(s) && f != e ==> f.id != e.id
  {
    assert forall f :: f in Live(s) && f.id == e.id && f.handlerKey == "" ==> SameTarget(e, f);
  }

  lemma StartKeepsInv(s: State, order: seq<string>)
    requires Inv(s) && s.queue != [] && WalkOf(order, s.handlers.Keys) && s.queue[0].handlerKey == ""
    ensures Inv(Started(Taken(s), s.queue[0], order))
  {
    TakenLive(s);
    TakenInv(s);
    var e, u := s.queue[0], Taken(s);
    UnkeyedAlone(s, e);
    assert forall f :: f in Live(u) ==> f in Live(s) && f != e;
    StartWalks(u, e, order);
    StartRoutes(u, Live(u), e);
    assert Live(Started(u, e, order)) == Live(u);
  }

  lemma ProcessKeepsInv(s: State, order: seq<string>)
    requires Inv(s) && s.queue != [] && WalkOf(order, s.handlers.Keys)
    ensures Inv(Processed(s, order))
  {
    TakenLive(s);
    TakenInv(s);
    var e := s.queue[0];
    if e.retryTimes >= MAX_RETRY {
      ExhaustedFailedFive(s, e);
      DeactivateKeepsInv(Taken(s), e.handlerKey);
    } else if e.handlerKey == "" {
      StartKeepsInv(s, order);
    } else {
      ResendKeepsInv(s);
    }
  }

  /** The first send of an event to a handler that has had none of it. */
  lemma FirstCopies(live: multiset<EventData>, inflight: multiset<EventData>, nextId: nat, c: EventData)
    requires CopiesOk(live, inflight, nextId) && OneCopy(live)
    requires c.id < nextId && c.handlerKey != "" && c.retryTimes == 0 && forall f :: f in live ==> !SameTarget(f, c)
    ensures CopiesOk(live + multiset{c}, inflight + multiset{c}, nextId) && OneCopy(live + multiset{c})
  {
    assert SameTarget(c, c);
    assert forall f :: f in live + multiset{c} <==> f in live || f == c;
  }

  lemma FirstLog(sent: seq<EventData>, live: multiset<EventData>, inflight: multiset<EventData>, c: EventData)
    requires LogOk(sent, live, inflight) && c.handlerKey != "" && c.retryTimes == 0
    requires forall f :: f in live ==> !SameTarget(f, c)
    requires forall x :: x in sent ==> !SameTarget(x, c)
    ensures LogOk(sent + [c], live + multiset{c}, inflight + multiset{c})
  {
    AttemptAppended(sent, c);
    assert forall f :: f in live + multiset{c} <==> f in live || f == c;
    assert forall f :: f in live ==> !SameTarget(c, f);
  }

  lemma FirstRest(s: State, live: multiset<EventData>, c: EventData)
    requires FailuresOk(s.sent, s.failed, s.inflight, live) && RoutesOk(s.targets, s.nextId, s.sent, live)
    requires RejectedOk(s.targets, s.rejected) && Target(c.id, c.handlerKey) !in s.rejected
    requires c.id in s.targets && c.handlerKey != "" && c.retryTimes == 0
    ensures var targets := s.targets[c.id := s.targets[c.id] + {c.handlerKey}];
            && FailuresOk(s.sent + [c], s.failed, s.inflight + multiset{c}, live + multiset{c})
            && RoutesOk(targets, s.nextId, s.sent + [c], live + multiset{c}) && RejectedOk(targets, s.rejected)
  {
    assert forall f :: f in live + multiset{c} <==> f in live || f == c;
    assert forall x :: x in s.sent + [c] <==> x in s.sent || x == c;
  }

  /** What a handler ahead of a loop has had of its event: nothing. */
  lemma NotReached(s: State, id: nat)
    requires Inv(s) && id in s.walks && s.walks[id].rest != []
    ensures var w := s.walks[id];
            var c := EventData(id, w.eventType, w.rest[0], 0);
            && id in s.targets && id < s.nextId && w.rest[0] in s.handlers && w.rest[0] != ""
            && (Rejects(s.filters, w.rest[0], w.eventType) <==> Target(id, w.rest[0]) in s.rejected)
            && (forall f :: f in Live(s) ==> !SameTarget(f, c)) && (forall x :: x in s.sent ==> !SameTarget(x, c))
  {
    assert WalkOk(s, id, s.walks[id]);
    assert s.walks[id].rest[0] in s.walks[id].rest;
  }

  /** The loop moves on by one handler, which may become a receiver. */
  lemma VisitWalks(s: State, t: State, id: nat)
    requires WalksOk(s) && id in s.walks && s.walks[id].rest != []
    requires t.walks == s.walks[id := s.walks[id].(rest := s.walks[id].rest[1..])]
    requires t.handlers == s.handlers && t.filters == s.filters && t.rejected == s.rejected && id in s.targets
    requires t.targets == s.targets || t.targets == s.targets[id := s.targets[id] + {s.walks[id].rest[0]}]
    ensures WalksOk(t)
  {
    var w := s.walks[id];
    assert WalkOk(s, id, w);
    assert w.rest == [w.rest[0]] + w.rest[1..] && w.rest[0] !in w.rest[1..];
    forall i | i in t.walks ensures WalkOk(t, i, t.walks[i]) {
      assert WalkOk(s, i, s.walks[i]);
    }
  }

  lemma EndKeepsInv(s: State, id: nat)
    requires Inv(s)
    ensures Inv(s.(walks := s.walks - {id}))
  {
    var t := s.(walks := s.walks - {id});
    assert Live(t) == Live(s);
    forall i | i in t.walks ensures WalkOk(t, i, t.walks[i]) {
      assert WalkOk(s, i, s.walks[i]);
    }
  }

  lemma SkipKeepsInv(s: State, id: nat)
    requires Inv(s) && id in s.walks && s.walks[id].rest != []
    ensures Inv(s.(walks := s.walks[id := s.walks[id].(rest := s.walks[id].rest[1..])]))
  {
    var t := s.(walks := s.walks[id := s.walks[id].(rest := s.walks[id].rest[1..])]);
    assert Live(t) == Live(s);
    NotReached(s, id);
    VisitWalks(s, t, id);
  }

  lemma FirstSendKeepsInv(s: State, id: nat)
    requires Inv(s) && id in s.walks && s.walks[id].rest != []
    requires !Rejects(s.filters, s.walks[id].rest[0], s.walks[id].eventType)
    ensures var w := s.walks[id];
            Inv(FirstSent(s.(walks := s.walks[id := w.(rest := w.rest[1..])]),
                          EventData(id, w.eventType, w.rest[0], 0)))
  {
    var w := s.walks[id];
    var c := EventData(id, w.eventType, w.rest[0], 0);
    var t := FirstSent(s.(walks := s.walks[id := w.(rest := w.rest[1..])]), c);
    NotReached(s, id);
    assert Live(t) == Live(s) + multiset{c};
    FirstCopies(Live(s), s.inflight, s.nextId, c);
    FirstLog(s.sent, Live(s), s.inflight, c);
    FirstRest(s, Live(s), c);
    VisitWalks(s, t, id);
  }

  lemma VisitKeepsInv(s: State, id: nat)
    requires Inv(s) && id in s.walks
    ensures Inv(Visited(s, id))
  {
    var w := s.walks[id];
    if w.rest == [] || Rejects(s.filters, w.rest[0], w.eventType) {
      EndKeepsInv(s, id);
    } else {
      SkipKeepsInv(s, id);
      FirstSendKeepsInv(s, id);
    }
  }

  lemma ArrivalKeepsInv(s: State, step: Step)
    requires Inv(s) && Enabled(s, step)
    requires step.Register? || step.Unregister? || step.Emit? || step.Enqueue? || step.EnqueueTimeout?
    ensures Inv(Apply(s, step))
  {
    match step
    case Register(_, _, _) => RegistrationKeepsInv(s, step);
    case Unregister(_, _) => RegistrationKeepsInv(s, step);
    case Emit(t) => EmitKeepsInv(s, t);
    case Enqueue(e) => EnqueueKeepsInv(s, e);
    case EnqueueTimeout(e) => TimeoutKeepsInv(s, e);
  }

  lemma DeliveryKeepsInv(s: State, step: Step)
    requires Inv(s) && Enabled(s, step)
    requires step.Process? || step.Visit? || step.SendSucceeds? || step.SendFails?
    ensures Inv(Apply(s, step))
  {
    match step
    case Process(order) => ProcessKeepsInv(s, order);
    case Visit(id) => VisitKeepsInv(s, id);
    case SendSucceeds(e) => SuccessKeepsInv(s, e);
    case SendFails(e) => FailureKeepsInv(s, e);
  }

  lemma StepKeepsInv(s: State, step: Step)
    requires Inv(s) && Enabled(s, step)
    ensures Inv(Apply(s, step))
  {
    if step.Process? || step.Visit? || step.SendSucceeds? || step.SendFails? {
      DeliveryKeepsInv(s, step);
    } else {
      ArrivalKeepsInv(s, step);
    }
  }
}
