/** The emitter's functions as methods on its fields; each one performs a step of the model. */
module EmitterClass {
  import opened Common
  import opened EventFanOut
  import opened Emitter

  // ---- A fan-out loop with nothing in between ------------------------------

  /** The loop over event id, run to its end. */
  function LoopRun(s: State, id: nat): State
    decreases if id in s.walks then |s.walks[id].rest| + 1 else 0
  {
    if id !in s.walks then s else LoopRun(Visited(s, id), id)
  }

  lemma {:induction false} LoopRunKeepsInv(s: State, id: nat)
    requires Inv(s)
    ensures Inv(LoopRun(s, id)) && id !in LoopRun(s, id).walks
    decreases if id in s.walks then |s.walks[id].rest| + 1 else 0
  {
    if id in s.walks {
      VisitKeepsInv(s, id);
      LoopRunKeepsInv(Visited(s, id), id);
    }
  }

  /** One copy of e per key. */
  function Copies(e: EventData, keys: seq<string>): seq<EventData> {
    if keys == [] then [] else [e.(handlerKey := keys[0])] + Copies(e, keys[1..])
  }

  /** The receivers the loop still has to come to, in order. */
  function Receivers(s: State, id: nat): seq<string> {
    if id !in s.walks then []
    else FanOut(s.walks[id].rest, s.filters, s.walks[id].eventType, ActiveKeys(s.handlers))
  }

  /** The log has grown by the first receiver, or not at all. */
  ghost predicate Advances(log: seq<EventData>, log': seq<EventData>, e: EventData, r: seq<string>, r': seq<string>) {
    || (log' == log && r' == r)
    || (r != [] && r' == r[1..] && log' == log + [e.(handlerKey := r[0])])
  }

  lemma AdvancesTotal(log: seq<EventData>, log': seq<EventData>, e: EventData, r: seq<string>, r': seq<string>)
    requires Advances(log, log', e, r, r')
    ensures log' + Copies(e, r') == log + Copies(e, r)
  {
    if log' != log {
      assert log + [e.(handlerKey := r[0])] + Copies(e, r') == log + ([e.(handlerKey := r[0])] + Copies(e, r'));
    }
  }

  /** What one iteration sends. */
  lemma VisitSends(s: State, id: nat)
    requires id in s.walks
    ensures var t, e := Visited(s, id), EventData(id, s.walks[id].eventType, "", 0);
            && t.handlers == s.handlers && (id in t.walks ==> t.walks[id].eventType == s.walks[id].eventType)
            && Advances(s.sent, t.sent, e, Receivers(s, id), Receivers(t, id))
  {
    var w, t := s.walks[id], Visited(s, id);
    if w.rest != [] && !Rejects(s.filters, w.rest[0], w.eventType) {
      var tail := FanOut(w.rest[1..], s.filters, w.eventType, ActiveKeys(s.handlers));
      assert Receivers(t, id) == tail;
      assert w.rest[0] !in ActiveKeys(s.handlers) ==> [] + tail == tail;
    }
  }

  /** Uninterrupted, the loop sends to exactly the handlers of the fan-out specification, in order. */
  lemma {:induction false} LoopRunFansOut(s: State, id: nat, eventType: string)
    requires id in s.walks ==> s.walks[id].eventType == eventType
    ensures LoopRun(s, id).handlers == s.handlers
    ensures LoopRun(s, id).sent == s.sent + Copies(EventData(id, eventType, "", 0), Receivers(s, id))
    decreases if id in s.walks then |s.walks[id].rest| + 1 else 0
  {
    if id in s.walks {
      var t := Visited(s, id);
      VisitSends(s, id);
      AdvancesTotal(s.sent, t.sent, EventData(id, eventType, "", 0), Receivers(s, id), Receivers(t, id));
      LoopRunFansOut(t, id, eventType);
    }
  }

  // ---- What the steps mean -------------------------------------------------

  lemma EnqueueKeepsCopies(s: State, e: EventData)
    requires e in s.waiting
    ensures Live(Enqueued(s, e)) == Live(s) && Live(TimedOut(s, e)) == Live(s) - multiset{e}
  {
    assert multiset(s.queue + [e]) == multiset(s.queue) + multiset{e};
  }

  lemma EnqueueResults(s: State, e: EventData, timedOut: bool)
    requires Inv(s) && e in s.waiting && (MAX_BUFFER <= |s.queue| ==> timedOut)
    ensures var t := if timedOut then TimedOut(s, e) else Enqueued(s, e);
            Inv(t) && Live(t) == if timedOut then Live(s) - multiset{e} else Live(s)
  {
    EnqueueKeepsCopies(s, e);
    if timedOut {
      TimeoutKeepsInv(s, e);
    } else {
      EnqueueKeepsInv(s, e);
    }
  }

  lemma SuccessResults(s: State, e: EventData)
    requires Inv(s) && e in s.inflight
    ensures Inv(Succeeded(s, e))
    ensures forall f :: f in Live(Succeeded(s, e)) ==> !SameTarget(f, e)
  {
    SuccessKeepsInv(s, e);
    LandedOnce(s, e);
    assert Live(Succeeded(s, e)) == Live(s) - multiset{e};
    WithoutCopy(Live(s), e);
  }

  lemma RetrySends(s: State, order: seq<string>)
    requires s.queue != []
    ensures Processed(s, order).queue == s.queue[1..]
    ensures var e := s.queue[0];
            e.handlerKey != "" && e.retryTimes < 5 ==>
              Processed(s, order).sent
              == s.sent + if e.handlerKey in s.handlers && s.handlers[e.handlerKey] then [e] else []
  {
  }

  class EventEmitter {
    var eventHandlersCache: map<string, bool>
    var eventFilterCache: map<string, EventFilter>
    var processingChan: seq<EventData>
    // goroutines blocked in enqueueEventData, inside the fan-out loop, and inside EmitEvent
    var waiting: multiset<EventData>
    var walks: map<nat, Walk>
    var inflight: multiset<EventData>
    var nextId: nat
    ghost var sent: seq<EventData>
    ghost var failed: set<EventData>
    ghost var targets: map<nat, set<string>>
    ghost var rejected: set<Target>

    ghost function Abs(): State
      reads this
    {
      State(eventHandlersCache, eventFilterCache, nextId, waiting, processingChan, walks, inflight,
            sent, failed, targets, rejected)
    }

    constructor ()
      ensures Abs() == INITIAL
    {
      eventHandlersCache, eventFilterCache, processingChan := map[], map[], [];
      waiting, walks, inflight, nextId := multiset{}, map[], multiset{}, 0;
      sent, failed, targets, rejected := [], {}, map[], {};
    }

    /** `Emit`: nothing is queued while no handler is registered. The new event is the only one of its id. */
    method EmitEvent(eventType: string)
      requires Inv(Abs())
      modifies this`waiting, this`nextId
      ensures Abs() == Emitted(old(Abs()), eventType) && Inv(Abs())
      ensures waiting == if eventHandlersCache == map[] then old(waiting)
                         else old(waiting) + multiset{EventData(old(nextId), eventType, "", 0)}
      ensures forall e :: e in old(Live(Abs())) ==> e.id < old(nextId)
    {
      EmitKeepsInv(Abs(), eventType);
      if |eventHandlersCache| == 0 {
        return;
      }
      waiting := waiting + multiset{EventData(nextId, eventType, "", 0)};
      nextId := nextId + 1;
    }

    /** `enqueueEventData`: the select either gets a free channel slot or times out. */
    method EnqueueEventData(e: EventData, timedOut: bool)
      requires Inv(Abs()) && e in waiting && (MAX_BUFFER <= |processingChan| ==> timedOut)
      modifies this`waiting, this`processingChan
      ensures Abs() == (if timedOut then TimedOut(old(Abs()), e) else Enqueued(old(Abs()), e)) && Inv(Abs())
      ensures Live(Abs()) == if timedOut then old(Live(Abs())) - multiset{e} else old(Live(Abs()))
      ensures processingChan == (if timedOut then old(processingChan) else old(processingChan) + [e])
      ensures |processingChan| <= 1024
    {
      EnqueueResults(Abs(), e, timedOut);
      SelectSlot(e, timedOut);
    }

    method SelectSlot(e: EventData, timedOut: bool)
      requires e in waiting
      modifies this`waiting, this`processingChan
      ensures Abs() == if timedOut then TimedOut(old(Abs()), e) else Enqueued(old(Abs()), e)
    {
      waiting := waiting - multiset{e};
      if !timedOut {
        processingChan := processingChan + [e];
      }
    }

    method SetInactive(key: string)
      modifies this`eventHandlersCache
      ensures eventHandlersCache == Deactivate(old(eventHandlersCache), key)
    {
      if key in eventHandlersCache {
        eventHandlersCache := eventHandlersCache[key := false];
      }
    }

    /** `go handler.EmitEvent(...)`. */
    method StartSend(e: EventData)
      modifies this`inflight, this`sent
      ensures inflight == old(inflight) + multiset{e} && sent == old(sent) + [e]
    {
      inflight := inflight + multiset{e};
      sent := sent + [e];
    }

    /** Receiving from the channel. */
    method Receive() returns (e: EventData)
      requires processingChan != []
      modifies this`processingChan
      ensures e == old(processingChan[0]) && Abs() == Taken(old(Abs()))
    {
      e := processingChan[0];
      processingChan := processingChan[1..];
    }

    /** `emitEventByHandler` on a copy received from the channel, up to the fan-out loop. */
    method EmitEventByHandler(e: EventData, order: seq<string>)
      modifies this`eventHandlersCache, this`walks, this`inflight, this`sent, this`targets, this`rejected
      ensures Abs() == EmitByHandler(old(Abs()), e, order)
    {
      if e.retryTimes >= MAX_RETRY {
        SetInactive(e.handlerKey);
      } else if e.handlerKey == "" {
        walks := walks[e.id := Walk(e.eventType, order)];
        targets := targets[e.id := {}];
        rejected := rejected + RejectedTargets(eventHandlersCache, eventFilterCache, e);
      } else if e.handlerKey in eventHandlersCache && eventHandlersCache[e.handlerKey] {
        StartSend(e);
      }
    }

    method ReceiveAndEmit(order: seq<string>)
      requires processingChan != []
      modifies this
      ensures Abs() == Processed(old(Abs()), order)
    {
      var e := Receive();
      EmitEventByHandler(e, order);
    }

    /** One turn of the event loop keeps the invariant of every run. */
    method ConsumeOne(order: seq<string>)
      requires Inv(Abs()) && processingChan != [] && WalkOf(order, eventHandlersCache.Keys)
      modifies this
      ensures Abs() == Processed(old(Abs()), order) && Inv(Abs()) && processingChan == old(processingChan)[1..]
      ensures var e := old(processingChan)[0];
              e.handlerKey != "" && e.retryTimes < 5 ==>
                sent == old(sent) + if e.handlerKey in old(eventHandlersCache) && old(eventHandlersCache)[e.handlerKey]
                                    then [e] else []
    {
      ProcessKeepsInv(Abs(), order);
      RetrySends(Abs(), order);
      ReceiveAndEmit(order);
    }

    /** One iteration of the fan-out loop over event id. */
    method VisitNext(id: nat)
      requires id in walks
      modifies this`walks, this`inflight, this`sent, this`targets
      ensures Abs() == Visited(old(Abs()), id)
    {
      var w := walks[id];
      if w.rest == [] || Rejects(eventFilterCache, w.rest[0], w.eventType) {
        walks := walks - {id};
        return;
      }
      walks := walks[id := w.(rest := w.rest[1..])];
      if w.rest[0] in eventHandlersCache && eventHandlersCache[w.rest[0]] {
        targets := targets[id := TargetsOf(targets, id) + {w.rest[0]}];
        StartSend(EventData(id, w.eventType, w.rest[0], 0));
      }
    }

    method RunLoop(id: nat)
      modifies this`walks, this`inflight, this`sent, this`targets
      ensures Abs() == LoopRun(old(Abs()), id)
    {
      while id in walks
        invariant LoopRun(Abs(), id) == LoopRun(old(Abs()), id)
        decreases if id in walks then |walks[id].rest| + 1 else 0
      {
        VisitNext(id);
      }
    }

    /** The whole loop with nothing in between: it ends, keeps the invariant of every run, and sends to exactly the
        handlers of the fan-out specification, in order. */
    method FanOutEvent(id: nat)
      requires Inv(Abs()) && id in walks
      modifies this`walks, this`inflight, this`sent, this`targets
      ensures Inv(Abs()) && id !in walks
      ensures var w := old(walks)[id];
              var keys := FanOut(w.rest, eventFilterCache, w.eventType, ActiveKeys(eventHandlersCache));
              sent == old(sent) + Copies(EventData(id, w.eventType, "", 0), keys)
    {
      LoopRunKeepsInv(Abs(), id);
      LoopRunFansOut(Abs(), id, walks[id].eventType);
      RunLoop(id);
    }

    /** A send returned with an error; the callback follows. */
    method SendFailed(e: EventData)
      requires e in inflight
      modifies this`inflight, this`failed
      ensures inflight == old(inflight) - multiset{e} && failed == old(failed) + {e}
    {
      inflight := inflight - multiset{e};
      failed := failed + {e};
    }

    /** `emitErrorHandle`. */
    method EmitErrorHandle(e: EventData)
      modifies this`eventHandlersCache, this`waiting
      ensures Abs() == ErrorHandle(old(Abs()), e)
    {
      if e.retryTimes >= MAX_RETRY {
        SetInactive(e.handlerKey);
        return;
      }
      waiting := waiting + multiset{Retried(e)};
    }

    method FailAndHandle(e: EventData)
      requires e in inflight
      modifies this`inflight, this`failed, this`eventHandlersCache, this`waiting
      ensures Abs() == Failed(old(Abs()), e)
    {
      SendFailed(e);
      EmitErrorHandle(e);
    }

    /** A failing send and its callback: the copy is requeued with one more retry, and no handler is given up. */
    method FailSend(e: EventData)
      requires Inv(Abs()) && e in inflight
      modifies this`inflight, this`failed, this`eventHandlersCache, this`waiting
      ensures Abs() == Failed(old(Abs()), e) && Inv(Abs())
      ensures eventHandlersCache == old(eventHandlersCache) && Retried(e) in waiting
    {
      FailureKeepsInv(Abs(), e);
      FailureRequeues(Abs(), e);
      FailAndHandle(e);
    }

    /** A send that was accepted: no copy of the event is left under this key. */
    method EmitSucceeded(e: EventData)
      requires Inv(Abs()) && e in inflight
      modifies this`inflight
      ensures Abs() == Succeeded(old(Abs()), e) && Inv(Abs())
      ensures forall f :: f in Live(Abs()) ==> !SameTarget(f, e)
    {
      SuccessResults(Abs(), e);
      inflight := inflight - multiset{e};
    }
  }
}
