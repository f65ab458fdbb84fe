/**
 Which handlers receive a new event: the filter test and the fan-out loop of
 `emitEventByHandler`, over any order in which the handler map is walked.
 */
module EventFanOut {
  import opened Common
  import opened HandlerKeys

  datatype EventFilter = EventFilter(included: seq<string>, excluded: seq<string>)

  /** True when the event must not be handled. */
  predicate FilterEvent(f: EventFilter, eventType: string) {
    if 0 < |f.included| then eventType !in f.included
    else if 0 < |f.excluded| then eventType in f.excluded
    else false
  }

  /** Included types, if there are any, are the only ones handled; otherwise all but the excluded ones are. */
  lemma FilterMeaning(f: EventFilter, eventType: string)
    ensures f.included != [] ==> (FilterEvent(f, eventType) <==> eventType !in f.included)
    ensures f.included == [] ==> (FilterEvent(f, eventType) <==> eventType in f.excluded)
  {
  }

  /** The filter consulted for a handler key: the one stored under its source identifier. */
  predicate Rejects(filters: map<string, EventFilter>, key: string, eventType: string) {
    var identifier := GetPrefixIdentifier(key);
    identifier in filters && FilterEvent(filters[identifier], eventType)
  }

  /** For a source with a dot-free name, its handlers consult its own filter. */
  lemma OwnFilterConsulted(filters: map<string, EventFilter>, kind: string, namespace: string, name: string,
                           handlerType: string, eventType: string)
    requires DotFree(kind) && DotFree(namespace) && DotFree(name)
    ensures var id := Identifier(kind, namespace, name);
            Rejects(filters, NewEventHandlerKey(id, handlerType), eventType) <==>
            id in filters && FilterEvent(filters[id], eventType)
  {
    PrefixUndoesKey(kind, namespace, name, handlerType);
  }

  /** For a dotted name it does not: the source's own filter alone never rejects anything. */
  lemma DottedNameUnfiltered(f: EventFilter, kind: string, namespace: string, name: string, handlerType: string,
                             eventType: string)
    requires DotFree(kind) && DotFree(namespace) && !DotFree(name)
    ensures var id := Identifier(kind, namespace, name);
            !Rejects(map[id := f], NewEventHandlerKey(id, handlerType), eventType)
  {
    PrefixUndoesKey(kind, namespace, name, handlerType);
  }

  /** The keys sent to, in order: the loop stops altogether at the first rejecting filter. */
  function FanOut(order: seq<string>, filters: map<string, EventFilter>, eventType: string,
                  active: set<string>): seq<string> {
    if order == [] || Rejects(filters, order[0], eventType) then []
    else (if order[0] in active then [order[0]] else []) + FanOut(order[1..], filters, eventType, active)
  }

  /** Sends go to walked, active, accepting handlers, at most one send each. */
  lemma {:induction false} FanOutSound(order: seq<string>, filters: map<string, EventFilter>, eventType: string,
                                       active: set<string>)
    requires Distinct(order)
    ensures var sent := FanOut(order, filters, eventType, active);
            && Distinct(sent) && |sent| <= |order|
            && forall k :: k in sent ==> k in order && k in active && !Rejects(filters, k, eventType)
  {
    if order != [] {
      FanOutSound(order[1..], filters, eventType, active);
      assert order[0] !in order[1..];
    }
  }

  /** If no filter rejects, the receivers are exactly the active handlers, in any order. */
  lemma {:induction false} FanOutComplete(order: seq<string>, filters: map<string, EventFilter>, eventType: string,
                                          active: set<string>)
    requires forall k :: k in order ==> !Rejects(filters, k, eventType)
    ensures forall k :: k in FanOut(order, filters, eventType, active) <==> k in order && k in active
  {
    if order != [] {
      assert order == [order[0]] + order[1..];
      assert order[0] in order;
      FanOutComplete(order[1..], filters, eventType, active);
    }
  }

  /** A handler that is entitled to the event: active, and accepted by its own filter. */
  predicate Entitled(filters: map<string, EventFilter>, eventType: string, active: set<string>, key: string) {
    key in active && !Rejects(filters, key, eventType)
  }

  ghost predicate EveryOrderServesAll(keys: set<string>, filters: map<string, EventFilter>, eventType: string,
                                      active: set<string>) {
    forall order, k :: WalkOf(order, keys) && k in keys && Entitled(filters, eventType, active, k) ==>
      k in FanOut(order, filters, eventType, active)
  }

  /** Every entitled handler is served in every map order exactly when no filter rejects, or nobody is entitled. */
  lemma ServesAllExactly(keys: set<string>, filters: map<string, EventFilter>, eventType: string, active: set<string>)
    ensures EveryOrderServesAll(keys, filters, eventType, active) <==>
            || (forall k :: k in keys ==> !Rejects(filters, k, eventType))
            || (forall k :: k in keys ==> !Entitled(filters, eventType, active, k))
  {
    if forall k :: k in keys ==> !Rejects(filters, k, eventType) {
      forall order, k | WalkOf(order, keys) && k in keys && Entitled(filters, eventType, active, k)
        ensures k in FanOut(order, filters, eventType, active)
      {
        assert forall x :: x in order ==> x in Elements(order);
        assert k in Elements(order);
        FanOutComplete(order, filters, eventType, active);
      }
    } else if k :| k in keys && Entitled(filters, eventType, active, k) {
      var r :| r in keys && Rejects(filters, r, eventType);
      var rest := WalkExists(keys - {r});
      var order := [r] + rest;
      assert WalkOf(order, keys) by {
        assert r !in Elements(rest);
        assert forall x :: x in order <==> x == r || x in Elements(rest);
      }
      assert FanOut(order, filters, eventType, active) == [];
      assert k !in FanOut(order, filters, eventType, active);
    }
  }

  /** With two sources, one excluding a type the other wants, some map order serves nobody. */
  lemma FanOutMiss(a: string, b: string, eventType: string)
    requires GetPrefixIdentifier(a) != GetPrefixIdentifier(b)
    ensures var filters := map[GetPrefixIdentifier(a) := EventFilter([], [eventType])];
            && Entitled(filters, eventType, {a, b}, b)
            && !EveryOrderServesAll({a, b}, filters, eventType, {a, b})
  {
    var filters := map[GetPrefixIdentifier(a) := EventFilter([], [eventType])];
    assert Rejects(filters, a, eventType) && Entitled(filters, eventType, {a, b}, b);
    ServesAllExactly({a, b}, filters, eventType, {a, b});
  }
}
