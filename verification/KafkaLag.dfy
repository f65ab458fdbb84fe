/**
 The Kafka lag engine: what one partition contributes, what a poll remembers,
 and how the totals are capped. Everything here is free of any walking order;
 the two scalers are proved against it.

 Offsets and lags are unbounded integers; partitions are named by topic and number.
 */
module KafkaLag {
  import opened Common
  import opened KafkaFactors

  const INVALID_OFFSET := -1

  datatype ResetPolicy = Latest | Earliest

  datatype Config = Config(
    lagThreshold: int,
    offsetResetPolicy: ResetPolicy,
    allowIdleConsumers: bool,
    excludePersistentLag: bool,
    scaleToZeroOnInvalidOffset: bool,
    limitToPartitionsWithLag: bool,
    ensureEvenDistribution: bool)

  datatype Slot = Slot(topic: string, partition: int)

  type Offsets = map<string, map<int, int>>

  datatype Reading = Reading(lag: int, withPersistent: int)

  datatype LagError = NoBlock | BlockError | NoTopic | NoConsumerOffsets | NoProducerOffsets

  function Slots<V>(m: map<string, map<int, V>>): set<Slot> {
    set t, p | t in m && p in m[t] :: Slot(t, p)
  }

  function Find<V>(m: map<string, map<int, V>>, s: Slot): Option<V> {
    if s.topic in m && s.partition in m[s.topic] then Some(m[s.topic][s.partition]) else None
  }

  /** Go's nested map read: a missing entry reads as zero. */
  function OffsetAt(m: Offsets, s: Slot): int {
    match Find(m, s)
    case Some(o) => o
    case None => 0
  }

  /** Writing one entry of a nested map, creating the inner map if it is missing. */
  function Record(m: Offsets, s: Slot, o: int): Offsets {
    m[s.topic := (if s.topic in m then m[s.topic] else map[])[s.partition := o]]
  }

  /** What a partition contributes, given the offset remembered for it. */
  function ReadingOf(cfg: Config, remembered: Option<int>, committed: int, latest: int): Reading {
    if committed == INVALID_OFFSET then
      if cfg.scaleToZeroOnInvalidOffset then Reading(0, 0)
      else if cfg.offsetResetPolicy == Latest then Reading(1, 1)
      else Reading(latest, latest)
    else if cfg.excludePersistentLag && remembered == Some(committed) then
      Reading(0, latest - committed)
    else
      Reading(latest - committed, latest - committed)
  }

  /** Without a committed offset, and for one that is not suppressed. */
  lemma ReadingExact(cfg: Config, remembered: Option<int>, committed: int, latest: int)
    ensures var r := ReadingOf(cfg, remembered, committed, latest);
            && (committed == -1 ==> r.lag == r.withPersistent)
            && (committed == -1 && cfg.scaleToZeroOnInvalidOffset ==> r.lag == 0)
            && (committed == -1 && !cfg.scaleToZeroOnInvalidOffset ==>
                  r.lag == match cfg.offsetResetPolicy case Latest => 1 case Earliest => latest)
            && (committed != -1 ==> r.withPersistent == latest - committed)
            && (committed != -1 && !(cfg.excludePersistentLag && remembered == Some(committed)) ==>
                  r.lag == latest - committed)
  {
  }

  predicate Remembers(cfg: Config, committed: int) {
    cfg.excludePersistentLag && committed != INVALID_OFFSET
  }

  function Stored(cfg: Config, committed: Offsets, visited: set<Slot>): set<Slot> {
    set s | s in visited && Remembers(cfg, OffsetAt(committed, s))
  }

  /** What is remembered after the partitions in `visited` have been read. */
  function After(cfg: Config, prev: Offsets, committed: Offsets, visited: set<Slot>): Offsets {
    Overlay(prev, committed, Stored(cfg, committed, visited))
  }

  /** prev with the committed offset written over it at every slot of `stored`. */
  function Overlay(prev: Offsets, committed: Offsets, stored: set<Slot>): Offsets {
    map t | t in prev.Keys + (set s | s in stored :: s.topic) :: OverlayTopic(prev, committed, stored, t)
  }

  function OverlayTopic(prev: Offsets, committed: Offsets, stored: set<Slot>, t: string): map<int, int> {
    var kept := if t in prev then prev[t] else map[];
    map p | p in kept.Keys + (set s | s in stored && s.topic == t :: s.partition) ::
      if Slot(t, p) in stored then OffsetAt(committed, Slot(t, p)) else kept[p]
  }

  lemma OverlayFind(prev: Offsets, committed: Offsets, stored: set<Slot>, s: Slot)
    ensures Find(Overlay(prev, committed, stored), s) ==
            if s in stored then Some(OffsetAt(committed, s)) else Find(prev, s)
  {
    if s in stored {
      assert s.topic in (set x | x in stored :: x.topic);
      assert s.partition in (set x | x in stored && x.topic == s.topic :: x.partition);
    }
  }

  /** Nested maps are equal when they have the same topics and the same entries. */
  lemma SameEntries(a: Offsets, b: Offsets)
    requires a.Keys == b.Keys
    requires forall s :: Find(a, s) == Find(b, s)
    ensures a == b
  {
    forall t | t in a ensures a[t] == b[t] {
      forall p ensures p in a[t] <==> p in b[t] {
        assert Find(a, Slot(t, p)) == Find(b, Slot(t, p));
      }
      forall p | p in a[t] ensures a[t][p] == b[t][p] {
        assert Find(a, Slot(t, p)) == Find(b, Slot(t, p));
      }
    }
  }

  lemma RecordFind(m: Offsets, s: Slot, o: int, x: Slot)
    ensures Find(Record(m, s, o), x) == if x == s then Some(o) else Find(m, x)
  {
  }

  lemma RecordSame(m: Offsets, s: Slot, o: int)
    requires Find(m, s) == Some(o)
    ensures Record(m, s, o) == m
  {
    forall x ensures Find(Record(m, s, o), x) == Find(m, x) {
      RecordFind(m, s, o, x);
    }
    SameEntries(Record(m, s, o), m);
  }

  lemma AfterFind(cfg: Config, prev: Offsets, committed: Offsets, visited: set<Slot>, s: Slot)
    ensures Find(After(cfg, prev, committed, visited), s) ==
            if s in visited && Remembers(cfg, OffsetAt(committed, s)) then Some(OffsetAt(committed, s))
            else Find(prev, s)
  {
    OverlayFind(prev, committed, Stored(cfg, committed, visited), s);
  }

  lemma AfterNothing(cfg: Config, prev: Offsets, committed: Offsets)
    ensures After(cfg, prev, committed, {}) == prev
  {
    var none := Stored(cfg, committed, {});
    assert none == {};
    assert (set s | s in none :: s.topic) == {};
    forall s ensures Find(Overlay(prev, committed, none), s) == Find(prev, s) {
      OverlayFind(prev, committed, none, s);
    }
    SameEntries(Overlay(prev, committed, none), prev);
  }

  lemma OverlayTopics(prev: Offsets, committed: Offsets, stored: set<Slot>, s: Slot)
    ensures Overlay(prev, committed, stored + {s}).Keys == Overlay(prev, committed, stored).Keys + {s.topic}
  {
    assert (set x | x in stored + {s} :: x.topic) == (set x | x in stored :: x.topic) + {s.topic};
  }

  lemma OverlayOneMore(prev: Offsets, committed: Offsets, stored: set<Slot>, s: Slot)
    ensures Overlay(prev, committed, stored + {s}) ==
            Record(Overlay(prev, committed, stored), s, OffsetAt(committed, s))
  {
    OverlayTopics(prev, committed, stored, s);
    var a, m, o := Overlay(prev, committed, stored + {s}), Overlay(prev, committed, stored), OffsetAt(committed, s);
    forall x ensures Find(a, x) == if x == s then Some(o) else Find(m, x) {
      OverlayFind(prev, committed, stored + {s}, x);
      OverlayFind(prev, committed, stored, x);
    }
    RecordsEverywhere(a, m, s, o);
  }

  lemma RecordsEverywhere(a: Offsets, m: Offsets, s: Slot, o: int)
    requires a.Keys == m.Keys + {s.topic}
    requires forall x :: Find(a, x) == if x == s then Some(o) else Find(m, x)
    ensures a == Record(m, s, o)
  {
    forall x ensures Find(a, x) == Find(Record(m, s, o), x) {
      RecordFind(m, s, o, x);
    }
    SameEntries(a, Record(m, s, o));
  }

  lemma AfterOneMore(cfg: Config, prev: Offsets, committed: Offsets, visited: set<Slot>, s: Slot)
    ensures After(cfg, prev, committed, visited + {s}) ==
            if Remembers(cfg, OffsetAt(committed, s))
            then Record(After(cfg, prev, committed, visited), s, OffsetAt(committed, s))
            else After(cfg, prev, committed, visited)
  {
    var before, after := Stored(cfg, committed, visited), Stored(cfg, committed, visited + {s});
    if Remembers(cfg, OffsetAt(committed, s)) {
      assert after == before + {s};
      OverlayOneMore(prev, committed, before, s);
    } else {
      assert after == before;
    }
  }

  // ---- Totals of one poll -------------------------------------------------

  datatype Totals = Totals(lag: int, withPersistent: int, partitions: int, withLag: int)

  /** The readings a poll would make, given what is remembered when it starts. */
  function Readings(cfg: Config, prev: Offsets, committed: Offsets, producer: Offsets): Slot -> Reading {
    (s: Slot) => ReadingOf(cfg, Find(prev, s), OffsetAt(committed, s), OffsetAt(producer, s))
  }

  ghost function TotalsOver(slots: set<Slot>, reading: Slot -> Reading): Totals {
    Totals(SumOver(slots, Lag(reading)), SumOver(slots, Persistent(reading)), |slots|, SumOver(slots, Lagging(reading)))
  }

  ghost function Lag(reading: Slot -> Reading): Slot -> int { (s: Slot) => reading(s).lag }

  ghost function Persistent(reading: Slot -> Reading): Slot -> int { (s: Slot) => reading(s).withPersistent }

  ghost function Lagging(reading: Slot -> Reading): Slot -> int { (s: Slot) => if reading(s).lag > 0 then 1 else 0 }

  lemma TotalsOneMore(slots: set<Slot>, s: Slot, reading: Slot -> Reading)
    requires s !in slots
    ensures var t, r := TotalsOver(slots, reading), reading(s);
            TotalsOver(slots + {s}, reading) ==
            Totals(t.lag + r.lag, t.withPersistent + r.withPersistent, t.partitions + 1,
                   t.withLag + if r.lag > 0 then 1 else 0)
  {
    SumOverAdd(slots, Lag(reading), s);
    SumOverAdd(slots, Persistent(reading), s);
    SumOverAdd(slots, Lagging(reading), s);
  }

  ghost function LaggingIn(slots: set<Slot>, reading: Slot -> Reading): set<Slot> {
    set s | s in slots && reading(s).lag > 0
  }

  /** The count of lagging partitions is the number of partitions that lag. */
  lemma {:induction false} LaggingCounts(slots: set<Slot>, reading: Slot -> Reading)
    ensures TotalsOver(slots, reading).withLag == |LaggingIn(slots, reading)| <= |slots|
    decreases |slots|
  {
    if slots != {} {
      var s :| s in slots;
      LaggingCounts(slots - {s}, reading);
      SumOverRemove(slots, Lagging(reading), s);
      assert LaggingIn(slots - {s}, reading) == LaggingIn(slots, reading) - {s};
    }
  }

  // ---- Capping ------------------------------------------------------------

  predicate Capping(cfg: Config) {
    !cfg.allowIdleConsumers || cfg.limitToPartitionsWithLag || cfg.ensureEvenDistribution
  }

  function UpperBound(cfg: Config, t: Totals): int {
    if cfg.limitToPartitionsWithLag then t.withLag else t.partitions
  }

  /** The consumer demand before the bound is applied. */
  function Demand(cfg: Config, t: Totals): int {
    if cfg.ensureEvenDistribution
    then NextFactor(t.lag, t.partitions, cfg.lagThreshold) * cfg.lagThreshold
    else t.lag
  }

  function Capped(cfg: Config, t: Totals): int
    requires 0 < cfg.lagThreshold
  {
    if !Capping(cfg) then t.lag
    else if TruncDiv(Demand(cfg, t), cfg.lagThreshold) > UpperBound(cfg, t)
    then UpperBound(cfg, t) * cfg.lagThreshold
    else Demand(cfg, t)
  }

  lemma MultipleDividesBack(k: int, threshold: int)
    requires 0 < threshold
    ensures (k * threshold) / threshold == k && (k * threshold) % threshold == 0
    ensures 0 <= k ==> TruncDiv(k * threshold, threshold) == k
  {
    QuotientOfProduct(k, threshold);
    if 0 <= k {
      ScaleLe(0, k, threshold);
    }
  }

  /** With capping, the HPA is never asked for more consumers than the bound. */
  lemma CapRespectsBound(cfg: Config, t: Totals)
    requires 0 < cfg.lagThreshold && Capping(cfg) && 0 <= t.withLag <= t.partitions
    ensures TruncDiv(Capped(cfg, t), cfg.lagThreshold) <= UpperBound(cfg, t)
    ensures Capped(cfg, t) / cfg.lagThreshold <= UpperBound(cfg, t)
  {
    MultipleDividesBack(UpperBound(cfg, t), cfg.lagThreshold);
  }

  /** With even distribution and no lag limit, the metric is a whole number of consumers dividing the partitions. */
  lemma EvenMetricDividesPartitions(cfg: Config, t: Totals)
    requires 0 < cfg.lagThreshold && cfg.ensureEvenDistribution && !cfg.limitToPartitionsWithLag
    requires 1 <= t.partitions
    ensures Capped(cfg, t) % cfg.lagThreshold == 0
    ensures IsFactor(Capped(cfg, t) / cfg.lagThreshold, t.partitions)
    ensures Capped(cfg, t) / cfg.lagThreshold == NextFactor(t.lag, t.partitions, cfg.lagThreshold)
  {
    var f := NextFactor(t.lag, t.partitions, cfg.lagThreshold);
    NextFactorLeast(t.lag, t.partitions, cfg.lagThreshold);
    MultipleDividesBack(f, cfg.lagThreshold);
  }

  lemma QuotientAbove(a: int, k: nat, threshold: int)
    requires 0 < threshold
    ensures TruncDiv(a, threshold) > k <==> a >= (k + 1) * threshold
  {
    if 0 <= a {
      var q := a / threshold;
      assert a == threshold * q + a % threshold;
      if q > k {
        ScaleLe(k + 1, q, threshold);
      } else {
        ScaleLe(q + 1, k + 1, threshold);
      }
    } else {
      ScaleLe(1, k + 1, threshold);
    }
  }

  /** The capped lag: the plain lag up to the bound, or as many thresholds as the least covering divisor, up to the
      bound. */
  lemma CappedExact(cfg: Config, t: Totals)
    requires 0 < cfg.lagThreshold && 0 <= t.withLag <= t.partitions
    ensures var bound := if cfg.limitToPartitionsWithLag then t.withLag else t.partitions;
            && (!cfg.ensureEvenDistribution ==>
                  Capped(cfg, t) == if (cfg.allowIdleConsumers && !cfg.limitToPartitionsWithLag)
                                       || t.lag < (bound + 1) * cfg.lagThreshold
                                    then t.lag else bound * cfg.lagThreshold)
            && (cfg.ensureEvenDistribution ==>
                  var f := NextFactor(t.lag, t.partitions, cfg.lagThreshold);
                  Capped(cfg, t) == (if f <= bound then f else bound) * cfg.lagThreshold)
  {
    var bound := if cfg.limitToPartitionsWithLag then t.withLag else t.partitions;
    if cfg.ensureEvenDistribution {
      if t.partitions >= 1 {
        NextFactorLeast(t.lag, t.partitions, cfg.lagThreshold);
      }
      MultipleDividesBack(NextFactor(t.lag, t.partitions, cfg.lagThreshold), cfg.lagThreshold);
    } else {
      QuotientAbove(t.lag, bound, cfg.lagThreshold);
    }
  }

  // ---- Flag validation ----------------------------------------------------

  datatype FlagText = Absent | Malformed | Given(value: bool)

  datatype Flags = Flags(allowIdle: bool, limit: bool, even: bool)

  datatype FlagError = BadFlag | IdleAndLimit | LimitNeedsTopic | LimitAndEven | EvenNeedsTopic

  function FlagValue(f: FlagText): bool {
    f.Given? && f.value
  }

  /** The flag part of `parseKafkaMetadata`. */
  function ParseFlags(topic: string, idle: FlagText, limit: FlagText, even: FlagText): (r: Result<Flags, FlagError>)
    ensures r.Ok? <==>
            && !idle.Malformed? && !limit.Malformed? && !even.Malformed?
            && !(FlagValue(limit) && (FlagValue(idle) || FlagValue(even)))
            && (topic == "" ==> !FlagValue(limit) && !FlagValue(even))
    ensures r.Ok? ==> r.value == Flags(FlagValue(idle), FlagValue(limit), FlagValue(even))
  {
    if idle.Malformed? then Err(BadFlag)
    else if limit.Malformed? then Err(BadFlag)
    else if limit.Given? && FlagValue(idle) && limit.value then Err(IdleAndLimit)
    else if limit.Given? && topic == "" && limit.value then Err(LimitNeedsTopic)
    else if even.Malformed? then Err(BadFlag)
    else if even.Given? && FlagValue(limit) && even.value then Err(LimitAndEven)
    else if even.Given? && topic == "" && even.value then Err(EvenNeedsTopic)
    else Ok(Flags(FlagValue(idle), FlagValue(limit), FlagValue(even)))
  }

  /** The flag part of the Apache scaler's `Validate`: it does not exclude limit together with even. */
  function ApacheFlags(topics: seq<string>, f: Flags): (r: Result<Flags, FlagError>)
    ensures r.Ok? <==> !f.limit || (!f.allowIdle && topics != [])
    ensures r.Ok? ==> r.value == f
  {
    if f.allowIdle && f.limit then Err(IdleAndLimit)
    else if topics == [] && f.limit then Err(LimitNeedsTopic)
    else Ok(f)
  }

  function WithFlags(cfg: Config, f: Flags): (r: Config)
    ensures Flags(r.allowIdleConsumers, r.limitToPartitionsWithLag, r.ensureEvenDistribution) == f
  {
    cfg.(allowIdleConsumers := f.allowIdle, limitToPartitionsWithLag := f.limit, ensureEvenDistribution := f.even)
  }

  // ---- Runs of polls ------------------------------------------------------

  /** One poll as it affects memory: the committed offsets and the partitions it got to read. */
  datatype Poll = Poll(committed: Offsets, visited: set<Slot>)

  function Remembered(cfg: Config, polls: seq<Poll>): Offsets {
    if polls == [] then map[]
    else
      var last := polls[|polls| - 1];
      After(cfg, Remembered(cfg, polls[..|polls| - 1]), last.committed, last.visited)
  }

  predicate ValidAt(poll: Poll, s: Slot) {
    s in poll.visited && OffsetAt(poll.committed, s) != INVALID_OFFSET
  }

  /** Poll i is the last one that read a valid offset for s. */
  ghost predicate LastValid(polls: seq<Poll>, s: Slot, i: int) {
    0 <= i < |polls| && ValidAt(polls[i], s) && forall j :: i < j < |polls| ==> !ValidAt(polls[j], s)
  }

  /** What one more poll does to the memory of a partition. */
  lemma RememberedFind(cfg: Config, polls: seq<Poll>, s: Slot)
    requires polls != []
    ensures var init, last := polls[..|polls| - 1], polls[|polls| - 1];
            Find(Remembered(cfg, polls), s) ==
            if cfg.excludePersistentLag && ValidAt(last, s) then Some(OffsetAt(last.committed, s))
            else Find(Remembered(cfg, init), s)
  {
    var init, last := polls[..|polls| - 1], polls[|polls| - 1];
    AfterFind(cfg, Remembered(cfg, init), last.committed, last.visited, s);
  }

  /** The memory of one partition on its own. */
  ghost function MemoryAt(cfg: Config, polls: seq<Poll>, s: Slot): Option<int> {
    if polls == [] then None else
      var init, last := polls[..|polls| - 1], polls[|polls| - 1];
      if cfg.excludePersistentLag && ValidAt(last, s) then Some(OffsetAt(last.committed, s)) else MemoryAt(cfg, init, s)
  }

  lemma {:induction false} MemoryAtIs(cfg: Config, polls: seq<Poll>, s: Slot)
    ensures MemoryAt(cfg, polls, s) == Find(Remembered(cfg, polls), s)
  {
    if polls != [] {
      RememberedFind(cfg, polls, s);
      MemoryAtIs(cfg, polls[..|polls| - 1], s);
    }
  }

  lemma {:induction false} MemoryAtLastValid(cfg: Config, polls: seq<Poll>, s: Slot, i: int)
    requires cfg.excludePersistentLag && LastValid(polls, s, i)
    ensures MemoryAt(cfg, polls, s) == Some(OffsetAt(polls[i].committed, s))
  {
    var init := polls[..|polls| - 1];
    if i < |init| {
      LastValidEarlier(polls, init, s, i);
      MemoryAtLastValid(cfg, init, s, i);
    }
  }

  /** Memory holds the offset of the last valid poll. */
  lemma MemoryIsLastValid(cfg: Config, polls: seq<Poll>, s: Slot, i: int)
    requires cfg.excludePersistentLag && LastValid(polls, s, i)
    ensures Find(Remembered(cfg, polls), s) == Some(OffsetAt(polls[i].committed, s))
  {
    MemoryAtIs(cfg, polls, s);
    MemoryAtLastValid(cfg, polls, s, i);
  }

  lemma LastValidEarlier(polls: seq<Poll>, init: seq<Poll>, s: Slot, i: int)
    requires LastValid(polls, s, i) && i < |polls| - 1 && init == polls[..|polls| - 1]
    ensures LastValid(init, s, i) && init[i] == polls[i] && !ValidAt(polls[|polls| - 1], s)
  {
  }

  lemma {:induction false} MemoryAtWithoutValid(cfg: Config, polls: seq<Poll>, s: Slot)
    requires forall i :: 0 <= i < |polls| ==> !ValidAt(polls[i], s)
    ensures MemoryAt(cfg, polls, s) == None
  {
    if polls != [] {
      MemoryAtWithoutValid(cfg, polls[..|polls| - 1], s);
    }
  }

  /** Memory holds nothing for a partition that never had a valid offset. */
  lemma MemoryWithoutValid(cfg: Config, polls: seq<Poll>, s: Slot)
    requires forall i :: 0 <= i < |polls| ==> !ValidAt(polls[i], s)
    ensures Find(Remembered(cfg, polls), s) == None
  {
    MemoryAtIs(cfg, polls, s);
    MemoryAtWithoutValid(cfg, polls, s);
  }

  lemma {:induction false} LastValidExists(polls: seq<Poll>, s: Slot, i: int)
    requires 0 <= i < |polls| && ValidAt(polls[i], s)
    ensures exists k :: LastValid(polls, s, k)
    decreases |polls| - i
  {
    if j :| i < j < |polls| && ValidAt(polls[j], s) {
      LastValidExists(polls, s, j);
    } else {
      assert LastValid(polls, s, i);
    }
  }

  /** Memory holds an offset exactly when it is that of the last valid poll. */
  lemma MemoryExact(cfg: Config, polls: seq<Poll>, s: Slot, offset: int)
    requires cfg.excludePersistentLag
    ensures Find(Remembered(cfg, polls), s) == Some(offset) <==>
            exists i :: LastValid(polls, s, i) && OffsetAt(polls[i].committed, s) == offset
  {
    if i :| LastValid(polls, s, i) {
      MemoryIsLastValid(cfg, polls, s, i);
      assert forall k :: LastValid(polls, s, k) ==> k == i;
    } else {
      forall i | 0 <= i < |polls| ensures !ValidAt(polls[i], s) {
        if ValidAt(polls[i], s) {
          LastValidExists(polls, s, i);
        }
      }
      MemoryWithoutValid(cfg, polls, s);
    }
  }

  /** A valid offset is suppressed exactly when it repeats the last valid one; activation lag never is. */
  lemma SuppressionExact(cfg: Config, polls: seq<Poll>, s: Slot, committed: int, latest: int)
    requires cfg.excludePersistentLag && committed != INVALID_OFFSET
    ensures var r := ReadingOf(cfg, Find(Remembered(cfg, polls), s), committed, latest);
            && r.withPersistent == latest - committed
            && r.lag == (if exists i :: LastValid(polls, s, i) && OffsetAt(polls[i].committed, s) == committed
                         then 0 else latest - committed)
  {
    MemoryExact(cfg, polls, s, committed);
  }

  /** Without the option nothing is suppressed and nothing is remembered. */
  lemma {:induction false} WithoutExclusion(cfg: Config, polls: seq<Poll>, s: Slot, committed: int, latest: int)
    requires !cfg.excludePersistentLag
    ensures Remembered(cfg, polls) == map[]
    ensures var r := ReadingOf(cfg, Find(Remembered(cfg, polls), s), committed, latest); r.lag == r.withPersistent
  {
    if polls != [] {
      WithoutExclusion(cfg, polls[..|polls| - 1], s, committed, latest);
    }
  }
}
