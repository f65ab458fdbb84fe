/**
 The two Kafka scalers. Both walk Go maps, so a walking order is a parameter of
 every poll; their contracts do not mention it.
 */
module KafkaScalers {
  import opened Common
  import opened KafkaFactors
  import opened KafkaLag

  datatype Block = Block(offset: int, err: int)

  type Blocks = map<string, map<int, Block>>

  /** The committed offsets carried by a fetch response. */
  function Committed(blocks: Blocks): Offsets {
    map t | t in blocks :: map p | p in blocks[t] :: blocks[t][p].offset
  }

  lemma CommittedAt(blocks: Blocks, s: Slot)
    requires Find(blocks, s).Some?
    ensures OffsetAt(Committed(blocks), s) == Find(blocks, s).value.offset
  {
  }

  predicate BlockOk(blocks: Blocks, s: Slot) {
    Find(blocks, s).Some? && Find(blocks, s).value.err <= 0
  }

  function GoodSlots(blocks: Blocks): set<Slot> {
    set s | s in Slots(blocks) && BlockOk(blocks, s)
  }

  lemma GoodSlotsAreOk(blocks: Blocks)
    ensures forall s :: s in GoodSlots(blocks) <==> BlockOk(blocks, s)
  {
  }

  ghost predicate AllBlocksOk(blocks: Blocks, producer: Offsets) {
    forall s :: s in Slots(producer) ==> BlockOk(blocks, s)
  }

  /** An order for the nested walk: topics in any order, partitions of each topic in any order. */
  ghost predicate NestedWalk(topics: seq<string>, partitions: map<string, seq<int>>, producer: Offsets) {
    && WalkOf(topics, producer.Keys)
    && partitions.Keys == producer.Keys
    && forall t :: t in producer ==> WalkOf(partitions[t], producer[t].Keys)
  }

  datatype Metric = Metric(totalLag: int, totalLagWithPersistent: int)

  ghost function MetricOf(cfg: Config, t: Totals): Metric
    requires 0 < cfg.lagThreshold
  {
    Metric(Capped(cfg, t), t.withPersistent)
  }

  /** The metric of a poll that reads every partition. */
  ghost function PollMetric(cfg: Config, prev: Offsets, committed: Offsets, producer: Offsets): Metric
    requires 0 < cfg.lagThreshold
  {
    MetricOf(cfg, TotalsOver(Slots(producer), Readings(cfg, prev, committed, producer)))
  }

  /** What a poll's metric promises: no more consumers than the bound in force, and a divisor when asked for. */
  ghost predicate Promised(cfg: Config, prev: Offsets, committed: Offsets, producer: Offsets, metric: Metric)
    requires 0 < cfg.lagThreshold
  {
    var consumers := metric.totalLag / cfg.lagThreshold;
    && (Capping(cfg) ==> consumers <= |Slots(producer)|)
    && (cfg.limitToPartitionsWithLag ==>
          consumers <= |LaggingIn(Slots(producer), Readings(cfg, prev, committed, producer))|)
    && (cfg.ensureEvenDistribution && !cfg.limitToPartitionsWithLag && Slots(producer) != {} ==>
          metric.totalLag % cfg.lagThreshold == 0 && IsFactor(consumers, |Slots(producer)|))
  }

  /** The metric of every poll keeps both promises. */
  lemma PollKeepsPromise(cfg: Config, prev: Offsets, committed: Offsets, producer: Offsets)
    requires 0 < cfg.lagThreshold
    ensures Promised(cfg, prev, committed, producer, PollMetric(cfg, prev, committed, producer))
  {
    var slots, reading := Slots(producer), Readings(cfg, prev, committed, producer);
    var totals := TotalsOver(slots, reading);
    LaggingCounts(slots, reading);
    if Capping(cfg) {
      CapRespectsBound(cfg, totals);
    }
    if cfg.ensureEvenDistribution && !cfg.limitToPartitionsWithLag && slots != {} {
      EvenMetricDividesPartitions(cfg, totals);
    }
  }

  /** What a poll reads of a partition. */
  function ReadAt(cfg: Config, prev: Offsets, committed: Offsets, producer: Offsets, s: Slot): Reading {
    ReadingOf(cfg, Find(prev, s), OffsetAt(committed, s), OffsetAt(producer, s))
  }

  /** The metric, from the partitions' readings. The total is the sum of the lags, limited to as many thresholds as
      there are partitions, or lagging partitions; with even distribution it is as many thresholds as the least divisor
      of the number of partitions that covers the sum. */
  ghost predicate MetricExact(cfg: Config, prev: Offsets, committed: Offsets, producer: Offsets, metric: Metric)
    requires 0 < cfg.lagThreshold
  {
    var slots, thr := Slots(producer), cfg.lagThreshold;
    var sum := SumOver(slots, (s: Slot) => ReadAt(cfg, prev, committed, producer, s).lag);
    var lagging := set s | s in slots && ReadAt(cfg, prev, committed, producer, s).lag > 0;
    var bound := if cfg.limitToPartitionsWithLag then |lagging| else |slots|;
    && metric.totalLagWithPersistent
       == SumOver(slots, (s: Slot) => ReadAt(cfg, prev, committed, producer, s).withPersistent)
    && (!cfg.ensureEvenDistribution ==>
          metric.totalLag == if (cfg.allowIdleConsumers && !cfg.limitToPartitionsWithLag) || sum < (bound + 1) * thr
                             then sum else bound * thr)
    && (cfg.ensureEvenDistribution ==>
          var f := NextFactor(sum, |slots|, thr); metric.totalLag == (if f <= bound then f else bound) * thr)
  }

  lemma TotalsExact(cfg: Config, prev: Offsets, committed: Offsets, producer: Offsets)
    ensures var slots := Slots(producer);
            TotalsOver(slots, Readings(cfg, prev, committed, producer))
            == Totals(SumOver(slots, (s: Slot) => ReadAt(cfg, prev, committed, producer, s).lag),
                      SumOver(slots, (s: Slot) => ReadAt(cfg, prev, committed, producer, s).withPersistent),
                      |slots|, |set s | s in slots && ReadAt(cfg, prev, committed, producer, s).lag > 0|)
  {
    var slots, reading := Slots(producer), Readings(cfg, prev, committed, producer);
    SumOverAgree(slots, Lag(reading), (s: Slot) => ReadAt(cfg, prev, committed, producer, s).lag);
    SumOverAgree(slots, Persistent(reading), (s: Slot) => ReadAt(cfg, prev, committed, producer, s).withPersistent);
    LaggingCounts(slots, reading);
    assert LaggingIn(slots, reading) == set s | s in slots && ReadAt(cfg, prev, committed, producer, s).lag > 0;
  }

  /** Every poll's metric is exactly that. */
  lemma PollMetricExact(cfg: Config, prev: Offsets, committed: Offsets, producer: Offsets)
    requires 0 < cfg.lagThreshold
    ensures MetricExact(cfg, prev, committed, producer, PollMetric(cfg, prev, committed, producer))
  {
    TotalsExact(cfg, prev, committed, producer);
    LaggingCounts(Slots(producer), Readings(cfg, prev, committed, producer));
    CappedExact(cfg, TotalsOver(Slots(producer), Readings(cfg, prev, committed, producer)));
  }

  /** Every poll that reads anything asks for a divisor of the number of partitions. */
  ghost predicate EvenPolls(cfg: Config)
    requires 0 < cfg.lagThreshold
  {
    forall prev, committed, producer :: Slots(producer) != {} ==>
      IsFactor(PollMetric(cfg, prev, committed, producer).totalLag / cfg.lagThreshold, |Slots(producer)|)
  }

  /** Four partitions of one topic, at twice the threshold, the threshold, the threshold and 0. */
  function UnevenOffsets(threshold: int): Offsets {
    map["orders" := map[0 := 2 * threshold, 1 := threshold, 2 := threshold, 3 := 0]]
  }

  function NothingConsumed(): Offsets {
    map["orders" := map[0 := 0, 1 := 0, 2 := 0, 3 := 0]]
  }

  lemma TotalsAdd(v: set<Slot>, s: Slot, w: set<Slot>, reading: Slot -> Reading)
    requires s !in v && w == v + {s}
    ensures TotalsOver(w, reading) == AddReading(TotalsOver(v, reading), reading(s))
  {
    TotalsOneMore(v, s, reading);
  }

  lemma FourTotals(s0: Slot, s1: Slot, s2: Slot, s3: Slot, reading: Slot -> Reading, a: int, b: int, c: int)
    requires s0 != s1 && s0 != s2 && s0 != s3 && s1 != s2 && s1 != s3 && s2 != s3 && 0 < a && 0 < b && 0 < c
    requires reading(s0) == Reading(a, a) && reading(s1) == Reading(b, b)
    requires reading(s2) == Reading(c, c) && reading(s3) == Reading(0, 0)
    ensures TotalsOver({s0, s1, s2, s3}, reading) == Totals(a + b + c, a + b + c, 4, 3)
  {
    TotalsAdd({}, s0, {s0}, reading);
    TotalsAdd({s0}, s1, {s0, s1}, reading);
    TotalsAdd({s0, s1}, s2, {s0, s1, s2}, reading);
    TotalsAdd({s0, s1, s2}, s3, {s0, s1, s2, s3}, reading);
  }

  lemma UnevenSlots(threshold: int)
    ensures Slots(UnevenOffsets(threshold))
         == {Slot("orders", 0), Slot("orders", 1), Slot("orders", 2), Slot("orders", 3)}
  {
    var m := UnevenOffsets(threshold);
    assert forall s :: s in Slots(m) <==> s.topic == "orders" && s.partition in m["orders"];
  }

  lemma UnevenReading(cfg: Config, s: Slot)
    requires s.topic == "orders" && 0 <= s.partition <= 3
    ensures var lag := UnevenOffsets(cfg.lagThreshold)["orders"][s.partition];
            Readings(cfg, map[], NothingConsumed(), UnevenOffsets(cfg.lagThreshold))(s) == Reading(lag, lag)
  {
  }

  lemma UnevenTotals(cfg: Config)
    requires 0 < cfg.lagThreshold
    ensures var producer := UnevenOffsets(cfg.lagThreshold);
            && |Slots(producer)| == 4
            && TotalsOver(Slots(producer), Readings(cfg, map[], NothingConsumed(), producer))
               == Totals(4 * cfg.lagThreshold, 4 * cfg.lagThreshold, 4, 3)
  {
    var reading := Readings(cfg, map[], NothingConsumed(), UnevenOffsets(cfg.lagThreshold));
    var s0, s1, s2, s3 := Slot("orders", 0), Slot("orders", 1), Slot("orders", 2), Slot("orders", 3);
    UnevenSlots(cfg.lagThreshold);
    UnevenReading(cfg, s0);
    UnevenReading(cfg, s1);
    UnevenReading(cfg, s2);
    UnevenReading(cfg, s3);
    FourTotals(s0, s1, s2, s3, reading, 2 * cfg.lagThreshold, cfg.lagThreshold, cfg.lagThreshold);
  }

  lemma FourNeeded(threshold: int)
    requires 0 < threshold
    ensures NextFactor(4 * threshold, 4, threshold) == 4
  {
    NextFactorLeast(4 * threshold, 4, threshold);
    var f := NextFactor(4 * threshold, 4, threshold);
    assert IsFactor(4, 4);
    ScaleLe(if f < 4 then f else 3, 3, threshold);
  }

  /** With the lag limit on, this poll asks for three consumers of four partitions. */
  lemma UnevenPoll(cfg: Config)
    requires 0 < cfg.lagThreshold && cfg.ensureEvenDistribution && cfg.limitToPartitionsWithLag
    ensures var producer := UnevenOffsets(cfg.lagThreshold);
            && |Slots(producer)| == 4
            && PollMetric(cfg, map[], NothingConsumed(), producer).totalLag == 3 * cfg.lagThreshold
  {
    UnevenTotals(cfg);
    FourNeeded(cfg.lagThreshold);
    MultipleDividesBack(4, cfg.lagThreshold);
  }

  /** The even-distribution promise holds of all polls exactly when the lag limit is off. */
  lemma EvenPromiseExact(cfg: Config)
    requires 0 < cfg.lagThreshold && cfg.ensureEvenDistribution
    ensures EvenPolls(cfg) <==> !cfg.limitToPartitionsWithLag
  {
    if cfg.limitToPartitionsWithLag {
      UnevenPoll(cfg);
      MultipleDividesBack(3, cfg.lagThreshold);
      assert !IsFactor(3, 4);
      assert Slots(UnevenOffsets(cfg.lagThreshold)) != {};
    } else {
      forall prev, committed, producer | Slots(producer) != {}
        ensures IsFactor(PollMetric(cfg, prev, committed, producer).totalLag / cfg.lagThreshold, |Slots(producer)|)
      {
        PollKeepsPromise(cfg, prev, committed, producer);
      }
    }
  }

  /** Configurations accepted by the sarama scaler keep the even-distribution promise. */
  lemma ParsedFlagsKeepEven(topic: string, idle: FlagText, limit: FlagText, even: FlagText, base: Config)
    requires 0 < base.lagThreshold
    requires ParseFlags(topic, idle, limit, even).Ok?
    ensures var cfg := WithFlags(base, ParseFlags(topic, idle, limit, even).value);
            cfg.ensureEvenDistribution ==> EvenPolls(cfg)
  {
    var cfg := WithFlags(base, ParseFlags(topic, idle, limit, even).value);
    if cfg.ensureEvenDistribution {
      EvenPromiseExact(cfg);
    }
  }

  /** The Apache scaler accepts a configuration that breaks it, at the offsets above. */
  lemma ApacheFlagsAllowUneven(base: Config)
    requires 0 < base.lagThreshold
    ensures ApacheFlags(["orders"], Flags(false, true, true)).Ok?
    ensures var cfg, producer := WithFlags(base, Flags(false, true, true)), UnevenOffsets(base.lagThreshold);
            && PollMetric(cfg, map[], NothingConsumed(), producer).totalLag == 3 * base.lagThreshold
            && |Slots(producer)| == 4 && !EvenPolls(cfg)
  {
    var cfg := WithFlags(base, Flags(false, true, true));
    UnevenPoll(cfg);
    EvenPromiseExact(cfg);
  }

  /** The capping tail shared by both `getTotalLag` functions. */
  method CapTotal(cfg: Config, totalLag: int, totalTopicPartitions: int, partitionsWithLag: int) returns (r: int)
    requires 0 < cfg.lagThreshold
    ensures forall persistent :: r == Capped(cfg, Totals(totalLag, persistent, totalTopicPartitions, partitionsWithLag))
  {
    r := totalLag;
    if !cfg.allowIdleConsumers || cfg.limitToPartitionsWithLag || cfg.ensureEvenDistribution {
      var upperBound := totalTopicPartitions;
      if cfg.ensureEvenDistribution {
        var nextFactor := GetNextFactor(totalLag, totalTopicPartitions, cfg.lagThreshold);
        r := nextFactor * cfg.lagThreshold;
      }
      if cfg.limitToPartitionsWithLag {
        upperBound := partitionsWithLag;
      }
      if TruncDiv(r, cfg.lagThreshold) > upperBound {
        r := upperBound * cfg.lagThreshold;
      }
    }
  }

  function TopicSlots(topic: string, ids: seq<int>): set<Slot> {
    set p | p in ids :: Slot(topic, p)
  }

  /** The slots of the first n topics of a walk. */
  ghost function Walked(topics: seq<string>, producer: Offsets, n: nat): set<Slot>
    requires n <= |topics|
  {
    set s | s in Slots(producer) && s.topic in topics[..n]
  }

  lemma WalkedNext(topics: seq<string>, partitions: map<string, seq<int>>, producer: Offsets, n: nat)
    requires NestedWalk(topics, partitions, producer) && n < |topics|
    ensures topics[n] in producer && topics[n] in partitions && |partitions[topics[n]]| == |producer[topics[n]]|
    ensures Distinct(partitions[topics[n]])
    ensures Walked(topics, producer, n + 1) ==
            Walked(topics, producer, n) + TopicSlots(topics[n], partitions[topics[n]])
    ensures Walked(topics, producer, n) !! TopicSlots(topics[n], partitions[topics[n]])
    ensures TopicSlots(topics[n], partitions[topics[n]]) <= Slots(producer)
  {
    var t := topics[n];
    assert t in Elements(topics);
    var ids := partitions[t];
    WalkLength(ids, producer[t].Keys);
    assert topics[..n + 1] == topics[..n] + [t];
    assert t !in topics[..n];
    assert forall p :: p in ids <==> p in Elements(ids);
  }

  lemma WalkedAll(topics: seq<string>, partitions: map<string, seq<int>>, producer: Offsets)
    requires NestedWalk(topics, partitions, producer)
    ensures Walked(topics, producer, |topics|) == Slots(producer)
  {
    assert topics[..|topics|] == topics;
    forall s | s in Slots(producer) ensures s.topic in topics {
      assert s.topic in Elements(topics);
    }
  }

  /** The slots read when the first n partitions of a topic are done. */
  ghost function ReadSoFar(before: set<Slot>, topic: string, ids: seq<int>, n: nat): set<Slot>
    requires n <= |ids|
  {
    before + TopicSlots(topic, ids[..n])
  }

  lemma ReadSoFarEnds(before: set<Slot>, topic: string, ids: seq<int>)
    ensures ReadSoFar(before, topic, ids, 0) == before
    ensures ReadSoFar(before, topic, ids, |ids|) == before + TopicSlots(topic, ids)
  {
    assert ids[..|ids|] == ids;
  }

  lemma ReadSoFarNext(before: set<Slot>, topic: string, ids: seq<int>, n: nat)
    requires Distinct(ids) && n < |ids| && before !! TopicSlots(topic, ids)
    ensures var s := Slot(topic, ids[n]);
            && ReadSoFar(before, topic, ids, n + 1) == ReadSoFar(before, topic, ids, n) + {s}
            && s !in ReadSoFar(before, topic, ids, n) && s in TopicSlots(topic, ids)
    ensures before <= ReadSoFar(before, topic, ids, n) <= before + TopicSlots(topic, ids)
  {
    assert ids[..n + 1] == ids[..n] + [ids[n]];
    assert TopicSlots(topic, ids[..n + 1]) == TopicSlots(topic, ids[..n]) + {Slot(topic, ids[n])};
  }

  /** The accumulation step of both loops. */
  function AddReading(t: Totals, r: Reading): Totals {
    Totals(t.lag + r.lag, t.withPersistent + r.withPersistent, t.partitions + 1,
           if r.lag > 0 then t.withLag + 1 else t.withLag)
  }

  /** What a poll has added up and what it remembers, by the set of partitions it has read. */
  datatype Ledger = Ledger(totals: set<Slot> -> Totals, memory: set<Slot> -> Offsets)

  /** Reading s after the partitions in v adds its reading to the totals and its offset to the memory. */
  ghost predicate StepLaw(l: Ledger, cfg: Config, committed: Offsets, producer: Offsets, v: set<Slot>, s: Slot) {
    var c := OffsetAt(committed, s);
    && l.totals(v + {s}) == AddReading(l.totals(v), ReadingOf(cfg, Find(l.memory(v), s), c, OffsetAt(producer, s)))
    && l.memory(v + {s}) == if Remembers(cfg, c) then Record(l.memory(v), s, c) else l.memory(v)
  }

  ghost predicate Lawful(l: Ledger, cfg: Config, committed: Offsets, producer: Offsets) {
    forall v: set<Slot>, s: Slot :: s !in v ==> StepLaw(l, cfg, committed, producer, v, s)
  }

  ghost function LedgerOf(cfg: Config, prev: Offsets, committed: Offsets, producer: Offsets): Ledger {
    Ledger(v => TotalsOver(v, Readings(cfg, prev, committed, producer)), v => After(cfg, prev, committed, v))
  }

  lemma LedgerMemory(cfg: Config, prev: Offsets, committed: Offsets, producer: Offsets, v: set<Slot>, s: Slot)
    ensures var memory, c := LedgerOf(cfg, prev, committed, producer).memory, OffsetAt(committed, s);
            memory(v + {s}) == if Remembers(cfg, c) then Record(memory(v), s, c) else memory(v)
  {
    AfterOneMore(cfg, prev, committed, v, s);
  }

  lemma LedgerReading(cfg: Config, prev: Offsets, committed: Offsets, producer: Offsets, v: set<Slot>, s: Slot)
    requires s !in v
    ensures Find(LedgerOf(cfg, prev, committed, producer).memory(v), s) == Find(prev, s)
  {
    AfterFind(cfg, prev, committed, v, s);
  }

  lemma LedgerTotals(cfg: Config, prev: Offsets, committed: Offsets, producer: Offsets, v: set<Slot>, s: Slot)
    requires s !in v
    ensures var totals := LedgerOf(cfg, prev, committed, producer).totals;
            totals(v + {s})
            == AddReading(totals(v), ReadingOf(cfg, Find(prev, s), OffsetAt(committed, s), OffsetAt(producer, s)))
  {
    TotalsOneMore(v, s, Readings(cfg, prev, committed, producer));
  }

  lemma LedgerStep(cfg: Config, prev: Offsets, committed: Offsets, producer: Offsets, v: set<Slot>, s: Slot, l: Ledger)
    requires s !in v && l == LedgerOf(cfg, prev, committed, producer)
    ensures StepLaw(l, cfg, committed, producer, v, s)
  {
    LedgerMemory(cfg, prev, committed, producer, v, s);
    LedgerReading(cfg, prev, committed, producer, v, s);
    LedgerTotals(cfg, prev, committed, producer, v, s);
  }

  /** The order-free totals and memory obey the law, and start from nothing read. */
  lemma LedgerLawful(cfg: Config, prev: Offsets, committed: Offsets, producer: Offsets, l: Ledger)
    requires l == LedgerOf(cfg, prev, committed, producer)
    ensures Lawful(l, cfg, committed, producer) && l.totals({}) == Totals(0, 0, 0, 0) && l.memory({}) == prev
  {
    forall v: set<Slot>, s: Slot | s !in v ensures StepLaw(l, cfg, committed, producer, v, s) {
      LedgerStep(cfg, prev, committed, producer, v, s, l);
    }
    AfterNothing(cfg, prev, committed);
  }

  /** The sarama-based scaler. */
  class SaramaScaler {
    const cfg: Config
    var previousOffsets: Offsets

    constructor (cfg: Config)
      ensures this.cfg == cfg && previousOffsets == map[]
    {
      this.cfg := cfg;
      previousOffsets := map[];
    }

    method GetLagForPartition(s: Slot, offsets: Blocks, producer: Offsets) returns (r: Result<Reading, LagError>)
      modifies this`previousOffsets
      ensures s in Slots(producer) ==> (r.Ok? <==> Find(offsets, s).Some? && Find(offsets, s).value.err <= 0)
      ensures r.Ok? ==>
        var committed := OffsetAt(Committed(offsets), s);
        && r.value == ReadingOf(cfg, Find(old(previousOffsets), s), committed, OffsetAt(producer, s))
        && previousOffsets == if Remembers(cfg, committed) then Record(old(previousOffsets), s, committed)
                              else old(previousOffsets)
      ensures r.Err? ==> previousOffsets == old(previousOffsets)
    {
      var block := Find(offsets, s);
      if block.None? {
        return Err(NoBlock);
      }
      if block.value.err > 0 {
        return Err(BlockError);
      }
      var consumerOffset := block.value.offset;
      CommittedAt(offsets, s);
      if consumerOffset == INVALID_OFFSET && cfg.offsetResetPolicy == Latest {
        var retVal := 1;
        if cfg.scaleToZeroOnInvalidOffset {
          retVal := 0;
        }
        return Ok(Reading(retVal, retVal));
      }
      if s.topic !in producer {
        return Err(NoTopic);
      }
      var latestOffset := OffsetAt(producer, s);
      if consumerOffset == INVALID_OFFSET && cfg.offsetResetPolicy == Earliest {
        if cfg.scaleToZeroOnInvalidOffset {
          return Ok(Reading(0, 0));
        }
        return Ok(Reading(latestOffset, latestOffset));
      }
      if cfg.excludePersistentLag {
        var previous := Find(previousOffsets, s);
        if previous.None? {
          if s.topic !in previousOffsets {
            previousOffsets := previousOffsets[s.topic := map[s.partition := consumerOffset]];
          } else {
            previousOffsets := previousOffsets[s.topic := previousOffsets[s.topic][s.partition := consumerOffset]];
          }
        } else if previous.value == consumerOffset {
          RecordSame(previousOffsets, s, consumerOffset);
          return Ok(Reading(0, latestOffset - consumerOffset));
        } else {
          previousOffsets := previousOffsets[s.topic := previousOffsets[s.topic][s.partition := consumerOffset]];
        }
      }
      return Ok(Reading(latestOffset - consumerOffset, latestOffset - consumerOffset));
    }

    /** The body of the inner loop: read one partition and add it to the totals. */
    method AddPartition(s: Slot, offsets: Blocks, producer: Offsets, t: Totals, ghost l: Ledger,
                        ghost visited: set<Slot>)
      returns (r: Result<Totals, LagError>)
      requires Lawful(l, cfg, Committed(offsets), producer)
      requires s !in visited && s in Slots(producer) && t == l.totals(visited) && previousOffsets == l.memory(visited)
      modifies this`previousOffsets
      ensures r.Ok? <==> s in GoodSlots(offsets)
      ensures r.Err? ==> previousOffsets == l.memory(visited)
      ensures r.Ok? ==> r.value == l.totals(visited + {s}) && previousOffsets == l.memory(visited + {s})
    {
      GoodSlotsAreOk(offsets);
      assert StepLaw(l, cfg, Committed(offsets), producer, visited, s);
      var one := GetLagForPartition(s, offsets, producer);
      if one.Err? {
        return Err(one.error);
      }
      return Ok(AddReading(t, one.value));
    }

    /** The inner loop: the partitions of one topic, in the given order. */
    method ReadTopic(topic: string, ids: seq<int>, offsets: Blocks, producer: Offsets, t: Totals, ghost l: Ledger,
                     ghost before: set<Slot>)
      returns (r: Result<Totals, LagError>, ghost visited: set<Slot>, ghost at: Slot)
      requires Distinct(ids) && before !! TopicSlots(topic, ids) && TopicSlots(topic, ids) <= Slots(producer)
      requires Lawful(l, cfg, Committed(offsets), producer)
      requires t == l.totals(before) && previousOffsets == l.memory(before)
      modifies this`previousOffsets
      ensures previousOffsets == l.memory(visited)
      ensures before <= visited <= before + TopicSlots(topic, ids)
      ensures visited <= before + GoodSlots(offsets)
      ensures r.Ok? ==> visited == before + TopicSlots(topic, ids) && r.value == l.totals(visited)
      ensures r.Err? ==> at in TopicSlots(topic, ids) && at !in visited && at !in GoodSlots(offsets)
    {
      var totals := t;
      visited, at := before, Slot(topic, 0);
      ReadSoFarEnds(before, topic, ids);
      var i := 0;
      while i < |ids|
        invariant 0 <= i <= |ids|
        invariant visited == ReadSoFar(before, topic, ids, i)
        invariant visited <= before + GoodSlots(offsets)
        invariant previousOffsets == l.memory(visited) && totals == l.totals(visited)
      {
        at := Slot(topic, ids[i]);
        ReadSoFarNext(before, topic, ids, i);
        var next := AddPartition(Slot(topic, ids[i]), offsets, producer, totals, l, visited);
        if next.Err? {
          return next, visited, at;
        }
        visited := visited + {at};
        totals := next.value;
        i := i + 1;
      }
      return Ok(totals), visited, at;
    }

    /** The outer loop: the topics, in the given order. */
    method ReadTopics(offsets: Blocks, producer: Offsets, topics: seq<string>, partitions: map<string, seq<int>>,
                      ghost l: Ledger)
      returns (r: Result<Totals, LagError>, ghost visited: set<Slot>)
      requires NestedWalk(topics, partitions, producer) && Lawful(l, cfg, Committed(offsets), producer)
      requires l.totals({}) == Totals(0, 0, 0, 0) && previousOffsets == l.memory({})
      modifies this`previousOffsets
      ensures r.Ok? <==> Slots(producer) <= GoodSlots(offsets)
      ensures if r.Ok? then visited == Slots(producer) else visited < Slots(producer)
      ensures visited <= GoodSlots(offsets)
      ensures r.Ok? ==> r.value == l.totals(visited)
      ensures previousOffsets == l.memory(visited)
    {
      var totals := Totals(0, 0, 0, 0);
      visited := {};
      assert Walked(topics, producer, 0) == {};
      var i := 0;
      while i < |topics|
        invariant 0 <= i <= |topics|
        invariant visited == Walked(topics, producer, i)
        invariant visited <= GoodSlots(offsets)
        invariant previousOffsets == l.memory(visited) && totals == l.totals(visited)
      {
        WalkedNext(topics, partitions, producer, i);
        var next: Result<Totals, LagError>;
        ghost var at: Slot;
        next, visited, at := ReadTopic(topics[i], partitions[topics[i]], offsets, producer, totals, l, visited);
        if next.Err? {
          return next, visited;
        }
        totals := next.value;
        i := i + 1;
      }
      WalkedAll(topics, partitions, producer);
      return Ok(totals), visited;
    }

    /** One poll: whatever the walking order, the same metric and the same memory. */
    method GetTotalLag(offsets: Blocks, producer: Offsets, topics: seq<string>, partitions: map<string, seq<int>>)
      returns (r: Result<Metric, LagError>, ghost visited: set<Slot>)
      requires 0 < cfg.lagThreshold && NestedWalk(topics, partitions, producer)
      modifies this`previousOffsets
      ensures r.Ok? <==> AllBlocksOk(offsets, producer)
      ensures r.Ok? ==> r.value == PollMetric(cfg, old(previousOffsets), Committed(offsets), producer)
      ensures r.Ok? ==> Promised(cfg, old(previousOffsets), Committed(offsets), producer, r.value)
      ensures r.Ok? ==> MetricExact(cfg, old(previousOffsets), Committed(offsets), producer, r.value)
      ensures if r.Ok? then visited == Slots(producer) else visited < Slots(producer)
      ensures forall s :: s in visited ==> BlockOk(offsets, s)
      ensures previousOffsets == After(cfg, old(previousOffsets), Committed(offsets), visited)
    {
      ghost var prev := previousOffsets;
      ghost var l := LedgerOf(cfg, prev, Committed(offsets), producer);
      LedgerLawful(cfg, prev, Committed(offsets), producer, l);
      GoodSlotsAreOk(offsets);
      var walked;
      walked, visited := ReadTopics(offsets, producer, topics, partitions, l);
      if walked.Err? {
        return Err(walked.error), visited;
      }
      var totals := walked.value;
      PollKeepsPromise(cfg, prev, Committed(offsets), producer);
      PollMetricExact(cfg, prev, Committed(offsets), producer);
      var capped := CapTotal(cfg, totals.lag, totals.partitions, totals.withLag);
      return Ok(Metric(capped, totals.withPersistent)), visited;
    }
  }

  /** The scaler based on the Apache client. It only refuses an empty consumer map; a missing entry reads as offset
      zero. */
  class ApacheScaler {
    const cfg: Config
    var previousOffsets: Offsets

    constructor (cfg: Config)
      ensures this.cfg == cfg && previousOffsets == map[]
    {
      this.cfg := cfg;
      previousOffsets := map[];
    }

    method GetLagForPartition(s: Slot, consumer: Offsets, producer: Offsets) returns (r: Result<Reading, LagError>)
      modifies this`previousOffsets
      ensures s in Slots(producer) ==> (r.Ok? <==> consumer != map[])
      ensures r.Ok? ==>
        var committed := OffsetAt(consumer, s);
        && r.value == ReadingOf(cfg, Find(old(previousOffsets), s), committed, OffsetAt(producer, s))
        && previousOffsets == if Remembers(cfg, committed) then Record(old(previousOffsets), s, committed)
                              else old(previousOffsets)
      ensures r.Err? ==> previousOffsets == old(previousOffsets)
    {
      if |consumer| == 0 {
        return Err(NoConsumerOffsets);
      }
      if |producer| == 0 {
        return Err(NoProducerOffsets);
      }
      var consumerOffset := OffsetAt(consumer, s);
      if consumerOffset == INVALID_OFFSET && cfg.offsetResetPolicy == Latest {
        var retVal := 1;
        if cfg.scaleToZeroOnInvalidOffset {
          retVal := 0;
        }
        return Ok(Reading(retVal, retVal));
      }
      if s.topic !in producer {
        return Err(NoTopic);
      }
      var producerOffset := OffsetAt(producer, s);
      if consumerOffset == INVALID_OFFSET && cfg.offsetResetPolicy == Earliest {
        if cfg.scaleToZeroOnInvalidOffset {
          return Ok(Reading(0, 0));
        }
        return Ok(Reading(producerOffset, producerOffset));
      }
      if cfg.excludePersistentLag {
        var previous := Find(previousOffsets, s);
        if previous.None? {
          if s.topic !in previousOffsets {
            previousOffsets := previousOffsets[s.topic := map[s.partition := consumerOffset]];
          } else {
            previousOffsets := previousOffsets[s.topic := previousOffsets[s.topic][s.partition := consumerOffset]];
          }
        } else if previous.value == consumerOffset {
          RecordSame(previousOffsets, s, consumerOffset);
          return Ok(Reading(0, producerOffset - consumerOffset));
        } else {
          previousOffsets := previousOffsets[s.topic := previousOffsets[s.topic][s.partition := consumerOffset]];
        }
      }
      return Ok(Reading(producerOffset - consumerOffset, producerOffset - consumerOffset));
    }

    /** The body of the inner loop: read one partition and add it to the totals. */
    method AddPartition(s: Slot, offsets: Offsets, producer: Offsets, t: Totals, ghost l: Ledger,
                        ghost visited: set<Slot>)
      returns (r: Result<Totals, LagError>)
      requires Lawful(l, cfg, offsets, producer)
      requires s !in visited && s in Slots(producer) && t == l.totals(visited) && previousOffsets == l.memory(visited)
      modifies this`previousOffsets
      ensures r.Ok? <==> offsets != map[]
      ensures r.Err? ==> previousOffsets == l.memory(visited)
      ensures r.Ok? ==> r.value == l.totals(visited + {s}) && previousOffsets == l.memory(visited + {s})
    {
      assert StepLaw(l, cfg, offsets, producer, visited, s);
      var one := GetLagForPartition(s, offsets, producer);
      if one.Err? {
        return Err(one.error);
      }
      return Ok(AddReading(t, one.value));
    }

    /** The inner loop: the partitions of one topic, in the given order. */
    method ReadTopic(topic: string, ids: seq<int>, offsets: Offsets, producer: Offsets, t: Totals, ghost l: Ledger,
                     ghost before: set<Slot>)
      returns (r: Result<Totals, LagError>, ghost visited: set<Slot>, ghost at: Slot)
      requires Distinct(ids) && before !! TopicSlots(topic, ids) && TopicSlots(topic, ids) <= Slots(producer)
      requires Lawful(l, cfg, offsets, producer) && t == l.totals(before) && previousOffsets == l.memory(before)
      modifies this`previousOffsets
      ensures previousOffsets == l.memory(visited)
      ensures before <= visited <= before + TopicSlots(topic, ids)
      ensures visited != before ==> offsets != map[]
      ensures r.Ok? ==> visited == before + TopicSlots(topic, ids) && r.value == l.totals(visited)
      ensures r.Err? ==> at in TopicSlots(topic, ids) && at !in visited && offsets == map[]
    {
      var totals := t;
      visited, at := before, Slot(topic, 0);
      ReadSoFarEnds(before, topic, ids);
      var i := 0;
      while i < |ids|
        invariant 0 <= i <= |ids|
        invariant visited == ReadSoFar(before, topic, ids, i)
        invariant 0 < i ==> offsets != map[]
        invariant previousOffsets == l.memory(visited) && totals == l.totals(visited)
      {
        at := Slot(topic, ids[i]);
        ReadSoFarNext(before, topic, ids, i);
        var next := AddPartition(Slot(topic, ids[i]), offsets, producer, totals, l, visited);
        if next.Err? {
          return next, visited, at;
        }
        visited := visited + {at};
        totals := next.value;
        i := i + 1;
      }
      return Ok(totals), visited, at;
    }

    /** The outer loop: the topics, in the given order. */
    method ReadTopics(offsets: Offsets, producer: Offsets, topics: seq<string>, partitions: map<string, seq<int>>,
                      ghost l: Ledger)
      returns (r: Result<Totals, LagError>, ghost visited: set<Slot>)
      requires NestedWalk(topics, partitions, producer) && Lawful(l, cfg, offsets, producer)
      requires l.totals({}) == Totals(0, 0, 0, 0) && previousOffsets == l.memory({})
      modifies this`previousOffsets
      ensures r.Ok? <==> (Slots(producer) == {} || offsets != map[])
      ensures visited == if r.Ok? then Slots(producer) else {}
      ensures r.Ok? ==> r.value == l.totals(visited)
      ensures previousOffsets == l.memory(visited)
    {
      var totals := Totals(0, 0, 0, 0);
      visited := {};
      assert Walked(topics, producer, 0) == {};
      var i := 0;
      while i < |topics|
        invariant 0 <= i <= |topics|
        invariant visited == Walked(topics, producer, i)
        invariant visited != {} ==> offsets != map[]
        invariant previousOffsets == l.memory(visited) && totals == l.totals(visited)
      {
        WalkedNext(topics, partitions, producer, i);
        var next: Result<Totals, LagError>;
        ghost var at: Slot;
        next, visited, at := ReadTopic(topics[i], partitions[topics[i]], offsets, producer, totals, l, visited);
        if next.Err? {
          return next, visited;
        }
        totals := next.value;
        i := i + 1;
      }
      WalkedAll(topics, partitions, producer);
      return Ok(totals), visited;
    }

    /** One poll: whatever the walking order, the same metric and the same memory. */
    method GetTotalLag(offsets: Offsets, producer: Offsets, topics: seq<string>, partitions: map<string, seq<int>>)
      returns (r: Result<Metric, LagError>, ghost visited: set<Slot>)
      requires 0 < cfg.lagThreshold && NestedWalk(topics, partitions, producer)
      modifies this`previousOffsets
      ensures r.Ok? <==> (Slots(producer) == {} || offsets != map[])
      ensures r.Ok? ==> r.value == PollMetric(cfg, old(previousOffsets), offsets, producer)
      ensures r.Ok? ==> Promised(cfg, old(previousOffsets), offsets, producer, r.value)
      ensures r.Ok? ==> MetricExact(cfg, old(previousOffsets), offsets, producer, r.value)
      ensures visited == if r.Ok? then Slots(producer) else {}
      ensures previousOffsets == After(cfg, old(previousOffsets), offsets, visited)
    {
      ghost var prev := previousOffsets;
      ghost var l := LedgerOf(cfg, prev, offsets, producer);
      LedgerLawful(cfg, prev, offsets, producer, l);
      var walked;
      walked, visited := ReadTopics(offsets, producer, topics, partitions, l);
      if walked.Err? {
        return Err(walked.error), visited;
      }
      var totals := walked.value;
      PollKeepsPromise(cfg, prev, offsets, producer);
      PollMetricExact(cfg, prev, offsets, producer);
      var capped := CapTotal(cfg, totals.lag, totals.partitions, totals.withLag);
      return Ok(Metric(capped, totals.withPersistent)), visited;
    }
  }

  // ---- Runs of polls, and the agreement of the two scalers ------------------

  /** What one poll fetched, and an order for walking it. */
  datatype Fetch = Fetch(blocks: Blocks, producer: Offsets)

  datatype Walk = Walk(topics: seq<string>, partitions: map<string, seq<int>>)

  ghost predicate Walks(ws: seq<Walk>, fs: seq<Fetch>) {
    |ws| == |fs| && forall i :: 0 <= i < |fs| ==> NestedWalk(ws[i].topics, ws[i].partitions, fs[i].producer)
  }

  lemma RememberedSnoc(cfg: Config, polls: seq<Poll>, p: Poll)
    ensures Remembered(cfg, polls + [p]) == After(cfg, Remembered(cfg, polls), p.committed, p.visited)
  {
    assert (polls + [p])[..|polls|] == polls;
  }

  /** A part of the partitions, all with good blocks. */
  ghost predicate GoodPart(f: Fetch, visited: set<Slot>) {
    visited < Slots(f.producer) && forall s :: s in visited ==> BlockOk(f.blocks, s)
  }

  /** What one poll does, given what was remembered before it. */
  ghost predicate Answered(cfg: Config, prev: Offsets, f: Fetch, p: Poll, answer: Result<Metric, LagError>)
    requires 0 < cfg.lagThreshold
  {
    && p.committed == Committed(f.blocks)
    && (answer.Ok? <==> AllBlocksOk(f.blocks, f.producer))
    && (if answer.Ok? then p.visited == Slots(f.producer) else GoodPart(f, p.visited))
    && (answer.Ok? ==> answer.value == PollMetric(cfg, prev, p.committed, f.producer))
  }

  /** Every poll of a run is answered from the memory its predecessors left. */
  ghost predicate AllAnswered(cfg: Config, fs: seq<Fetch>, polls: seq<Poll>, answers: seq<Result<Metric, LagError>>)
    requires 0 < cfg.lagThreshold && |answers| == |polls| <= |fs|
  {
    forall i :: 0 <= i < |polls| ==> Answered(cfg, Remembered(cfg, polls[..i]), fs[i], polls[i], answers[i])
  }

  lemma AnsweredSnoc(cfg: Config, fs: seq<Fetch>, polls: seq<Poll>, answers: seq<Result<Metric, LagError>>,
                     p: Poll, answer: Result<Metric, LagError>)
    requires 0 < cfg.lagThreshold && |answers| == |polls| < |fs|
    requires AllAnswered(cfg, fs, polls, answers)
    requires Answered(cfg, Remembered(cfg, polls), fs[|polls|], p, answer)
    ensures AllAnswered(cfg, fs, polls + [p], answers + [answer])
  {
    var longer := polls + [p];
    forall i | 0 <= i < |longer|
      ensures Answered(cfg, Remembered(cfg, longer[..i]), fs[i], longer[i], (answers + [answer])[i])
    {
      if i < |polls| {
        assert longer[..i] == polls[..i] && longer[i] == polls[i] && (answers + [answer])[i] == answers[i];
        assert Answered(cfg, Remembered(cfg, polls[..i]), fs[i], polls[i], answers[i]);
      } else {
        assert longer[..i] == polls;
      }
    }
  }

  /** Any run of polls, failing ones included: memory is what the history of reads says it is. */
  method PollRepeatedly(s: SaramaScaler, fs: seq<Fetch>, ws: seq<Walk>)
    returns (answers: seq<Result<Metric, LagError>>, ghost polls: seq<Poll>)
    requires 0 < s.cfg.lagThreshold && s.previousOffsets == map[] && Walks(ws, fs)
    modifies s
    ensures |answers| == |polls| == |fs|
    ensures s.previousOffsets == Remembered(s.cfg, polls)
    ensures AllAnswered(s.cfg, fs, polls, answers)
  {
    answers, polls := [], [];
    var i := 0;
    while i < |fs|
      invariant 0 <= i <= |fs| && |answers| == |polls| == i
      invariant s.previousOffsets == Remembered(s.cfg, polls)
      invariant AllAnswered(s.cfg, fs, polls, answers)
    {
      var r, visited := s.GetTotalLag(fs[i].blocks, fs[i].producer, ws[i].topics, ws[i].partitions);
      ghost var p := Poll(Committed(fs[i].blocks), visited);
      RememberedSnoc(s.cfg, polls, p);
      AnsweredSnoc(s.cfg, fs, polls, answers, p, r);
      answers, polls := answers + [r], polls + [p];
      i := i + 1;
    }
  }

  /** What a poll answers, None when it fails, and leaves in memory. */
  datatype Outcome = Outcome(answer: Option<Metric>, memory: Offsets)

  ghost function Success(cfg: Config, prev: Offsets, committed: Offsets, producer: Offsets): Outcome
    requires 0 < cfg.lagThreshold
  {
    Outcome(Some(PollMetric(cfg, prev, committed, producer)), After(cfg, prev, committed, Slots(producer)))
  }

  /** The outcomes of a sarama poll. One that fails has read some partitions with good blocks, depending on the
      order. */
  ghost predicate SaramaOutcome(cfg: Config, prev: Offsets, f: Fetch, out: Outcome)
    requires 0 < cfg.lagThreshold
  {
    if AllBlocksOk(f.blocks, f.producer) then out == Success(cfg, prev, Committed(f.blocks), f.producer)
    else
      && out.answer == None
      && exists visited :: GoodPart(f, visited) && out.memory == After(cfg, prev, Committed(f.blocks), visited)
  }

  /** An Apache poll has one outcome whatever the order: it fails before it reads anything, or not at all. */
  ghost function ApacheOutcome(cfg: Config, prev: Offsets, consumer: Offsets, producer: Offsets): Outcome
    requires 0 < cfg.lagThreshold
  {
    if Slots(producer) == {} || consumer != map[] then Success(cfg, prev, consumer, producer) else Outcome(None, prev)
  }

  ghost predicate Agree(cfg: Config, prev: Offsets, f: Fetch)
    requires 0 < cfg.lagThreshold
  {
    forall out :: SaramaOutcome(cfg, prev, f, out) ==> out == ApacheOutcome(cfg, prev, Committed(f.blocks), f.producer)
  }

  predicate Comparable(f: Fetch) {
    f.blocks == map[] || forall s :: s in Slots(f.producer) ==> BlockOk(f.blocks, s)
  }

  lemma CommittedEmpty(blocks: Blocks)
    ensures Committed(blocks) == map[] <==> blocks == map[]
  {
    assert Committed(blocks).Keys == blocks.Keys;
  }

  /** The scalers agree on a poll, on the answer and on the memory, failing polls included, exactly when every walked
      partition has a good block or nothing was committed at all. */
  lemma AgreementExact(cfg: Config, prev: Offsets, f: Fetch)
    requires 0 < cfg.lagThreshold
    ensures Agree(cfg, prev, f) <==> Comparable(f)
  {
    CommittedEmpty(f.blocks);
    if Comparable(f) {
      forall out | SaramaOutcome(cfg, prev, f, out)
        ensures out == ApacheOutcome(cfg, prev, Committed(f.blocks), f.producer)
      {
        ComparableAgree(cfg, prev, f, out);
      }
    } else {
      AfterNothing(cfg, prev, Committed(f.blocks));
      assert GoodPart(f, {});
      assert SaramaOutcome(cfg, prev, f, Outcome(None, prev));
    }
  }

  lemma ComparableAgree(cfg: Config, prev: Offsets, f: Fetch, out: Outcome)
    requires 0 < cfg.lagThreshold && Comparable(f) && SaramaOutcome(cfg, prev, f, out)
    ensures out == ApacheOutcome(cfg, prev, Committed(f.blocks), f.producer)
  {
    CommittedEmpty(f.blocks);
    if AllBlocksOk(f.blocks, f.producer) {
      if s :| s in Slots(f.producer) {
        assert BlockOk(f.blocks, s);
      }
    } else {
      var visited :| GoodPart(f, visited) && out.memory == After(cfg, prev, Committed(f.blocks), visited);
      assert forall s :: !BlockOk(f.blocks, s);
      assert visited == {};
      AfterNothing(cfg, prev, Committed(f.blocks));
    }
  }

  /** One partition committed and one not: the sarama scaler fails, the Apache scaler counts the second from
      offset 0. */
  lemma MissingBlockDisagrees(cfg: Config, prev: Offsets)
    requires 0 < cfg.lagThreshold
    ensures !Agree(cfg, prev, Fetch(map["orders" := map[0 := Block(5, 0)]], map["orders" := map[0 := 7, 1 := 9]]))
    ensures ReadAt(cfg, map[], Committed(map["orders" := map[0 := Block(5, 0)]]), map["orders" := map[0 := 7, 1 := 9]],
                   Slot("orders", 1)) == Reading(9, 9)
  {
    var f := Fetch(map["orders" := map[0 := Block(5, 0)]], map["orders" := map[0 := 7, 1 := 9]]);
    assert Slot("orders", 1) in Slots(f.producer) && !BlockOk(f.blocks, Slot("orders", 1));
    assert "orders" in f.blocks;
    AgreementExact(cfg, prev, f);
  }

  ghost predicate SameAnswer(x: Result<Metric, LagError>, y: Result<Metric, LagError>) {
    (x.Ok? <==> y.Ok?) && (x.Ok? ==> x == y)
  }

  /** Both scalers polled over the same comparable data, each in its own walking orders, never diverge. */
  method PollBoth(a: SaramaScaler, b: ApacheScaler, fs: seq<Fetch>, wa: seq<Walk>, wb: seq<Walk>)
    returns (xs: seq<Result<Metric, LagError>>, ys: seq<Result<Metric, LagError>>)
    requires a.cfg == b.cfg && 0 < a.cfg.lagThreshold && a.previousOffsets == b.previousOffsets
    requires Walks(wa, fs) && Walks(wb, fs)
    requires forall i :: 0 <= i < |fs| ==> Comparable(fs[i])
    modifies a, b
    ensures |xs| == |ys| == |fs| && forall i :: 0 <= i < |fs| ==> SameAnswer(xs[i], ys[i])
    ensures forall i :: 0 <= i < |fs| ==> (xs[i].Ok? <==> AllBlocksOk(fs[i].blocks, fs[i].producer))
    ensures a.previousOffsets == b.previousOffsets
  {
    xs, ys := [], [];
    var i := 0;
    while i < |fs|
      invariant 0 <= i <= |fs| && |xs| == |ys| == i && forall j :: 0 <= j < i ==> SameAnswer(xs[j], ys[j])
      invariant forall j :: 0 <= j < i ==> (xs[j].Ok? <==> AllBlocksOk(fs[j].blocks, fs[j].producer))
      invariant a.previousOffsets == b.previousOffsets
    {
      var x, y := PollOnce(a, b, fs[i], wa[i], wb[i]);
      xs, ys := xs + [x], ys + [y];
      i := i + 1;
    }
  }

  method PollOnce(a: SaramaScaler, b: ApacheScaler, f: Fetch, wa: Walk, wb: Walk)
    returns (x: Result<Metric, LagError>, y: Result<Metric, LagError>)
    requires a.cfg == b.cfg && 0 < a.cfg.lagThreshold && a.previousOffsets == b.previousOffsets && Comparable(f)
    requires NestedWalk(wa.topics, wa.partitions, f.producer) && NestedWalk(wb.topics, wb.partitions, f.producer)
    modifies a`previousOffsets, b`previousOffsets
    ensures SameAnswer(x, y) && a.previousOffsets == b.previousOffsets
    ensures x.Ok? <==> AllBlocksOk(f.blocks, f.producer)
  {
    ghost var prev := a.previousOffsets;
    ghost var visited;
    x, visited := a.GetTotalLag(f.blocks, f.producer, wa.topics, wa.partitions);
    ghost var out := Outcome(if x.Ok? then Some(x.value) else None, a.previousOffsets);
    assert x.Err? ==> GoodPart(f, visited);
    ComparableAgree(a.cfg, prev, f, out);
    y, visited := b.GetTotalLag(Committed(f.blocks), f.producer, wb.topics, wb.partitions);
    AfterNothing(b.cfg, prev, Committed(f.blocks));
  }
}
