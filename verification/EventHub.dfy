/** The Event Hub scaler's int64 arithmetic: circular sequence numbers, a wrapping total and its saturation. */
module EventHub {
  import opened Common

  const MAX := 0x7fff_ffff_ffff_ffff

  /** The non-negative int64 values. */
  predicate Int63(n: int) {
    0 <= n <= MAX
  }

  datatype Checkpoint = Found(sequence: int) | Missing | StorageError

  /** What the service answers for one partition. */
  datatype Partition = Unreadable | Partition(begin: int, last: int, checkpoint: Checkpoint)

  /** `calculateUnprocessedEvents`, every step in int64. */
  function CalculateUnprocessedEvents(last: int, checkpoint: int, stale: int): int {
    var count := if last >= checkpoint then Wrap64(last - checkpoint) else Wrap64(Wrap64(MAX - checkpoint) + last);
    if count > Wrap64(MAX - stale) then 0 else count
  }

  /** No step overflows, and the count is the distance in the circular buffer unless that is within `stale` of a full
      turn. */
  lemma UnprocessedExact(last: int, checkpoint: int, stale: int)
    requires Int63(last) && Int63(checkpoint) && Int63(stale)
    ensures var distance := if last >= checkpoint then last - checkpoint else MAX - (checkpoint - last);
            && Int63(distance) && Int63(MAX - checkpoint) && Int63(MAX - stale)
            && CalculateUnprocessedEvents(last, checkpoint, stale) == if MAX - distance < stale then 0 else distance
  {
  }

  /** A read behind its checkpoint counts nothing exactly when it is behind by less than the stale threshold,
      or by the whole buffer. */
  lemma BehindCountsZero(last: int, checkpoint: int, stale: int)
    requires Int63(last) && Int63(checkpoint) && Int63(stale) && last < checkpoint
    ensures CalculateUnprocessedEvents(last, checkpoint, stale) == 0 <==>
            checkpoint - last < stale || checkpoint - last == MAX
  {
    UnprocessedExact(last, checkpoint, stale);
  }

  /** `GetUnprocessedEventCountWithoutCheckpoint`. */
  function WithoutCheckpoint(begin: int, last: int): int {
    if (begin == 0 && last == 0) || begin != last then Wrap64(Wrap64(last - begin) + 1) else 0
  }

  /** The number of retained events, except that one event numbered above 0 counts as none; it overflows in one case
      only. */
  lemma WithoutCheckpointExact(begin: int, last: int)
    requires Int63(begin) && Int63(last) && begin <= last
    ensures WithoutCheckpoint(begin, last) == last - begin + 1 <==>
            !(begin == last && begin != 0) && !(begin == 0 && last == MAX)
    ensures begin == last && begin != 0 ==> WithoutCheckpoint(begin, last) == 0
    ensures begin == 0 && last == MAX ==> WithoutCheckpoint(begin, last) < 0
  {
  }

  /** `GetUnprocessedEventCountInPartition`. */
  function UnprocessedIn(p: Partition, stale: int): Option<int> {
    match p
    case Unreadable => None
    case Partition(begin, last, checkpoint) =>
      if last == -1 then Some(0) else
        match checkpoint
        case Found(sequence) => Some(CalculateUnprocessedEvents(last, sequence, stale))
        case Missing => Some(WithoutCheckpoint(begin, last))
        case StorageError => None
  }

  /** An empty partition counts nothing, without looking for a checkpoint; a missing checkpoint counts what is retained;
      a checkpoint that cannot be read is an error. */
  lemma PartitionExact(begin: int, last: int, checkpoint: Checkpoint, stale: int)
    requires last == -1 || (0 <= begin <= last <= MAX)
    requires 0 <= stale <= MAX && (checkpoint.Found? ==> 0 <= checkpoint.sequence <= MAX)
    ensures UnprocessedIn(Unreadable, stale) == None
    ensures var n := UnprocessedIn(Partition(begin, last, checkpoint), stale);
            && (last == -1 ==> n == Some(0))
            && (last != -1 && checkpoint == StorageError ==> n == None)
            && (last != -1 && checkpoint == Missing && (begin == 0 || begin < last) && last - begin < MAX ==>
                  n == Some(last - begin + 1))
            && (last != -1 && checkpoint == Missing && begin == last && begin > 0 ==> n == Some(0))
            && (last != -1 && checkpoint.Found? && checkpoint.sequence <= last ==>
                  n == Some(if MAX - (last - checkpoint.sequence) < stale then 0 else last - checkpoint.sequence))
  {
    if checkpoint.Found? && last != -1 {
      UnprocessedExact(last, checkpoint.sequence, stale);
    }
  }

  function Readable(ps: seq<Partition>, stale: int): bool {
    forall i :: 0 <= i < |ps| ==> UnprocessedIn(ps[i], stale).Some?
  }

  /** The true sum, in unbounded integers. */
  function TrueSum(ps: seq<Partition>, stale: int): int
    requires Readable(ps, stale)
  {
    if ps == [] then 0 else TrueSum(ps[..|ps| - 1], stale) + UnprocessedIn(ps[|ps| - 1], stale).value
  }

  /** The int64 total with the negative check. */
  function Saturated(sum: int): (r: int)
    ensures Int63(r)
  {
    if Wrap64(sum) < 0 then MAX else Wrap64(sum)
  }

  function Min(a: int, b: int): int {
    if a <= b then a else b
  }

  /** The negative check saturates correctly exactly when the sum fits, or has wrapped to a negative or to the
      maximum. */
  lemma SaturationExact(sum: nat)
    ensures Saturated(sum) == Min(sum, MAX) <==> sum <= MAX || sum % 0x1_0000_0000_0000_0000 >= MAX
  {
  }

  lemma SaturationBelow(sum: nat)
    requires sum < 0x1_0000_0000_0000_0000
    ensures Saturated(sum) == Min(sum, MAX)
  {
    SaturationExact(sum);
  }

  /** What a partition without overflow of its own contributes. */
  predicate Sane(p: Partition) {
    p.Partition? ==>
      && (p.last == -1 || (Int63(p.begin) && p.begin <= p.last <= MAX))
      && (p.checkpoint.Found? ==> Int63(p.checkpoint.sequence))
      && !(p.checkpoint.Missing? && p.begin == 0 && p.last == MAX)
  }

  lemma SaneCount(p: Partition, stale: int)
    requires Sane(p) && Int63(stale) && UnprocessedIn(p, stale).Some?
    ensures Int63(UnprocessedIn(p, stale).value)
  {
    if p.last != -1 && p.checkpoint.Found? {
      UnprocessedExact(p.last, p.checkpoint.sequence, stale);
    }
  }

  lemma {:induction false} SumBounds(ps: seq<Partition>, stale: int)
    requires Int63(stale) && Readable(ps, stale) && forall i :: 0 <= i < |ps| ==> Sane(ps[i])
    ensures 0 <= TrueSum(ps, stale) <= |ps| * MAX
  {
    if ps != [] {
      SumBounds(ps[..|ps| - 1], stale);
      SaneCount(ps[|ps| - 1], stale);
    }
  }

  /** With at most two partitions the total always saturates correctly. */
  lemma TwoPartitionsSaturate(ps: seq<Partition>, stale: int)
    requires Int63(stale) && Readable(ps, stale) && |ps| <= 2 && forall i :: 0 <= i < |ps| ==> Sane(ps[i])
    ensures Saturated(TrueSum(ps, stale)) == Min(TrueSum(ps, stale), MAX)
  {
    SumBounds(ps, stale);
    SaturationBelow(TrueSum(ps, stale));
  }

  /** With three, a backlog can vanish: the wrapped total is 0 although the true one is 2^64. */
  lemma ThreePartitionsVanish(stale: int)
    requires 0 <= stale <= 0x1000_0000_0000_0000
    ensures var full := Partition(0, MAX - stale, Found(0));
            var rest := Partition(0, 2 + 2 * stale, Found(0));
            && Sane(full) && Sane(rest) && Readable([full, full, rest], stale)
            && TrueSum([full, full, rest], stale) == 0x1_0000_0000_0000_0000
            && Saturated(TrueSum([full, full, rest], stale)) == 0
  {
    var full := Partition(0, MAX - stale, Found(0));
    var rest := Partition(0, 2 + 2 * stale, Found(0));
    UnprocessedExact(full.last, 0, stale);
    UnprocessedExact(rest.last, 0, stale);
    var ps := [full, full, rest];
    assert ps[..2] == [full, full] && [full, full][..1] == [full] && [full][..0] == [];
    assert TrueSum([full], stale) == MAX - stale;
    assert TrueSum([full, full], stale) == 2 * (MAX - stale);
  }

  /** `getTotalLagRelatedToPartitionAmount`; None where the division by a zero threshold panics. */
  function CapToPartitions(total: int, partitions: nat, threshold: int): Option<int> {
    if threshold == 0 then None
    else if (if threshold > 0 then TruncDiv(total, threshold) else -TruncDiv(total, -threshold)) > partitions
    then Some(Wrap64(partitions * threshold))
    else Some(total)
  }

  /** For a positive threshold the product cannot overflow, the metric never exceeds the total, and the replicas
      it asks for are those of the total, limited to the partitions. */
  lemma CapExact(total: int, partitions: nat, threshold: int)
    requires Int63(total) && 0 < threshold
    ensures var r := CapToPartitions(total, partitions, threshold);
            && r.Some? && 0 <= r.value <= total
            && r.value / threshold == Min(total / threshold, partitions)
            && (total / threshold > partitions ==> r.value == partitions * threshold)
  {
    if total / threshold > partitions {
      QuotientBelow(total, threshold, partitions);
      DivUnique(partitions * threshold, threshold, partitions, 0);
    }
  }

  lemma QuotientBelow(total: int, threshold: int, k: nat)
    requires 0 <= total && 0 < threshold && k < total / threshold
    ensures 0 <= k * threshold <= total
  {
    var q := total / threshold;
    assert total == threshold * q + total % threshold;
    assert threshold * (q - k) == threshold * q - threshold * k;
    assert threshold * (q - k) >= 0;
  }

  /** A negative threshold never caps. */
  lemma NegativeThresholdUncapped(total: int, partitions: nat, threshold: int)
    requires Int63(total) && threshold < 0
    ensures CapToPartitions(total, partitions, threshold) == Some(total)
  {
    assert total / -threshold >= 0;
  }

  datatype Metric = Metric(lag: int, active: bool)

  datatype Failure = ReadFailed | Panic

  /** The metric is the saturated true sum, capped; any unreadable partition is an error. */
  method GetMetricsAndActivity(ps: seq<Partition>, stale: int, threshold: int, activation: int)
    returns (r: Result<Metric, Failure>)
    ensures !Readable(ps, stale) ==> r == Err(ReadFailed)
    ensures Readable(ps, stale) && threshold == 0 ==> r == Err(Panic)
    ensures Readable(ps, stale) && threshold != 0 ==>
              var total := Saturated(TrueSum(ps, stale));
              r == Ok(Metric(CapToPartitions(total, |ps|, threshold).value, total > activation))
    ensures r.Ok? && threshold > 0 ==> 0 <= r.value.lag && r.value.lag / threshold <= |ps|
  {
    var total, i := 0, 0;
    while i < |ps|
      invariant 0 <= i <= |ps| && Readable(ps[..i], stale)
      invariant total == Wrap64(TrueSum(ps[..i], stale))
    {
      var count := UnprocessedIn(ps[i], stale);
      if count.None? {
        return Err(ReadFailed);
      }
      assert ps[..i + 1][..i] == ps[..i];
      WrapAdd(TrueSum(ps[..i], stale), count.value);
      total := Wrap64(total + count.value);
      i := i + 1;
    }
    assert ps[..i] == ps;
    if total < 0 {
      total := MAX;
    }
    if threshold > 0 {
      CapExact(total, |ps|, threshold);
    }
    var capped := CapToPartitions(total, |ps|, threshold);
    if capped.None? {
      return Err(Panic);
    }
    r := Ok(Metric(capped.value, total > activation));
  }

  lemma WrapAdd(a: int, b: int)
    ensures Wrap64(Wrap64(a) + b) == Wrap64(a + b)
  {
  }
}
