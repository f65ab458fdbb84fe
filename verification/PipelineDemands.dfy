/**
 Azure Pipelines demand matching: a nested count of equal pairs stands in for a
 relation between the demands of a job and those of the scaler.
 */
module PipelineDemands {
  import opened Common

  /** `finished`: a result is present; `agents`: the names of the matched agents, if listed. */
  datatype Job = Job(finished: bool, demands: seq<string>, agents: Option<seq<string>>)

  datatype Metadata = Metadata(parent: string, demands: string, requireAll: bool, ignoreOthers: bool, ignoreCase: bool)

  /** Two demands match when their keys are equal. */
  function Key(ignoreCase: bool, demand: string): string {
    if ignoreCase then ToLower(demand) else demand
  }

  const AGENT_VERSION := "Agent.Version"

  predicate Kept(demand: string) {
    !(AGENT_VERSION <= demand)
  }

  /** `stripAgentVFromArray`. */
  function Stripped(demands: seq<string>): seq<string> {
    if demands == [] then [] else
      var d := demands[|demands| - 1];
      Stripped(demands[..|demands| - 1]) + if Kept(d) then [d] else []
  }

  function Keys(ignoreCase: bool, demands: seq<string>): seq<string> {
    seq(|demands|, i requires 0 <= i < |demands| => Key(ignoreCase, demands[i]))
  }

  function JobKeys(job: Job, meta: Metadata): seq<string> {
    Keys(meta.ignoreCase, Stripped(job.demands))
  }

  function ScalerKeys(meta: Metadata): seq<string> {
    Keys(meta.ignoreCase, Stripped(Split(meta.demands, ',')))
  }

  // ---- The nested count ----------------------------------------------------

  function Occurrences(x: string, s: seq<string>): nat {
    if s == [] then 0 else Occurrences(x, s[..|s| - 1]) + if x == s[|s| - 1] then 1 else 0
  }

  /** The number of equal pairs. */
  function Pairs(a: seq<string>, b: seq<string>): nat {
    if a == [] then 0 else Pairs(a[..|a| - 1], b) + Occurrences(a[|a| - 1], b)
  }

  lemma {:induction false} OccurrencesIn(x: string, s: seq<string>)
    ensures Occurrences(x, s) > 0 <==> x in s
    ensures Distinct(s) ==> Occurrences(x, s) <= 1
  {
    if s != [] {
      var init := s[..|s| - 1];
      assert s == init + [s[|s| - 1]];
      OccurrencesIn(x, init);
    }
  }

  /** Against a duplicate-free list the count reaches the length exactly for a subset. */
  lemma {:induction false} PairsDecideSubset(a: seq<string>, b: seq<string>)
    requires Distinct(b)
    ensures Pairs(a, b) <= |a|
    ensures Pairs(a, b) == |a| <==> Elements(a) <= Elements(b)
  {
    if a != [] {
      var init, x := a[..|a| - 1], a[|a| - 1];
      PairsDecideSubset(init, b);
      OccurrencesIn(x, b);
      assert Elements(a) == Elements(init) + {x} by {
        assert a == init + [x];
      }
    }
  }

  lemma {:induction false} PairsEmpty(a: seq<string>)
    ensures Pairs(a, []) == 0
  {
    if a != [] {
      PairsEmpty(a[..|a| - 1]);
    }
  }

  lemma {:induction false} PairsExtend(a: seq<string>, b: seq<string>, y: string)
    ensures Pairs(a, b + [y]) == Pairs(a, b) + Occurrences(y, a)
  {
    if a != [] {
      PairsExtend(a[..|a| - 1], b, y);
      assert (b + [y])[..|b|] == b;
    }
  }

  /** Counting pairs from either side gives the same number. */
  lemma {:induction false} PairsSymmetric(a: seq<string>, b: seq<string>)
    ensures Pairs(a, b) == Pairs(b, a)
  {
    if b == [] {
      PairsEmpty(a);
    } else {
      var init, y := b[..|b| - 1], b[|b| - 1];
      assert b == init + [y];
      PairsSymmetric(a, init);
      PairsExtend(a, init, y);
    }
  }

  // ---- The decision --------------------------------------------------------

  /** `getCanAgentDemandFulfilJob` on the two lists of keys. */
  predicate Decides(inJob: seq<string>, inScaler: seq<string>, meta: Metadata) {
    var n := Pairs(inJob, inScaler);
    if meta.requireAll then n == |inJob| && n == |inScaler|
    else if meta.ignoreOthers then n == |inScaler|
    else n == |inJob|
  }

  /** What it is meant to decide. */
  predicate Related(inJob: seq<string>, inScaler: seq<string>, meta: Metadata) {
    if meta.requireAll then Elements(inJob) == Elements(inScaler)
    else if meta.ignoreOthers then Elements(inScaler) <= Elements(inJob)
    else Elements(inJob) <= Elements(inScaler)
  }

  /** By default the count is right for every job exactly when the scaler's own list has no duplicates. */
  lemma DefaultExact(inScaler: seq<string>, meta: Metadata)
    requires !meta.requireAll && !meta.ignoreOthers
    ensures (forall inJob :: Decides(inJob, inScaler, meta) <==> Related(inJob, inScaler, meta)) <==> Distinct(inScaler)
  {
    if Distinct(inScaler) {
      forall inJob ensures Decides(inJob, inScaler, meta) <==> Related(inJob, inScaler, meta) {
        PairsDecideSubset(inJob, inScaler);
      }
    } else {
      var i, j :| 0 <= i < j < |inScaler| && inScaler[i] == inScaler[j];
      SingleMiscounts(inScaler, i, j);
      assert Related([inScaler[i]], inScaler, meta) && !Decides([inScaler[i]], inScaler, meta);
    }
  }

  /** When others are ignored the count is right for every scaler exactly when the job's list has no duplicates. */
  lemma IgnoreOthersExact(inJob: seq<string>, meta: Metadata)
    requires !meta.requireAll && meta.ignoreOthers
    ensures (forall inScaler :: Decides(inJob, inScaler, meta) <==> Related(inJob, inScaler, meta)) <==> Distinct(inJob)
  {
    if Distinct(inJob) {
      forall inScaler ensures Decides(inJob, inScaler, meta) <==> Related(inJob, inScaler, meta) {
        PairsSymmetric(inJob, inScaler);
        PairsDecideSubset(inScaler, inJob);
      }
    } else {
      var i, j :| 0 <= i < j < |inJob| && inJob[i] == inJob[j];
      SingleMiscounts(inJob, i, j);
      PairsSymmetric(inJob, [inJob[i]]);
      assert Related(inJob, [inJob[i]], meta) && !Decides(inJob, [inJob[i]], meta);
    }
  }

  /** With both lists duplicate-free every mode decides its relation. */
  lemma DistinctExact(inJob: seq<string>, inScaler: seq<string>, meta: Metadata)
    requires Distinct(inJob) && Distinct(inScaler)
    ensures Decides(inJob, inScaler, meta) <==> Related(inJob, inScaler, meta)
  {
    PairsSymmetric(inJob, inScaler);
    PairsDecideSubset(inJob, inScaler);
    PairsDecideSubset(inScaler, inJob);
  }

  lemma {:induction false} TwiceOccurs(s: seq<string>, i: int, j: int)
    requires 0 <= i < j < |s| && s[i] == s[j]
    ensures Occurrences(s[i], s) >= 2
  {
    var init := s[..|s| - 1];
    if j == |s| - 1 {
      OccurrencesIn(s[i], init);
      assert init[i] == s[i];
    } else {
      TwiceOccurs(init, i, j);
    }
  }

  lemma SingleMiscounts(s: seq<string>, i: int, j: int)
    requires 0 <= i < j < |s| && s[i] == s[j]
    ensures Pairs([s[i]], s) >= 2 && Elements([s[i]]) <= Elements(s)
  {
    TwiceOccurs(s, i, j);
    assert [s[i]][..0] == [];
  }

  lemma {:induction false} ElementsAtMost(s: seq<string>)
    ensures |Elements(s)| <= |s|
  {
    if s != [] {
      var init, x := s[..|s| - 1], s[|s| - 1];
      ElementsAtMost(init);
      assert s == init + [x];
      assert Elements(s) == Elements(init) + {x};
    }
  }

  /** A list with a duplicate has fewer elements than entries. */
  lemma DuplicateShrinks(s: seq<string>, i: int, j: int)
    requires 0 <= i < j < |s| && s[i] == s[j]
    ensures |Elements(s)| < |s|
  {
    var rest := s[..j] + s[j + 1..];
    assert Elements(rest) == Elements(s) by {
      assert rest[i] == s[j];
      assert s == s[..j] + [s[j]] + s[j + 1..];
    }
    ElementsAtMost(rest);
  }

  /** When all demands are required, the count is right for every duplicate-free job exactly when the scaler's list has
      no duplicates. */
  lemma RequireAllExact(inScaler: seq<string>, meta: Metadata)
    requires meta.requireAll
    ensures (forall inJob :: Distinct(inJob) ==> (Decides(inJob, inScaler, meta) <==> Related(inJob, inScaler, meta)))
       <==> Distinct(inScaler)
  {
    if Distinct(inScaler) {
      forall inJob | Distinct(inJob) ensures Decides(inJob, inScaler, meta) <==> Related(inJob, inScaler, meta) {
        DistinctExact(inJob, inScaler, meta);
      }
    } else {
      var i, j :| 0 <= i < j < |inScaler| && inScaler[i] == inScaler[j];
      DuplicateShrinks(inScaler, i, j);
      var inJob := WalkExists(Elements(inScaler));
      WalkLength(inJob, Elements(inScaler));
      PairsSymmetric(inJob, inScaler);
      PairsDecideSubset(inScaler, inJob);
      assert Related(inJob, inScaler, meta) && !Decides(inJob, inScaler, meta);
    }
  }

  /** By default a scaler that lists a demand twice takes a job with that demand and one it lacks. */
  lemma DuplicateAcceptsForeign(a: string, x: string, meta: Metadata)
    requires a != x && !meta.requireAll && !meta.ignoreOthers
    ensures Decides([a, x], [a, a], meta) && !Related([a, x], [a, a], meta)
  {
    assert [a, x][..1] == [a] && [a][..0] == [] && [a, a][..1] == [a];
    assert Occurrences(a, [a]) == 1 && Occurrences(x, [a]) == 0;
    assert Occurrences(a, [a, a]) == 2 && Occurrences(x, [a, a]) == 0;
    assert Pairs([a], [a, a]) == 2;
    assert x in Elements([a, x]) && x !in Elements([a, a]) by {
      assert [a, x][1] == x;
    }
  }

  /** When all demands are required, a job that lists one demand twice is taken for one that has both. */
  lemma DuplicateStandsForOther(a: string, b: string, meta: Metadata)
    requires a != b && meta.requireAll
    ensures Decides([a, a], [a, b], meta) && !Related([a, a], [a, b], meta)
  {
    assert [a, a][..1] == [a] && [a][..0] == [] && [a, b][..1] == [a];
    assert Occurrences(a, [a]) == 1;
    assert Occurrences(a, [a, b]) == 1;
    assert Pairs([a], [a, b]) == 1;
    assert b in Elements([a, b]) && b !in Elements([a, a]) by {
      assert [a, b][1] == b;
    }
  }

  /** By default a scaler that lists a demand twice refuses a job with just that demand. */
  lemma DuplicateRefusesMatch(a: string, meta: Metadata)
    requires !meta.requireAll && !meta.ignoreOthers
    ensures !Decides([a], [a, a], meta) && Related([a], [a, a], meta)
  {
    SingleMiscounts([a, a], 0, 1);
  }

  // ---- The operations ------------------------------------------------------

  method StripAgentVersion(demands: seq<string>) returns (r: seq<string>)
    ensures r == Stripped(demands)
  {
    r := [];
    for i := 0 to |demands|
      invariant r == Stripped(demands[..i])
    {
      assert demands[..i + 1][..i] == demands[..i];
      if Kept(demands[i]) {
        r := r + [demands[i]];
      }
    }
    assert demands[..|demands|] == demands;
  }

  /** Stripping keeps exactly the demands that do not start with Agent.Version, as often as they were listed. */
  lemma {:induction false} StrippedElements(demands: seq<string>)
    ensures forall d :: d in Stripped(demands) <==> d in demands && !("Agent.Version" <= d)
    ensures forall d :: multiset(Stripped(demands))[d] == if "Agent.Version" <= d then 0 else multiset(demands)[d]
  {
    if demands != [] {
      var init, last := demands[..|demands| - 1], demands[|demands| - 1];
      assert demands == init + [last];
      StrippedElements(init);
    }
  }

  method CanAgentDemandFulfilJob(job: Job, meta: Metadata) returns (r: bool)
    ensures r == Decides(JobKeys(job, meta), ScalerKeys(meta), meta)
    ensures Distinct(JobKeys(job, meta)) && Distinct(ScalerKeys(meta)) ==>
            r == Related(JobKeys(job, meta), ScalerKeys(meta), meta)
  {
    var countDemands := 0;
    var inJob := StripAgentVersion(job.demands);
    var inScaler := StripAgentVersion(Split(meta.demands, ','));
    ghost var jobKeys, scalerKeys := JobKeys(job, meta), ScalerKeys(meta);
    for i := 0 to |inJob|
      invariant countDemands == Pairs(jobKeys[..i], scalerKeys)
    {
      ghost var before := countDemands;
      for j := 0 to |inScaler|
        invariant countDemands == before + Occurrences(jobKeys[i], scalerKeys[..j])
      {
        assert scalerKeys[..j + 1][..j] == scalerKeys[..j];
        if Key(meta.ignoreCase, inJob[i]) == Key(meta.ignoreCase, inScaler[j]) {
          countDemands := countDemands + 1;
        }
      }
      assert scalerKeys[..|inScaler|] == scalerKeys && jobKeys[..i + 1][..i] == jobKeys[..i];
    }
    assert jobKeys[..|inJob|] == jobKeys;
    if Distinct(jobKeys) && Distinct(scalerKeys) {
      DistinctExact(jobKeys, scalerKeys, meta);
    }
    if meta.requireAll {
      return countDemands == |inJob| && countDemands == |inScaler|;
    } else if meta.ignoreOthers {
      return countDemands == |inScaler|;
    }
    return countDemands == |inJob|;
  }

  predicate ParentMatches(job: Job, meta: Metadata) {
    job.agents.Some? && meta.parent in job.agents.value
  }

  method CanAgentParentFulfilJob(job: Job, meta: Metadata) returns (r: bool)
    ensures r == ParentMatches(job, meta)
  {
    if job.agents.None? {
      return false;
    }
    for i := 0 to |job.agents.value|
      invariant meta.parent !in job.agents.value[..i]
    {
      if meta.parent == job.agents.value[i] {
        return true;
      }
    }
    return false;
  }

  /** A job that counts toward the queue length. */
  predicate Counts(job: Job, meta: Metadata) {
    && !job.finished
    && (if meta.parent != "" then ParentMatches(job, meta)
        else meta.demands == "" || Decides(JobKeys(job, meta), ScalerKeys(meta), meta))
  }

  /** The jobs that satisfy a predicate, by position. */
  function Positions(jobs: seq<Job>, p: Job -> bool): set<int> {
    set i | 0 <= i < |jobs| && p(jobs[i])
  }

  lemma PositionsExtend(jobs: seq<Job>, p: Job -> bool, i: nat)
    requires i < |jobs|
    ensures |Positions(jobs[..i + 1], p)| == |Positions(jobs[..i], p)| + if p(jobs[i]) then 1 else 0
  {
    assert Positions(jobs[..i + 1], p) == Positions(jobs[..i], p) + if p(jobs[i]) then {i} else {};
  }

  /** `stripDeadJobs`. */
  function Live(jobs: seq<Job>): seq<Job> {
    if jobs == [] then [] else
      var job := jobs[|jobs| - 1];
      Live(jobs[..|jobs| - 1]) + if job.finished then [] else [job]
  }

  method StripDeadJobs(jobs: seq<Job>) returns (r: seq<Job>)
    ensures r == Live(jobs)
  {
    r := [];
    for i := 0 to |jobs|
      invariant r == Live(jobs[..i])
    {
      assert jobs[..i + 1][..i] == jobs[..i];
      if !jobs[i].finished {
        r := r + [jobs[i]];
      }
    }
    assert jobs[..|jobs|] == jobs;
  }

  /** Dropping finished jobs first does not change how many count. */
  lemma {:induction false} LiveCounts(jobs: seq<Job>, meta: Metadata)
    ensures |Positions(Live(jobs), job => Counts(job, meta))| == |Positions(jobs, job => Counts(job, meta))|
  {
    var p := (job: Job) => Counts(job, meta);
    if jobs != [] {
      var n := |jobs| - 1;
      var init, live := jobs[..n], Live(jobs[..n]);
      LiveCounts(init, meta);
      PositionsExtend(jobs, p, n);
      assert jobs[..n + 1] == jobs;
      if jobs[n].finished {
        assert live + [] == live;
      } else {
        PositionsExtend(live + [jobs[n]], p, |live|);
        assert (live + [jobs[n]])[..|live|] == live && (live + [jobs[n]])[..|live| + 1] == live + [jobs[n]];
      }
    }
  }

  /** The queue length is the number of unfinished jobs that match. */
  method QueueLength(jobs: seq<Job>, meta: Metadata) returns (count: nat)
    ensures count == |Positions(jobs, job => Counts(job, meta))|
  {
    count := 0;
    var live := StripDeadJobs(jobs);
    LiveUnfinished(jobs);
    ghost var p := (job: Job) => Counts(job, meta);
    for i := 0 to |live|
      invariant count == |Positions(live[..i], p)|
    {
      var matches := true;
      if meta.parent != "" {
        matches := CanAgentParentFulfilJob(live[i], meta);
      } else if meta.demands != "" {
        matches := CanAgentDemandFulfilJob(live[i], meta);
      }
      PositionsExtend(live, p, i);
      if matches {
        count := count + 1;
      }
    }
    assert live[..|live|] == live;
    LiveCounts(jobs, meta);
  }

  lemma {:induction false} LiveUnfinished(jobs: seq<Job>)
    ensures forall i :: 0 <= i < |Live(jobs)| ==> !Live(jobs)[i].finished
  {
    if jobs != [] {
      LiveUnfinished(jobs[..|jobs| - 1]);
    }
  }

  // ---- The relations, on the demands as written ----------------------------

  predicate SameLetter(a: char, b: char) {
    || a == b
    || ('A' <= a <= 'Z' && b as int == a as int + 32)
    || ('A' <= b <= 'Z' && a as int == b as int + 32)
  }

  /** Two demands are the same demand, up to the case of letters when that is to be ignored. */
  ghost predicate Matches(ignoreCase: bool, a: string, b: string) {
    if ignoreCase then |a| == |b| && forall i :: 0 <= i < |a| ==> SameLetter(a[i], b[i]) else a == b
  }

  lemma KeyDecides(ignoreCase: bool, a: string, b: string)
    ensures Key(ignoreCase, a) == Key(ignoreCase, b) <==> Matches(ignoreCase, a, b)
  {
    if ignoreCase {
      if |a| == |b| && forall i :: 0 <= i < |a| ==> SameLetter(a[i], b[i]) {
        assert forall i :: 0 <= i < |a| ==> ToLower(a)[i] == ToLower(b)[i];
      }
      if ToLower(a) == ToLower(b) {
        forall i | 0 <= i < |a| ensures SameLetter(a[i], b[i]) {
          assert ToLower(a)[i] == ToLower(b)[i];
        }
      }
    }
  }

  /** Every demand of one list that counts is the same as one of the other list that counts. */
  ghost predicate Covered(ignoreCase: bool, a: seq<string>, b: seq<string>) {
    forall d :: d in a && !("Agent.Version" <= d) ==> HasMatch(ignoreCase, d, b)
  }

  ghost predicate HasMatch(ignoreCase: bool, d: string, b: seq<string>) {
    exists e :: e in b && !("Agent.Version" <= e) && Matches(ignoreCase, d, e)
  }

  lemma KeysIn(ignoreCase: bool, demands: seq<string>, key: string)
    ensures key in Elements(Keys(ignoreCase, Stripped(demands))) <==>
            exists d :: d in demands && !("Agent.Version" <= d) && Key(ignoreCase, d) == key
  {
    var s := Stripped(demands);
    StrippedElements(demands);
    if key in Keys(ignoreCase, s) {
      var i :| 0 <= i < |s| && Keys(ignoreCase, s)[i] == key;
      assert s[i] in s;
    }
    if d :| d in demands && !("Agent.Version" <= d) && Key(ignoreCase, d) == key {
      assert d in s;
      var i :| 0 <= i < |s| && s[i] == d;
      assert Keys(ignoreCase, s)[i] == key;
    }
  }

  lemma MatchIsKey(ignoreCase: bool, d: string, b: seq<string>)
    ensures HasMatch(ignoreCase, d, b) <==> Key(ignoreCase, d) in Elements(Keys(ignoreCase, Stripped(b)))
  {
    KeysIn(ignoreCase, b, Key(ignoreCase, d));
    forall e ensures Key(ignoreCase, e) == Key(ignoreCase, d) <==> Matches(ignoreCase, d, e) {
      KeyDecides(ignoreCase, d, e);
    }
  }

  lemma CoveredIsSubset(ignoreCase: bool, a: seq<string>, b: seq<string>)
    ensures Covered(ignoreCase, a, b) <==>
            Elements(Keys(ignoreCase, Stripped(a))) <= Elements(Keys(ignoreCase, Stripped(b)))
  {
    var ka, kb := Elements(Keys(ignoreCase, Stripped(a))), Elements(Keys(ignoreCase, Stripped(b)));
    if Covered(ignoreCase, a, b) {
      forall key | key in ka ensures key in kb {
        KeysIn(ignoreCase, a, key);
        var d :| d in a && !("Agent.Version" <= d) && Key(ignoreCase, d) == key;
        MatchIsKey(ignoreCase, d, b);
      }
    }
    if ka <= kb {
      forall d | d in a && !("Agent.Version" <= d) ensures HasMatch(ignoreCase, d, b) {
        KeysIn(ignoreCase, a, Key(ignoreCase, d));
        MatchIsKey(ignoreCase, d, b);
      }
    }
  }

  /** What the scaler is asked for: the job's demands are all among the scaler's, or the other way round when others are
      ignored, or both when all are required. The scaler's demands are separated by commas. */
  ghost predicate Suits(job: Job, meta: Metadata) {
    var offered := Split(meta.demands, ',');
    if meta.requireAll
    then Covered(meta.ignoreCase, job.demands, offered) && Covered(meta.ignoreCase, offered, job.demands)
    else if meta.ignoreOthers then Covered(meta.ignoreCase, offered, job.demands)
    else Covered(meta.ignoreCase, job.demands, offered)
  }

  lemma RelatedIsSuits(job: Job, meta: Metadata)
    ensures Related(JobKeys(job, meta), ScalerKeys(meta), meta) <==> Suits(job, meta)
  {
    CoveredIsSubset(meta.ignoreCase, job.demands, Split(meta.demands, ','));
    CoveredIsSubset(meta.ignoreCase, Split(meta.demands, ','), job.demands);
  }

  /** No demand that counts is listed twice, up to case when that is ignored. */
  ghost predicate NoRepeats(ignoreCase: bool, demands: seq<string>) {
    var s := Stripped(demands);
    forall i, j :: 0 <= i < j < |s| ==> !Matches(ignoreCase, s[i], s[j])
  }

  lemma NoRepeatsDistinct(ignoreCase: bool, demands: seq<string>)
    ensures NoRepeats(ignoreCase, demands) <==> Distinct(Keys(ignoreCase, Stripped(demands)))
  {
    var s := Stripped(demands);
    var keys := Keys(ignoreCase, s);
    forall i, j | 0 <= i < j < |s| ensures keys[i] == keys[j] <==> Matches(ignoreCase, s[i], s[j]) {
      KeyDecides(ignoreCase, s[i], s[j]);
    }
  }

  /** With demands set, no parent, and no demand listed twice, the jobs that count are exactly the unfinished ones that
      suit the scaler. */
  lemma QueueLengthCountsRelated(jobs: seq<Job>, meta: Metadata)
    requires meta.parent == "" && meta.demands != "" && NoRepeats(meta.ignoreCase, Split(meta.demands, ','))
    requires forall i :: 0 <= i < |jobs| ==> NoRepeats(meta.ignoreCase, jobs[i].demands)
    ensures forall i :: i in Positions(jobs, job => Counts(job, meta)) <==>
                        0 <= i < |jobs| && !jobs[i].finished && Suits(jobs[i], meta)
  {
    NoRepeatsDistinct(meta.ignoreCase, Split(meta.demands, ','));
    forall i | 0 <= i < |jobs| ensures Counts(jobs[i], meta) <==> !jobs[i].finished && Suits(jobs[i], meta) {
      NoRepeatsDistinct(meta.ignoreCase, jobs[i].demands);
      DistinctExact(JobKeys(jobs[i], meta), ScalerKeys(meta), meta);
      RelatedIsSuits(jobs[i], meta);
    }
  }

  /** With a parent set the unfinished jobs count that it is a matched agent of; with nothing set all unfinished
      ones. */
  lemma QueueLengthOtherwise(jobs: seq<Job>, meta: Metadata)
    requires meta.parent != "" || meta.demands == ""
    ensures forall i :: i in Positions(jobs, job => Counts(job, meta)) <==>
                        && 0 <= i < |jobs| && !jobs[i].finished
                        && (meta.parent == "" || (jobs[i].agents.Some? && meta.parent in jobs[i].agents.value))
  {
  }
}
