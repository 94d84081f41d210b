/** The statistics snapshot `processStats` derives from the full vote
    sequence, as pure functions of that sequence, and the properties the
    snapshot has. The imperative computation that mirrors the source's loops is
    in module Engine and is proved to produce exactly `StatsOf(votes)`. */
module Aggregate {
  import opened Wrappers
  import opened Ballot
  import opened SeqMath

  // ---------------------------------------------------------------------------
  // Candidate-level scores and the trimmed average

  /** Every vote's score for candidate c, in vote order (`candidateScores`). */
  function Column(votes: seq<Vote>, c: Cand): (col: seq<int>)
    ensures |col| == |votes|
    ensures forall i :: 0 <= i < |votes| ==> col[i] == votes[i].candidates.Get(c)
  {
    if votes == [] then []
    else Column(votes[..|votes| - 1], c) + [votes[|votes| - 1].candidates.Get(c)]
  }

  /** `calculateTrimmedAverage`: 0 for two scores or fewer; otherwise the mean
      of a sorted copy with its first and last element sliced off. */
  function TrimmedAverage(scores: seq<int>): real
  {
    if |scores| <= 2 then 0.0
    else
      var sorted := Sort(scores);
      Mean(sorted[1..|sorted| - 1])
  }

  /** Exactly one instance of the minimum and one of the maximum is
      discarded, whatever ties there are. */
  lemma {:induction false} TrimmedAverageDropsOneOfEach(scores: seq<int>)
    requires |scores| >= 3
    ensures TrimmedAverage(scores) == Quotient(Sum(scores) - Min(scores) - Max(scores), |scores| - 2)
  {
    TrimmedMean(scores);
    SortProperties(scores);
    SortFirstIsMin(scores);
    SortLastIsMax(scores);
    MeanWithoutEnds(Sort(scores), |scores|, Sum(scores), Min(scores), Max(scores));
  }

  /** The mean of a sequence without its two ends, given its length, its
      sum and the two ends. */
  lemma {:induction false} MeanWithoutEnds(t: seq<int>, n: nat, total: int, lo: int, hi: int)
    requires n == |t| && n >= 3 && Sum(t) == total && t[0] == lo && t[n - 1] == hi
    ensures Mean(t[1..n - 1]) == Quotient(total - lo - hi, n - 2)
  {
    SumWithoutEnds(t);
    MeanOf(t[1..n - 1], total - lo - hi, n - 2);
  }

  /** Slicing off the first and last element removes exactly those two from
      the sum. */
  lemma {:induction false} SumWithoutEnds(t: seq<int>)
    requires |t| >= 2
    ensures Sum(t[1..|t| - 1]) == Sum(t) - t[0] - t[|t| - 1]
  {
    var n := |t|;
    var mid := t[1..n - 1];
    assert t[..n - 1] == [t[0]] + mid;
    SumCons(t[0], mid);
  }

  /** With three scores or more the trimmed average lies between the smallest
      and the largest score. */
  lemma {:induction false} TrimmedAverageBetweenExtremes(scores: seq<int>)
    requires |scores| >= 3
    ensures Min(scores) as real <= TrimmedAverage(scores) <= Max(scores) as real
  {
    TrimmedMean(scores);
    MeanBetween(Sort(scores)[1..|scores| - 1]);
    InnerWithinExtremes(scores);
  }

  lemma {:induction false} TrimmedMean(scores: seq<int>)
    requires |scores| >= 3
    ensures TrimmedAverage(scores) == Mean(Sort(scores)[1..|scores| - 1])
  {
  }

  lemma {:induction false} InnerWithinExtremes(scores: seq<int>)
    requires |scores| >= 3
    ensures var inner := Sort(scores)[1..|scores| - 1];
      Min(scores) <= Min(inner) && Max(inner) <= Max(scores)
  {
    SortFirstIsMin(scores);
    SortLastIsMax(scores);
    SortProperties(scores);
    InnerWithinEnds(Sort(scores));
  }

  /** The inner part of a sorted sequence lies between its two ends. */
  lemma {:induction false} InnerWithinEnds(t: seq<int>)
    requires Sorted(t) && |t| >= 3
    ensures t[0] <= Min(t[1..|t| - 1]) && Max(t[1..|t| - 1]) <= t[|t| - 1]
  {
    var mid := t[1..|t| - 1];
    var lo :| 0 <= lo < |mid| && mid[lo] == Min(mid);
    var hi :| 0 <= hi < |mid| && mid[hi] == Max(mid);
    assert mid[lo] == t[lo + 1] && mid[hi] == t[hi + 1];
  }

  /** Fewer than three scores give the explicit "insufficient data" value 0. */
  lemma {:induction false} TrimmedAverageOfFew(scores: seq<int>)
    requires |scores| <= 2
    ensures TrimmedAverage(scores) == 0.0
  {
  }

  /** Three scores trim to the middle one, in whatever order they come. */
  lemma {:induction false} TrimmedAverageOfThree(s: seq<int>, lo: nat, mid: nat, hi: nat)
    requires |s| == 3 && lo < 3 && mid < 3 && hi < 3 && lo != mid && mid != hi && lo != hi
    requires s[lo] <= s[mid] <= s[hi]
    ensures TrimmedAverage(s) == s[mid] as real
  {
    SumOfThree(s);
    ExtremesOfThree(s, lo, mid, hi);
    TrimmedAverageDropsOneOfEach(s);
    QuotientOfMultiple(Sum(s) - Min(s) - Max(s), 1, s[mid]);
  }

  lemma {:induction false} ExtremesOfThree(s: seq<int>, lo: nat, mid: nat, hi: nat)
    requires |s| == 3 && lo < 3 && mid < 3 && hi < 3 && lo != mid && mid != hi && lo != hi
    requires s[lo] <= s[mid] <= s[hi]
    ensures Min(s) == s[lo] && Max(s) == s[hi] && s[0] + s[1] + s[2] == s[lo] + s[mid] + s[hi]
  {
  }

  lemma {:induction false} SumOfThree(s: seq<int>)
    requires |s| == 3
    ensures Sum(s) == s[0] + s[1] + s[2]
  {
    assert s[..2][..1] == s[..1] && s[..1][..0] == [];
    assert Sum(s[..1]) == s[0];
    assert Sum(s[..2]) == s[0] + s[1];
  }

  lemma TrimmedAverageExamples()
    ensures TrimmedAverage([10, 50, 90]) == 50.0
    ensures TrimmedAverage([55, 59, 60]) == 59.0
    ensures TrimmedAverage([55, 60, 59]) == 59.0
  {
    TrimmedAverageOfThree([10, 50, 90], 0, 1, 2);
    TrimmedAverageOfThree([55, 59, 60], 0, 1, 2);
    TrimmedAverageOfThree([55, 60, 59], 0, 2, 1);
  }

  /** The trimmed averages of A, B, C and D (`stats.trimmedAverages`). */
  function TrimmedAverages(votes: seq<Vote>): seq<real>
  {
    [TrimmedAverage(Column(votes, A)), TrimmedAverage(Column(votes, B)),
     TrimmedAverage(Column(votes, C)), TrimmedAverage(Column(votes, D))]
  }

  // ---------------------------------------------------------------------------
  // Score bands and the distribution table

  /** Band b (0 to 4) is `<60`, `60-69`, `70-79`, `80-89`, `>=90`: each lower
      boundary belongs to its band, each upper boundary to the next. */
  predicate InBand(score: int, b: nat) {
    b < 5 && (b == 0 || 50 + 10 * b <= score) && (b == 4 || score < 60 + 10 * b)
  }

  /** The `binIndex` chain: every score falls into exactly one band. */
  function Band(score: int): (b: nat)
    ensures InBand(score, b)
    ensures forall k: nat :: InBand(score, k) ==> k == b
  {
    if score < 60 then 0
    else if score < 70 then 1
    else if score < 80 then 2
    else if score < 90 then 3
    else 4
  }

  lemma BandBoundaries()
    ensures Band(59) == 0 && Band(60) == 1 && Band(69) == 1 && Band(70) == 2
    ensures Band(89) == 3 && Band(90) == 4
  {
  }

  /** How many scores of col fall into band b. */
  function BandCount(col: seq<int>, b: nat): (n: nat)
    ensures n <= |col|
  {
    if col == [] then 0
    else BandCount(col[..|col| - 1], b) + (if Band(col[|col| - 1]) == b then 1 else 0)
  }

  /** The five band counts of a candidate add up to the number of scores. */
  lemma {:induction false} BandCountsSum(col: seq<int>)
    ensures BandCount(col, 0) + BandCount(col, 1) + BandCount(col, 2)
          + BandCount(col, 3) + BandCount(col, 4) == |col|
  {
    if col != [] {
      BandCountsSum(col[..|col| - 1]);
    }
  }

  /** `(count / totalVotes) * 100`, kept exact. */
  function Percent(count: nat, total: nat): real
    requires total > 0
  {
    Quotient(count, total) * 100.0
  }

  lemma PercentagesOfAPartition(c0: nat, c1: nat, c2: nat, c3: nat, c4: nat, total: nat)
    requires total > 0 && c0 + c1 + c2 + c3 + c4 == total
    ensures Percent(c0, total) + Percent(c1, total) + Percent(c2, total)
          + Percent(c3, total) + Percent(c4, total) == 100.0
  {
    QuotientAdd(c0, c1, total);
    QuotientAdd(c0 + c1, c2, total);
    QuotientAdd(c0 + c1 + c2, c3, total);
    QuotientAdd(c0 + c1 + c2 + c3, c4, total);
    QuotientOfMultiple(total, total, 1);
  }

  /** The all-zero table the source starts from. */
  function ZeroDistribution(): seq<seq<real>>
  {
    var z := [0.0, 0.0, 0.0, 0.0];
    [z, z, z, z, z]
  }

  /** Band b's percentages for A, B, C and D. */
  function DistributionRow(votes: seq<Vote>, b: nat): seq<real>
    requires |votes| > 0
  {
    seq(4, j requires 0 <= j < 4 => Percent(BandCount(Column(votes, Cands[j]), b), |votes|))
  }

  /** `stats.distribution`, indexed [band][candidate index]: the share of the
      votes in each band as a percentage; left at zero when there are no
      votes. */
  function Distribution(votes: seq<Vote>): (t: seq<seq<real>>)
    ensures |t| == 5 && forall b :: 0 <= b < 5 ==> |t[b]| == 4
  {
    if |votes| == 0 then ZeroDistribution()
    else seq(5, b requires 0 <= b < 5 => DistributionRow(votes, b))
  }

  /** Cell (b, c) of a non-empty distribution is c's share of band b. */
  lemma {:induction false} DistributionCell(votes: seq<Vote>, b: nat, c: Cand)
    requires |votes| > 0 && b < 5
    ensures |Distribution(votes)| == 5 && |Distribution(votes)[b]| == 4
    ensures Distribution(votes)[b][CandIndex(c)] == Percent(BandCount(Column(votes, c), b), |votes|)
  {
  }

  /** With votes present, every candidate's five percentages add up to 100. */
  lemma {:induction false} DistributionColumnSumsTo100(votes: seq<Vote>, c: Cand)
    requires |votes| > 0
    ensures var t, j := Distribution(votes), CandIndex(c);
            t[0][j] + t[1][j] + t[2][j] + t[3][j] + t[4][j] == 100.0
  {
    var col := Column(votes, c);
    DistributionCell(votes, 0, c);
    DistributionCell(votes, 1, c);
    DistributionCell(votes, 2, c);
    DistributionCell(votes, 3, c);
    DistributionCell(votes, 4, c);
    BandCountsSum(col);
    PercentagesOfAPartition(BandCount(col, 0), BandCount(col, 1), BandCount(col, 2),
                            BandCount(col, 3), BandCount(col, 4), |votes|);
  }

  // ---------------------------------------------------------------------------
  // Dimension scores and the leaderboard

  /** The score a dimension map gives to (d, c), if any. */
  function Entry(m: DimScores, d: Dim, c: Cand): Option<int>
  {
    if d in m && c in m[d] then Some(m[d][c]) else None
  }

  /** The score a vote supplies for (d, c), if any. */
  function ScoreAt(v: Vote, d: Dim, c: Cand): Option<int>
  {
    match v.dimensions
    case None => None
    case Some(m) => Entry(m, d, c)
  }

  /** A score that may be missing, as a list of zero or one score. */
  function Listed(score: Option<int>): seq<int>
  {
    match score
    case Some(s) => [s]
    case None => []
  }

  /** Every score supplied for (d, c), in vote order
      (`dimensionCandidateScores[d][c]`). */
  function Supplied(votes: seq<Vote>, d: Dim, c: Cand): (col: seq<int>)
    ensures |col| <= |votes|
  {
    if votes == [] then []
    else
      Supplied(votes[..|votes| - 1], d, c) + Listed(ScoreAt(votes[|votes| - 1], d, c))
  }

  /** A score is in the supplied list exactly when some vote supplied it. */
  lemma {:induction false} SuppliedMembers(votes: seq<Vote>, d: Dim, c: Cand, x: int)
    ensures x in Supplied(votes, d, c) <==>
            exists i :: 0 <= i < |votes| && ScoreAt(votes[i], d, c) == Some(x)
  {
    if votes != [] {
      var n := |votes| - 1;
      var prefix, last := votes[..n], Listed(ScoreAt(votes[n], d, c));
      SuppliedMembers(prefix, d, c, x);
      assert Supplied(votes, d, c) == Supplied(prefix, d, c) + last;
      if x in Supplied(votes, d, c) {
        if x in Supplied(prefix, d, c) {
          var i :| 0 <= i < n && ScoreAt(prefix[i], d, c) == Some(x);
          assert prefix[i] == votes[i];
        } else {
          assert x in last;
        }
      }
      if i :| 0 <= i < |votes| && ScoreAt(votes[i], d, c) == Some(x) {
        if i < n {
          assert prefix[i] == votes[i];
        } else {
          assert x in last;
        }
      }
    }
  }

  /** The per-(dimension, candidate) average: 0 when nobody supplied a
      score, otherwise between the smallest and largest supplied score. */
  function DimAverage(votes: seq<Vote>, d: Dim, c: Cand): real
  {
    Mean(Supplied(votes, d, c))
  }

  /** With no supplied score the average is 0; otherwise it lies between the
      smallest and the largest supplied score. */
  lemma {:induction false} DimAverageBounds(votes: seq<Vote>, d: Dim, c: Cand)
    ensures var col := Supplied(votes, d, c);
      && (col == [] ==> DimAverage(votes, d, c) == 0.0)
      && (col != [] ==> Min(col) as real <= DimAverage(votes, d, c) <= Max(col) as real)
  {
    var col := Supplied(votes, d, c);
    if col != [] {
      MeanBetween(col);
    }
  }

  /** The index of the first largest element (`reduce` replacing only on a
      strictly greater value). */
  function ArgMaxFirst(s: seq<real>): (r: nat)
    requires |s| > 0
    ensures r < |s|
    ensures forall i :: 0 <= i < |s| ==> s[i] <= s[r]
    ensures forall i :: 0 <= i < r ==> s[i] < s[r]
  {
    if |s| == 1 then 0
    else
      var k := ArgMaxFirst(s[..|s| - 1]);
      if s[|s| - 1] > s[k] then |s| - 1 else k
  }

  /** The index of the first smallest element (`reduce` replacing only on a
      strictly smaller value). */
  function ArgMinFirst(s: seq<real>): (r: nat)
    requires |s| > 0
    ensures r < |s|
    ensures forall i :: 0 <= i < |s| ==> s[r] <= s[i]
    ensures forall i :: 0 <= i < r ==> s[r] < s[i]
  {
    if |s| == 1 then 0
    else
      var k := ArgMinFirst(s[..|s| - 1]);
      if s[|s| - 1] < s[k] then |s| - 1 else k
  }

  /** One leaderboard entry; the scores are exact (the source renders them
      with one decimal). */
  datatype DimEntry = DimEntry(name: string, maxCandidate: Cand, maxScore: real,
                               minCandidate: Cand, minScore: real)

  /** The entry for dimension d from its four score lists, A to D. */
  function EntryFor(d: Dim, lists: seq<seq<int>>): DimEntry
    requires |lists| == 4
  {
    var avgs := [Mean(lists[0]), Mean(lists[1]), Mean(lists[2]), Mean(lists[3])];
    var hi := ArgMaxFirst(avgs);
    var lo := ArgMinFirst(avgs);
    DimEntry(DimName(d), Cands[hi], avgs[hi], Cands[lo], avgs[lo])
  }

  /** The four supplied-score lists of dimension d, A to D. */
  function SuppliedLists(votes: seq<Vote>, d: Dim): (lists: seq<seq<int>>)
    ensures |lists| == 4
    ensures forall j :: 0 <= j < 4 ==> lists[j] == Supplied(votes, d, Cands[j])
  {
    [Supplied(votes, d, A), Supplied(votes, d, B), Supplied(votes, d, C), Supplied(votes, d, D)]
  }

  function LeaderOf(votes: seq<Vote>, d: Dim): DimEntry
  {
    EntryFor(d, SuppliedLists(votes, d))
  }

  /** `stats.dimensions`: one entry per dimension in the fixed key order
      `analysis, plan, solve, reaction, speak, behave`. */
  function Leaderboard(votes: seq<Vote>): (board: seq<DimEntry>)
    ensures |board| == |DimKeys|
  {
    seq(6, k requires 0 <= k < 6 => LeaderOf(votes, DimKeys[k]))
  }

  /** Entry k of the leaderboard is the leader and trailer of dimension k. */
  lemma {:induction false} LeaderboardAt(votes: seq<Vote>, k: nat)
    requires k < |DimKeys|
    ensures Leaderboard(votes)[k] == LeaderOf(votes, DimKeys[k])
  {
  }

  /** The entry's leader has the highest of the four averages and its
      trailer the lowest; ties go to the earliest candidate in A..D order. */
  lemma {:induction false} EntryForProperties(d: Dim, lists: seq<seq<int>>)
    requires |lists| == 4
    ensures var e := EntryFor(d, lists);
      && e.name == DimName(d)
      && e.maxScore == Mean(lists[CandIndex(e.maxCandidate)])
      && e.minScore == Mean(lists[CandIndex(e.minCandidate)])
      && (forall c :: Mean(lists[CandIndex(c)]) <= e.maxScore)
      && (forall c :: e.minScore <= Mean(lists[CandIndex(c)]))
      && (forall c :: CandIndex(c) < CandIndex(e.maxCandidate) ==> Mean(lists[CandIndex(c)]) < e.maxScore)
      && (forall c :: CandIndex(c) < CandIndex(e.minCandidate) ==> e.minScore < Mean(lists[CandIndex(c)]))
  {
    var avgs := [Mean(lists[0]), Mean(lists[1]), Mean(lists[2]), Mean(lists[3])];
    var hi := ArgMaxFirst(avgs);
    var lo := ArgMinFirst(avgs);
    assert CandIndex(Cands[hi]) == hi by { assert hi == 0 || hi == 1 || hi == 2 || hi == 3; }
    assert CandIndex(Cands[lo]) == lo by { assert lo == 0 || lo == 1 || lo == 2 || lo == 3; }
    forall c: Cand
      ensures avgs[CandIndex(c)] == Mean(lists[CandIndex(c)])
    {
    }
  }

  /** The leaderboard entry of a dimension names it; its leader has the
      highest average and its trailer the lowest over the supplied scores;
      ties go to the earliest candidate in A..D order. */
  lemma {:induction false} LeaderOfProperties(votes: seq<Vote>, d: Dim)
    ensures var e := LeaderOf(votes, d);
      && e.name == DimName(d)
      && e.maxScore == DimAverage(votes, d, e.maxCandidate)
      && e.minScore == DimAverage(votes, d, e.minCandidate)
      && (forall c :: DimAverage(votes, d, c) <= e.maxScore)
      && (forall c :: e.minScore <= DimAverage(votes, d, c))
      && (forall c :: CandIndex(c) < CandIndex(e.maxCandidate) ==> DimAverage(votes, d, c) < e.maxScore)
      && (forall c :: CandIndex(c) < CandIndex(e.minCandidate) ==> e.minScore < DimAverage(votes, d, c))
  {
    var lists := SuppliedLists(votes, d);
    EntryForProperties(d, lists);
    forall c: Cand
      ensures Mean(lists[CandIndex(c)]) == DimAverage(votes, d, c)
    {
    }
  }

  // ---------------------------------------------------------------------------
  // Per-candidate, per-dimension extremes

  /** `{max, min}` of a (candidate, dimension) pair; `Unset` is the initial
      `{max: -Infinity, min: Infinity}`. */
  datatype Extreme = Unset | Range(max: int, min: int)

  /** The running update: the first score sets both bounds; a later score
      raises the maximum or lowers the minimum when it goes beyond them. */
  function Observe(e: Extreme, score: int): Extreme
  {
    match e
    case Unset => Range(score, score)
    case Range(hi, lo) => Range(if score > hi then score else hi, if score < lo then score else lo)
  }

  /** The update for a score that may be missing (`score === undefined`). */
  function ObserveOpt(e: Extreme, score: Option<int>): Extreme
  {
    match score
    case None => e
    case Some(s) => Observe(e, s)
  }

  function RunningExtreme(col: seq<int>): Extreme
  {
    if col == [] then Unset else Observe(RunningExtreme(col[..|col| - 1]), col[|col| - 1])
  }

  /** The running update leaves the sentinel only when there are no scores,
      and otherwise ends at the true maximum and minimum. */
  lemma {:induction false} RunningExtremeIsRange(col: seq<int>)
    ensures col == [] ==> RunningExtreme(col) == Unset
    ensures col != [] ==> RunningExtreme(col) == Range(Max(col), Min(col))
  {
    if |col| > 1 {
      RunningExtremeIsRange(col[..|col| - 1]);
    }
  }

  /** Candidate c's extremes for the six dimensions, in key order. */
  function ExtremeRow(votes: seq<Vote>, c: Cand): seq<Extreme>
  {
    seq(6, k requires 0 <= k < 6 => RunningExtreme(Supplied(votes, DimKeys[k], c)))
  }

  /** `stats.candidateExtremes`, indexed [candidate index][dimension index];
      every pair is `{max: 0, min: 0}` when there are no votes. */
  function ExtremeTable(votes: seq<Vote>): seq<seq<Extreme>>
  {
    if |votes| == 0 then
      var z := Range(0, 0);
      var row := [z, z, z, z, z, z];
      [row, row, row, row]
    else seq(4, j requires 0 <= j < 4 => ExtremeRow(votes, Cands[j]))
  }

  lemma {:induction false} ExtremeRowAt(votes: seq<Vote>, c: Cand, d: Dim)
    ensures |ExtremeRow(votes, c)| == 6
    ensures ExtremeRow(votes, c)[DimIndex(d)] == RunningExtreme(Supplied(votes, d, c))
  {
  }

  /** Pair (c, d) of a non-empty extremes table is the running extreme of the
      scores supplied for it. */
  lemma {:induction false} ExtremeCell(votes: seq<Vote>, c: Cand, d: Dim)
    requires |votes| > 0
    ensures |ExtremeTable(votes)| == 4 && |ExtremeTable(votes)[CandIndex(c)]| == 6
    ensures ExtremeTable(votes)[CandIndex(c)][DimIndex(d)] == RunningExtreme(Supplied(votes, d, c))
  {
    ExtremeRowAt(votes, c, d);
  }

  // ---------------------------------------------------------------------------
  // The snapshot

  datatype Stats = Stats(total: nat, trimmedAverages: seq<real>, distribution: seq<seq<real>>,
                         dimensions: seq<DimEntry>, candidateExtremes: seq<seq<Extreme>>)

  /** `Object.entries(vote.dimensions)` on a vote without dimension data
      throws a TypeError. */
  datatype StatsError = MissingDimensions

  predicate SomeVoteLacksDimensions(votes: seq<Vote>) {
    exists i :: 0 <= i < |votes| && votes[i].dimensions.None?
  }

  /** The result of `processStats` on the stored votes. */
  function StatsOf(votes: seq<Vote>): (r: Result<Stats, StatsError>)
    ensures r.Ok? ==> r.value.total == |votes|
    ensures r.Err? <==> SomeVoteLacksDimensions(votes)
  {
    if SomeVoteLacksDimensions(votes) then Err(MissingDimensions)
    else
      Ok(Stats(|votes|, TrimmedAverages(votes), Distribution(votes),
               if |votes| == 0 then [] else Leaderboard(votes), ExtremeTable(votes)))
  }

  /** A successful snapshot is made of the component functions. */
  lemma {:induction false} StatsComponents(votes: seq<Vote>)
    requires StatsOf(votes).Ok?
    ensures StatsOf(votes).value.trimmedAverages == TrimmedAverages(votes)
    ensures StatsOf(votes).value.distribution == Distribution(votes)
    ensures StatsOf(votes).value.dimensions == if |votes| == 0 then [] else Leaderboard(votes)
    ensures StatsOf(votes).value.candidateExtremes == ExtremeTable(votes)
  {
  }

  /** With no votes the snapshot is the early return: zero averages, the
      unnormalised zero table, no leaderboard and `{0, 0}` extremes. */
  lemma EmptyStoreStats()
    ensures StatsOf([]).Ok?
    ensures var s := StatsOf([]).value;
      && s.total == 0
      && s.trimmedAverages == [0.0, 0.0, 0.0, 0.0]
      && s.distribution == ZeroDistribution()
      && s.dimensions == []
      && |s.candidateExtremes| == 4
      && (forall j :: 0 <= j < 4 ==> |s.candidateExtremes[j]| == 6)
      && (forall j, k :: 0 <= j < 4 && 0 <= k < 6 ==> s.candidateExtremes[j][k] == Range(0, 0))
  {
  }

  /** In a snapshot over at least one vote, each candidate's band
      percentages add up to 100. */
  lemma {:induction false} StatsDistributionSumsTo100(votes: seq<Vote>, c: Cand)
    requires |votes| > 0 && StatsOf(votes).Ok?
    ensures var t, j := StatsOf(votes).value.distribution, CandIndex(c);
      && |t| == 5 && (forall b :: 0 <= b < 5 ==> |t[b]| == 4)
      && t[0][j] + t[1][j] + t[2][j] + t[3][j] + t[4][j] == 100.0
  {
    StatsComponents(votes);
    DistributionColumnSumsTo100(votes, c);
  }

  /** In a snapshot over at least one vote, entry k of the leaderboard names
      dimension k and holds its leader and trailer. */
  lemma {:induction false} StatsLeaderboard(votes: seq<Vote>, k: nat)
    requires |votes| > 0 && StatsOf(votes).Ok? && k < |DimKeys|
    ensures var b := StatsOf(votes).value.dimensions;
      && |b| == 6
      && var e, d := b[k], DimKeys[k];
      && e.name == DimName(d)
      && (forall c :: DimAverage(votes, d, c) <= e.maxScore)
      && e.maxScore == DimAverage(votes, d, e.maxCandidate)
      && (forall c :: e.minScore <= DimAverage(votes, d, c))
      && e.minScore == DimAverage(votes, d, e.minCandidate)
      && (forall c :: CandIndex(c) < CandIndex(e.maxCandidate) ==> DimAverage(votes, d, c) < e.maxScore)
      && (forall c :: CandIndex(c) < CandIndex(e.minCandidate) ==> e.minScore < DimAverage(votes, d, c))
  {
    LeaderboardAt(votes, k);
    LeaderOfProperties(votes, DimKeys[k]);
  }

  /** With at least one vote, a (candidate, dimension) pair with no supplied
      score keeps the sentinel, and any other pair holds the largest and the
      smallest supplied score. */
  lemma {:induction false} ExtremesOfSupplied(votes: seq<Vote>, c: Cand, d: Dim)
    requires |votes| > 0
    ensures var t := ExtremeTable(votes);
      && |t| == 4 && |t[CandIndex(c)]| == 6
      && var e, col := t[CandIndex(c)][DimIndex(d)], Supplied(votes, d, c);
      && (e == Unset <==> col == [])
      && (e.Range? ==> e.min <= e.max && e.max in col && e.min in col &&
                       forall x :: x in col ==> e.min <= x <= e.max)
  {
    ExtremeCell(votes, c, d);
    RunningExtremeIsRange(Supplied(votes, d, c));
  }
}
