/** `processStats` as the source computes it: fresh tables filled by loops over
    the votes and rewritten in place, proved to yield exactly the snapshot
    `Aggregate.StatsOf` describes. */
module Engine {
  import opened Wrappers
  import opened Ballot
  import opened SeqMath
  import opened Aggregate

  /** The contents of a two-dimensional array, row by row. */
  function Grid<T>(t: array2<T>): (g: seq<seq<T>>)
    reads t
    ensures |g| == t.Length0
    ensures forall i :: 0 <= i < t.Length0 ==> |g[i]| == t.Length1
    ensures forall i, j :: 0 <= i < t.Length0 && 0 <= j < t.Length1 ==> g[i][j] == t[i, j]
  {
    seq(t.Length0, i requires 0 <= i < t.Length0 reads t =>
      seq(t.Length1, j requires 0 <= j < t.Length1 reads t => t[i, j]))
  }

  /** The `candidateScores` loop: one push per vote onto each candidate's
      list. */
  method CollectCandidateScores(votes: seq<Vote>) returns (cols: seq<seq<int>>)
    ensures |cols| == 4
    ensures forall j :: 0 <= j < 4 ==> cols[j] == Column(votes, Cands[j])
  {
    var a, b, c, d := [], [], [], [];
    for i := 0 to |votes|
      invariant a == Column(votes[..i], A) && b == Column(votes[..i], B)
      invariant c == Column(votes[..i], C) && d == Column(votes[..i], D)
    {
      assert votes[..i + 1][..i] == votes[..i];
      var v := votes[i].candidates;
      a, b, c, d := a + [v.a], b + [v.b], c + [v.c], d + [v.d];
    }
    assert votes[..|votes|] == votes;
    cols := [a, b, c, d];
  }

  lemma {:induction false} BandCountStep(votes: seq<Vote>, i: nat, c: Cand, b: nat)
    requires i < |votes|
    ensures BandCount(Column(votes[..i + 1], c), b)
         == BandCount(Column(votes[..i], c), b) + (if Band(votes[i].candidates.Get(c)) == b then 1 else 0)
  {
    assert votes[..i + 1][..i] == votes[..i];
    var col := Column(votes[..i + 1], c);
    assert col[..i] == Column(votes[..i], c);
  }

  lemma {:induction false} BandCountsStep(votes: seq<Vote>, i: nat)
    requires i < |votes|
    ensures forall b, j :: 0 <= b < 5 && 0 <= j < 4 ==>
              (BandCount(Column(votes[..i + 1], Cands[j]), b) as real
               == BandCount(Column(votes[..i], Cands[j]), b) as real
                  + (if Band(votes[i].candidates.Get(Cands[j])) == b then 1.0 else 0.0))
  {
    forall b, j | 0 <= b < 5 && 0 <= j < 4 {
      BandCountStep(votes, i, Cands[j], b);
    }
  }

  /** One vote's increments: `distribution[binIndex][index]++` for each
      candidate. */
  method CountVote(table: array2<real>, scores: Scores)
    requires table.Length0 == 5 && table.Length1 == 4
    modifies table
    ensures forall b, j :: 0 <= b < 5 && 0 <= j < 4 ==>
              table[b, j] == old(table[b, j]) + (if Band(scores.Get(Cands[j])) == b then 1.0 else 0.0)
  {
    for j := 0 to 4
      invariant forall b, j' :: 0 <= b < 5 && 0 <= j' < 4 ==>
                  table[b, j'] == old(table[b, j'])
                                  + (if j' < j && Band(scores.Get(Cands[j'])) == b then 1.0 else 0.0)
    {
      var bin := Band(scores.Get(Cands[j]));
      table[bin, j] := table[bin, j] + 1.0;
    }
  }

  /** The counting pass over all votes. */
  method CountBands(votes: seq<Vote>, table: array2<real>)
    requires table.Length0 == 5 && table.Length1 == 4
    requires forall b, j :: 0 <= b < 5 && 0 <= j < 4 ==> table[b, j] == 0.0
    modifies table
    ensures forall b, j :: 0 <= b < 5 && 0 <= j < 4 ==>
              table[b, j] == BandCount(Column(votes, Cands[j]), b) as real
  {
    for i := 0 to |votes|
      invariant forall b, j :: 0 <= b < 5 && 0 <= j < 4 ==>
                  table[b, j] == BandCount(Column(votes[..i], Cands[j]), b) as real
    {
      CountVote(table, votes[i].candidates);
      BandCountsStep(votes, i);
    }
    assert votes[..|votes|] == votes;
  }

  /** The in-place rewrite of every count as `(cell / totalVotes) * 100`. */
  method ToPercentages(votes: seq<Vote>, table: array2<real>)
    requires table.Length0 == 5 && table.Length1 == 4 && |votes| > 0
    requires forall b, j :: 0 <= b < 5 && 0 <= j < 4 ==>
               table[b, j] == BandCount(Column(votes, Cands[j]), b) as real
    modifies table
    ensures forall b, j :: 0 <= b < 5 && 0 <= j < 4 ==>
              table[b, j] == Percent(BandCount(Column(votes, Cands[j]), b), |votes|)
  {
    var totalVotes := |votes|;
    for b := 0 to 5
      invariant forall b', j :: 0 <= b' < 5 && 0 <= j < 4 ==>
                  table[b', j] == if b' < b then Percent(BandCount(Column(votes, Cands[j]), b'), totalVotes)
                                  else BandCount(Column(votes, Cands[j]), b') as real
    {
      for j := 0 to 4
        invariant forall b', j' :: 0 <= b' < 5 && 0 <= j' < 4 ==>
                    table[b', j'] == if b' < b || (b' == b && j' < j)
                                     then Percent(BandCount(Column(votes, Cands[j']), b'), totalVotes)
                                     else BandCount(Column(votes, Cands[j']), b') as real
      {
        PercentOfCount(BandCount(Column(votes, Cands[j]), b), totalVotes);
        table[b, j] := (table[b, j] / totalVotes as real) * 100.0;
      }
    }
  }

  /** One vote's pushes into `dimensionCandidateScores`: every supplied
      (dimension, candidate) score is appended to its list. */
  method PushDimensionScores(t: array2<seq<int>>, m: DimScores)
    requires t.Length0 == 6 && t.Length1 == 4
    modifies t
    ensures forall k, j :: 0 <= k < 6 && 0 <= j < 4 ==>
              t[k, j] == old(t[k, j]) + Listed(Entry(m, DimKeys[k], Cands[j]))
  {
    for k := 0 to 6
      invariant forall k', j :: 0 <= k' < 6 && 0 <= j < 4 ==>
                  t[k', j] == if k' < k then old(t[k', j]) + Listed(Entry(m, DimKeys[k'], Cands[j]))
                              else old(t[k', j])
    {
      var dim := DimKeys[k];
      if dim in m {
        var row := m[dim];
        for j := 0 to 4
          invariant forall k', j' :: 0 <= k' < 6 && 0 <= j' < 4 ==>
                      t[k', j'] == if k' < k || (k' == k && j' < j)
                                   then old(t[k', j']) + Listed(Entry(m, DimKeys[k'], Cands[j']))
                                   else old(t[k', j'])
        {
          var cand := Cands[j];
          if cand in row {
            t[k, j] := t[k, j] + [row[cand]];
          } else {
            assert t[k, j] + Listed(Entry(m, dim, cand)) == t[k, j];
          }
        }
      } else {
        forall j | 0 <= j < 4
          ensures t[k, j] + Listed(Entry(m, dim, Cands[j])) == t[k, j]
        {
          assert Listed(Entry(m, dim, Cands[j])) == [];
        }
      }
    }
  }

  lemma {:induction false} SuppliedStep(votes: seq<Vote>, i: nat, d: Dim, c: Cand)
    requires i < |votes|
    ensures Supplied(votes[..i + 1], d, c) == Supplied(votes[..i], d, c) + Listed(ScoreAt(votes[i], d, c))
  {
    assert votes[..i + 1][..i] == votes[..i];
  }

  /** The `dimensionCandidateScores` loop. It fails, like
      `Object.entries(vote.dimensions)`, at a vote without dimension data;
      otherwise every list holds the supplied scores in vote order. */
  method CollectDimensionScores(votes: seq<Vote>, t: array2<seq<int>>) returns (ok: bool)
    requires t.Length0 == 6 && t.Length1 == 4
    requires forall k, j :: 0 <= k < 6 && 0 <= j < 4 ==> t[k, j] == []
    modifies t
    ensures ok <==> !SomeVoteLacksDimensions(votes)
    ensures ok ==> forall k, j :: 0 <= k < 6 && 0 <= j < 4 ==>
                     t[k, j] == Supplied(votes, DimKeys[k], Cands[j])
  {
    for i := 0 to |votes|
      invariant forall i' :: 0 <= i' < i ==> votes[i'].dimensions.Some?
      invariant forall k, j :: 0 <= k < 6 && 0 <= j < 4 ==>
                  t[k, j] == Supplied(votes[..i], DimKeys[k], Cands[j])
    {
      match votes[i].dimensions
      case None =>
        return false;
      case Some(m) =>
        PushDimensionScores(t, m);
        forall k, j | 0 <= k < 6 && 0 <= j < 4
          ensures t[k, j] == Supplied(votes[..i + 1], DimKeys[k], Cands[j])
        {
          SuppliedStep(votes, i, DimKeys[k], Cands[j]);
        }
    }
    assert votes[..|votes|] == votes;
    return true;
  }

  /** One vote's running updates of `candidateExtremes`: a vote without
      dimension data, a missing dimension and a missing candidate score are
      skipped. */
  method ObserveVote(ext: array2<Extreme>, v: Vote)
    requires ext.Length0 == 4 && ext.Length1 == 6
    modifies ext
    ensures forall j, k :: 0 <= j < 4 && 0 <= k < 6 ==>
              ext[j, k] == ObserveOpt(old(ext[j, k]), ScoreAt(v, DimKeys[k], Cands[j]))
  {
    if v.dimensions.None? {
      return;
    }
    var m := v.dimensions.value;
    for k := 0 to 6
      invariant forall j, k' :: 0 <= j < 4 && 0 <= k' < 6 ==>
                  ext[j, k'] == if k' < k then ObserveOpt(old(ext[j, k']), ScoreAt(v, DimKeys[k'], Cands[j]))
                                else old(ext[j, k'])
    {
      var dim := DimKeys[k];
      if dim in m {
        var scores := m[dim];
        for j := 0 to 4
          invariant forall j', k' :: 0 <= j' < 4 && 0 <= k' < 6 ==>
                      ext[j', k'] == if k' < k || (k' == k && j' < j)
                                     then ObserveOpt(old(ext[j', k']), ScoreAt(v, DimKeys[k'], Cands[j']))
                                     else old(ext[j', k'])
        {
          var cand := Cands[j];
          if cand in scores {
            var score := scores[cand];
            match ext[j, k]
            case Unset =>
              ext[j, k] := Range(score, score);
            case Range(hi, lo) =>
              if score > hi { hi := score; }
              if score < lo { lo := score; }
              ext[j, k] := Range(hi, lo);
          }
        }
      }
    }
  }

  lemma {:induction false} RunningExtremeStep(votes: seq<Vote>, i: nat, d: Dim, c: Cand)
    requires i < |votes|
    ensures RunningExtreme(Supplied(votes[..i + 1], d, c))
         == ObserveOpt(RunningExtreme(Supplied(votes[..i], d, c)), ScoreAt(votes[i], d, c))
  {
    SuppliedStep(votes, i, d, c);
    var col := Supplied(votes[..i], d, c);
    match ScoreAt(votes[i], d, c)
    case None =>
      assert col + [] == col;
    case Some(s) =>
      assert (col + [s])[..|col|] == col;
  }

  /** The extremes pass over all votes, starting from the sentinels. */
  method ComputeExtremes(votes: seq<Vote>, ext: array2<Extreme>)
    requires ext.Length0 == 4 && ext.Length1 == 6
    requires forall j, k :: 0 <= j < 4 && 0 <= k < 6 ==> ext[j, k] == Unset
    modifies ext
    ensures forall j, k :: 0 <= j < 4 && 0 <= k < 6 ==>
              ext[j, k] == RunningExtreme(Supplied(votes, DimKeys[k], Cands[j]))
  {
    for i := 0 to |votes|
      invariant forall j, k :: 0 <= j < 4 && 0 <= k < 6 ==>
                  ext[j, k] == RunningExtreme(Supplied(votes[..i], DimKeys[k], Cands[j]))
    {
      ObserveVote(ext, votes[i]);
      forall j, k | 0 <= j < 4 && 0 <= k < 6
        ensures ext[j, k] == RunningExtreme(Supplied(votes[..i + 1], DimKeys[k], Cands[j]))
      {
        RunningExtremeStep(votes, i, DimKeys[k], Cands[j]);
      }
    }
    assert votes[..|votes|] == votes;
  }

  /** The empty-store rewrite of every pair to `{max: 0, min: 0}`. */
  method ZeroExtremes(ext: array2<Extreme>)
    requires ext.Length0 == 4 && ext.Length1 == 6
    modifies ext
    ensures forall j, k :: 0 <= j < 4 && 0 <= k < 6 ==> ext[j, k] == Range(0, 0)
  {
    for k := 0 to 6
      invariant forall j, k' :: 0 <= j < 4 && 0 <= k' < k ==> ext[j, k'] == Range(0, 0)
    {
      for j := 0 to 4
        invariant forall j', k' :: 0 <= j' < 4 && 0 <= k' < 6 && (k' < k || (k' == k && j' < j)) ==>
                    ext[j', k'] == Range(0, 0)
      {
        ext[j, k] := Range(0, 0);
      }
    }
  }

  lemma PercentOfCount(count: nat, total: nat)
    requires total > 0
    ensures Percent(count, total) == (count as real / total as real) * 100.0
  {
  }

  lemma {:induction false} DistributionRowFromCells(votes: seq<Vote>, b: nat, row: seq<real>)
    requires |votes| > 0 && b < 5 && |row| == 4
    requires forall j :: 0 <= j < 4 ==> row[j] == Percent(BandCount(Column(votes, Cands[j]), b), |votes|)
    ensures row == Distribution(votes)[b]
  {
  }

  lemma {:induction false} DistributionFromCells(votes: seq<Vote>, g: seq<seq<real>>)
    requires |votes| > 0
    requires |g| == 5 && forall b :: 0 <= b < 5 ==> |g[b]| == 4
    requires forall b, j :: 0 <= b < 5 && 0 <= j < 4 ==>
               g[b][j] == Percent(BandCount(Column(votes, Cands[j]), b), |votes|)
    ensures g == Distribution(votes)
  {
    var spec := Distribution(votes);
    forall b | 0 <= b < 5
      ensures g[b] == spec[b]
    {
      DistributionRowFromCells(votes, b, g[b]);
    }
  }

  lemma {:induction false} ExtremeRowFromCells(votes: seq<Vote>, j: nat, row: seq<Extreme>)
    requires |votes| > 0 && j < 4 && |row| == 6
    requires forall k :: 0 <= k < 6 ==> row[k] == RunningExtreme(Supplied(votes, DimKeys[k], Cands[j]))
    ensures row == ExtremeTable(votes)[j]
  {
  }

  lemma {:induction false} ExtremesFromCells(votes: seq<Vote>, g: seq<seq<Extreme>>)
    requires |votes| > 0
    requires |g| == 4 && forall j :: 0 <= j < 4 ==> |g[j]| == 6
    requires forall j, k :: 0 <= j < 4 && 0 <= k < 6 ==>
               g[j][k] == RunningExtreme(Supplied(votes, DimKeys[k], Cands[j]))
    ensures g == ExtremeTable(votes)
  {
    var spec := ExtremeTable(votes);
    forall j | 0 <= j < 4
      ensures g[j] == spec[j]
    {
      ExtremeRowFromCells(votes, j, g[j]);
    }
  }

  lemma {:induction false} EmptyTables(g: seq<seq<real>>, e: seq<seq<Extreme>>)
    requires |g| == 5 && forall b :: 0 <= b < 5 ==> |g[b]| == 4
    requires forall b, j :: 0 <= b < 5 && 0 <= j < 4 ==> g[b][j] == 0.0
    requires |e| == 4 && forall j :: 0 <= j < 4 ==> |e[j]| == 6
    requires forall j, k :: 0 <= j < 4 && 0 <= k < 6 ==> e[j][k] == Range(0, 0)
    ensures g == ZeroDistribution() && e == ExtremeTable([])
  {
    var z, x := ZeroDistribution(), ExtremeTable([]);
    forall b | 0 <= b < 5
      ensures g[b] == z[b]
    {
    }
    forall j | 0 <= j < 4
      ensures e[j] == x[j]
    {
    }
  }

  lemma {:induction false} LeaderboardFromLists(votes: seq<Vote>, lists: seq<seq<seq<int>>>)
    requires |lists| == 6 && forall k :: 0 <= k < 6 ==> |lists[k]| == 4
    requires forall k, j :: 0 <= k < 6 && 0 <= j < 4 ==> lists[k][j] == Supplied(votes, DimKeys[k], Cands[j])
    ensures seq(6, k requires 0 <= k < 6 => EntryFor(DimKeys[k], lists[k])) == Leaderboard(votes)
  {
    var board := seq(6, k requires 0 <= k < 6 => EntryFor(DimKeys[k], lists[k]));
    forall k | 0 <= k < 6
      ensures board[k] == Leaderboard(votes)[k]
    {
      assert lists[k] == SuppliedLists(votes, DimKeys[k]);
      LeaderboardAt(votes, k);
    }
  }

  /** Step 4 of `processStats`: the band counts, rewritten in place as
      percentages. */
  method DistributionTable(votes: seq<Vote>) returns (g: seq<seq<real>>)
    requires |votes| > 0
    ensures g == Distribution(votes)
  {
    var distribution := new real[5, 4]((b, j) => 0.0);
    CountBands(votes, distribution);
    ToPercentages(votes, distribution);
    g := Grid(distribution);
    DistributionFromCells(votes, g);
  }

  /** Step 5: the per-(dimension, candidate) lists, then one leaderboard
      entry per dimension; `None` where the source throws. */
  method DimensionBoard(votes: seq<Vote>) returns (board: Option<seq<DimEntry>>)
    ensures board.None? <==> SomeVoteLacksDimensions(votes)
    ensures board.Some? ==> board.value == Leaderboard(votes)
  {
    var dimensionScores := new seq<int>[6, 4]((k, j) => []);
    var ok := CollectDimensionScores(votes, dimensionScores);
    if !ok {
      return None;
    }
    var lists := Grid(dimensionScores);
    LeaderboardFromLists(votes, lists);
    board := Some(seq(6, k requires 0 <= k < 6 => EntryFor(DimKeys[k], lists[k])));
  }

  /** Steps 2 and 6: the sentinel table, updated vote by vote. */
  method ExtremesTable(votes: seq<Vote>) returns (g: seq<seq<Extreme>>)
    requires |votes| > 0
    ensures g == ExtremeTable(votes)
  {
    var extremes := new Extreme[4, 6]((j, k) => Unset);
    ComputeExtremes(votes, extremes);
    g := Grid(extremes);
    ExtremesFromCells(votes, g);
  }

  /** Steps 2 and 3 with no votes: the sentinel table rewritten to
      `{max: 0, min: 0}`, and the distribution left at zero. */
  method EmptyStoreTables() returns (g: seq<seq<real>>, e: seq<seq<Extreme>>)
    ensures g == Distribution([]) && e == ExtremeTable([])
  {
    var distribution := new real[5, 4]((b, j) => 0.0);
    var extremes := new Extreme[4, 6]((j, k) => Unset);
    ZeroExtremes(extremes);
    g, e := Grid(distribution), Grid(extremes);
    EmptyTables(g, e);
  }

  /** `processStats` over the stored votes: the snapshot, or the failure the
      source throws on a stored vote without dimension data. */
  method ProcessStats(votes: seq<Vote>) returns (r: Result<Stats, StatsError>)
    ensures r == StatsOf(votes)
  {
    var total := |votes|;
    var cols := CollectCandidateScores(votes);
    var trimmed := [TrimmedAverage(cols[0]), TrimmedAverage(cols[1]),
                    TrimmedAverage(cols[2]), TrimmedAverage(cols[3])];
    assert trimmed == TrimmedAverages(votes);
    if total == 0 {
      var distribution, extremes := EmptyStoreTables();
      return Ok(Stats(0, trimmed, distribution, [], extremes));
    }
    var distribution := DistributionTable(votes);
    var board := DimensionBoard(votes);
    if board.None? {
      return Err(MissingDimensions);
    }
    var extremes := ExtremesTable(votes);
    r := Ok(Stats(total, trimmed, distribution, board.value, extremes));
  }
}
