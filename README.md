# Live voting server: vote store and statistics engine

This project models the core of a small real-time voting server (`server.js`).
Voters submit scores for four candidates, `A` to `D`. They may also submit
optional scores for each candidate on six evaluation dimensions. The server
keeps the votes of the current round in memory. After every accepted vote it
recomputes a statistics snapshot and broadcasts it. A `/reset` route starts a
new round.

The snapshot (`processStats`) has five parts:

- `total`, the number of stored votes;
- a trimmed average per candidate: sort, drop one lowest and one highest
  score, average the rest; 0 with two scores or fewer;
- a 5×4 table of score bands (`<60`, `60-69`, `70-79`, `80-89`, `>=90`) with
  each candidate's share of votes per band, as percentages;
- a leaderboard per dimension: the candidates with the highest and the lowest
  average score, with ties going to the earliest candidate;
- the largest and smallest score each candidate got on each dimension.

With no votes, the snapshot takes an early-return path.

The Dafny modules follow the program's structure:

- `Wrappers`: `Option` and `Result`.
- `Ballot`: the candidates, the dimensions and their display names, a stored
  vote, a raw submission, and the validation rule of the `vote` handler.
- `SeqMath`: sums, extremes, exact means, and the ascending sort of a copy.
- `Aggregate`: the snapshot as pure functions of the vote sequence
  (`StatsOf`), with lemmas for the properties the snapshot promises.
- `Engine`: `processStats` the way the source computes it. Fresh tables
  (`array2`) are filled by loops over the votes and rewritten in place. Every
  step is proved to produce exactly the matching part of `StatsOf`, and
  `Engine.ProcessStats` is proved to return `StatsOf(votes)`.
- `Server`: the class `VoteServer`, which holds the module-level state
  `votes` and `currentVoteId`. It has the `vote` event (`Submit`), the
  `requestUpdate` event (`RequestUpdate`) and the `/reset` route (`Reset`).
  Lemmas over whole rounds of submissions (`Replay`) sit beside it.

Modelling choices:

- Scores are unbounded integers. Averages and percentages are exact reals, so
  no floating point is involved.
- A vote's dimension data is `Option<map<Dim, map<Cand, int>>>`. A missing
  dimension or candidate score is an absent key.
- The `-Infinity`/`Infinity` starting values of the extremes are the
  constructor `Extreme.Unset`. A pair becomes `Range(max, min)` once a score
  has been seen.
- Sorting, slicing and summing work on values, so the input sequence is never
  changed by computing its trimmed average. This mirrors the copy
  `[...scores]` at server.js:92.

Two behaviours of the code worth knowing:

- Missing `dimensions`. Validation accepts a vote without `dimensions`
  (server.js:224-232), and the vote is pushed (server.js:235). The next
  `processStats` then throws at `Object.entries(vote.dimensions)`
  (server.js:168), so the submitter gets `ERROR` (server.js:246-248). The
  vote stays stored, so every later snapshot fails the same way until the
  next reset. The model returns `Err(MissingDimensions)` from `StatsOf`.
  `Submit` stores the vote and acks `ERROR`. `RoundStatsFail` and
  `FailurePersists` prove the rest.
- Unscored pairs. With votes present, a (candidate, dimension) pair nobody
  scored keeps the `-Infinity`/`Infinity` starting values
  (server.js:117-120, 197-214). Only the zero-vote path rewrites them to 0
  (server.js:124-131). The model keeps `Unset` there
  (`ExtremesOfSupplied`).

## Model

| member | source | states |
|---|---|---|
| Ballot.Validate | server.js:224-238 | A submission is stored exactly when `candidates` is present and `A`–`D` are all numbers. The stored record carries the submitted scores and dimension data unchanged. |
| Ballot.DimNamesDistinct | server.js:67-74 | Distinct dimensions have distinct display names, so the names key the extremes without collisions. |
| SeqMath.MeanBetween | server.js:94-95 | The mean of a non-empty score list lies between its minimum and its maximum. |
| SeqMath.SortProperties | server.js:92 | The sorted copy is ascending, is a permutation of the input (same multiset) and has the same sum. |
| SeqMath.SortFirstIsMin | server.js:92-93 | The first element of the sorted copy is the minimum, which is the element `slice(1, -1)` drops at the front. |
| SeqMath.SortLastIsMax | server.js:92-93 | The last element of the sorted copy is the maximum, which is the element `slice(1, -1)` drops at the end. |
| Aggregate.Column | server.js:98-104 | A candidate's score list has one entry per vote, in vote order: entry i is vote i's score. |
| Aggregate.TrimmedAverageOfFew | server.js:91 | Two scores or fewer give exactly 0. |
| Aggregate.TrimmedAverageDropsOneOfEach | server.js:90-96 | With n ≥ 3 scores the trimmed average is (sum − min − max)/(n − 2). Exactly one instance of each extreme is dropped, whatever the ties. |
| Aggregate.TrimmedAverageBetweenExtremes | server.js:90-96 | With n ≥ 3 scores the trimmed average lies between the smallest and the largest score. |
| Aggregate.TrimmedAverageOfThree | server.js:90-96 | Three scores, in any order, trim to the middle one. |
| Aggregate.TrimmedAverageExamples | server.js:90-96 | `[10,50,90]` gives 50. `[55,59,60]` and `[55,60,59]` give 59. |
| Aggregate.Band | server.js:138-143 | Every score falls in exactly one band. Lower boundaries are inclusive and upper boundaries exclusive. |
| Aggregate.BandBoundaries | server.js:138-143 | 59 is in band 0, 60 and 69 in band 1, 70 in band 2, 89 in band 3, 90 in band 4. |
| Aggregate.BandCountsSum | server.js:135-146 | A candidate's five band counts add up to the number of votes. |
| Aggregate.PercentagesOfAPartition | server.js:150-155 | Counts that partition the total convert, by `count / total * 100`, to percentages that sum to exactly 100. |
| Aggregate.Distribution | server.js:80 | The distribution is always five bands by four candidates. |
| Aggregate.DistributionCell | server.js:149-155 | With votes present, cell (b, c) is the percentage of votes giving c a score in band b. |
| Aggregate.DistributionColumnSumsTo100 | server.js:134-155 | With votes present, each candidate's five percentages add up to 100 (before rounding). |
| Aggregate.SuppliedMembers | server.js:167-173 | A score is in the (dimension, candidate) list exactly when some vote supplied it for that pair. |
| Aggregate.DimAverageBounds | server.js:178-182 | A pair with no scores averages 0. Otherwise its average lies between its smallest and largest supplied score. |
| Aggregate.ArgMaxFirst | server.js:184 | The chosen index holds the largest value, and every earlier index holds a strictly smaller one (first wins). |
| Aggregate.ArgMinFirst | server.js:185 | The chosen index holds the smallest value, and every earlier index holds a strictly larger one (first wins). |
| Aggregate.EntryForProperties | server.js:175-194 | An entry names its dimension. `maxScore`/`minScore` are the averages of `maxCandidate`/`minCandidate`, which are ≥ / ≤ every candidate's average. Ties go to the earliest candidate in A..D order. |
| Aggregate.Leaderboard | server.js:175 | The leaderboard has one entry per dimension. |
| Aggregate.LeaderboardAt | server.js:158-176 | Entry k is the entry of the k-th dimension in the fixed order `analysis, plan, solve, reaction, speak, behave`. |
| Aggregate.LeaderOfProperties | server.js:175-194 | The same properties as EntryForProperties, stated over the supplied per-(dimension, candidate) averages of the votes. |
| Aggregate.RunningExtremeIsRange | server.js:117-120 | The running update leaves the sentinel exactly when there is no score. Otherwise it ends at the true maximum and minimum. |
| Aggregate.ExtremeCell | server.js:197-214 | With votes present, pair (c, d) of the extremes table is the running extreme of the scores supplied for it. |
| Aggregate.ExtremesOfSupplied | server.js:197-214 | With votes present, a pair keeps the sentinel exactly when nobody scored it. Otherwise `min ≤ max`, both are supplied scores, and every supplied score lies between them. |
| Aggregate.StatsOf | server.js:75-88 | `total` is the number of stored votes. The snapshot fails exactly when a stored vote has no dimension data. |
| Aggregate.EmptyStoreStats | server.js:124-132 | With no votes: total 0, all trimmed averages 0, the all-zero distribution never turned into percentages, an empty leaderboard, and every extreme `{max: 0, min: 0}`. |
| Aggregate.StatsDistributionSumsTo100 | server.js:134-155 | In any snapshot over votes, each candidate's band percentages add up to 100. |
| Aggregate.StatsLeaderboard | server.js:175-194 | In any snapshot over votes, entry k names dimension k. Its leader has the highest average and its trailer the lowest, with first-wins ties. |
| Engine.CollectCandidateScores | server.js:98-104 | The push loop builds each candidate's score list exactly. |
| Engine.CountVote | server.js:136-146 | One vote adds 1 to its band's cell in each candidate's column, and changes nothing else. |
| Engine.CountBands | server.js:135-147 | After the counting pass, each cell holds the band count of that candidate. |
| Engine.ToPercentages | server.js:149-155 | The in-place rewrite turns every count into its percentage of the votes. |
| Engine.PushDimensionScores | server.js:168-172 | One vote appends each of its supplied (dimension, candidate) scores to that pair's list and leaves the other lists as they were. |
| Engine.CollectDimensionScores | server.js:167-173 | The pass fails exactly when some vote has no dimension data. Otherwise every list holds the supplied scores in vote order. |
| Engine.ObserveVote | server.js:198-213 | One vote applies the running max/min update to every pair it scores. It skips a vote without dimension data, a missing dimension and a missing candidate score. |
| Engine.ComputeExtremes | server.js:197-214 | Starting from the sentinels, the pass over the votes leaves each pair at the running extreme of its supplied scores. |
| Engine.ZeroExtremes | server.js:124-131 | The empty-store rewrite sets every pair to `{max: 0, min: 0}`. |
| Engine.DistributionTable | server.js:134-155 | Counting and then rewriting in place yields exactly `Distribution(votes)`. |
| Engine.DimensionBoard | server.js:157-194 | Fails exactly when some vote has no dimension data. Otherwise yields exactly `Leaderboard(votes)`. |
| Engine.ExtremesTable | server.js:197-214 | The sentinel table updated vote by vote is exactly `ExtremeTable(votes)`. |
| Engine.EmptyStoreTables | server.js:124-132 | With no votes, the untouched distribution and the rewritten extremes are the snapshot's tables. |
| Engine.ProcessStats | server.js:75-217 | The imperative computation returns exactly `StatsOf(votes)`. |
| Server.AcceptKeepsStore | server.js:224-238 | A vote event never alters or drops a stored vote. It appends one record exactly when the submission is valid, and that record is the validated one. |
| Server.ReplayCountsAccepted | server.js:235-238 | After a round of submissions since the last reset, the store holds one vote per accepted submission, so `total` = k after k acceptances. |
| Server.ReplayLacksDimensions | server.js:167-168 | A stored vote lacks dimension data exactly when some accepted submission of the round came without it. |
| Server.RoundStatsFail | server.js:167-168 | A round's snapshot fails exactly when some accepted submission came without dimension data. |
| Server.FailurePersists | server.js:235-248 | Once the snapshot fails, it keeps failing whatever is submitted next. |
| Server.MissingDimensionsFails | server.js:235-248 | A valid submission without dimension data is stored and makes the snapshot fail. |
| Server.VoteServer.constructor | server.js:15-16 | The server starts with no votes, in round 1. |
| Server.VoteServer.Submit | server.js:221-249 | The store becomes `Accept(old store, data)` and the round is unchanged. A snapshot is broadcast exactly when the submission is valid and the snapshot can be computed, and it is `StatsOf` of the new store. The ack is OK exactly when a snapshot is broadcast. |
| Server.VoteServer.Publish | server.js:242-248 | The broadcast-and-acknowledge tail of the vote event: OK with the snapshot when `StatsOf` succeeds, ERROR and no broadcast when it fails. |
| Server.VoteServer.RequestUpdate | server.js:252-254 | The reply is `StatsOf` of the stored votes, and the store is left as it is. |
| Server.VoteServer.Reset | server.js:58-60 | The store is emptied and the round number goes up by one. |

## Left out

- HTTP plumbing is not modelled: Express setup, static files, the
  `/qrcode` route and `server.listen` (server.js:1-13, 18, 48-56, 257-265).
- QR code generation (`QRCode.toDataURL`) is a foreign library. `Reset`
  models only the state change, not the QR reply or the `reset` event.
- `getLocalIpAddress` and `getVoteUrl` read the OS network interfaces and the
  environment, so they are not modelled. The only link to the model is that
  the URL carries `vid=<currentVoteId>`, which is the field `Reset`
  increments.
- Socket.io connections and the `io.emit`/`socket.emit` fan-out are
  transport. A broadcast is the `Option<Stats>` that `Submit` returns, and
  the `requestUpdate` reply is `RequestUpdate`'s result.
- The optional `callback` of the vote event: the ack is always returned.
- `console.log`/`console.error` output is I/O and is not modelled.
- `toFixed(1)` is float-to-string rounding and is not modelled. Percentages
  and leaderboard scores stay exact reals. The empty-store distribution holds
  real zeros in place of the source's integer zeros.
- JavaScript's dynamic typing beyond the `typeof === 'number'` check is not
  modelled. Scores are integers, so NaN, Infinity and fractional scores
  cannot occur. A non-number choice is the single value `NotNumber`. The
  source never checks dimension scores: server.js:170 pushes any value, and
  a string would be concatenated by the sum at server.js:180. In the model
  they are integers. A missing `data` makes `data.candidates` throw
  (server.js:225), which also gives `ERROR`. The model covers that case as
  a submission with `candidates == None`.
- Unknown dimension or candidate keys cannot be expressed, because `Dim` and
  `Cand` are closed types. The source throws on them at server.js:170.
- A `dimensions` value that is present but not an object (`null`, a number)
  is not modelled: dimension data is either absent or a map.
- What happens after `requestUpdate` throws (an unhandled error in the socket
  handler) is not modelled. `RequestUpdate` returns the `Err` value.
- JavaScript's sort algorithm is replaced by insertion sort, which gives the
  same ascending sequence for a numeric comparator.
- The order of `Object.entries` inside a vote's dimension data is not
  modelled. Pushes are made in the fixed dimension and candidate order. This
  does not change any list, because every (dimension, candidate) list
  receives at most one score per vote, in vote order.
