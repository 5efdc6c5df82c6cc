# Glicko-2 rating bookkeeping of jlouis/rank, in Dafny

This project models the discrete bookkeeping around the Glicko-2 rating engine
of `jlouis/rank`. Ranked Quake duel players are rated round by round. Each
round is one tournament. The model covers these parts:

- the dense `[player][round]` match table and how matches are recorded in it;
- the per-evaluation reset of the players to a configuration;
- the round engine. It splits the players into chunks of 5000. Each player's
  scratch entry is computed from the ratings committed after the previous
  round. The scratch buffer is committed once the round is over;
- the prediction harness. It trains on every round but the last and scores
  the last round's matches, each counted once from the winner's duel;
- the projections of optimizer candidates into a box, and the map from a
  candidate vector to a configuration.

The Glicko-2 arithmetic is not modelled. It is floating-point and lives in an
external library. The player update (`player.Rank`) and the idle deviation
decay (`Scale`/`PhiStar`/`Unscale`) are the two function-valued fields of
`Types.RatingMath`. The per-match prediction score (`rateGame` of
`expectedScore`) is a function parameter `score`. All three take any value
the caller supplies, so every property below holds for every choice of them.
The type of the update says what the model assumes: it sees the player's own
triple, each opponent's (r, rd, sigma) with the game's outcome, and tau.
Ratings are Dafny `real`s.

The repository holds two revisions that cannot be compiled together:

- `rank.go` + `prediction.go`: modelled as `Engine`, `Tables` and `Prediction`;
- `main.go` + `math.go`: modelled as the sibling module `Driver`.

Both revisions define `clamp` the same way, so `Clamping` models both. The
two `constrain` functions differ and stay separate: `Prediction.Constrain` is
the 4-D one and `Driver.Constrain` the 2-D one.

Modules:

- `Types`: players, rating triples, duels, configurations, the table, and the
  external rating math.
- `Clamping`: `clamp`.
- `Engine`: `rankChunk`, the chunk loop of `rank`, and `closeRound`. There is
  a functional round function `Round`, its iteration `Run`, and an imperative
  `Rank` over arrays that is proved equal to `Run` for every chunk size.
- `Tables`: `addMatch`, `getOpponents`, `configPlayers` and `tourneyMatches`
  of `rank.go`.
- `Prediction`: `predictMatches`, `predict`, the 4-D `constrain` and
  `mkOptFun` of `prediction.go`.
- `Driver`: `addMatch`, `configPlayers`, the table built in `initialize`,
  the round skew of `readMatches`, the 2-D `constrain` and `mkOptFun` of
  `main.go`.

Representation choices:

- A Go `nil` duel list is the empty sequence. `addMatch` always appends right
  after allocating a list, so a non-nil empty list never arises. The `nil`
  test of `rankChunk` is therefore the test `|duels| == 0`.
- `tourneyMatches` sends pairs on a channel from a goroutine. It is modelled
  as the sequence of pairs in the order they are sent.
- Goroutines run the chunks of a round concurrently. The model runs them one
  after the other. `Engine.RunChunks` hands chunk `k` of `Engine.Chunks` to
  `Engine.RankChunk` at its `k`-th step. Four facts justify running them in
  sequence:
  - the chunks partition the players (`Engine.ChunksPartition`);
  - `Engine.RankChunk` writes scratch entries and active flags only inside
    its own range;
  - it never writes a rating triple;
  - each entry depends only on the committed triples and the player's own flag.
- With no match in the last round, `predictMatches` divides 0 by 0
  (prediction.go:40), which is NaN in Go. The model returns `Score.NaN`
  rather than excluding the case.

Behaviour at the edges of the code, which the model keeps:

- `rankChunk` clamps only the played branch (rank.go:73-75): r into
  [0,3000], rd into [0,400] and sigma into [0,0.1], with the lower bound 0
  included. The idle branches are not clamped (rank.go:59-67):
  - an idle active player's rd is whatever the decay returns;
  - an idle inactive player keeps the configured rd, which the 4-D
    projection lets reach 450 (prediction.go:52).

  `Engine.RunKeepsRAndSigmaInRange` therefore bounds r and sigma only.
- `predict` trains on every round but the last and scores every winning duel
  of the last round (prediction.go:43-48, rank.go:264-268). No player or
  match is filtered out, and the expected score is not clamped.

## Model

| member | source | states |
|---|---|---|
| Clamping.Clamp | math.go:7-15 | below `low` gives `low`; above `high` (and not below `low`) gives `high`; inside the interval gives the value itself. rank.go:44-52 is the same function |
| Clamping.ClampWithin | math.go:7-15 | with `low <= high` the result lies in [low, high] |
| Clamping.ClampIdentity | math.go:12-14 | a value already in [low, high] is returned unchanged |
| Clamping.ClampIdempotent | math.go:7-15 | clamping a clamped value changes nothing |
| Clamping.ClampMonotone | math.go:7-15 | `v1 <= v2` implies `clamp(v1) <= clamp(v2)` |
| Engine.ViewsReadRatingsOnly | rank.go:69 | player lists with the same triples give the same opponent views |
| Engine.RankPlayer | rank.go:56-76 | idle inactive: scratch is the current triple, stays inactive. Idle active: r and sigma kept, rd replaced by the unclamped decay. Played: scratch is the update clamped to r in [0,3000], rd in [0,400], sigma in [0,0.1]. Active afterwards iff active before or played |
| Engine.RankPlayerReadsRatingsOnly | rank.go:56-76 | a player's step depends only on its own triple and flag and the others' triples, not on ids or names |
| Engine.CloseRound | rank.go:110-116 | every player takes r, rd, sigma from its scratch entry; id, name and active are untouched |
| Engine.Round | rank.go:86-106 | after one round each player has the triple and flag of its own step, computed from the state before the round; ids and names are unchanged |
| Engine.Run | rank.go:81-107 | running rounds in order keeps length, ids and names, and never clears an active flag |
| Engine.RunExtend | rank.go:86-106 | round-prefix determinism: the state after rounds [ti, k+1) is one more round applied to the state after [ti, k) |
| Engine.RunSplit | rank.go:86-106 | running [ti, n) equals running [ti, k) and then [k, n) |
| Engine.RunActive | rank.go:70-72 | after a run a player is active iff it was before or had a duel in one of the rounds run |
| Engine.RunKeepsRAndSigmaInRange | rank.go:73-75 | if every r is in [0,3000] and sigma in [0,0.1] before a run, the same holds after it |
| Engine.RoundReadsStateOnly | rank.go:54-78 | two player lists with equal triples and flags produce equal triples and flags after a round |
| Engine.RunReadsStateOnly | rank.go:81-107 | the same holds for any number of rounds |
| Engine.RoundReadsOneColumn | rank.go:58 | round `ti` reads only column `ti` of the match table |
| Engine.RunReadsPrefixOnly | rank.go:86-106 | running rounds before `n` never reads a table cell of round `n` or later |
| Engine.Chunks | rank.go:87-95 | the chunks the loop of `rank` visits: each chunk starts where the previous one ended; the first starts at the first index and the last ends at `n`; there are none when there are no players |
| Engine.ChunksBounds | rank.go:88-94 | every chunk is non-empty, lies within [from, n) and is at most the chunk size long |
| Engine.ChunksOrdered | rank.go:87-95 | a later chunk lies entirely after an earlier one |
| Engine.ChunksCover | rank.go:87-95 | every player index lies in some chunk |
| Engine.ChunksAt | rank.go:87-95 | chunk `k` is [from + k·size, min(from + (k+1)·size, n)), the range the loop handles at its step `i = from + k·size` |
| Engine.ChunksCount | rank.go:87 | chunk `k` exists exactly when from + k·size is below `n`, the loop condition `i < len(ps)` |
| Engine.ChunksPartition | rank.go:87-95 | every player index lies in exactly one chunk |
| Engine.RankChunk | rank.go:54-78 | for each index in [lo, hi) the scratch entry and active flag are that player's step on the state before the call; nothing outside [lo, hi) changes; no rating triple is written |
| Engine.CommitScratch | rank.go:110-116 | the in-place commit yields exactly the functional `CloseRound` |
| Engine.RunChunks | rank.go:87-105 | the chunk loop of one round hands each chunk of `Chunks` to `RankChunk` once, in order; afterwards every scratch entry and active flag is the player's step on the state before the round |
| Engine.Rank | rank.go:81-107 | the array-based round loop (`RunChunks`, then the commit, per tournament) yields exactly `Run` over all rounds, for every positive chunk size |
| Tables.AddMatch | rank.go:178-191 | (loser, 1.0) is appended to the winner's list of round t and (winner, 0.0) to the loser's; a self-match gets both in order; every other cell and every shape is unchanged |
| Tables.AddMatchKeepsShape | rank.go:178-191 | recording a match between existing players keeps the table well formed and keeps its rounds |
| Tables.Opponents | rank.go:118-122 | the cell of player `p` in round `t`, which `Engine.StepAt` reads; in a well-formed table its duels name existing players |
| Tables.ConfigPlayers | rank.go:246-258 | same length, ids and names; every triple is the configuration's (r, rd, sigma) and every player is inactive |
| Tables.ConfigPlayersForgetsState | rank.go:246-258 | two player lists of equal length configure to the same triples and flags |
| Tables.ConfigPlayersTwice | rank.go:246-258 | configuring an already configured list is the same as configuring the original with the later configuration |
| Tables.CellWinsAppend | rank.go:265-268 | appending a duel emits its pair only when it is a win |
| Tables.CellWinsMembers | rank.go:265-268 | a cell emits exactly (pi, opponent) for its winning duels |
| Tables.WinsBelowMembers | rank.go:264-270 | the first `k` rows emit exactly the pairs (pi, opponent) of their winning duels |
| Tables.WinsBelowSorted | rank.go:264-270 | the first `k` rows emit pairs of players below `k` only, in player-index order |
| Tables.TourneyMatches | rank.go:260-274 | in a well-formed table both indices of every emitted pair name existing players |
| Tables.TourneyMatchesMembers | rank.go:264-268 | the emitted pairs are exactly (pi, opp.Idx) for the duels with outcome 1.0, in player-index order |
| Tables.CellPositionsSound | rank.go:265-268 | a cell's winning positions are winning duels of that player, strictly increasing, and the cell emits one pair per position, in that order |
| Tables.CellPositionsComplete | rank.go:265-268 | every winning duel of a cell has its position listed |
| Tables.WinPositionsSound | rank.go:264-270 | the winning positions of the first `k` rows name winning duels, and the round emits one pair per position, in that order |
| Tables.WinPositionsSorted | rank.go:264-270 | the winning positions are strictly increasing in (player, list index) order, so none appears twice |
| Tables.WinPositionsComplete | rank.go:264-270 | every winning duel of the first `k` rows has its position listed |
| Tables.TourneyMatchesListsEachWinOnce | rank.go:260-274 | the round's list has one entry per winning duel and no other: entry `i` is (pi, opp.Idx) of the `i`-th winning duel in player order, then duel-list order, so a pair recorded twice is listed twice |
| Tables.CellWinsAfterAddMatch | rank.go:178-191 | after a match is recorded, the winner's cell of its round emits (winner, loser) after its earlier pairs; every other cell emits exactly what it did |
| Tables.WinsBelowSameCells | rank.go:264-270 | rows whose cells emit the same pairs make the round emit the same list |
| Tables.WinsBelowGrows | rank.go:264-270 | when one player's cell emits one more pair at its end, the round's list gains that pair right after the pairs of the players up to that one, and nothing else changes |
| Tables.AddMatchAddsOnePair | rank.go:178-191 | recording a match adds exactly one (winner, loser) pair to its round's list and leaves every other round's list unchanged |
| Tables.WinsBelowColumn | rank.go:264-270 | the emitted pairs of round `u` depend only on column `u` |
| Prediction.Total | prediction.go:32-38 | the empty sum is 0 and a single pair contributes its own score; with `Prediction.TotalAppend` the sum is the sum of the per-pair scores |
| Prediction.PredictMatches | prediction.go:31-41 | NaN exactly when there is no pair; otherwise the mean times the pair count is the sum of the per-pair scores |
| Prediction.TotalWithin | prediction.go:34-38 | if every pair scores in [lo, hi], the sum lies between `lo` and `hi` times the pair count |
| Prediction.MeanWithin | prediction.go:31-41 | if every pair scores in [lo, hi], so does the mean |
| Prediction.TotalAppend | prediction.go:34-38 | the sum over a concatenation is the sum of the two sums |
| Prediction.TotalRemove | prediction.go:34-38 | taking one pair out of a list takes its score out of the sum |
| Prediction.TotalPermutation | prediction.go:34-38 | the sum does not depend on the order of the pairs |
| Prediction.PredictMatchesOrderFree | prediction.go:31-41 | the mean does not depend on the order in which the pairs are sent |
| Prediction.TotalReadsRatingsOnly | prediction.go:35 | the scoring reads only the players' triples |
| Prediction.Predict | prediction.go:43-48 | with at least one round, training runs the engine on all rounds but the last, and the result is the mean score over the last round's emitted pairs against the trained triples |
| Prediction.TrainingSkipsLastRound | prediction.go:46 | the trained triples do not depend on the last round's matches |
| Prediction.Constrain | prediction.go:50-55 | v[0] in [1200,2500], v[1] in [50,450], v[2] in [0.04,0.1], v[3] in [0.1,1.5], each the clamp of the input; further coordinates untouched; a point already inside is unchanged |
| Prediction.ConstrainIdempotent | prediction.go:50-55 | projecting twice is projecting once |
| Prediction.OptConf | prediction.go:59 | the configuration is (v[0], v[1], v[2], v[3]) as (r, rd, sigma, tau) |
| Prediction.OptConfOfConstrained | prediction.go:59 | a projected vector maps to a configuration inside the box; a point already inside maps to Conf{v[0], v[1], v[2], v[3]} |
| Prediction.Objective | prediction.go:57-62 | the objective at `v` is the prediction score of a fresh configured copy of the base players under Conf{v[0], v[1], v[2], v[3]} |
| Prediction.EvaluationIgnoresBaseState | prediction.go:60-61 | the base players' triples and flags never reach an evaluation, so the objective is the same between evaluations |
| Prediction.ConstrainAsWritten | prediction.go:50-55 | on a slice shorter than four the projection panics at index \|v\|, the first coordinate it lacks; otherwise it is `Constrain` |
| Prediction.OptConfAsWritten | prediction.go:59 | on a slice shorter than four the objective's configuration panics at index \|v\|; otherwise it is (v[0], v[1], v[2], v[3]) |
| Prediction.StartPointsPanic | rank.go:288-294 | each of the three 2-element start points panics both the 4-D projection and the 4-D objective at index 2 |
| Driver.AddMatch | main.go:114-127 | (loser, 1.0) is appended to the winner's list and (winner, 0.0) to the loser's; every other cell is unchanged |
| Driver.ConfigPlayers | main.go:232-244 | same length, ids and names; triples from the configuration; every player inactive |
| Driver.NewTable | main.go:219-222 | one row per player, one empty cell per tournament |
| Driver.NewTableHasNoMatches | main.go:219-222 | a fresh table emits no pair in any round |
| Driver.NoWinsBelow | main.go:219-222 | rows whose cells of a round are empty emit no pair for it |
| Driver.ReadMatches | main.go:143-150 | the matches of tournament `k` go to round `k - 1`; the table keeps its shape and every other round is unchanged |
| Driver.ReadMatchesListsEachMatchOnce | main.go:143-150 | after loading, round `k - 1` lists exactly its earlier pairs plus each loaded (winner, loser) pair once |
| Driver.LoadOneMore | main.go:143-150 | loading one more row adds its (winner, loser) pair once to the round's list |
| Driver.ReadMatchesSnoc | main.go:143-150 | rows are stored in the order they are read: loading one more row is one more `addMatch` on the table loaded so far, in round `k - 1` |
| Driver.FreshTableListsExactlyTheMatches | main.go:149 | on a fresh table, round `k - 1` lists exactly the loaded pairs, as a multiset |
| Driver.Constrain | main.go:247-250 | v[0] in [50,450] and v[1] in [0.1,1.5], each the clamp of the input; further coordinates untouched; a point already inside is unchanged |
| Driver.ConstrainIdempotent | main.go:247-250 | projecting twice is projecting once |
| Driver.OptConf | main.go:255 | r is 1200, sigma 0.06, and (rd, tau) is (v[0], v[1]) |
| Driver.OptConfOfConstrained | main.go:255 | r is 1200 and sigma 0.06; rd and tau come from the projected vector, so they lie in the box |
| Driver.ObjectiveIgnoresBaseRatings | main.go:253-258 | base player lists with the same ids and names give the same objective, whatever the prediction run does |
| Driver.Objective | main.go:253-258 | the objective at `v` is the prediction run on a fresh configured copy of the base players under (1200, v[0], 0.06, v[1]) |
| Driver.StartPointsInBox | main.go:307-315 | each of the three start points has the two coordinates the 2-D projection and objective read, lies in the box, is left alone by the projection and evaluates under (1200, rd, 0.06, tau) |

## Left out

- Glicko-2 numerics (`player.Rank`, `Scale`/`PhiStar`/`Unscale`, `expectedG`, `expectedScore`, `rateGame`): floating-point code in external libraries. They are the parameters `RatingMath` and `score`.
- Engine.RankPlayer: says nothing about how the decayed rd compares with the old one, because the decay is an uninterpreted parameter.
- Engine.RunKeepsRAndSigmaInRange: bounds r and sigma only. The code does not clamp rd on idle rounds, so no rd bound holds.
- Engine.RunKeepsRAndSigmaInRange: holds only when every update result is a number. `clamp` (math.go:7-15) compares with `<` and `>`, and both are false for NaN, so a NaN coordinate from `player.Rank` passes through unclamped. Ratings here are reals, which have no NaN.
- Engine.RankPlayer: its bounds on the played branch hold only for non-NaN update results, for the same reason (rank.go:73-75, math.go:8-14).
- Clamping.ClampWithin: holds only for non-NaN inputs. In Go, `clamp(low, NaN, high)` returns NaN (math.go:8-14).
- Prediction.Constrain: requires at least four coordinates. On a shorter slice the Go code panics at its first missing index (prediction.go:51-54, line 53 for a 2-element slice), and its only caller passes the 2-element start points of rank.go:289-292. `Prediction.ConstrainAsWritten` and `Prediction.OptConfAsWritten` model that panic as a result; see Findings.
- Prediction.OptConf and Prediction.Objective: require at least four coordinates for the same reason. The closure panics at prediction.go:59 on the start points of rank.go:289-292.
- Driver.ReadMatches: takes the tournament's position `k` (1-based) where the Go code takes its database id (main.go:130, 149). The two agree only when the ids are 1..len(ts) in `t_from` order (main.go:156). Otherwise a round's matches are filed under another round (main.go:224-226), and an id of 0 or above len(ts) makes `matches[wi][t-1]` index out of range and panic (main.go:118, 121). The model does not represent ids.
- Nelder-Mead search (`nmoptim.Optimize`): an external library. Only the objective and the projections are modelled.
- Database access and start-up (`dbConnect`, `readTournaments`, `getTournaments`, `getPlayers`, `getMatches`, `initialize`, `setup`, `main`, flags, profiling): SQL and process I/O. `Driver.ReadMatches` models only how one tournament's rows are stored.
- Id-to-index resolution through Go maps (main.go:115-116, rank.go:179-180): an unknown id silently becomes index 0. The model works on indices and requires them to be in range.
- write.go: a CSV writer goroutine, which is file I/O and concurrency.
- Goroutines and `sync.WaitGroup` of `rank`: chunks run one after the other. `Engine.RankChunk`'s frame contract justifies this.
- The channel and goroutine of `tourneyMatches`: modelled as a sequence in send order.
- Logging of `topPlayers`, and the `duel` accessor methods of main.go (main.go:87-101), which read a global player list.
- `run` and `runPredict` of the main.go revision are not part of this model. `Driver.Objective` takes the prediction run as a parameter.
- Prediction.Predict: requires at least one tournament. With none, the Go slice `ts[0:n-1]` panics.
- The float64 semantics of the sum and mean in `predictMatches` are not modelled. The sum is exact over reals, which is why `Prediction.TotalPermutation` holds exactly.

## Findings

| source | as written | input that shows it | evidently intended | confidence | as-written member | corrected member |
|---|---|---|---|---|---|---|
| rank.go:289-294 | the optimiser starts from 2-element points, but its projection `constrain` and objective `mkOptFun` read four coordinates (prediction.go:50-62) | the start point {350.0, 0.5}: `v[2]` is out of range at prediction.go:53 and :59 | start points with one coordinate per dimension the projection and objective read, as in the 2-D pair of main.go:247-258 and its start points at main.go:309-312 | medium, not executed | Prediction.ConstrainAsWritten, Prediction.OptConfAsWritten, Prediction.StartPointsPanic | Driver.StartPointsInBox, Driver.Constrain, Driver.OptConf |
