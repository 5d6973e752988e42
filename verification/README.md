# World-Cup prediction pool: scoring and control entry, in Dafny

This project models the bookkeeping core of a World-Cup prediction pool ("bolão").
Participants guess the scorelines of the 48 group matches and the 16 knockout matches.
The pool compares every entry with the official results and ranks the participants.
A synthetic "Macaco" control entry is generated from random draws.

- `optional.dfy` (module `Optional`): the `Option` type. It stands for a goal-count cell that may be empty, and for a scoring run that fails.
- `scoring.dfy` (module `Scoring`): `wtl`, `points_from_match`, `points_from_stage_1` and the `points_from_stage_2` stub.
- `cleaning.dfy` (module `Cleaning`): `clean`, which removes the placeholder strings `'nan'` and `'<NA>'`.
- `standings.dfy` (module `Standings`): the ranking part of `evaluate`. It scores each alias, sorts by Total (descending) and numbers the positions.
- `macaco.dfy` (module `Macaco`): the spreadsheet cell list `CELLS`, `convert_winners_to_goals` and `macaco`, with the random draws passed in as inputs.

Modelling decisions:
- A missing goal count is `None`. A result row counts as played when its second goal count is present; the code checks only that value.
- A played row still needs its other three goal counts. Comparing a missing count fails, so the whole run fails, and the model returns `None`. This follows pandas' nullable-integer semantics, where a comparison with a missing value cannot be used as a condition.
- Like `zip`, stage scoring pairs rows only up to the shorter table.
- Stage 2 is what the code computes: the stage-1 rule applied to the 16 knockout rows (code/process_results.py:133). `points_from_stage_2` is a stub and the code has no other knockout scoring, so a knockout table scored against itself gives 160.
- Standings ties get distinct consecutive positions, as the code assigns them. The model does not promise an order among equal totals; `Evaluate` states only that totals are non-increasing and that the rows are a permutation of the per-alias rows. The alias list is not pre-sorted in the code, and the model does not sort it either.

## Model

| member | source | states |
|---|---|---|
| `Scoring.Wtl` | code/process_results.py:59-68 | The result is Win iff g1 > g2, Loss iff g1 < g2 and Tie iff they are equal, so exactly one case applies |
| `Scoring.WtlSwap` | code/process_results.py:63-68 | Swapping the goal counts mirrors the outcome: Win iff the swap is Loss, and Tie is kept |
| `Scoring.PointsFromMatch` | code/process_results.py:70-83 | The accumulated points equal the match rule: 0 for a wrong outcome, otherwise 6 plus 2 for each exact goal count |
| `Scoring.MatchPointsValues` | code/process_results.py:76-82 | A match scores 0, 6, 8 or 10 and never more than 10. It scores 0 iff the outcome is wrong, at least 6 iff it is right, and 10 iff the guess equals the result |
| `Scoring.PointsFromStage1` | code/process_results.py:85-95 | The loop's total equals the stage score over the `zip`-paired rows. Unplayed rows are skipped, and a played row with a missing count fails the run |
| `Scoring.StagePrefixFails` | code/process_results.py:92-94 | Scoring fails iff some paired row is played (second result count present) but lacks another goal count |
| `Scoring.StagePrefixBound` | code/process_results.py:91-95 | A successful score over k rows is at most 10·k |
| `Scoring.StagePointsBound` | code/process_results.py:85-95 | A whole-stage score lies in 0..10·(paired rows), and the stage fails exactly when a paired row cannot be scored |
| `Scoring.StagePrefixUnplayed` | code/process_results.py:93 | A table with no played rows scores 0, whatever the guesses hold |
| `Scoring.StagePrefixIgnoresUnplayed` | code/process_results.py:92-94 | Changing the guesses only on rows whose result has no second goal count leaves the stage score (or its failure) unchanged: unplayed rows add nothing, even inside a partly played table |
| `Scoring.StagePrefixSelf` | code/process_results.py:85-95 | A filled-in table scored against itself gives 10 points per row |
| `Scoring.GroupStageMaximum` | code/process_results.py:85-95 | The 48-row group table scored against itself gives 480 |
| `Scoring.KnockoutStageMaximum` | code/process_results.py:133 | The 16-row knockout table, scored with the same rule against itself, gives 160 |
| `Scoring.PointsFromStage2` | code/process_results.py:97-114 | The stub awards 0 whatever the guess. It fails only when the result table has fewer than 8 rows for its round-of-16 lookup |
| `Cleaning.Clean` | code/process_results.py:116-120 | The result is the input minus every occurrence of each word (by default `'nan'` and `'<NA>'`). An entry is kept iff it is in the input and is not a word |
| `Cleaning.WithoutAfterKept` | code/process_results.py:118-119 | Filtering out one more word after earlier words is the same as filtering out all of them at once. This is the invariant of `clean`'s loop |
| `Cleaning.KeptCounts` | code/process_results.py:118-119 | Each word loses all its occurrences, and every other entry keeps exactly as many as it had |
| `Cleaning.KeptIsSubsequence` | code/process_results.py:119 | The cleaned list is a subsequence of the input, so the order of the kept entries is unchanged |
| `Cleaning.KeptIdempotent` | code/process_results.py:116-120 | Cleaning an already cleaned list changes nothing |
| `Standings.AliasRowShape` | code/process_results.py:130-136 | An alias's row has Total = Stage 1 + Stage 2. Stage 2 is 0 when the knockout flag is off, and each stage equals its stage score. The row fails iff a stage it uses fails |
| `Standings.ScoreAlias` | code/process_results.py:130-136 | The loop body computes the alias's row (or fails) as the row definition says |
| `Standings.ScoreRowsShape` | code/process_results.py:128-137 | The collected table has one row per alias, in alias order, each well-formed. It fails iff some alias fails |
| `Standings.CollectRows` | code/process_results.py:128-137 | The loop that appends one row per alias yields exactly the per-alias rows in alias order, or fails when an alias fails |
| `Standings.InsertCount` | code/process_results.py:142 | Inserting a row into the sorted table adds exactly that row and loses none |
| `Standings.InsertSorted` | code/process_results.py:142 | Inserting a row into a table sorted by descending Total keeps it sorted |
| `Standings.SortByTotalCorrect` | code/process_results.py:142 | Sorting gives non-increasing Totals and a permutation of the input rows |
| `Standings.Rank` | code/process_results.py:142-143 | The ranked table has one entry per row, Totals non-increasing, positions exactly 1..N in row order (ties get distinct positions), and the same rows |
| `Standings.Evaluate` | code/process_results.py:123-144 | The standings exist iff every alias can be scored. Then there is one row per alias, positions 1..N, non-increasing Totals, a permutation of the per-alias rows, and each row has Total = Stage 1 + Stage 2 with Stage 2 = 0 unless stage 2 has started |
| `Macaco.NatToStringRoundTrip` | code/macaco.py:15 | `str(n)` is a digit string with no leading zero, and reading it back gives n |
| `Macaco.GridLength` | code/macaco.py:16 | The nested comprehension has len(rows)·len(cols) entries |
| `Macaco.GridAt` | code/macaco.py:16 | The nested comprehension is row-major: entry len(cols)·i + j is column j followed by row i |
| `Macaco.GroupRowLabels` | code/macaco.py:15 | The group rows are "14", "19", "24", "29", "34" and "39" |
| `Macaco.CellsLayout` | code/macaco.py:12-22 | CELLS has 128 entries: 96 group cells, then 16 on row 51, 8 on row 61, and 4 semifinal plus 4 final cells, in that order |
| `Macaco.GroupCellAt` | code/macaco.py:15-16 | Group cell 16·i + j (also CELLS entry 16·i + j) is column j of row 14 + 5·i |
| `Macaco.WinnerGoalsLength` | code/macaco.py:51-59 | Appending two goals per pick gives 2·len(winners) goals |
| `Macaco.WinnerGoalsPair` | code/macaco.py:52-58 | Pick i becomes goals 2i and 2i+1: (1, 0) for 0 and (0, 1) for any other value |
| `Macaco.WinnerGoalsAt` | code/macaco.py:47-59 | The goals have length 2·len(winners), and pick i becomes goals 2i and 2i+1: (1, 0) for 0 and (0, 1) for any other value |
| `Macaco.KnockoutDecisive` | code/macaco.py:53-58 | Every generated knockout pair is decisive: the goals are 0 and 1, differ, and sum to 1, and team 1 wins iff the pick is 0 |
| `Macaco.ConvertWinnersToGoals` | code/macaco.py:47-59 | The appending loop produces exactly the pairwise goals of the picks, two per pick |
| `Macaco.Macaco` | code/macaco.py:25-45 | Given 96 draws in 0..2 and 16 picks in 0..1, the result is the 96 group goals followed by the 32 knockout goals. That is len(CELLS) = 128 values in 0..2, with every knockout pair summing to 1 |

## Left out

- Loading results and predictions from spreadsheets and CSV files (`load_results`, `load_prediction_csv`, `load_all_predictions`, code/process_results.py:15-56). The loaded tables are parameters of `Evaluate`; a map from alias to tables stands for the loaded dictionary.
- Writing the standings to CSV files with today's date (code/process_results.py:147-157), and filling and saving the workbook in `run_main` (code/macaco.py:61-84). These are file I/O and the clock.
- pandas mechanics: label slicing, `astype('Int64')`, dropping superfluous rows. Tables are sequences of goal-count rows. Team names and ids are not modelled: of the modelled operations only `points_from_stage_2` reads them (the id column, code/process_results.py:109-113), and it discards what it reads.
- The random number generator (`random.seed`, `randint`, code/macaco.py:29-41). The draws are inputs, constrained to the ranges `randint` produces.
- Building the unused lists inside `points_from_stage_2` (code/process_results.py:102-113) is not modelled. Only its effect is: it fails on a result table with fewer than 8 rows and otherwise returns 0. The knockout rounds, group-order bonus and champion/third-place scoring it was meant to hold are not in the code.
- Scoring.PointsFromStage2: does not model the id column that lines 109-113 read and pass to `clean`. So when a round-of-16 id is still missing, the model does not capture the failure of `clean`'s comparison `r != word` (line 119); under nullable-integer semantics that comparison gives a missing value, and using it as a condition raises an error. The model fails only on a result table with fewer than 8 rows.
- Standings.Evaluate: does not promise pandas' order among rows with equal totals, because `sort_values` with its default algorithm is not guaranteed stable; the model states only non-increasing totals and a permutation.
- code/process_excel_files.py is not part of this model: it only loads Excel files.
