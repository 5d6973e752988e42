/**
 * The point-award rules of the prediction pool (code/process_results.py):
 * classifying a scoreline, scoring one group match, and summing a whole stage.
 */
module Scoring {
  import opened Optional

  /** The result of a match from the point of view of team 1. */
  datatype Outcome = Win | Tie | Loss

  /** `wtl`: did team 1 win, tie or lose, given the goals of team 1 and team 2? */
  function Wtl(g1: int, g2: int): (o: Outcome)
    ensures o == Win <==> g1 > g2
    ensures o == Loss <==> g1 < g2
    ensures o == Tie <==> g1 == g2
  {
    if g1 > g2 then Win
    else if g1 < g2 then Loss
    else Tie
  }

  /** The same match seen from team 2. */
  function Mirror(o: Outcome): Outcome
  {
    match o
    case Win => Loss
    case Tie => Tie
    case Loss => Win
  }

  /** Swapping the two goal counts mirrors the outcome. */
  lemma WtlSwap(a: int, b: int)
    ensures Wtl(b, a) == Mirror(Wtl(a, b))
    ensures Wtl(a, b) == Win <==> Wtl(b, a) == Loss
    ensures Wtl(a, b) == Tie <==> Wtl(b, a) == Tie
  {
  }

  /** A fully known scoreline: goals of team 1, goals of team 2. */
  datatype Scoreline = Scoreline(goals1: int, goals2: int)

  function OutcomeOf(s: Scoreline): Outcome
  {
    Wtl(s.goals1, s.goals2)
  }

  /** Points for an exactly guessed goal count, awarded only with a correct outcome. */
  const GOAL_BONUS: nat := 2
  /** Points for a correctly guessed outcome. */
  const OUTCOME_POINTS: nat := 6
  /** The most one match can give. */
  const MAX_MATCH_POINTS: nat := OUTCOME_POINTS + 2 * GOAL_BONUS

  /**
   * The rule of a group match: nothing for a wrong outcome; otherwise 6, and 2 more
   * for each of the two goal counts guessed exactly.
   */
  function MatchPoints(result: Scoreline, guess: Scoreline): nat
  {
    if OutcomeOf(result) != OutcomeOf(guess) then 0
    else
      OUTCOME_POINTS
      + (if result.goals1 == guess.goals1 then GOAL_BONUS else 0)
      + (if result.goals2 == guess.goals2 then GOAL_BONUS else 0)
  }

  /** `points_from_match`: accumulates the points of one match in a local counter. */
  method PointsFromMatch(result: Scoreline, guess: Scoreline) returns (points: nat)
    ensures points == MatchPoints(result, guess)
  {
    points := 0;
    if Wtl(result.goals1, result.goals2) == Wtl(guess.goals1, guess.goals2) {
      points := points + OUTCOME_POINTS;
      if result.goals1 == guess.goals1 {
        points := points + GOAL_BONUS;
      }
      if result.goals2 == guess.goals2 {
        points := points + GOAL_BONUS;
      }
    }
  }

  /**
   * A match scores 0, 6, 8 or 10; it scores 0 exactly when the outcome is wrong,
   * and the maximum 10 exactly when the guess is the result.
   */
  lemma MatchPointsValues(result: Scoreline, guess: Scoreline)
    ensures MatchPoints(result, guess) in {0, 6, 8, 10}
    ensures MatchPoints(result, guess) <= MAX_MATCH_POINTS
    ensures MatchPoints(result, guess) == 0 <==> OutcomeOf(result) != OutcomeOf(guess)
    ensures OutcomeOf(result) == OutcomeOf(guess) ==> MatchPoints(result, guess) >= OUTCOME_POINTS
    ensures MatchPoints(result, guess) == MAX_MATCH_POINTS <==> result == guess
  {
  }

  /** One row of a stage table: the two goal counts, each possibly missing. */
  datatype Goals = Goals(goals1: Option<int>, goals2: Option<int>)

  predicate Complete(row: Goals)
  {
    row.goals1.Some? && row.goals2.Some?
  }

  function ScorelineOf(row: Goals): Scoreline
    requires Complete(row)
  {
    Scoreline(row.goals1.value, row.goals2.value)
  }

  /**
   * The contribution of one (result, guess) row of a stage. A result whose second goal
   * count is missing is a match not yet played and gives 0. A played row needs the three
   * other goal counts: comparing a missing count fails, and the whole run fails with it.
   */
  function RowPoints(result: Goals, guess: Goals): Option<nat>
  {
    if result.goals2.None? then Some(0)
    else if !Complete(result) || !Complete(guess) then None
    else Some(MatchPoints(ScorelineOf(result), ScorelineOf(guess)))
  }

  /** The points of the first k rows, or None when one of them cannot be scored. */
  function StagePrefix(results: seq<Goals>, guesses: seq<Goals>, k: nat): Option<nat>
    requires k <= |results| && k <= |guesses|
  {
    if k == 0 then Some(0)
    else
      match StagePrefix(results, guesses, k - 1)
      case None => None
      case Some(p) =>
        match RowPoints(results[k - 1], guesses[k - 1])
        case None => None
        case Some(q) => Some(p + q)
  }

  /** How many rows `zip` pairs up: it stops at the shorter table. */
  function Paired(results: seq<Goals>, guesses: seq<Goals>): (n: nat)
    ensures n <= |results| && n <= |guesses|
    ensures n == |results| || n == |guesses|
  {
    if |results| <= |guesses| then |results| else |guesses|
  }

  /** The stage score of a guess table against a result table. */
  function StagePoints(results: seq<Goals>, guesses: seq<Goals>): Option<nat>
  {
    StagePrefix(results, guesses, Paired(results, guesses))
  }

  /** Once a row cannot be scored, no longer prefix can be either. */
  lemma {:induction false} StagePrefixFailureStays(results: seq<Goals>, guesses: seq<Goals>, k: nat, m: nat)
    requires k <= m <= |results| && m <= |guesses|
    requires StagePrefix(results, guesses, k).None?
    ensures StagePrefix(results, guesses, m).None?
    decreases m - k
  {
    if k < m {
      StagePrefixFailureStays(results, guesses, k + 1, m);
    }
  }

  /** `points_from_stage_1`: a loop over the paired rows, summing into a counter. */
  method PointsFromStage1(results: seq<Goals>, guesses: seq<Goals>) returns (points: Option<nat>)
    ensures points == StagePoints(results, guesses)
  {
    var n := Paired(results, guesses);
    var total := 0;
    var i := 0;
    while i < n
      invariant i <= n
      invariant StagePrefix(results, guesses, i) == Some(total)
    {
      var r, g := results[i], guesses[i];
      if r.goals2.Some? {
        if !Complete(r) || !Complete(g) {
          StagePrefixFailureStays(results, guesses, i + 1, n);
          return None;
        }
        var p := PointsFromMatch(ScorelineOf(r), ScorelineOf(g));
        total := total + p;
      }
      i := i + 1;
    }
    points := Some(total);
  }

  /** A stage fails exactly when one of its paired rows cannot be scored. */
  lemma {:induction false} StagePrefixFails(results: seq<Goals>, guesses: seq<Goals>, k: nat)
    requires k <= |results| && k <= |guesses|
    ensures StagePrefix(results, guesses, k).None?
        <==> exists i :: 0 <= i < k && RowPoints(results[i], guesses[i]).None?
  {
    if k > 0 {
      StagePrefixFails(results, guesses, k - 1);
    }
  }

  /** A successful stage score is at most 10 points per paired row. */
  lemma {:induction false} StagePrefixBound(results: seq<Goals>, guesses: seq<Goals>, k: nat)
    requires k <= |results| && k <= |guesses|
    ensures StagePrefix(results, guesses, k).Some? ==> StagePrefix(results, guesses, k).value <= MAX_MATCH_POINTS * k
  {
    if k > 0 {
      StagePrefixBound(results, guesses, k - 1);
      var r, g := results[k - 1], guesses[k - 1];
      if r.goals2.Some? && Complete(r) && Complete(g) {
        MatchPointsValues(ScorelineOf(r), ScorelineOf(g));
      }
    }
  }

  /** Rows without a result add nothing, whatever the guesses hold. */
  lemma {:induction false} StagePrefixUnplayed(results: seq<Goals>, guesses: seq<Goals>, k: nat)
    requires k <= |results| && k <= |guesses|
    requires forall i :: 0 <= i < k ==> results[i].goals2.None?
    ensures StagePrefix(results, guesses, k) == Some(0)
  {
    if k > 0 {
      StagePrefixUnplayed(results, guesses, k - 1);
    }
  }

  /** Guesses on rows not yet played never matter, even among played rows. */
  lemma {:induction false} StagePrefixIgnoresUnplayed(results: seq<Goals>, guesses1: seq<Goals>, guesses2: seq<Goals>, k: nat)
    requires k <= |results| && k <= |guesses1| && k <= |guesses2|
    requires forall i :: 0 <= i < k && results[i].goals2.Some? ==> guesses1[i] == guesses2[i]
    ensures StagePrefix(results, guesses1, k) == StagePrefix(results, guesses2, k)
  {
    if k > 0 {
      StagePrefixIgnoresUnplayed(results, guesses1, guesses2, k - 1);
    }
  }

  /** Scoring a filled-in table against itself gives the maximum, 10 per row. */
  lemma {:induction false} StagePrefixSelf(table: seq<Goals>, k: nat)
    requires k <= |table|
    requires forall i :: 0 <= i < k ==> Complete(table[i])
    ensures StagePrefix(table, table, k) == Some(MAX_MATCH_POINTS * k)
  {
    if k > 0 {
      StagePrefixSelf(table, k - 1);
      MatchPointsValues(ScorelineOf(table[k - 1]), ScorelineOf(table[k - 1]));
    }
  }

  /** Whole-stage form of the bounds: 0 .. 10 per paired row. */
  lemma StagePointsBound(results: seq<Goals>, guesses: seq<Goals>)
    ensures StagePoints(results, guesses).Some? ==>
      StagePoints(results, guesses).value <= MAX_MATCH_POINTS * Paired(results, guesses)
    ensures StagePoints(results, guesses).None? <==>
      exists i :: 0 <= i < Paired(results, guesses) && RowPoints(results[i], guesses[i]).None?
  {
    StagePrefixBound(results, guesses, Paired(results, guesses));
    StagePrefixFails(results, guesses, Paired(results, guesses));
  }

  /** The number of group-stage matches. */
  const GROUP_MATCHES: nat := 48

  /** The group stage scored against itself gives 480 points. */
  lemma GroupStageMaximum(table: seq<Goals>)
    requires |table| == GROUP_MATCHES
    requires forall i :: 0 <= i < |table| ==> Complete(table[i])
    ensures StagePoints(table, table) == Some(480)
  {
    StagePrefixSelf(table, |table|);
  }

  /** The number of knockout-stage rows. */
  const KNOCKOUT_MATCHES: nat := 16

  /**
   * The knockout table scored against itself with the same rule gives 160 points:
   * stage 2 is scored match by match like stage 1.
   */
  lemma KnockoutStageMaximum(table: seq<Goals>)
    requires |table| == KNOCKOUT_MATCHES
    requires forall i :: 0 <= i < |table| ==> Complete(table[i])
    ensures StagePoints(table, table) == Some(160)
  {
    StagePrefixSelf(table, |table|);
  }

  /**
   * `points_from_stage_2`, an unfinished stub: it reads the first column of the
   * round-of-16 rows 0..7 of the result table (failing when there are fewer than 8)
   * and then awards nothing, whatever the guess.
   */
  function PointsFromStage2(results: seq<Goals>, guesses: seq<Goals>): (p: Option<nat>)
    ensures p.Some? <==> |results| >= 8
    ensures p.Some? ==> p.value == 0
  {
    if |results| < 8 then None else Some(0)
  }
}
