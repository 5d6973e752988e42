/**
 * The "Macaco" control entry (code/macaco.py): the spreadsheet cells an entry fills
 * in, and the goal counts written into them, drawn at random for the group stage and
 * as decisive 1-0 / 0-1 scorelines for the knockout stage.
 */
module Macaco {

  // ---------------------------------------------------------------------------
  // Cell addresses

  /** A decimal digit. */
  function Digit(d: nat): char
    requires d < 10
  {
    "0123456789"[d]
  }

  /** `str(n)` for a natural number: its decimal digits, no leading zero. */
  function NatToString(n: nat): string
  {
    if n < 10 then [Digit(n)] else NatToString(n / 10) + [Digit(n % 10)]
  }

  predicate IsDigits(s: string)
  {
    forall k :: 0 <= k < |s| ==> '0' <= s[k] <= '9'
  }

  /** The number a string of decimal digits denotes. */
  function DigitsValue(s: string): nat
    requires IsDigits(s)
  {
    if s == [] then 0
    else DigitsValue(s[..|s| - 1]) * 10 + (s[|s| - 1] as int - '0' as int)
  }

  /** `str` is a faithful decimal rendering: reading it back gives the number. */
  lemma {:induction false} NatToStringRoundTrip(n: nat)
    ensures IsDigits(NatToString(n))
    ensures |NatToString(n)| >= 1 && (n >= 10 ==> NatToString(n)[0] != '0')
    ensures DigitsValue(NatToString(n)) == n
  {
    if n >= 10 {
      NatToStringRoundTrip(n / 10);
      var s := NatToString(n);
      assert s[..|s| - 1] == NatToString(n / 10);
    }
  }

  /** `[c + row for c in cols]`. */
  function Suffixed(cols: seq<string>, row: string): seq<string>
  {
    seq(|cols|, j requires 0 <= j < |cols| => cols[j] + row)
  }

  /** `[c + r for r in rows for c in cols]`: row by row, each row across all columns. */
  function Grid(rows: seq<string>, cols: seq<string>): seq<string>
  {
    if rows == [] then [] else Suffixed(cols, rows[0]) + Grid(rows[1..], cols)
  }

  lemma {:induction false} GridLength(rows: seq<string>, cols: seq<string>)
    ensures |Grid(rows, cols)| == |rows| * |cols|
  {
    if rows != [] {
      GridLength(rows[1..], cols);
    }
  }

  /** The grid is row-major: entry |cols|*i + j is column j followed by row i. */
  lemma {:induction false} GridAt(rows: seq<string>, cols: seq<string>, i: nat, j: nat, k: nat)
    requires i < |rows| && j < |cols| && k == |cols| * i + j
    ensures k < |Grid(rows, cols)|
    ensures Grid(rows, cols)[k] == cols[j] + rows[i]
  {
    var first := Suffixed(cols, rows[0]);
    var rest := Grid(rows[1..], cols);
    assert Grid(rows, cols) == first + rest;
    if i == 0 {
      assert k == j;
    } else {
      assert |cols| * i == |cols| + |cols| * (i - 1);
      GridAt(rows[1..], cols, i - 1, j, k - |cols|);
    }
  }

  /** The columns of the group-stage goal cells. */
  const COLS_GROUP: seq<string> :=
    ["B", "C", "E", "F", "H", "I", "K", "L", "N", "O", "Q", "R", "T", "U", "W", "X"]

  function GroupRow(i: nat): string
  {
    NatToString(14 + 5 * i)
  }

  /** `str(14 + 5*i)` for i in 0..5. */
  const ROWS_GROUP: seq<string> := seq(6, i requires 0 <= i => GroupRow(i))

  const CELLS_GROUP: seq<string> := Grid(ROWS_GROUP, COLS_GROUP)
  const CELLS_R16: seq<string> := Suffixed(COLS_GROUP, "51")
  const CELLS_QF: seq<string> := Suffixed(["C", "E", "I", "K", "O", "Q", "U", "W"], "61")
  const CELLS_SF: seq<string> := ["F71", "H71", "R71", "T71"]
  const CELLS_F: seq<string> := ["L79", "N79", "L89", "N89"]
  const CELLS: seq<string> := CELLS_GROUP + CELLS_R16 + CELLS_QF + CELLS_SF + CELLS_F

  /** The group rows are 14, 19, 24, 29, 34 and 39. */
  lemma GroupRowLabels()
    ensures ROWS_GROUP == ["14", "19", "24", "29", "34", "39"]
  {
    assert NatToString(14) == "14";
    assert NatToString(19) == "19";
    assert NatToString(24) == "24";
    assert NatToString(29) == "29";
    assert NatToString(34) == "34";
    assert NatToString(39) == "39";
  }

  /** 128 cells: 96 group cells, 16 on row 51, 8 on row 61, 4 semifinal and 4 final cells. */
  lemma CellsLayout()
    ensures |CELLS_GROUP| == 96 && |CELLS_R16| == 16 && |CELLS_QF| == 8
    ensures |CELLS_SF| == 4 && |CELLS_F| == 4
    ensures |CELLS| == 128
    ensures CELLS[..96] == CELLS_GROUP && CELLS[96..112] == CELLS_R16
    ensures CELLS[112..120] == CELLS_QF && CELLS[120..] == CELLS_SF + CELLS_F
  {
    GridLength(ROWS_GROUP, COLS_GROUP);
  }

  /** Group cell 16*i + j is column j of group row 14 + 5*i. */
  lemma GroupCellAt(i: nat, j: nat)
    requires i < 6 && j < 16
    ensures |CELLS_GROUP| == 96
    ensures CELLS_GROUP[16 * i + j] == COLS_GROUP[j] + NatToString(14 + 5 * i)
    ensures CELLS[16 * i + j] == CELLS_GROUP[16 * i + j]
  {
    GridAt(ROWS_GROUP, COLS_GROUP, i, j, 16 * i + j);
    CellsLayout();
  }

  // ---------------------------------------------------------------------------
  // Goal counts

  /** The scoreline for a winner pick: 0 means team 1 wins 1-0, anything else 0-1. */
  function WinnerPair(w: int): seq<int>
  {
    if w == 0 then [1, 0] else [0, 1]
  }

  /** The goals for a list of winner picks, two per pick. */
  function WinnerGoals(winners: seq<int>): seq<int>
  {
    if winners == [] then []
    else WinnerGoals(winners[..|winners| - 1]) + WinnerPair(winners[|winners| - 1])
  }

  lemma {:induction false} WinnerGoalsLength(winners: seq<int>)
    ensures |WinnerGoals(winners)| == 2 * |winners|
  {
    if winners != [] {
      WinnerGoalsLength(winners[..|winners| - 1]);
    }
  }

  /** Pick i becomes goals 2i and 2i+1. */
  lemma {:induction false} WinnerGoalsPair(winners: seq<int>, i: nat)
    requires i < |winners|
    ensures |WinnerGoals(winners)| == 2 * |winners|
    ensures WinnerGoals(winners)[2 * i..2 * i + 2] == WinnerPair(winners[i])
  {
    WinnerGoalsLength(winners);
    var init := winners[..|winners| - 1];
    WinnerGoalsLength(init);
    var front := WinnerGoals(init);
    var last := WinnerPair(winners[|winners| - 1]);
    assert WinnerGoals(winners) == front + last;
    if i < |init| {
      WinnerGoalsPair(init, i);
      assert winners[i] == init[i];
      assert (front + last)[2 * i..2 * i + 2] == front[2 * i..2 * i + 2];
    } else {
      assert (front + last)[2 * i..2 * i + 2] == last;
    }
  }

  /** Pick i becomes goals 2i and 2i+1: (1, 0) for 0, (0, 1) for anything else. */
  lemma WinnerGoalsAt(winners: seq<int>)
    ensures |WinnerGoals(winners)| == 2 * |winners|
    ensures forall i :: 0 <= i < |winners| ==>
      WinnerGoals(winners)[2 * i..2 * i + 2] == WinnerPair(winners[i])
  {
    WinnerGoalsLength(winners);
    forall i | 0 <= i < |winners|
      ensures WinnerGoals(winners)[2 * i..2 * i + 2] == WinnerPair(winners[i])
    {
      WinnerGoalsPair(winners, i);
    }
  }

  /** Every knockout scoreline has a winner: the two goals differ and add up to 1. */
  lemma KnockoutDecisive(winners: seq<int>, i: nat)
    requires i < |winners|
    ensures |WinnerGoals(winners)| == 2 * |winners|
    ensures WinnerGoals(winners)[2 * i] != WinnerGoals(winners)[2 * i + 1]
    ensures WinnerGoals(winners)[2 * i] + WinnerGoals(winners)[2 * i + 1] == 1
    ensures WinnerGoals(winners)[2 * i] == 1 <==> winners[i] == 0
    ensures WinnerGoals(winners)[2 * i] in {0, 1} && WinnerGoals(winners)[2 * i + 1] in {0, 1}
  {
    WinnerGoalsPair(winners, i);
    assert WinnerGoals(winners)[2 * i] == WinnerGoals(winners)[2 * i..2 * i + 2][0];
    assert WinnerGoals(winners)[2 * i + 1] == WinnerGoals(winners)[2 * i..2 * i + 2][1];
  }

  /** `convert_winners_to_goals`: appends a 1-0 or 0-1 pair per pick. */
  method ConvertWinnersToGoals(winners: seq<int>) returns (goals: seq<int>)
    ensures goals == WinnerGoals(winners)
    ensures |goals| == 2 * |winners|
  {
    goals := [];
    for i := 0 to |winners|
      invariant goals == WinnerGoals(winners[..i])
    {
      assert winners[..i + 1][..i] == winners[..i];
      if winners[i] == 0 {
        goals := goals + [1];
        goals := goals + [0];
      } else {
        goals := goals + [0];
        goals := goals + [1];
      }
    }
    assert winners[..|winners|] == winners;
    WinnerGoalsAt(winners);
  }

  const NUM_GROUPS: nat := 8
  const MATCHES_PER_GROUP: nat := 6
  const TEAMS_PER_MATCH: nat := 2
  /** The number of group-stage goal counts: 96. */
  const N_GOALS: nat := NUM_GROUPS * MATCHES_PER_GROUP * TEAMS_PER_MATCH
  /** The number of knockout winner picks: 16. */
  const N_WINNERS: nat := 8 + 4 + 2 + 2

  /**
   * `macaco`, with its random draws as inputs: 96 group goal counts in 0..2 and 16
   * winner picks in 0..1. The result is the group goals followed by the knockout goals,
   * one per cell of CELLS.
   */
  method Macaco(groupDraws: seq<int>, winnerDraws: seq<int>) returns (allGoals: seq<int>)
    requires |groupDraws| == N_GOALS
    requires forall k :: 0 <= k < |groupDraws| ==> 0 <= groupDraws[k] <= 2
    requires |winnerDraws| == N_WINNERS
    requires forall k :: 0 <= k < |winnerDraws| ==> 0 <= winnerDraws[k] <= 1
    ensures |allGoals| == |CELLS| == 128
    ensures allGoals[..N_GOALS] == groupDraws
    ensures allGoals[N_GOALS..] == WinnerGoals(winnerDraws)
    ensures forall k :: 0 <= k < |allGoals| ==> 0 <= allGoals[k] <= 2
    ensures forall i :: 0 <= i < N_WINNERS ==>
      allGoals[N_GOALS + 2 * i] + allGoals[N_GOALS + 2 * i + 1] == 1
  {
    var knockout := ConvertWinnersToGoals(winnerDraws);
    allGoals := groupDraws + knockout;
    CellsLayout();
    forall i | 0 <= i < N_WINNERS
      ensures allGoals[N_GOALS + 2 * i] + allGoals[N_GOALS + 2 * i + 1] == 1
    {
      KnockoutDecisive(winnerDraws, i);
    }
    forall k | N_GOALS <= k < |allGoals|
      ensures 0 <= allGoals[k] <= 1
    {
      var i := (k - N_GOALS) / 2;
      KnockoutDecisive(winnerDraws, i);
      assert allGoals[k] == knockout[k - N_GOALS];
      assert k - N_GOALS == 2 * i || k - N_GOALS == 2 * i + 1;
    }
  }
}
