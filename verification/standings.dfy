/**
 * The standings table built by `evaluate` (code/process_results.py): one row per
 * alias with its stage scores, sorted by total, numbered from 1.
 */
module Standings {
  import opened Optional
  import opened Scoring

  /** The two tables of one entry, or of the official results: 48 group rows, 16 knockout rows. */
  datatype Tables = Tables(group: seq<Goals>, knockout: seq<Goals>)

  /** A row of the standings before positions are assigned: Alias, Stage 1, Stage 2, Total. */
  datatype Row = Row(alias: string, stage1: nat, stage2: nat, total: nat)

  /** A row of the final table, with its Position column. */
  datatype Standing = Standing(position: nat, row: Row)

  /**
   * The row of one alias. Stage 2 is scored with the stage-1 rule on the knockout
   * tables, and only once the knockout stage has started.
   */
  function AliasRow(results: Tables, entry: Tables, alias: string, stage2: bool): Option<Row>
  {
    match StagePoints(results.group, entry.group)
    case None => None
    case Some(p1) =>
      if !stage2 then Some(Row(alias, p1, 0, p1))
      else
        match StagePoints(results.knockout, entry.knockout)
        case None => None
        case Some(p2) => Some(Row(alias, p1, p2, p1 + p2))
  }

  /** The rows of the first k aliases, in alias order, or None when one alias cannot be scored. */
  function ScoreRows(results: Tables, entries: map<string, Tables>, aliases: seq<string>, stage2: bool, k: nat)
    : Option<seq<Row>>
    requires k <= |aliases|
    requires forall a :: a in aliases ==> a in entries
  {
    if k == 0 then Some([])
    else
      match ScoreRows(results, entries, aliases, stage2, k - 1)
      case None => None
      case Some(rows) =>
        match AliasRow(results, entries[aliases[k - 1]], aliases[k - 1], stage2)
        case None => None
        case Some(row) => Some(rows + [row])
  }

  /** Once an alias cannot be scored, the whole table cannot. */
  lemma {:induction false} ScoreRowsFailureStays(results: Tables, entries: map<string, Tables>, aliases: seq<string>, stage2: bool, k: nat, m: nat)
    requires k <= m <= |aliases|
    requires forall a :: a in aliases ==> a in entries
    requires ScoreRows(results, entries, aliases, stage2, k).None?
    ensures ScoreRows(results, entries, aliases, stage2, m).None?
    decreases m - k
  {
    if k < m {
      ScoreRowsFailureStays(results, entries, aliases, stage2, k + 1, m);
    }
  }

  /** Every row adds up: Total is Stage 1 plus Stage 2, and Stage 2 is 0 before the knockouts. */
  predicate WellFormed(row: Row, stage2: bool)
  {
    row.total == row.stage1 + row.stage2 && (!stage2 ==> row.stage2 == 0)
  }

  lemma AliasRowShape(results: Tables, entry: Tables, alias: string, stage2: bool)
    ensures AliasRow(results, entry, alias, stage2).Some? ==>
      var row := AliasRow(results, entry, alias, stage2).value;
      row.alias == alias && WellFormed(row, stage2)
      && StagePoints(results.group, entry.group) == Some(row.stage1)
      && (stage2 ==> StagePoints(results.knockout, entry.knockout) == Some(row.stage2))
    ensures AliasRow(results, entry, alias, stage2).None? <==>
      StagePoints(results.group, entry.group).None?
      || (stage2 && StagePoints(results.knockout, entry.knockout).None?)
  {
  }

  /** One row per alias, in alias order, each the row of that alias. */
  lemma {:induction false} ScoreRowsShape(results: Tables, entries: map<string, Tables>, aliases: seq<string>, stage2: bool, k: nat)
    requires k <= |aliases|
    requires forall a :: a in aliases ==> a in entries
    ensures ScoreRows(results, entries, aliases, stage2, k).Some? ==>
      var rows := ScoreRows(results, entries, aliases, stage2, k).value;
      |rows| == k
      && forall i :: 0 <= i < k ==>
           rows[i].alias == aliases[i] && WellFormed(rows[i], stage2)
           && AliasRow(results, entries[aliases[i]], aliases[i], stage2) == Some(rows[i])
    ensures ScoreRows(results, entries, aliases, stage2, k).None? <==>
      exists i :: 0 <= i < k && AliasRow(results, entries[aliases[i]], aliases[i], stage2).None?
  {
    if k > 0 {
      ScoreRowsShape(results, entries, aliases, stage2, k - 1);
      AliasRowShape(results, entries[aliases[k - 1]], aliases[k - 1], stage2);
    }
  }

  /** Totals never increase down the table. */
  predicate NonIncreasing(rows: seq<Row>)
  {
    forall i, j :: 0 <= i < j < |rows| ==> rows[i].total >= rows[j].total
  }

  /** Place a row before the first row with a total no higher than its own. */
  function Insert(row: Row, rows: seq<Row>): seq<Row>
  {
    if rows == [] || row.total >= rows[0].total then [row] + rows
    else [rows[0]] + Insert(row, rows[1..])
  }

  /** Sorting by Total, descending (what `sort_values` does to the frame). */
  function SortByTotal(rows: seq<Row>): seq<Row>
  {
    if rows == [] then [] else Insert(rows[0], SortByTotal(rows[1..]))
  }

  lemma {:induction false} InsertCount(row: Row, rows: seq<Row>)
    ensures multiset(Insert(row, rows)) == multiset(rows) + multiset{row}
  {
    if rows != [] && row.total < rows[0].total {
      InsertCount(row, rows[1..]);
      assert rows == [rows[0]] + rows[1..];
    }
  }

  /** Inserting under a bound every row respects keeps every row under it. */
  lemma {:induction false} InsertBounded(row: Row, rows: seq<Row>, bound: nat)
    requires row.total <= bound
    requires forall i :: 0 <= i < |rows| ==> rows[i].total <= bound
    ensures |Insert(row, rows)| == |rows| + 1
    ensures forall i :: 0 <= i < |Insert(row, rows)| ==> Insert(row, rows)[i].total <= bound
  {
    if rows != [] && row.total < rows[0].total {
      InsertBounded(row, rows[1..], bound);
    }
  }

  /** Inserting into a table sorted by descending Total keeps it sorted. */
  lemma {:induction false} InsertSorted(row: Row, rows: seq<Row>)
    requires NonIncreasing(rows)
    ensures NonIncreasing(Insert(row, rows))
  {
    if rows != [] && row.total < rows[0].total {
      InsertSorted(row, rows[1..]);
      InsertBounded(row, rows[1..], rows[0].total);
    }
  }

  /** The sorted table is ordered by Total and holds exactly the input rows. */
  lemma {:induction false} SortByTotalCorrect(rows: seq<Row>)
    ensures NonIncreasing(SortByTotal(rows))
    ensures multiset(SortByTotal(rows)) == multiset(rows)
  {
    if rows != [] {
      SortByTotalCorrect(rows[1..]);
      InsertSorted(rows[0], SortByTotal(rows[1..]));
      InsertCount(rows[0], SortByTotal(rows[1..]));
      assert rows == [rows[0]] + rows[1..];
    }
  }

  /** The Position column: 1, 2, ..., N in row order, ties included. */
  function Number(rows: seq<Row>): seq<Standing>
  {
    seq(|rows|, i requires 0 <= i < |rows| => Standing(i + 1, rows[i]))
  }

  /** The rows of the table, without their positions. */
  function RowsOf(table: seq<Standing>): seq<Row>
  {
    seq(|table|, i requires 0 <= i < |table| => table[i].row)
  }

  /**
   * Sort by Total, descending, and insert the Position column. Positions run 1..N in
   * row order, so equal totals get distinct consecutive positions.
   */
  function Rank(rows: seq<Row>): (table: seq<Standing>)
    ensures |table| == |rows|
    ensures forall i :: 0 <= i < |table| ==> table[i].position == i + 1
    ensures NonIncreasing(RowsOf(table))
    ensures multiset(RowsOf(table)) == multiset(rows)
  {
    SortByTotalCorrect(rows);
    var table := Number(SortByTotal(rows));
    assert RowsOf(table) == SortByTotal(rows);
    assert |SortByTotal(rows)| == |multiset(SortByTotal(rows))| == |multiset(rows)| == |rows|;
    table
  }

  /** The body of `evaluate`'s loop for one alias: its stage 1, stage 2 and total. */
  method ScoreAlias(results: Tables, entry: Tables, alias: string, stage2: bool) returns (row: Option<Row>)
    ensures row == AliasRow(results, entry, alias, stage2)
  {
    var points1 := PointsFromStage1(results.group, entry.group);
    if points1.None? {
      return None;
    }
    var points2: Option<nat>;
    if stage2 {
      points2 := PointsFromStage1(results.knockout, entry.knockout);
      if points2.None? {
        return None;
      }
    } else {
      points2 := Some(0);
    }
    row := Some(Row(alias, points1.value, points2.value, points1.value + points2.value));
  }

  /** A row-wise property of the per-alias rows carries over to any permutation of them. */
  lemma PermutedRowsWellFormed(table: seq<Row>, rows: seq<Row>, stage2: bool)
    requires multiset(table) == multiset(rows)
    requires forall i :: 0 <= i < |rows| ==> WellFormed(rows[i], stage2)
    ensures forall i :: 0 <= i < |table| ==> WellFormed(table[i], stage2)
  {
    forall i | 0 <= i < |table|
      ensures WellFormed(table[i], stage2)
    {
      assert table[i] in multiset(rows);
      var k :| 0 <= k < |rows| && rows[k] == table[i];
    }
  }

  /** `evaluate`'s loop: the rows of all aliases in order, or None as soon as one fails. */
  method CollectRows(results: Tables, entries: map<string, Tables>, aliases: seq<string>, stage2: bool)
    returns (rows: Option<seq<Row>>)
    requires forall a :: a in aliases ==> a in entries
    ensures rows == ScoreRows(results, entries, aliases, stage2, |aliases|)
  {
    var table: seq<Row> := [];
    for i := 0 to |aliases|
      invariant ScoreRows(results, entries, aliases, stage2, i) == Some(table)
    {
      var row := ScoreAlias(results, entries[aliases[i]], aliases[i], stage2);
      if row.None? {
        ScoreRowsFailureStays(results, entries, aliases, stage2, i + 1, |aliases|);
        return None;
      }
      table := table + [row.value];
    }
    rows := Some(table);
  }

  /**
   * `evaluate`: score every alias in turn, collecting rows, then rank them. Fails when
   * some alias's tables cannot be scored. The order among equal totals is not promised.
   */
  method Evaluate(results: Tables, entries: map<string, Tables>, aliases: seq<string>, stage2: bool)
    returns (standings: Option<seq<Standing>>)
    requires forall a :: a in aliases ==> a in entries
    ensures standings.None? <==> ScoreRows(results, entries, aliases, stage2, |aliases|).None?
    ensures standings.Some? ==>
      var table := standings.value;
      var rows := ScoreRows(results, entries, aliases, stage2, |aliases|);
      rows.Some?
      && |table| == |aliases|
      && (forall i :: 0 <= i < |table| ==> table[i].position == i + 1)
      && NonIncreasing(RowsOf(table))
      && multiset(RowsOf(table)) == multiset(rows.value)
      && (forall i :: 0 <= i < |table| ==> WellFormed(table[i].row, stage2))
  {
    var rows := CollectRows(results, entries, aliases, stage2);
    if rows.None? {
      return None;
    }
    ScoreRowsShape(results, entries, aliases, stage2, |aliases|);
    var table := Rank(rows.value);
    PermutedRowsWellFormed(RowsOf(table), rows.value, stage2);
    assert forall i :: 0 <= i < |table| ==> table[i].row == RowsOf(table)[i];
    standings := Some(table);
  }
}
