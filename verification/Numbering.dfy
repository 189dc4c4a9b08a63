/** Rows numbered within an owner, as the registries' append-only tables are: a Project's events,
    configurations, baselines and syncs, a campaign's control log, a cycle's runs, a goal set's
    revisions. Each table is the sequence of its rows in commit order. */
module Numbering {
  import opened Basics

  datatype Row<D> = Row(owner: string, number: int, document: D)

  /** One owner's rows, oldest first. */
  function RowsOf<D>(rows: seq<Row<D>>, owner: string): seq<Row<D>> {
    if rows == [] then []
    else
      var last := rows[|rows| - 1];
      RowsOf(rows[..|rows| - 1], owner) + if last.owner == owner then [last] else []
  }

  /** `MAX(number)` over the owner's rows; `None` is SQL's NULL over no rows. */
  function Highest<D>(rows: seq<Row<D>>, owner: string): Option<int> {
    if rows == [] then None
    else
      var last, earlier := rows[|rows| - 1], Highest(rows[..|rows| - 1], owner);
      if last.owner == owner && (earlier.None? || earlier.value < last.number) then Some(last.number) else earlier
  }

  /** `COALESCE(MAX(number), 0)`. */
  function Latest<D>(rows: seq<Row<D>>, owner: string): int {
    Highest(rows, owner).Or(0)
  }

  /** The document under an owner and a number. */
  function Find<D>(rows: seq<Row<D>>, owner: string, number: int): Option<D> {
    if rows == [] then None
    else
      var last, earlier := rows[|rows| - 1], Find(rows[..|rows| - 1], owner, number);
      if earlier.None? && last.owner == owner && last.number == number then Some(last.document) else earlier
  }

  /** Every owner's rows are numbered exactly 1..n, in commit order. */
  ghost predicate Sequential<D(!new)>(rows: seq<Row<D>>) {
    forall owner, i :: 0 <= i < |RowsOf(rows, owner)| ==> RowsOf(rows, owner)[i].number == i + 1
  }

  lemma {:induction false} Unfold<D>(rows: seq<Row<D>>, row: Row<D>)
    ensures (rows + [row])[..|rows|] == rows
    ensures forall owner ::
      RowsOf(rows + [row], owner) == RowsOf(rows, owner) + if row.owner == owner then [row] else []
    ensures forall owner, n :: Find(rows, owner, n).Some? ==> Find(rows + [row], owner, n) == Find(rows, owner, n)
    ensures forall owner, n :: Find(rows, owner, n).None? ==>
      Find(rows + [row], owner, n) == if row.owner == owner && row.number == n then Some(row.document) else None
  {
    assert (rows + [row])[..|rows|] == rows;
  }

  /** Under sequential numbers, `MAX` counts the rows and a lookup is an index. */
  lemma {:induction false} SequentialIsCounted<D(!new)>(rows: seq<Row<D>>, owner: string)
    requires Sequential(rows)
    ensures Latest(rows, owner) == |RowsOf(rows, owner)|
    ensures forall n ::
      Find(rows, owner, n) ==
        (if 1 <= n <= |RowsOf(rows, owner)| then Some(RowsOf(rows, owner)[n - 1].document) else None)
  {
    if rows == [] {
    } else {
      var init, last := rows[..|rows| - 1], rows[|rows| - 1];
      assert rows == init + [last];
      Unfold(init, last);
      forall o, i | 0 <= i < |RowsOf(init, o)|
        ensures RowsOf(init, o)[i].number == i + 1
      {
        assert RowsOf(rows, o)[i] == RowsOf(init, o)[i];
      }
      SequentialIsCounted(init, owner);
      if last.owner == owner {
        assert RowsOf(rows, owner)[|RowsOf(init, owner)|] == last;
      }
    }
  }

  /** A row keeps the numbers sequential exactly when it takes `MAX + 1`. */
  lemma {:induction false} NextKeepsSequential<D(!new)>(rows: seq<Row<D>>, row: Row<D>)
    requires Sequential(rows)
    ensures Sequential(rows + [row]) <==> row.number == Latest(rows, row.owner) + 1
  {
    SequentialIsCounted(rows, row.owner);
    Unfold(rows, row);
    var mine := RowsOf(rows + [row], row.owner);
    assert mine[|mine| - 1] == row;
  }
}
