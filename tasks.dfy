/**
 * Reading a contest's task list, from src/handler.rs (`fetch_sample_urls`). A tasks page
 * is modelled by its tables: the first text of every `thead th`, and for
 * every `tbody tr` its `td` cells, each with the `href` of its first link.
 */
module Tasks {
  import opened Wrappers
  import opened Text

  /** A `td`: the `href` of its first `a`; `None` when it has no `a` or that `a` has no `href`. */
  datatype Cell = Cell(link: Option<string>)

  /** A `table`: the first text node of each header cell, and the rows of body cells. */
  datatype Table = Table(header: seq<Option<string>>, rows: seq<seq<Cell>>)

  const SITE: string := "https://atcoder.jp"
  const EOF: string := "EOF"

  /** The header naming the column of task names, in Japanese or in English, matched exactly. */
  predicate IsTaskHeader(h: Option<string>)
  {
    h == Some("問題名") || h == Some("Task Name")
  }

  /** The index of the first task header at or after `from`. */
  function TaskColumnFrom(header: seq<Option<string>>, from: nat): (r: Option<nat>)
    requires from <= |header|
    ensures r.Some? ==> from <= r.value < |header| && IsTaskHeader(header[r.value])
    ensures r.Some? ==> forall j :: from <= j < r.value ==> !IsTaskHeader(header[j])
    ensures r.None? <==> forall j :: from <= j < |header| ==> !IsTaskHeader(header[j])
    decreases |header| - from
  {
    if from == |header| then None
    else if IsTaskHeader(header[from]) then Some(from)
    else TaskColumnFrom(header, from + 1)
  }

  /** The `position` of the first task header. */
  function TaskColumn(header: seq<Option<string>>): (r: Option<nat>)
    ensures r.Some? ==> r.value < |header| && IsTaskHeader(header[r.value])
    ensures r.Some? ==> forall j :: 0 <= j < r.value ==> !IsTaskHeader(header[j])
    ensures r.None? <==> forall j :: 0 <= j < |header| ==> !IsTaskHeader(header[j])
  {
    TaskColumnFrom(header, 0)
  }

  /** The row has a cell at `pos` and that cell a link; otherwise the indexing or an `unwrap` panics. */
  predicate RowHasLink(row: seq<Cell>, pos: nat)
  {
    pos < |row| && row[pos].link.Some?
  }

  /** One absolute URL per row, in row order; `None` is the panic on a row without a link. */
  function RowUrls(rows: seq<seq<Cell>>, pos: nat): (r: Option<seq<string>>)
    ensures r.Some? <==> forall i :: 0 <= i < |rows| ==> RowHasLink(rows[i], pos)
    ensures r.Some? ==> |r.value| == |rows|
    ensures r.Some? ==> forall i :: 0 <= i < |rows| ==> r.value[i] == SITE + rows[i][pos].link.value
  {
    if rows == [] then Some([])
    else
      match RowUrls(rows[..|rows| - 1], pos)
      case None => None
      case Some(front) =>
        var last := rows[|rows| - 1];
        if RowHasLink(last, pos) then Some(front + [SITE + last[pos].link.value]) else None
  }

  /** What one table yields once its task column is known. */
  function TableUrls(table: Table, pos: nat): Outcome<seq<string>, string>
  {
    match RowUrls(table.rows, pos)
    case None => Panicked
    case Some(urls) => Returned(Ok(urls))
  }

  /** The URLs of the first table with a task header; `EOF` when no table has one. */
  function TaskUrls(tables: seq<Table>): Outcome<seq<string>, string>
  {
    if tables == [] then Returned(Err(EOF))
    else match TaskColumn(tables[0].header)
    case None => TaskUrls(tables[1..])
    case Some(pos) => TableUrls(tables[0], pos)
  }

  /** The tables before the first one with a task header are skipped, and the tables after it are never read. */
  lemma {:induction false} FirstTaskTableWins(tables: seq<Table>, k: nat)
    requires k < |tables| && TaskColumn(tables[k].header).Some?
    requires forall j :: 0 <= j < k ==> TaskColumn(tables[j].header).None?
    ensures TaskUrls(tables) == TableUrls(tables[k], TaskColumn(tables[k].header).value)
  {
    if k > 0 {
      assert TaskColumn(tables[0].header).None?;
      FirstTaskTableWins(tables[1..], k - 1);
    }
  }

  /** The result is `EOF` exactly when no table has a task header. */
  lemma {:induction false} EofIffNoTaskTable(tables: seq<Table>)
    ensures TaskUrls(tables) == Returned(Err(EOF))
      <==> forall j :: 0 <= j < |tables| ==> TaskColumn(tables[j].header).None?
  {
    if tables != [] {
      EofIffNoTaskTable(tables[1..]);
      assert forall j :: 1 <= j < |tables| ==> tables[j] == tables[1..][j - 1];
    }
  }

  /** The `position` search over the header cells of one table. */
  method FindTaskColumn(header: seq<Option<string>>) returns (r: Option<nat>)
    ensures r == TaskColumn(header)
  {
    var pos := 0;
    while pos < |header| && !IsTaskHeader(header[pos])
      invariant pos <= |header|
      invariant TaskColumnFrom(header, pos) == TaskColumn(header)
    {
      pos := pos + 1;
    }
    r := if pos == |header| then None else Some(pos);
  }

  /** The `map` over the body rows of one table: one URL per row, or the panic at the first row without a link. */
  method ReadRows(table: Table, pos: nat) returns (r: Outcome<seq<string>, string>)
    ensures r == TableUrls(table, pos)
  {
    var urls: seq<string> := [];
    for i := 0 to |table.rows|
      invariant RowUrls(table.rows[..i], pos) == Some(urls)
    {
      assert table.rows[..i + 1][..i] == table.rows[..i];
      var row := table.rows[i];
      if pos >= |row| || row[pos].link.None? {
        assert RowUrls(table.rows[..i + 1], pos).None?;
        assert !RowHasLink(table.rows[i], pos);
        return Panicked;
      }
      urls := urls + [SITE + row[pos].link.value];
    }
    assert table.rows[..|table.rows|] == table.rows;
    r := Returned(Ok(urls));
  }

  /** `fetch_sample_urls` after the page is fetched: loop over the tables, `continue` without a task header, else read every row. */
  method FetchSampleUrls(tables: seq<Table>) returns (r: Outcome<seq<string>, string>)
    ensures r == TaskUrls(tables)
  {
    var t := 0;
    while t < |tables|
      invariant t <= |tables|
      invariant TaskUrls(tables) == TaskUrls(tables[t..])
    {
      assert tables[t..][1..] == tables[t + 1..];
      var pos := FindTaskColumn(tables[t].header);
      if pos.None? {
        t := t + 1;
        continue;
      }
      r := ReadRows(tables[t], pos.value);
      return;
    }
    return Returned(Err(EOF));
  }
}
