/** The record source: `row_splitter` and the header/row zipping of
    `generate_games`, over lines already read from the file. */
module Records {
  import opened Wrappers
  import opened Strings

  /** One row: field name to field value. */
  type Record = map<string, string>

  /** `row[:-1]`: the row without its last character (the empty row stays empty). */
  function DropLast(row: string): (r: string)
  {
    if row == [] then [] else row[..|row| - 1]
  }

  /** `row_splitter`: drop exactly the last character, then split on `,`. Joining
      the cells with `,` gives back the shortened row, no cell holds a comma, and
      there is one cell more than there are commas. */
  function RowSplitter(row: string): (cells: seq<string>)
    ensures |row| > 0 ==> Join(cells, ",") + [row[|row| - 1]] == row
    ensures row == [] ==> cells == [[]]
    ensures forall cell :: cell in cells ==> ',' !in cell
    ensures |cells| == 1 + CountChar(DropLast(row), ',')
  {
    var line := DropLast(row);
    SplitJoin(line, ",");
    SplitPartsFree(line, ",");
    SplitCharCount(line, ',');
    SplitOnePart(line, ",");
    NoCommaInParts(Split(line, ","));
    Split(line, ",")
  }

  /** A row written as its cells joined with `,` plus one final character (the
      newline) splits back into those cells. */
  lemma RowSplitterJoin(cells: seq<string>, end: char)
    requires cells != []
    requires forall cell :: cell in cells ==> ',' !in cell
    ensures RowSplitter(Join(cells, ",") + [end]) == cells
  {
    var row := Join(cells, ",") + [end];
    assert DropLast(row) == Join(cells, ",");
    JoinSplit(cells, ',');
  }

  lemma NoCommaInParts(parts: seq<string>)
    requires forall p :: p in parts ==> !Contains(p, ",")
    ensures forall p :: p in parts ==> ',' !in p
  {
    forall p | p in parts ensures ',' !in p {
      ContainsChar(p, ',');
    }
  }

  function Min(a: nat, b: nat): nat
  {
    if a <= b then a else b
  }

  /** `dict(zip(columns, cells))`: pairs up to the shorter of the two, inserted in
      order, so a repeated column keeps its last value. */
  function Zip(columns: seq<string>, cells: seq<string>): Record
    decreases |columns|
  {
    var n := Min(|columns|, |cells|);
    if n == 0 then map[]
    else Zip(columns[..n - 1], cells[..n - 1])[columns[n - 1] := cells[n - 1]]
  }

  /** A zipped record has exactly the columns that got a cell, and each maps to
      the cell of its last position among those. */
  lemma {:induction false} ZipSpec(columns: seq<string>, cells: seq<string>)
    ensures forall k :: k in Zip(columns, cells) <==>
      exists i :: 0 <= i < Min(|columns|, |cells|) && columns[i] == k
    ensures forall i ::
      (0 <= i < Min(|columns|, |cells|) && forall j :: i < j < Min(|columns|, |cells|) ==> columns[j] != columns[i])
      ==> Zip(columns, cells)[columns[i]] == cells[i]
    decreases |columns|
  {
    var n := Min(|columns|, |cells|);
    if n > 0 {
      var cs, vs := columns[..n - 1], cells[..n - 1];
      ZipSpec(cs, vs);
      assert Min(|cs|, |vs|) == n - 1;
      forall k ensures k in Zip(columns, cells) <==> exists i :: 0 <= i < n && columns[i] == k {
        if k in Zip(cs, vs) {
          var i :| 0 <= i < n - 1 && cs[i] == k;
          assert columns[i] == k;
        }
        if exists i :: 0 <= i < n && columns[i] == k {
          var i :| 0 <= i < n && columns[i] == k;
          if i < n - 1 {
            assert cs[i] == k;
          }
        }
      }
      forall i | 0 <= i < n && (forall j :: i < j < n ==> columns[j] != columns[i])
        ensures Zip(columns, cells)[columns[i]] == cells[i]
      {
        if i < n - 1 {
          assert cs[i] == columns[i] && vs[i] == cells[i];
          assert forall j :: i < j < n - 1 ==> cs[j] != cs[i];
        }
      }
    }
  }

  /** Zipping one more column and cell onto lists of equal length adds that one
      entry last. */
  lemma ZipSnoc(columns: seq<string>, cells: seq<string>, column: string, cell: string)
    requires |columns| == |cells|
    ensures Zip(columns + [column], cells + [cell]) == Zip(columns, cells)[column := cell]
  {
    var cs, vs := columns + [column], cells + [cell];
    assert Min(|cs|, |vs|) == |columns| + 1;
    assert cs[..|columns|] == columns && vs[..|cells|] == cells;
  }

  /** Zipping one position further adds that position's entry. */
  lemma ZipStep(c: seq<string>, v: seq<string>, k: nat)
    requires k < |c| && |c| == |v|
    ensures Zip(c[..k + 1], v[..k + 1]) == Zip(c[..k], v[..k])[c[k] := v[k]]
  {
    ZipSnoc(c[..k], v[..k], c[k], v[k]);
    assert c[..k] + [c[k]] == c[..k + 1] && v[..k] + [v[k]] == v[..k + 1];
  }

  /** With distinct column names, every column that got a cell maps to its own cell. */
  lemma ZipDistinct(columns: seq<string>, cells: seq<string>)
    requires forall i, j :: 0 <= i < j < |columns| ==> columns[i] != columns[j]
    ensures forall i :: 0 <= i < Min(|columns|, |cells|) ==>
      columns[i] in Zip(columns, cells) && Zip(columns, cells)[columns[i]] == cells[i]
  {
    ZipSpec(columns, cells);
  }

  /** `csv_gen.pop(0)` on a file with no lines. */
  datatype SourceError = PopFromEmptyList

  /** The header/row zipping of `generate_games`: the first line names the
      columns, and each later line becomes one record, in order. */
  method GenerateGames(lines: seq<string>) returns (r: Result<seq<Record>, SourceError>)
    ensures lines == [] <==> r.Err?
    ensures r.Ok? ==> |r.value| == |lines| - 1
    ensures r.Ok? ==> forall i :: 0 <= i < |r.value| ==>
      r.value[i] == Zip(RowSplitter(lines[0]), RowSplitter(lines[i + 1]))
  {
    if lines == [] {
      return Err(PopFromEmptyList);
    }
    var csvGen := lines;
    var columns := RowSplitter(csvGen[0]);
    csvGen := csvGen[1..];
    var rows: seq<Record> := [];
    var i := 0;
    while i < |csvGen|
      invariant 0 <= i <= |csvGen| && csvGen == lines[1..]
      invariant |rows| == i
      invariant forall k :: 0 <= k < i ==> rows[k] == Zip(columns, RowSplitter(lines[k + 1]))
    {
      rows := rows + [Zip(columns, RowSplitter(csvGen[i]))];
      i := i + 1;
    }
    return Ok(rows);
  }
}
