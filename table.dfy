/** `print_table` (`pymelos.cli.output.table`): the lines of a plain
    text table, computed instead of printed. */
module Table {
  import opened Wrappers
  import opened Strings
  import opened Seqs

  /** A row: each column name mapped to its value, already rendered with `str`. */
  type Row = map<string, string>

  /** `str(row.get(col, ""))` */
  function Cell(row: Row, col: string): string {
    if col in row then row[col] else ""
  }

  function Max(a: int, b: int): int {
    if a < b then b else a
  }

  /** `"{:<w}".format(s)`: `s` followed by spaces up to width `w`, never cut. */
  function Pad(s: string, w: nat): (r: string)
    ensures |r| == Max(|s|, w)
    ensures IsPrefix(s, r)
    ensures forall i :: |s| <= i < |r| ==> r[i] == ' '
  {
    var r := s + seq(Max(|s|, w) - |s|, _ => ' ');
    assert r[..|s|] == s;
    r
  }

  /** The longest value of the column, 0 for no rows. */
  function LongestCell(data: seq<Row>, col: string): (w: nat)
    ensures forall i :: 0 <= i < |data| ==> |Cell(data[i], col)| <= w
    ensures data == [] ==> w == 0
    ensures data != [] ==> exists i :: 0 <= i < |data| && |Cell(data[i], col)| == w
  {
    if data == [] then 0
    else
      var rest := LongestCell(data[..|data| - 1], col);
      var last := |Cell(data[|data| - 1], col)|;
      assert forall i :: 0 <= i < |data| - 1 ==> data[..|data| - 1][i] == data[i];
      if rest < last then last else rest
  }

  /** The width of a column: the given one, else the widest of the
      column name and its values. */
  function Width(data: seq<Row>, col: string, given: Option<map<string, nat>>): nat {
    if given.Some? && col in given.value then given.value[col]
    else Max(|col|, LongestCell(data, col))
  }

  /** The widths of the columns, in order. */
  function Widths(data: seq<Row>, columns: seq<string>, given: Option<map<string, nat>>): (ws: seq<nat>)
    ensures |ws| == |columns|
    ensures forall j :: 0 <= j < |ws| ==> ws[j] == Width(data, columns[j], given)
  {
    seq(|columns|, j requires 0 <= j < |columns| => Width(data, columns[j], given))
  }

  /** A line of the table: the cells padded to their widths and joined by " | ". */
  function Format(cells: seq<string>, widths: seq<nat>): string
    requires |cells| == |widths|
  {
    Join(" | ", seq(|cells|, j requires 0 <= j < |cells| => Pad(cells[j], widths[j])))
  }

  /** The header: the upper-cased column names. */
  function Header(columns: seq<string>, widths: seq<nat>): string
    requires |columns| == |widths|
  {
    Format(Map(columns, Upper), widths)
  }

  /** The cells of a row, in column order. */
  function Cells(row: Row, columns: seq<string>): (cells: seq<string>)
    ensures |cells| == |columns|
    ensures forall j :: 0 <= j < |columns| ==> cells[j] == Cell(row, columns[j])
  {
    seq(|columns|, j requires 0 <= j < |columns| => Cell(row, columns[j]))
  }

  function RowLine(row: Row, columns: seq<string>, widths: seq<nat>): string
    requires |columns| == |widths|
  {
    Format(Cells(row, columns), widths)
  }

  /** "-" repeated `n` times. */
  function Dashes(n: nat): (r: string)
    ensures |r| == n && forall i :: 0 <= i < n ==> r[i] == '-'
  {
    seq(n, _ => '-')
  }

  /** The lines `print_table` prints: nothing for no rows; otherwise a
      separator, the header, a separator, one line per row, a separator. */
  function TableLines(data: seq<Row>, columns: seq<string>, given: Option<map<string, nat>>): (lines: seq<string>)
    ensures lines == [] <==> data == []
    ensures data != [] ==> |lines| == |data| + 4
  {
    if data == [] then []
    else
      var widths := Widths(data, columns, given);
      var header := Header(columns, widths);
      var sep := Dashes(|header|);
      [sep, header, sep] + Map(data, (row: Row) => RowLine(row, columns, widths)) + [sep]
  }

  /** `print_table`: the widths are collected column by column, then the
      lines are emitted in order. */
  method PrintTable(data: seq<Row>, columns: seq<string>, given: Option<map<string, nat>>)
    returns (lines: seq<string>)
    ensures lines == TableLines(data, columns, given)
  {
    if data == [] {
      return [];
    }
    var widths := CollectWidths(data, columns, given);
    var header := Format(Map(columns, Upper), widths);
    var sep := Dashes(|header|);
    lines := EmitRows(data, columns, widths, [sep, header, sep]);
    lines := lines + [sep];
  }

  /** The width loop over the columns. */
  method CollectWidths(data: seq<Row>, columns: seq<string>, given: Option<map<string, nat>>)
    returns (widths: seq<nat>)
    ensures widths == Widths(data, columns, given)
  {
    var widthOf: map<string, nat> := map[];
    var i := 0;
    while i < |columns|
      invariant 0 <= i <= |columns|
      invariant forall j :: 0 <= j < i ==> columns[j] in widthOf && widthOf[columns[j]] == Width(data, columns[j], given)
    {
      var col := columns[i];
      if given.Some? && col in given.value {
        widthOf := widthOf[col := given.value[col]];
      } else {
        widthOf := widthOf[col := Max(|col|, LongestCell(data, col))];
      }
      i := i + 1;
    }
    widths := seq(|columns|, j requires 0 <= j < |columns| => widthOf[columns[j]]);
  }

  /** The row loop: one formatted line per row appended to `lines`. */
  method EmitRows(data: seq<Row>, columns: seq<string>, widths: seq<nat>, start: seq<string>)
    returns (lines: seq<string>)
    requires |columns| == |widths|
    ensures lines == start + Map(data, (row: Row) => RowLine(row, columns, widths))
  {
    var rowLine := (row: Row) => RowLine(row, columns, widths);
    lines := start;
    var i := 0;
    while i < |data|
      invariant 0 <= i <= |data|
      invariant lines == start + Map(data[..i], rowLine)
    {
      assert Map(data[..i + 1], rowLine) == Map(data[..i], rowLine) + [rowLine(data[i])];
      lines := lines + [Format(Cells(data[i], columns), widths)];
      i := i + 1;
    }
    assert data[..i] == data;
  }

  /** The length of a line whose cells exactly fill the widths. */
  function LineWidth(widths: seq<nat>): nat {
    if widths == [] then 0
    else if |widths| == 1 then widths[0]
    else widths[0] + 3 + LineWidth(widths[1..])
  }

  /** Cells that fit their widths give a line of exactly `LineWidth`. */
  lemma {:induction false} JoinWidth(parts: seq<string>, widths: seq<nat>)
    requires |parts| == |widths|
    requires forall j :: 0 <= j < |parts| ==> |parts[j]| == widths[j]
    ensures |Join(" | ", parts)| == LineWidth(widths)
    decreases |parts|
  {
    if |parts| > 1 {
      JoinWidth(parts[1..], widths[1..]);
    }
  }

  lemma FormatWidth(cells: seq<string>, widths: seq<nat>)
    requires |cells| == |widths|
    requires forall j :: 0 <= j < |cells| ==> |cells[j]| <= widths[j]
    ensures |Format(cells, widths)| == LineWidth(widths)
  {
    var padded := seq(|cells|, j requires 0 <= j < |cells| => Pad(cells[j], widths[j]));
    JoinWidth(padded, widths);
  }

  /** Every cell shows up whole in its line: cells are padded, never cut. */
  lemma FormatKeepsCells(cells: seq<string>, widths: seq<nat>, j: nat)
    requires |cells| == |widths| && j < |cells|
    ensures Contains(Format(cells, widths), cells[j])
  {
    var padded := seq(|cells|, k requires 0 <= k < |cells| => Pad(cells[k], widths[k]));
    JoinContains(" | ", padded, j);
    ContainsPrefixOf(Format(cells, widths), padded[j], cells[j]);
  }

  /** The first, third and last lines are dashes as long as the header,
      and line `i + 3` is row `i`. */
  lemma TableShape(data: seq<Row>, columns: seq<string>, given: Option<map<string, nat>>)
    ensures data != [] ==>
              var lines := TableLines(data, columns, given);
              var widths := Widths(data, columns, given);
              && lines[1] == Header(columns, widths)
              && lines[0] == lines[2] == lines[|lines| - 1] == Dashes(|lines[1]|)
              && forall i :: 0 <= i < |data| ==> lines[i + 3] == RowLine(data[i], columns, widths)
  {
  }

  /** Each value of row `i` appears whole in line `i + 3`. */
  lemma RowKeepsValues(data: seq<Row>, columns: seq<string>, given: Option<map<string, nat>>, i: nat, j: nat)
    requires i < |data| && j < |columns|
    ensures Contains(TableLines(data, columns, given)[i + 3], Cell(data[i], columns[j]))
  {
    TableShape(data, columns, given);
    FormatKeepsCells(Cells(data[i], columns), Widths(data, columns, given), j);
  }

  /** Computed widths fit the column names and every value. */
  lemma AutoWidthsFit(data: seq<Row>, columns: seq<string>, i: nat)
    requires i < |data|
    ensures var widths := Widths(data, columns, None);
            && |Header(columns, widths)| == LineWidth(widths)
            && |RowLine(data[i], columns, widths)| == LineWidth(widths)
  {
    var widths := Widths(data, columns, None);
    var names := Map(columns, Upper);
    forall j | 0 <= j < |columns| ensures |names[j]| <= widths[j] {
      assert |names[j]| == |columns[j]|;
    }
    FormatWidth(names, widths);
    var cells := Cells(data[i], columns);
    forall j | 0 <= j < |columns| ensures |cells[j]| <= widths[j] {
      assert |cells[j]| <= LongestCell(data, columns[j]);
    }
    FormatWidth(cells, widths);
  }

  /** With the widths computed rather than given, the table is aligned:
      the header and every row are exactly as long as the separator. */
  lemma AutoWidthsAlign(data: seq<Row>, columns: seq<string>, i: nat)
    requires data != [] && i < |data| + 4
    ensures var lines := TableLines(data, columns, None);
            |lines[i]| == |lines[0]| == LineWidth(Widths(data, columns, None))
  {
    var lines := TableLines(data, columns, None);
    var widths := Widths(data, columns, None);
    TableShape(data, columns, None);
    AutoWidthsFit(data, columns, 0);
    assert |lines[1]| == LineWidth(widths);
    assert |lines[0]| == LineWidth(widths);
    if 3 <= i < |data| + 3 {
      AutoWidthsFit(data, columns, i - 3);
      assert lines[i] == RowLine(data[i - 3], columns, widths);
    } else if i != 1 {
      assert lines[i] == lines[0];
    }
  }
}
