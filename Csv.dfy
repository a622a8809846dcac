/** exportMatrixToCSV and exportAllMatrices of recursiveMatrix846.cpp, with
    the file contents as strings: one line per matrix row, the row's entries
    separated by commas, every line ended by a newline. The files themselves,
    the directory creation and the messages on the console are not modelled;
    the working directory is a parameter. */
module Csv {
  import opened Text
  import opened Matrices
  import opened RecursiveMatrices

  /** An entry as `file << matrix.get(i, j)` writes it: every entry populateM
      stores is a whole number, which prints as its decimal numeral. */
  function Cell(x: int): (s: string)
    ensures ',' !in s && '\n' !in s
  {
    if x < 0 then "-" + Decimal(-x) else Decimal(x)
  }

  /** Reads one entry back; None for text that is not a numeral. */
  function ParseCell(s: string): Option<int>
  {
    if |s| > 1 && s[0] == '-' && AllDigits(s[1..]) then Some(0 - ParseDigits(s[1..]) as int)
    else if |s| > 0 && AllDigits(s) then Some(ParseDigits(s))
    else None
  }

  /** Every entry reads back as itself. */
  lemma CellRoundTrip(x: int)
    ensures ParseCell(Cell(x)) == Some(x)
  {
    if x < 0 {
      var d := Decimal(-x);
      var s := "-" + d;
      assert s[0] == '-' && s[1..] == d;
      DecimalRoundTrip(-x);
      assert ParseCell(s) == Some(0 - ParseDigits(d) as int);
    } else {
      var d := Decimal(x);
      assert IsDigit(d[0]);
      DecimalRoundTrip(x);
      assert ParseCell(d) == Some(ParseDigits(d) as int);
    }
  }

  /** What the column loop of exportMatrixToCSV has written for row after j
      columns: each entry, followed by a comma unless it is the last one. */
  function LinePrefix(row: seq<int>, j: nat): string
    requires j <= |row|
  {
    if j == 0 then ""
    else LinePrefix(row, j - 1) + Cell(row[j - 1]) + (if j - 1 != |row| - 1 then "," else "")
  }

  /** The text of one row, without its newline. */
  function Line(row: seq<int>): string
  {
    LinePrefix(row, |row|)
  }

  function Cells(row: seq<int>): (cells: seq<string>)
    ensures |cells| == |row|
  {
    seq(|row|, j requires 0 <= j < |row| => Cell(row[j]))
  }

  /** After j < |row| columns the written text is the first j entries joined
      by commas, followed by one more comma. */
  lemma {:induction false} LinePrefixIsJoin(row: seq<int>, j: nat)
    requires 0 < j <= |row|
    ensures LinePrefix(row, j) == Join(Cells(row)[..j], ',') + (if j < |row| then "," else "")
  {
    var cells := Cells(row);
    assert cells[..j] == cells[..j - 1] + [cells[j - 1]];
    JoinSnoc(cells[..j - 1], cells[j - 1], ',');
    if j > 1 {
      LinePrefixIsJoin(row, j - 1);
    }
  }

  /** A row's line is its entries joined by commas. */
  lemma LineIsJoin(row: seq<int>)
    ensures Line(row) == Join(Cells(row), ',')
  {
    if |row| > 0 {
      LinePrefixIsJoin(row, |row|);
      assert Cells(row)[..|row|] == Cells(row);
    }
  }

  /** A character in no part and not the separator is not in the join. */
  lemma {:induction false} JoinAbsent(parts: seq<string>, sep: char, ch: char)
    requires ch != sep && forall t :: 0 <= t < |parts| ==> ch !in parts[t]
    ensures ch !in Join(parts, sep)
  {
    if |parts| > 1 {
      JoinAbsent(parts[1..], sep, ch);
    }
  }

  /** A line holds no newline, and a row of size >= 1 holds size - 1 commas. */
  lemma LineShape(row: seq<int>)
    ensures '\n' !in Line(row)
    ensures |row| >= 1 ==> Count(Line(row), ',') == |row| - 1
  {
    LineIsJoin(row);
    JoinAbsent(Cells(row), ',', '\n');
    if |row| >= 1 {
      JoinCount(Cells(row), ',');
    }
  }

  function Lines(g: Grid): (lines: seq<string>)
    ensures |lines| == |g|
  {
    seq(|g|, r requires 0 <= r < |g| => Line(g[r]))
  }

  /** The contents of the file exportMatrixToCSV writes for the matrix g:
      the line of each row, each followed by a newline. */
  function CsvText(g: Grid): string
  {
    Terminated(Lines(g), '\n')
  }

  lemma LinesFree(g: Grid)
    ensures forall t :: 0 <= t < |Lines(g) + [""]| ==> '\n' !in (Lines(g) + [""])[t]
  {
    forall t | 0 <= t < |g|
      ensures '\n' !in Lines(g)[t]
    {
      LineShape(g[t]);
    }
  }

  /** The file holds exactly the lines of the rows, in order, each ended by a
      newline; so it has as many newlines as the matrix has rows. */
  lemma CsvLines(g: Grid)
    ensures Split(CsvText(g), '\n') == Lines(g) + [""]
    ensures Count(CsvText(g), '\n') == |g|
  {
    TerminatedIsJoin(Lines(g), '\n');
    LinesFree(g);
    SplitJoin(Lines(g) + [""], '\n');
    JoinCount(Lines(g) + [""], '\n');
  }

  /** The layout promised for a square matrix: size lines, size - 1 commas on
      each, each ended by a newline. */
  lemma CsvShape(g: Grid, n: nat)
    requires Square(g, n)
    ensures Count(CsvText(g), '\n') == n
    ensures |Split(CsvText(g), '\n')| == n + 1 && Split(CsvText(g), '\n')[n] == ""
    ensures n >= 1 ==> forall r :: 0 <= r < n ==> Count(Split(CsvText(g), '\n')[r], ',') == n - 1
  {
    CsvLines(g);
    forall r | 0 <= r < n
      ensures n >= 1 ==> Count(Lines(g)[r], ',') == n - 1
    {
      LineShape(g[r]);
    }
  }

  function ParseCells(cells: seq<string>): Option<seq<int>>
  {
    if |cells| == 0 then Some([])
    else match (ParseCell(cells[0]), ParseCells(cells[1..]))
      case (Some(x), Some(xs)) => Some([x] + xs)
      case _ => None
  }

  function ParseRows(lines: seq<string>): Option<Grid>
  {
    if |lines| == 0 then Some([])
    else match (ParseCells(Split(lines[0], ',')), ParseRows(lines[1..]))
      case (Some(row), Some(rows)) => Some([row] + rows)
      case _ => None
  }

  /** Reads a file written by exportMatrixToCSV back into a matrix; None when
      the text does not end its last line or an entry is not a numeral. */
  function ParseCsv(text: string): Option<Grid>
  {
    var pieces := Split(text, '\n');
    if pieces[|pieces| - 1] != "" then None else ParseRows(pieces[..|pieces| - 1])
  }

  lemma {:induction false} ParseCellsRoundTrip(row: seq<int>)
    ensures ParseCells(Cells(row)) == Some(row)
  {
    if |row| > 0 {
      CellRoundTrip(row[0]);
      assert Cells(row)[1..] == Cells(row[1..]);
      ParseCellsRoundTrip(row[1..]);
      assert [row[0]] + row[1..] == row;
    }
  }

  lemma ParseLineRoundTrip(row: seq<int>)
    requires |row| >= 1
    ensures ParseCells(Split(Line(row), ',')) == Some(row)
  {
    LineIsJoin(row);
    SplitJoin(Cells(row), ',');
    ParseCellsRoundTrip(row);
  }

  /** Lines that each read back as a row read back as the matrix of rows. */
  lemma {:induction false} ParseRowsAll(lines: seq<string>, g: Grid)
    requires |lines| == |g|
    requires forall r :: 0 <= r < |g| ==> ParseCells(Split(lines[r], ',')) == Some(g[r])
    ensures ParseRows(lines) == Some(g)
  {
    if |g| > 0 {
      ParseRowsAll(lines[1..], g[1..]);
      assert [g[0]] + g[1..] == g;
    }
  }

  /** The file of a matrix whose rows are not empty reads back as the matrix. */
  lemma CsvRoundTrip(g: Grid)
    requires forall r :: 0 <= r < |g| ==> |g[r]| >= 1
    ensures ParseCsv(CsvText(g)) == Some(g)
  {
    CsvLines(g);
    assert (Lines(g) + [""])[..|g|] == Lines(g);
    forall r | 0 <= r < |g|
      ensures ParseCells(Split(Lines(g)[r], ',')) == Some(g[r])
    {
      ParseLineRoundTrip(g[r]);
    }
    ParseRowsAll(Lines(g), g);
  }

  /** One step of the column loop: the entry, then a comma unless it is the
      last column. */
  lemma LinePrefixStep(row: seq<int>, j: nat, piece: string)
    requires j < |row|
    requires piece == Cell(row[j]) + (if j != |row| - 1 then "," else "")
    ensures LinePrefix(row, j + 1) == LinePrefix(row, j) + piece
  {
  }

  /** The column loop of exportMatrixToCSV for row i: the text it writes
      before the newline. */
  method WriteRow(m: RecursiveMatrix, i: nat) returns (line: string)
    requires m.Valid() && i < m.n
    ensures line == Line(m.data[i])
  {
    var size := m.Size();
    ghost var row := m.data[i];
    line := "";
    var j := 0;
    while j < size
      invariant 0 <= j <= size
      invariant line == LinePrefix(row, j)
    {
      var piece := Cell(m.Get(i, j));
      if j != size - 1 {
        piece := piece + ",";
      }
      LinePrefixStep(row, j, piece);
      line := line + piece;
      j := j + 1;
    }
  }

  /** One step of the row loop: the row's line and a newline. */
  lemma CsvTextSnoc(g: Grid, i: nat)
    requires i < |g|
    ensures CsvText(g[..i + 1]) == CsvText(g[..i]) + Line(g[i]) + "\n"
  {
    assert Lines(g[..i + 1]) == Lines(g[..i]) + [Line(g[i])];
  }

  /** exportMatrixToCSV(matrix, filename): the text written to the file. */
  method ExportMatrixText(m: RecursiveMatrix) returns (text: string)
    requires m.Valid()
    ensures text == CsvText(m.data)
  {
    var size := m.Size();
    text := "";
    var i := 0;
    ghost var g := m.data;
    while i < size
      invariant 0 <= i <= size
      invariant text == CsvText(g[..i])
    {
      var line := WriteRow(m, i);
      CsvTextSnoc(g, i);
      text := text + line + "\n";
      i := i + 1;
    }
    assert g[..size] == g;
  }

  /** exportDir + "/matrix_m" + to_string(i + 1) + ".csv", where exportDir is
      the working directory followed by "/exportedMatrices". */
  function ExportName(base: string, i: nat): string
  {
    base + "/exportedMatrices" + "/matrix_m" + Decimal(i + 1) + ".csv"
  }

  /** The name of export i is the export directory, "/matrix_m", a numeral
      and ".csv", and the numeral reads back as i + 1, the index of m_(i+1). */
  lemma ExportNameReadsBack(base: string, i: nat)
    ensures var r, p := ExportName(base, i), |base| + |"/exportedMatrices/matrix_m"|;
      p < |r| - 4 && r[..p] == base + "/exportedMatrices/matrix_m" && r[|r| - 4..] == ".csv" &&
      AllDigits(r[p..|r| - 4]) && ParseDigits(r[p..|r| - 4]) == i + 1
  {
    DecimalRoundTrip(i + 1);
    var r := ExportName(base, i);
    assert r[|base| + 26..|r| - 4] == Decimal(i + 1);
  }

  /** Different indices give different file names, so no export overwrites
      another. */
  lemma ExportNamesDistinct(base: string, i: nat, j: nat)
    requires i != j
    ensures ExportName(base, i) != ExportName(base, j)
  {
    var p := base + "/exportedMatrices" + "/matrix_m";
    var di, dj := Decimal(i + 1), Decimal(j + 1);
    if ExportName(base, i) == ExportName(base, j) {
      var s := ExportName(base, i);
      assert s == p + di + ".csv" && s == p + dj + ".csv";
      assert |di| == |dj|;
      assert di == s[|p|..|p| + |di|] == dj;
      DecimalInjective(i + 1, j + 1);
    }
  }

  /** The names are matrix_m2.csv, matrix_m3.csv, ..: index i >= 1 never
      gives matrix_m1.csv, the name of m_1, which is not exported. */
  lemma ExportSkipsFirst(base: string, i: nat)
    requires i >= 1
    ensures ExportName(base, i) != ExportName(base, 0)
  {
    ExportNamesDistinct(base, i, 0);
  }

  /** exportAllMatrices(mvals): for i = 1 .. |mvals| - 1 the file name and
      the text of mvals[i], in the order written. */
  method ExportAllMatrices(base: string, mvals: seq<RecursiveMatrix>)
    returns (files: seq<(string, string)>)
    requires forall t :: 0 <= t < |mvals| ==> mvals[t].Valid()
    ensures |files| == if |mvals| <= 1 then 0 else |mvals| - 1
    ensures forall t :: 0 <= t < |files| ==>
              files[t] == (ExportName(base, t + 1), CsvText(mvals[t + 1].data))
  {
    files := [];
    var i := 1;
    while i < |mvals|
      invariant 1 <= i <= if |mvals| == 0 then 1 else |mvals|
      invariant |files| == i - 1
      invariant forall t :: 0 <= t < |files| ==>
                  files[t] == (ExportName(base, t + 1), CsvText(mvals[t + 1].data))
    {
      var filename := base + "/exportedMatrices" + "/matrix_m" + Decimal(i + 1) + ".csv";
      var text := ExportMatrixText(mvals[i]);
      files := files + [(filename, text)];
      i := i + 1;
    }
  }
}
