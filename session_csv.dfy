/** `convertToCSV` of the Electron main process: the logged data points become a
    header line of fourteen column names and one comma-separated line per point,
    joined by line feeds. */
module SessionCsv {
  import opened Values
  import opened Text
  import opened KeyValue

  /** `columnOrder`: the time, the twelve fields in mapping order, and the line. */
  const Columns: seq<string> := ["timestamp"] + FieldOrder + ["raw"]

  /** The header line. */
  function Header(): string {
    Join(Columns, ',')
  }

  /** What a reader of the file gets back for one column of a data point: nothing
      for a missing or null value, a string as it is, a number as `numText`
      prints it. */
  function CellText(row: map<string, Value>, column: string, numText: real -> string): string {
    if column !in row then ""
    else match row[column]
      case Null => ""
      case Str(s) => s
      case Num(x) => numText(x)
  }

  /** One cell as written: empty for a missing or null value, a string wrapped in
      double quotes when it contains a comma, a number as `numText` prints it. */
  function Cell(row: map<string, Value>, column: string, numText: real -> string): string {
    if column !in row then ""
    else match row[column]
      case Null => ""
      case Str(s) => QuoteIfComma(s)
      case Num(x) => numText(x)
  }

  /** The cells of one data point, in column order (`columnOrder.map`). */
  function Cells(row: map<string, Value>, numText: real -> string): (cells: seq<string>)
    ensures |cells| == |Columns|
  {
    seq(|Columns|, k requires 0 <= k < |Columns| => Cell(row, Columns[k], numText))
  }

  /** The texts a reader gets back from one line, in column order. */
  function Texts(row: map<string, Value>, numText: real -> string): (texts: seq<string>)
    ensures |texts| == |Columns|
  {
    seq(|Columns|, k requires 0 <= k < |Columns| => CellText(row, Columns[k], numText))
  }

  /** One line per data point, in order. */
  function Rows(data: seq<map<string, Value>>, numText: real -> string): (rows: seq<string>)
    ensures |rows| == |data|
  {
    seq(|data|, i requires 0 <= i < |data| => Join(Cells(data[i], numText), ','))
  }

  /** The file: empty for no data, otherwise the header and the rows joined by
      line feeds, with no line feed at the end. */
  function CsvText(data: seq<map<string, Value>>, numText: real -> string): string {
    if |data| == 0 then "" else Join([Header()] + Rows(data, numText), '\n')
  }

  /** The rows of a prefix grow by one line per data point. */
  lemma RowsSnoc(data: seq<map<string, Value>>, i: nat, numText: real -> string)
    requires i < |data|
    ensures Rows(data[..i + 1], numText) == Rows(data[..i], numText) + [Join(Cells(data[i], numText), ',')]
  {
    assert data[..i + 1][i] == data[i];
    assert forall j :: 0 <= j < i ==> data[..i + 1][j] == data[..i][j];
  }

  /** `convertToCSV`: the header first, then each data point's line pushed in
      turn, and the lines joined. It stands for the source's loop and is proved
      equal to `CsvText`. */
  method ConvertToCsv(data: seq<map<string, Value>>, numText: real -> string) returns (csv: string)
    ensures csv == CsvText(data, numText)
  {
    if |data| == 0 {
      return "";
    }
    var csvRows := [Join(Columns, ',')];
    var i := 0;
    while i < |data|
      invariant 0 <= i <= |data|
      invariant csvRows == [Header()] + Rows(data[..i], numText)
    {
      var values := Cells(data[i], numText);
      RowsSnoc(data, i, numText);
      csvRows := csvRows + [Join(values, ',')];
      i := i + 1;
    }
    assert data[..|data|] == data;
    csv := Join(csvRows, '\n');
  }

  /** The file is empty exactly when there is no data. */
  lemma CsvEmptyIff(data: seq<map<string, Value>>, numText: real -> string)
    ensures CsvText(data, numText) == "" <==> |data| == 0
  {
    if |data| > 0 {
      var parts := [Header()] + Rows(data, numText);
      assert |parts| > 1;
      assert Join(parts, '\n') == parts[0] + ['\n'] + Join(parts[1..], '\n');
    }
  }

  /** The printed form of every number is a plain token. */
  ghost predicate PlainNumbers(numText: real -> string) {
    forall x :: ',' !in numText(x) && '"' !in numText(x) && '\n' !in numText(x)
  }

  /** No string value of a data point holds a double quote or a line feed. */
  predicate PlainStrings(row: map<string, Value>) {
    forall k :: k in row && row[k].Str? ==> '"' !in row[k].s && '\n' !in row[k].s
  }

  /** No number is printed with a line feed. */
  ghost predicate LineFreeNumbers(numText: real -> string) {
    forall x :: '\n' !in numText(x)
  }

  /** No string value of a data point holds a line feed. */
  predicate LineFreeStrings(row: map<string, Value>) {
    forall k :: k in row && row[k].Str? ==> '\n' !in row[k].s
  }

  /** No column name holds a comma, a double quote or a line feed. */
  lemma ColumnsArePlain()
    ensures forall k :: 0 <= k < |Columns| ==> ',' !in Columns[k] && '"' !in Columns[k] && '\n' !in Columns[k]
  {
  }

  /** Under plain numbers, a cell is its text, quoted when it has a comma. */
  lemma CellQuotesText(row: map<string, Value>, column: string, numText: real -> string)
    requires PlainNumbers(numText)
    ensures Cell(row, column, numText) == QuoteIfComma(CellText(row, column, numText))
    ensures PlainStrings(row) ==> '"' !in CellText(row, column, numText) && '\n' !in CellText(row, column, numText)
  {
    if column in row && row[column].Num? {
      assert ',' !in numText(row[column].r);
    }
  }

  /** Quoting adds no line feed. */
  lemma QuoteKeepsLines(t: string)
    requires '\n' !in t
    ensures '\n' !in QuoteIfComma(t)
  {
    if ',' in t {
      assert QuoteIfComma(t) == ['"'] + t + ['"'];
    }
  }

  /** A cell holds no line feed when the value it writes holds none; quotes
      and commas in the value do not matter. */
  lemma CellHasNoLineFeed(row: map<string, Value>, column: string, numText: real -> string)
    requires LineFreeNumbers(numText) && LineFreeStrings(row)
    ensures '\n' !in Cell(row, column, numText)
  {
    if column in row {
      match row[column]
      case Null =>
      case Str(s) => QuoteKeepsLines(s);
      case Num(x) => assert '\n' !in numText(x);
    }
  }

  /** A data point's line holds no line feed when its values hold none. */
  lemma RowHasNoLineFeed(row: map<string, Value>, numText: real -> string)
    requires LineFreeNumbers(numText) && LineFreeStrings(row)
    ensures '\n' !in Join(Cells(row, numText), ',')
  {
    var cells := Cells(row, numText);
    forall k | 0 <= k < |cells|
      ensures '\n' !in cells[k]
    {
      CellHasNoLineFeed(row, Columns[k], numText);
    }
    JoinAvoids(cells, ',', '\n');
  }

  /** Splitting the file at line feeds gives the header and one line per data
      point, in order: n + 1 lines for n points. */
  lemma CsvLines(data: seq<map<string, Value>>, numText: real -> string)
    requires |data| > 0 && LineFreeNumbers(numText)
    requires forall i :: 0 <= i < |data| ==> LineFreeStrings(data[i])
    ensures Split(CsvText(data, numText), '\n') == [Header()] + Rows(data, numText)
    ensures |Split(CsvText(data, numText), '\n')| == |data| + 1
  {
    var parts := [Header()] + Rows(data, numText);
    ColumnsArePlain();
    JoinAvoids(Columns, ',', '\n');
    forall i | 0 <= i < |parts|
      ensures '\n' !in parts[i]
    {
      if i > 0 {
        RowHasNoLineFeed(data[i - 1], numText);
      }
    }
    SplitJoin(parts, '\n');
  }

  /** Reading a data point's line back at its commas gives every column's text,
      in column order, as long as no string holds a double quote. */
  lemma RowRoundTrip(row: map<string, Value>, numText: real -> string)
    requires PlainNumbers(numText) && PlainStrings(row)
    ensures DecodeFields(Join(Cells(row, numText), ',')) == Texts(row, numText)
  {
    var cells := Cells(row, numText);
    var texts := Texts(row, numText);
    forall k | 0 <= k < |texts|
      ensures '"' !in texts[k] && cells[k] == QuoteIfComma(texts[k])
    {
      CellQuotesText(row, Columns[k], numText);
    }
    DecodeQuotedJoin(cells, texts);
  }

  /** The header is read back as the column names. */
  lemma HeaderRoundTrip()
    ensures DecodeFields(Header()) == Columns
  {
    ColumnsArePlain();
    forall k | 0 <= k < |Columns|
      ensures Columns[k] == QuoteIfComma(Columns[k])
    {
    }
    DecodeQuotedJoin(Columns, Columns);
  }

  /** The whole file read back: line 0 is the header and line i + 1 gives the
      texts of data point i. */
  lemma CsvRoundTrip(data: seq<map<string, Value>>, numText: real -> string, i: nat)
    requires i < |data| && PlainNumbers(numText)
    requires forall j :: 0 <= j < |data| ==> PlainStrings(data[j])
    ensures |Split(CsvText(data, numText), '\n')| == |data| + 1
    ensures DecodeFields(Split(CsvText(data, numText), '\n')[0]) == Columns
    ensures DecodeFields(Split(CsvText(data, numText), '\n')[i + 1]) == Texts(data[i], numText)
  {
    CsvLines(data, numText);
    HeaderRoundTrip();
    RowRoundTrip(data[i], numText);
  }
}
