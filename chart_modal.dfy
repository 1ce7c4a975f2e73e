/** The expanded chart of one sensor: its points after the warm-up fill, and the
    `exportChartData` download of those points as a two-column CSV file. */
module ChartModal {
  import opened Values
  import opened Text
  import SentinelFill

  /** The first line of the file. */
  const CsvHeader: string := "timestamp,value"

  /** A value inside a template literal: a number as `numText` prints it, a
      string as it is, and null as `null`. */
  function ValueText(v: Value, numText: real -> string): string {
    match v
    case Num(r) => numText(r)
    case Str(s) => s
    case Null => "null"
  }

  /** The line of one point: its full timestamp, a comma, and its value. */
  function Line(point: Point, numText: real -> string): string {
    Join([point.fullTimestamp, ValueText(point.value, numText)], ',')
  }

  /** The lines of the points, in order (`currentData.map`). */
  function Lines(points: seq<Point>, numText: real -> string): (lines: seq<string>)
    ensures |lines| == |points|
  {
    seq(|points|, i requires 0 <= i < |points| => Line(points[i], numText))
  }

  /** What the anchor's click downloads: the file name and the text. */
  datatype Download = Download(fileName: string, content: string)

  /** `exportChartData`: nothing for an empty chart; otherwise the header and
      one line per filled point, joined by line feeds, named after the selected
      sensor. */
  function ExportChartData(rawData: seq<Point>, selectedChart: Channel, numText: real -> string): (r: Option<Download>)
    ensures r.None? <==> |rawData| == 0
  {
    var currentData := SentinelFill.Fill(rawData);
    if |currentData| == 0 then None
    else Some(Download(Key(selectedChart) + "-chart-data.csv", Join([CsvHeader] + Lines(currentData, numText), '\n')))
  }

  /** A text without commas and line feeds. */
  predicate Plain(t: string) {
    ',' !in t && '\n' !in t
  }

  /** No number is printed with a comma or a line feed. */
  ghost predicate PlainNumbers(numText: real -> string) {
    forall x :: Plain(numText(x))
  }

  /** No point's full timestamp or string value holds a comma or a line feed. */
  predicate PlainPoints(points: seq<Point>) {
    forall i :: 0 <= i < |points| ==>
      Plain(points[i].fullTimestamp) && (points[i].value.Str? ==> Plain(points[i].value.s))
  }

  /** No number is printed with a line feed. */
  ghost predicate LineFreeNumbers(numText: real -> string) {
    forall x :: '\n' !in numText(x)
  }

  /** No point's full timestamp or string value holds a line feed; commas do
      not matter for the line count. */
  predicate LineFreePoints(points: seq<Point>) {
    forall i :: 0 <= i < |points| ==>
      '\n' !in points[i].fullTimestamp && (points[i].value.Str? ==> '\n' !in points[i].value.s)
  }

  /** The value of every filled point prints without a line feed. */
  lemma FilledValueLineFree(rawData: seq<Point>, numText: real -> string, i: nat)
    requires i < |rawData| && LineFreeNumbers(numText) && LineFreePoints(rawData)
    ensures '\n' !in ValueText(SentinelFill.Fill(rawData)[i].value, numText)
  {
    SentinelFill.FillValuesFrom(rawData, i);
    var v := SentinelFill.Fill(rawData)[i].value;
    if v.Num? {
      assert '\n' !in numText(v.r);
    }
  }

  /** The value of every filled point prints as a plain text. */
  lemma FilledValuePlain(rawData: seq<Point>, numText: real -> string, i: nat)
    requires i < |rawData| && PlainNumbers(numText) && PlainPoints(rawData)
    ensures Plain(ValueText(SentinelFill.Fill(rawData)[i].value, numText))
  {
    SentinelFill.FillValuesFrom(rawData, i);
    var v := SentinelFill.Fill(rawData)[i].value;
    if v.Num? {
      assert Plain(numText(v.r));
    }
  }

  /** The line of every filled point holds no line feed. */
  lemma FilledLineLineFree(rawData: seq<Point>, numText: real -> string, i: nat)
    requires i < |rawData| && LineFreeNumbers(numText) && LineFreePoints(rawData)
    ensures '\n' !in Lines(SentinelFill.Fill(rawData), numText)[i]
  {
    var point := SentinelFill.Fill(rawData)[i];
    SentinelFill.FillKeepsTimes(rawData);
    FilledValueLineFree(rawData, numText, i);
    JoinAvoids([point.fullTimestamp, ValueText(point.value, numText)], ',', '\n');
  }

  /** The file has the header and one line per point, in order: n + 1 lines for
      n points, with no line feed at the end. */
  lemma ExportLines(rawData: seq<Point>, selectedChart: Channel, numText: real -> string)
    requires |rawData| > 0 && LineFreeNumbers(numText) && LineFreePoints(rawData)
    ensures var r := ExportChartData(rawData, selectedChart, numText);
      r.Some? &&
      Split(r.value.content, '\n') == [CsvHeader] + Lines(SentinelFill.Fill(rawData), numText) &&
      |Split(r.value.content, '\n')| == |rawData| + 1
  {
    var parts := [CsvHeader] + Lines(SentinelFill.Fill(rawData), numText);
    forall i | 0 <= i < |parts|
      ensures '\n' !in parts[i]
    {
      if i > 0 {
        FilledLineLineFree(rawData, numText, i - 1);
      }
    }
    SplitJoin(parts, '\n');
  }

  /** A line reads back, at its comma, as the full timestamp and the value. */
  lemma LineRoundTrip(point: Point, numText: real -> string)
    requires Plain(point.fullTimestamp) && Plain(ValueText(point.value, numText))
    ensures Split(Line(point, numText), ',') == [point.fullTimestamp, ValueText(point.value, numText)]
  {
    SplitJoin([point.fullTimestamp, ValueText(point.value, numText)], ',');
  }

  /** Line i + 1 of the file reads back as point i's full timestamp and its
      filled value, which is never the sentinel. */
  lemma ExportRoundTrip(rawData: seq<Point>, selectedChart: Channel, numText: real -> string, i: nat)
    requires i < |rawData| && PlainNumbers(numText) && PlainPoints(rawData)
    ensures var r := ExportChartData(rawData, selectedChart, numText);
      var v := SentinelFill.Fill(rawData)[i].value;
      r.Some? && |Split(r.value.content, '\n')| == |rawData| + 1 &&
      Split(Split(r.value.content, '\n')[i + 1], ',') == [rawData[i].fullTimestamp, ValueText(v, numText)] &&
      v != Sentinel
  {
    var filled := SentinelFill.Fill(rawData);
    ExportLines(rawData, selectedChart, numText);
    SentinelFill.FillKeepsTimes(rawData);
    SentinelFill.FillSentinelFree(rawData);
    FilledValuePlain(rawData, numText, i);
    LineRoundTrip(filled[i], numText);
    assert Lines(filled, numText)[i] == Line(filled[i], numText);
  }

  /** The download is named after the sensor's key: the key followed by
      `-chart-data.csv`. */
  lemma ExportFileName(rawData: seq<Point>, selectedChart: Channel, numText: real -> string)
    requires |rawData| > 0
    ensures var r := ExportChartData(rawData, selectedChart, numText);
      r.Some? && r.value.fileName == Key(selectedChart) + "-chart-data.csv" &&
      StartsWith(r.value.fileName, Key(selectedChart)) && EndsWith(r.value.fileName, ".csv")
  {
    var name := Key(selectedChart) + "-chart-data.csv";
    ConcatHalves(Key(selectedChart), "-chart-data.csv");
    assert name[|name| - 4..] == ".csv";
  }
}
