/** The logging state of the Electron main process: the serial data handler
    that turns each received line into a data point, and the start, stop and
    export handlers. */
module ElectronMain {
  import opened Values
  import opened Text
  import opened KeyValue
  import ElectronParser
  import SessionCsv

  /** The data point sent to the window for a received line: its time, the
      trimmed line, and the fields parsed from it. */
  function DataPoint(timestamp: string, data: string, parse: string -> Option<real>): map<string, Value> {
    Stamp(timestamp, Trim(data), ElectronParser.ParsedFields(Trim(data), parse))
  }

  /** A data point is the parsed object with the time and the trimmed line
      added; the parser never produces either name itself. */
  lemma DataPointFields(timestamp: string, data: string, parse: string -> Option<real>)
    ensures DataPoint(timestamp, data, parse)
         == ElectronParser.ParsedFields(Trim(data), parse)["timestamp" := Str(timestamp)]["raw" := Str(Trim(data))]
  {
    ReservedKeys();
    StampAddsTimeAndLine(timestamp, Trim(data), ElectronParser.ParsedFields(Trim(data), parse));
  }

  /** The handler's first steps: the line is trimmed and parsed, and the data
      point is built from the time, the line and the parsed fields. It stands
      for the handler's statements and is proved equal to `DataPoint`. */
  method BuildDataPoint(timestamp: string, data: string, parse: string -> Option<real>) returns (dataPoint: map<string, Value>)
    ensures dataPoint == DataPoint(timestamp, data, parse)
  {
    var parsedData := ElectronParser.ParseSerialData(Trim(data), parse);
    dataPoint := Stamp(timestamp, Trim(data), parsedData);
  }

  /** A saved export: the chosen path and the text written to it. */
  datatype SavedFile = SavedFile(filePath: string, content: string)

  /** The module globals `isLogging` and `loggedData`. */
  class MainProcess {
    var isLogging: bool
    var loggedData: seq<map<string, Value>>

    constructor ()
      ensures !isLogging && loggedData == []
    {
      isLogging := false;
      loggedData := [];
    }

    /** The `data` handler of the line parser, for a line that arrived at
        `timestamp`: the data point is logged while logging is on and is
        returned to be sent to the window. */
    method OnSerialData(data: string, timestamp: string, parse: string -> Option<real>) returns (dataPoint: map<string, Value>)
      modifies this
      ensures dataPoint == DataPoint(timestamp, data, parse)
      ensures isLogging == old(isLogging)
      ensures loggedData == if isLogging then old(loggedData) + [dataPoint] else old(loggedData)
    {
      dataPoint := BuildDataPoint(timestamp, data, parse);
      Log(dataPoint);
    }

    /** `loggedData.push(dataPoint)` while logging. */
    method Log(dataPoint: map<string, Value>)
      modifies this
      ensures isLogging == old(isLogging)
      ensures loggedData == if isLogging then old(loggedData) + [dataPoint] else old(loggedData)
    {
      if isLogging {
        loggedData := loggedData + [dataPoint];
      }
    }

    /** `start-logging`: logging on, log emptied. */
    method StartLogging()
      modifies this
      ensures isLogging && loggedData == []
    {
      isLogging := true;
      loggedData := [];
    }

    /** `stop-logging`: logging off, the log kept and its length reported. */
    method StopLogging() returns (dataCount: nat)
      modifies this
      ensures !isLogging && loggedData == old(loggedData)
      ensures dataCount == |loggedData|
    {
      isLogging := false;
      dataCount := |loggedData|;
    }

    /** `export-csv`: an empty log is refused before any dialog; otherwise the
        path chosen in the save dialog (None when it was cancelled) receives the
        log as CSV. The log itself is not changed. */
    method ExportCsv(chosenPath: Option<string>, numText: real -> string) returns (r: Result<SavedFile>)
      ensures |loggedData| == 0 ==> r == Failure("No data to export")
      ensures |loggedData| > 0 && chosenPath.None? ==> r == Failure("Export cancelled")
      ensures r.Success? <==> |loggedData| > 0 && chosenPath.Some?
      ensures r.Success? ==> r.value.filePath == chosenPath.value && r.value.content == SessionCsv.CsvText(loggedData, numText)
      ensures r.Success? ==> r.value.content != ""
    {
      if |loggedData| == 0 {
        return Failure("No data to export");
      }
      match chosenPath
      case None =>
        r := Failure("Export cancelled");
      case Some(path) =>
        var csvContent := SessionCsv.ConvertToCsv(loggedData, numText);
        SessionCsv.CsvEmptyIff(loggedData, numText);
        r := Success(SavedFile(path, csvContent));
    }
  }
}
