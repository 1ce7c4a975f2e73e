/** The Python backend: `parse_serial_data`, the body of the serial read loop
    that turns a received line into a data point, and the logging state behind
    the start, stop and export routes. */
module SerialBackend {
  import opened Values
  import opened Text
  import opened KeyValue

  /** The framing tag `str.replace` deletes wherever it occurs. */
  const FramingTag: string := "[ESP-NOW] RX"

  /** One token of the loop: a token with a colon is split at its first colon
      only (`split(':', 1)`), so the value keeps any later colons; an empty key is
      stored like any other. */
  function PyEntry(part: string, parse: string -> Option<real>): Option<Entry> {
    if ':' !in part then None
    else
      var colon := IndexOf(part, ':');
      Some(Entry(ToLower(Trim(part[..colon])), DecodeValue(Trim(part[colon + 1..]), parse)))
  }

  /** A token yields an entry exactly when it has a colon. */
  lemma PyEntryKeeps(part: string, parse: string -> Option<real>)
    ensures PyEntry(part, parse).Some? <==> ':' in part
    ensures PyEntry(part, parse).Some? ==>
      PyEntry(part, parse).value.key == ToLower(Trim(part[..IndexOf(part, ':')]))
  {
  }

  /** `key:value` with any number of colons in the value keeps the whole value. */
  lemma PyEntrySplitsOnce(key: string, value: string, parse: string -> Option<real>)
    requires ':' !in key
    ensures PyEntry(key + [':'] + value, parse)
         == Some(Entry(ToLower(Trim(key)), DecodeValue(Trim(value), parse)))
  {
    var part := key + [':'] + value;
    IndexOfAfter(key, ':', value);
    assert part[|key|] == ':';
    assert PyEntry(part, parse) == Some(Entry(ToLower(Trim(part[..|key|])), DecodeValue(Trim(part[|key| + 1..]), parse)));
  }

  /** The tokens of a line after every framing tag is deleted. */
  function Tokens(data: string): seq<string> {
    Words(Trim(ReplaceAll(data, FramingTag, "")))
  }

  /** Each token decoded on its own. */
  function Entries(parts: seq<string>, parse: string -> Option<real>): (es: seq<Option<Entry>>)
    ensures |es| == |parts|
    ensures forall i :: 0 <= i < |parts| ==> es[i] == PyEntry(parts[i], parse)
  {
    seq(|parts|, i requires 0 <= i < |parts| => PyEntry(parts[i], parse))
  }

  /** The dictionary `parse_serial_data` returns: the renamed fields and `raw`,
      the line as it was received. */
  function ParsedFields(data: string, parse: string -> Option<real>): (mapped: map<string, Value>)
    ensures "raw" in mapped && mapped["raw"] == Str(data)
    ensures "timestamp" !in mapped
  {
    ReservedKeys();
    WithRaw(Collect(Entries(Tokens(data), parse)), data)
  }

  /** The renamed fields of a stored table, with `raw` added. */
  function WithRaw(result: map<string, Value>, data: string): map<string, Value> {
    Rename(result)["raw" := Str(data)]
  }

  /** An output field of the dictionary is copied from its firmware key. */
  lemma WithRawField(result: map<string, Value>, data: string, o: string)
    requires o in OutputKeys
    ensures o in WithRaw(result, data) <==> SourceKey(o) in result
    ensures o in WithRaw(result, data) ==> WithRaw(result, data)[o] == result[SourceKey(o)]
  {
    ReservedKeys();
  }

  /** Besides `raw`, the dictionary holds only the twelve field names. */
  lemma ParsedFieldKeys(data: string, parse: string -> Option<real>)
    ensures forall k :: k in ParsedFields(data, parse) ==> k in OutputKeys || k == "raw"
  {
  }

  /** An output field is present exactly when some token decodes to an entry
      for its firmware key. */
  lemma ParsedFieldPresent(data: string, parse: string -> Option<real>, o: string)
    requires o in OutputKeys
    ensures o in ParsedFields(data, parse) <==> Mentions(Entries(Tokens(data), parse), SourceKey(o))
  {
    var es := Entries(Tokens(data), parse);
    WithRawField(Collect(es), data, o);
    CollectKeys(es, SourceKey(o));
  }

  /** The last token carrying a field's firmware key gives the field its value. */
  lemma ParsedFieldLastWins(data: string, parse: string -> Option<real>, o: string, i: nat)
    requires o in OutputKeys
    requires var es := Entries(Tokens(data), parse);
      i < |es| && es[i].Some? && es[i].value.key == SourceKey(o) &&
      forall j :: i < j < |es| ==> es[j].None? || es[j].value.key != SourceKey(o)
    ensures o in ParsedFields(data, parse)
    ensures ParsedFields(data, parse)[o] == Entries(Tokens(data), parse)[i].value.value
  {
    var es := Entries(Tokens(data), parse);
    CollectLastWins(es, i);
    WithRawField(Collect(es), data, o);
  }

  /** Deleting the tag shortens the line by its length once per occurrence, and
      a line without the tag is left as it is. */
  lemma TagDeletion(data: string)
    ensures |ReplaceAll(data, FramingTag, "")| == |data| - |FramingTag| * Count(data, FramingTag)
    ensures !Occurs(data, FramingTag) ==> ReplaceAll(data, FramingTag, "") == data
  {
    assert |FramingTag| == 12;
    ReplaceAllLength(data, FramingTag, "");
    if !Occurs(data, FramingTag) {
      ReplaceAllIdentity(data, FramingTag, "");
    }
  }

  /** The parser: every tag is deleted, the line is cut into tokens, the decoded
      tokens are stored in turn, the known keys are renamed and `raw` is added.
      It stands for the source's loop and is proved equal to `ParsedFields`. */
  method ParseSerialData(data: string, parse: string -> Option<real>) returns (mapped: map<string, Value>)
    ensures mapped == ParsedFields(data, parse)
  {
    var cleanData := Trim(ReplaceAll(data, FramingTag, ""));
    var parts := Words(cleanData);
    var result := StoreEntries(Entries(parts, parse));
    mapped := Rename(result);
    mapped := mapped["raw" := Str(data)];
  }

  /** The data point built for a non-empty received line: its time, the line,
      and the parsed fields (whose `raw` is the same line). */
  function DataPoint(timestamp: string, line: string, parse: string -> Option<real>): (point: map<string, Value>)
  {
    Stamp(timestamp, line, ParsedFields(line, parse))
  }

  /** A data point is the parsed dictionary with the time added: the line it
      carries as `raw` is the one `parse_serial_data` already stored. */
  lemma DataPointFields(timestamp: string, line: string, parse: string -> Option<real>)
    ensures DataPoint(timestamp, line, parse) == ParsedFields(line, parse)["timestamp" := Str(timestamp)]
  {
    StampAddsTime(timestamp, line, ParsedFields(line, parse));
  }

  /** The read loop's two steps for a non-empty line: the line is parsed, and
      the data point is stamped with its time and the line. It stands for the
      loop's statements and is proved equal to `DataPoint`. */
  method BuildDataPoint(timestamp: string, line: string, parse: string -> Option<real>) returns (point: map<string, Value>)
    ensures point == DataPoint(timestamp, line, parse)
  {
    var parsed := ParseSerialData(line, parse);
    point := Stamp(timestamp, line, parsed);
  }

  /** The module-level logging state and the latest data point. */
  class SerialBackend {
    var isLogging: bool
    var loggedData: seq<map<string, Value>>
    var latestData: map<string, Value>

    constructor ()
      ensures !isLogging && loggedData == [] && latestData == map[]
    {
      isLogging := false;
      loggedData := [];
      latestData := map[];
    }

    /** One pass of the read loop for the decoded bytes `received`, stamped with
        `timestamp`: a line that is empty after stripping is skipped; otherwise its
        data point becomes the latest one and is logged while logging is on. */
    method ReadLine(received: string, timestamp: string, parse: string -> Option<real>)
      modifies this
      ensures isLogging == old(isLogging)
      ensures |Trim(received)| == 0 ==> latestData == old(latestData) && loggedData == old(loggedData)
      ensures |Trim(received)| > 0 ==> latestData == DataPoint(timestamp, Trim(received), parse)
      ensures |Trim(received)| > 0 && isLogging ==> loggedData == old(loggedData) + [latestData]
      ensures |Trim(received)| > 0 && !isLogging ==> loggedData == old(loggedData)
    {
      var line := Trim(received);
      if |line| > 0 {
        var dataPoint := BuildDataPoint(timestamp, line, parse);
        Record(dataPoint);
      }
    }

    /** A data point becomes the latest one, and is logged while logging is on. */
    method Record(dataPoint: map<string, Value>)
      modifies this
      ensures latestData == dataPoint && isLogging == old(isLogging)
      ensures loggedData == if isLogging then old(loggedData) + [dataPoint] else old(loggedData)
    {
      latestData := dataPoint;
      if isLogging {
        loggedData := loggedData + [dataPoint];
      }
    }

    /** `/serial/log/start`: logging on, log emptied. */
    method StartLogging()
      modifies this
      ensures isLogging && loggedData == [] && latestData == old(latestData)
    {
      isLogging := true;
      loggedData := [];
    }

    /** `/serial/log/stop`: logging off; reports how many points were logged. */
    method StopLogging() returns (dataCount: nat)
      modifies this
      ensures !isLogging && dataCount == |loggedData|
      ensures loggedData == old(loggedData) && latestData == old(latestData)
    {
      isLogging := false;
      dataCount := |loggedData|;
    }

    /** `/serial/log/export`: the rows to write, or the error for an empty log. */
    method ExportCsv() returns (r: Result<seq<map<string, Value>>>)
      ensures loggedData == [] <==> r == Failure("No data to export")
      ensures r.Success? ==> r.value == loggedData
    {
      if loggedData == [] {
        r := Failure("No data to export");
      } else {
        r := Success(loggedData);
      }
    }
  }
}
