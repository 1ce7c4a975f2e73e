/** The dashboard page's handling of incoming records: for each of the ten
    sensors a rolling preview of at most 50 points and an unbounded history,
    the hold-last-value substitution for the warm-up value `-1`, the list of the
    100 most recent records, the logged-record counter, and the reset when the
    port reports that it is closed. */
module Dashboard {
  import opened Values
  import Text
  import SentinelFill
  import ElectronParser
  import ElectronMain

  /** A channel's list in a per-channel record, empty when it has none yet
      (`prev[sensor] || []`). */
  function Buffer(m: map<Channel, seq<Point>>, c: Channel): seq<Point> {
    if c in m then m[c] else []
  }

  /** JavaScript truthiness of a value: zero, the empty string and null are
      falsy. */
  predicate Truthy(v: Value) {
    match v
    case Num(r) => r != 0.0
    case Str(s) => s != ""
    case Null => false
  }

  /** The value substituted for `-1`: the value of the last point of the
      channel's preview buffer, or 0 when there is none or it is falsy. */
  function HeldValue(buffer: seq<Point>): Value {
    if |buffer| > 0 && Truthy(buffer[|buffer| - 1].value) then buffer[|buffer| - 1].value else Num(0.0)
  }

  /** A record as the page receives it: a map whose `timestamp` is a string. */
  predicate IsSerialData(data: map<string, Value>) {
    "timestamp" in data && data["timestamp"].Str?
  }

  /** The channel's value in the record, unless it is missing or null. */
  function Reading(data: map<string, Value>, c: Channel): Option<Value> {
    if Key(c) in data && data[Key(c)] != Null then Some(data[Key(c)]) else None
  }

  /** The records the main process sends are well formed, carry the time they
      were stamped with, and give each sensor exactly the reading the parser
      produced for the line. */
  lemma ElectronRecords(timestamp: string, line: string, parse: string -> Option<real>, c: Channel)
    ensures var data := ElectronMain.DataPoint(timestamp, line, parse);
      IsSerialData(data) && data["timestamp"].s == timestamp &&
      Reading(data, c) == Reading(ElectronParser.ParsedFields(Text.Trim(line), parse), c)
  {
    ElectronMain.DataPointFields(timestamp, line, parse);
    Stamped(ElectronParser.ParsedFields(Text.Trim(line), parse), timestamp, Text.Trim(line), c);
  }

  /** Adding the time and the line to a record makes it well formed and
      changes no sensor's reading. */
  lemma Stamped(fields: map<string, Value>, timestamp: string, line: string, c: Channel)
    ensures var data := fields["timestamp" := Str(timestamp)]["raw" := Str(line)];
      IsSerialData(data) && data["timestamp"].s == timestamp && Reading(data, c) == Reading(fields, c)
  {
    assert Key(c) != "timestamp" && Key(c) != "raw";
  }

  /** The chart point for a reading: the local time label of the record's
      timestamp, the reading (or the held value for `-1`), and the timestamp. */
  function MakePoint(data: map<string, Value>, v: Value, buffer: seq<Point>, timeLabel: string -> string): Point
    requires IsSerialData(data)
  {
    var fullTimestamp := data["timestamp"].s;
    Point(timeLabel(fullTimestamp), if v == Sentinel then HeldValue(buffer) else v, fullTimestamp)
  }

  /** `[...buffer.slice(-49), dataPoint]`. */
  function Roll(buffer: seq<Point>, point: Point): seq<Point> {
    (if |buffer| > 49 then buffer[|buffer| - 49..] else buffer) + [point]
  }

  /** The last 50 points of a list, or all of them when there are fewer. */
  function Last50(points: seq<Point>): (last: seq<Point>)
    ensures |last| <= 50
  {
    if |points| > 50 then points[|points| - 50..] else points
  }

  /** The preview grows by one point until it holds 50, ends with the new point,
      and keeps the newest points of the old buffer before it. */
  lemma RollShape(buffer: seq<Point>, point: Point)
    ensures var rolled := Roll(buffer, point);
      |rolled| == (if |buffer| < 50 then |buffer| + 1 else 50) &&
      rolled[|rolled| - 1] == point &&
      rolled[..|rolled| - 1] == buffer[|buffer| - (|rolled| - 1)..]
  {
  }

  /** Rolling the last 50 points of a history gives the last 50 points of the
      history with the new point appended. */
  lemma RollLast50(history: seq<Point>, point: Point)
    ensures Roll(Last50(history), point) == Last50(history + [point])
  {
    if |history| > 50 {
      assert Last50(history)[1..] == history[|history| - 49..];
      assert (history + [point])[|history| + 1 - 50..] == history[|history| - 49..] + [point];
    } else if |history| == 50 {
      assert (history + [point])[1..] == history[1..] + [point];
    }
  }

  /** The two per-channel records: the preview buffers (`previewDataBuffers`)
      and the full histories (`fullHistoryData`). */
  datatype Windows = Windows(preview: map<Channel, seq<Point>>, history: map<Channel, seq<Point>>)

  /** The loop body for one sensor: a reading becomes a point, which rolls into
      the preview and is appended to the history. */
  function IngestChannel(w: Windows, data: map<string, Value>, c: Channel, timeLabel: string -> string): Windows
    requires IsSerialData(data)
  {
    match Reading(data, c)
    case None => w
    case Some(v) =>
      var point := MakePoint(data, v, Buffer(w.preview, c), timeLabel);
      Windows(w.preview[c := Roll(Buffer(w.preview, c), point)], w.history[c := Buffer(w.history, c) + [point]])
  }

  /** The loop over the sensors `cs`, in order. */
  function IngestChannels(w: Windows, data: map<string, Value>, cs: seq<Channel>, timeLabel: string -> string): Windows
    requires IsSerialData(data)
    decreases |cs|
  {
    if cs == [] then w
    else IngestChannel(IngestChannels(w, data, cs[..|cs| - 1], timeLabel), data, cs[|cs| - 1], timeLabel)
  }

  /** One record over all ten sensors. */
  function Ingest(w: Windows, data: map<string, Value>, timeLabel: string -> string): Windows
    requires IsSerialData(data)
  {
    IngestChannels(w, data, Channels, timeLabel)
  }

  /** Channel c's lists are the same in both states, present or absent alike. */
  predicate Untouched(w: Windows, w': Windows, c: Channel) {
    (c in w'.preview <==> c in w.preview) && (c in w'.history <==> c in w.history) &&
    Buffer(w'.preview, c) == Buffer(w.preview, c) && Buffer(w'.history, c) == Buffer(w.history, c)
  }

  /** What a record does to channel c: nothing without a reading; otherwise its
      preview rolls in the new point and its history gains the same point. */
  predicate Updated(w: Windows, w': Windows, data: map<string, Value>, c: Channel, timeLabel: string -> string)
    requires IsSerialData(data)
  {
    match Reading(data, c)
    case None => Untouched(w, w', c)
    case Some(v) =>
      var point := MakePoint(data, v, Buffer(w.preview, c), timeLabel);
      c in w'.preview && c in w'.history &&
      w'.preview[c] == Roll(Buffer(w.preview, c), point) &&
      w'.history[c] == Buffer(w.history, c) + [point]
  }

  /** One sensor's step updates that sensor. */
  lemma ChannelStepSelf(w: Windows, data: map<string, Value>, d: Channel, timeLabel: string -> string)
    requires IsSerialData(data)
    ensures Updated(w, IngestChannel(w, data, d, timeLabel), data, d, timeLabel)
  {
  }

  /** Storing a list under one channel leaves another channel's list as it was. */
  lemma OtherChannel(m: map<Channel, seq<Point>>, d: Channel, points: seq<Point>, c: Channel)
    requires c != d
    ensures (c in m[d := points] <==> c in m) && Buffer(m[d := points], c) == Buffer(m, c)
  {
  }

  /** One sensor's step leaves every other sensor untouched. */
  lemma ChannelStepOther(w: Windows, data: map<string, Value>, d: Channel, c: Channel, timeLabel: string -> string)
    requires IsSerialData(data) && c != d
    ensures Untouched(w, IngestChannel(w, data, d, timeLabel), c)
  {
    if Reading(data, d).Some? {
      var point := MakePoint(data, Reading(data, d).value, Buffer(w.preview, d), timeLabel);
      OtherChannel(w.preview, d, Roll(Buffer(w.preview, d), point), c);
      OtherChannel(w.history, d, Buffer(w.history, d) + [point], c);
    }
  }

  /** The loop over one more sensor is one more step. */
  lemma IngestSnoc(w: Windows, data: map<string, Value>, timeLabel: string -> string, i: nat)
    requires IsSerialData(data) && 0 < i <= |Channels|
    ensures IngestChannels(w, data, Channels[..i], timeLabel)
         == IngestChannel(IngestChannels(w, data, Channels[..i - 1], timeLabel), data, Channels[i - 1], timeLabel)
  {
    assert Channels[..i][..i - 1] == Channels[..i - 1];
  }

  /** The sensors visited before the i-th are the others visited so far. */
  lemma ChannelsPrefix(c: Channel, i: nat)
    requires 0 < i <= |Channels|
    ensures c in Channels[..i] <==> c in Channels[..i - 1] || c == Channels[i - 1]
    ensures Channels[i - 1] !in Channels[..i - 1]
  {
    ChannelsEnumerate();
    assert Channels[..i] == Channels[..i - 1] + [Channels[i - 1]];
  }

  /** Updating a channel after leaving it untouched updates it. */
  lemma UntouchedThenUpdated(w0: Windows, w1: Windows, w2: Windows, data: map<string, Value>, c: Channel, timeLabel: string -> string)
    requires IsSerialData(data)
    requires Untouched(w0, w1, c) && Updated(w1, w2, data, c, timeLabel)
    ensures Updated(w0, w2, data, c, timeLabel)
  {
  }

  /** Leaving a channel untouched after updating it keeps the update. */
  lemma UpdatedThenUntouched(w0: Windows, w1: Windows, w2: Windows, data: map<string, Value>, c: Channel, timeLabel: string -> string)
    requires IsSerialData(data)
    requires Updated(w0, w1, data, c, timeLabel) && Untouched(w1, w2, c)
    ensures Updated(w0, w2, data, c, timeLabel)
  {
  }

  /** Visiting the i-th sensor extends "updated if visited, untouched
      otherwise" from the first i - 1 sensors to the first i. */
  lemma PrefixStep(w: Windows, prev: Windows, data: map<string, Value>, timeLabel: string -> string, c: Channel, i: nat)
    requires IsSerialData(data) && 0 < i <= |Channels|
    requires c in Channels[..i - 1] ==> Updated(w, prev, data, c, timeLabel)
    requires c !in Channels[..i - 1] ==> Untouched(w, prev, c)
    ensures var next := IngestChannel(prev, data, Channels[i - 1], timeLabel);
      (c in Channels[..i] ==> Updated(w, next, data, c, timeLabel)) &&
      (c !in Channels[..i] ==> Untouched(w, next, c))
  {
    var d := Channels[i - 1];
    var next := IngestChannel(prev, data, d, timeLabel);
    ChannelsPrefix(c, i);
    if c == d {
      ChannelStepSelf(prev, data, d, timeLabel);
      UntouchedThenUpdated(w, prev, next, data, c, timeLabel);
    } else {
      ChannelStepOther(prev, data, d, c, timeLabel);
      if c in Channels[..i - 1] {
        UpdatedThenUntouched(w, prev, next, data, c, timeLabel);
      }
    }
  }

  /** The loop over the first i sensors updates each of them and no other. */
  lemma {:induction false} IngestPrefix(w: Windows, data: map<string, Value>, timeLabel: string -> string, c: Channel, i: nat)
    requires IsSerialData(data) && i <= |Channels|
    ensures c in Channels[..i] ==> Updated(w, IngestChannels(w, data, Channels[..i], timeLabel), data, c, timeLabel)
    ensures c !in Channels[..i] ==> Untouched(w, IngestChannels(w, data, Channels[..i], timeLabel), c)
    decreases i
  {
    if i > 0 {
      IngestPrefix(w, data, timeLabel, c, i - 1);
      IngestSnoc(w, data, timeLabel, i);
      PrefixStep(w, IngestChannels(w, data, Channels[..i - 1], timeLabel), data, timeLabel, c, i);
    }
  }

  /** Every sensor is updated by its own reading, independently of the others:
      a sensor without a reading keeps both lists, and a sensor with one gets the
      same new point in its preview and at the end of its history. */
  lemma IngestEffect(w: Windows, data: map<string, Value>, timeLabel: string -> string, c: Channel)
    requires IsSerialData(data)
    ensures Updated(w, Ingest(w, data, timeLabel), data, c, timeLabel)
  {
    ChannelsEnumerate();
    IngestPrefix(w, data, timeLabel, c, |Channels|);
    assert Channels[..|Channels|] == Channels;
  }

  /** No preview holds more than 50 points. */
  predicate Bounded(w: Windows) {
    forall c :: |Buffer(w.preview, c)| <= 50
  }

  /** Every preview is the last 50 points of its history. */
  predicate Tracks(w: Windows) {
    forall c :: Buffer(w.preview, c) == Last50(Buffer(w.history, c))
  }

  /** No preview or history holds the value `-1`. */
  predicate Clean(w: Windows) {
    forall c :: SentinelFill.SentinelFree(Buffer(w.preview, c)) && SentinelFill.SentinelFree(Buffer(w.history, c))
  }

  /** The state after the reset: nothing recorded. */
  const Empty: Windows := Windows(map[], map[])

  /** The reset state satisfies all three invariants. */
  lemma EmptyInvariants()
    ensures Bounded(Empty) && Tracks(Empty) && Clean(Empty)
  {
  }

  /** A preview that tracks its history is bounded. */
  lemma TracksBounded(w: Windows)
    requires Tracks(w)
    ensures Bounded(w)
  {
    forall c
      ensures |Buffer(w.preview, c)| <= 50
    {
      assert Buffer(w.preview, c) == Last50(Buffer(w.history, c));
    }
  }

  /** The new point of a clean buffer is never `-1`. */
  lemma PointIsReading(data: map<string, Value>, v: Value, buffer: seq<Point>, timeLabel: string -> string)
    requires IsSerialData(data) && SentinelFill.SentinelFree(buffer)
    ensures MakePoint(data, v, buffer, timeLabel).value != Sentinel
  {
  }

  /** A record keeps every preview within 50 points. */
  lemma IngestBounded(w: Windows, data: map<string, Value>, timeLabel: string -> string)
    requires IsSerialData(data) && Bounded(w)
    ensures Bounded(Ingest(w, data, timeLabel))
  {
    var w' := Ingest(w, data, timeLabel);
    forall c
      ensures |Buffer(w'.preview, c)| <= 50
    {
      IngestEffect(w, data, timeLabel, c);
    }
  }

  /** A record keeps every preview equal to the last 50 points of its history. */
  lemma IngestTracks(w: Windows, data: map<string, Value>, timeLabel: string -> string)
    requires IsSerialData(data) && Tracks(w)
    ensures Tracks(Ingest(w, data, timeLabel))
  {
    var w' := Ingest(w, data, timeLabel);
    forall c
      ensures Buffer(w'.preview, c) == Last50(Buffer(w'.history, c))
    {
      IngestEffect(w, data, timeLabel, c);
      assert Buffer(w.preview, c) == Last50(Buffer(w.history, c));
      match Reading(data, c)
      case None =>
      case Some(v) =>
        var point := MakePoint(data, v, Buffer(w.preview, c), timeLabel);
        RollLast50(Buffer(w.history, c), point);
    }
  }

  /** Rolling or appending a point that is not `-1` into a clean list keeps it
      clean. */
  lemma AddClean(buffer: seq<Point>, point: Point)
    requires SentinelFill.SentinelFree(buffer) && point.value != Sentinel
    ensures SentinelFill.SentinelFree(Roll(buffer, point))
    ensures SentinelFill.SentinelFree(buffer + [point])
  {
    var kept := if |buffer| > 49 then buffer[|buffer| - 49..] else buffer;
    assert forall k :: 0 <= k < |kept| ==> kept[k] == buffer[|buffer| - |kept| + k];
  }

  /** One channel's update keeps its lists clean. */
  lemma ChannelClean(w: Windows, w': Windows, data: map<string, Value>, c: Channel, timeLabel: string -> string)
    requires IsSerialData(data) && Updated(w, w', data, c, timeLabel)
    requires SentinelFill.SentinelFree(Buffer(w.preview, c)) && SentinelFill.SentinelFree(Buffer(w.history, c))
    ensures SentinelFill.SentinelFree(Buffer(w'.preview, c)) && SentinelFill.SentinelFree(Buffer(w'.history, c))
  {
    match Reading(data, c)
    case None =>
    case Some(v) =>
      var point := MakePoint(data, v, Buffer(w.preview, c), timeLabel);
      PointIsReading(data, v, Buffer(w.preview, c), timeLabel);
      AddClean(Buffer(w.preview, c), point);
      AddClean(Buffer(w.history, c), point);
  }

  /** A record never brings `-1` into a preview or a history. */
  lemma IngestClean(w: Windows, data: map<string, Value>, timeLabel: string -> string)
    requires IsSerialData(data) && Clean(w)
    ensures Clean(Ingest(w, data, timeLabel))
  {
    var w' := Ingest(w, data, timeLabel);
    forall c
      ensures SentinelFill.SentinelFree(Buffer(w'.preview, c)) && SentinelFill.SentinelFree(Buffer(w'.history, c))
    {
      IngestEffect(w, data, timeLabel, c);
      ChannelClean(w, w', data, c, timeLabel);
    }
  }

  /** While the preview tracks the history, the value held for `-1` is the
      value of the history's last point, or 0 when there is none or it is
      falsy: the 50-point window holds the same last point as the full
      history. */
  lemma HeldFromHistory(w: Windows, c: Channel)
    requires Tracks(w)
    ensures var h := Buffer(w.history, c);
      HeldValue(Buffer(w.preview, c)) ==
        if |h| > 0 && Truthy(h[|h| - 1].value) then h[|h| - 1].value else Num(0.0)
  {
    assert Buffer(w.preview, c) == Last50(Buffer(w.history, c));
  }

  /** A clean history is drawn as it is: the charts' warm-up fill has nothing
      to replace in it. */
  lemma HistoryNeedsNoFill(w: Windows, c: Channel)
    requires Clean(w)
    ensures SentinelFill.Fill(Buffer(w.history, c)) == Buffer(w.history, c)
  {
    SentinelFill.FillIdentity(Buffer(w.history, c));
  }

  /** `[data, ...prev.slice(0, 99)]`: the newest record first, at most 100. */
  function Recent(prev: seq<map<string, Value>>, data: map<string, Value>): (recent: seq<map<string, Value>>)
    ensures |recent| == (if |prev| < 100 then |prev| + 1 else 100)
    ensures recent[0] == data && recent[1..] == prev[..|recent| - 1]
  {
    [data] + (if |prev| > 99 then prev[..99] else prev)
  }

  /** The page's state that the serial handlers change. */
  class SerialDashboard {
    var isConnected: bool
    var isLogging: bool
    var currentData: Option<map<string, Value>>
    var recentData: seq<map<string, Value>>
    var previewChartData: seq<Point>
    var fullHistoryData: map<Channel, seq<Point>>
    var previewDataBuffers: map<Channel, seq<Point>>
    var selectedChart: Channel
    var loggedCount: nat

    constructor ()
      ensures !isConnected && !isLogging && currentData.None? && recentData == []
      ensures previewChartData == [] && State() == Empty && selectedChart == Temp && loggedCount == 0
      ensures Valid() && Tracks(State())
    {
      isConnected := false;
      isLogging := false;
      currentData := None;
      recentData := [];
      previewChartData := [];
      fullHistoryData := map[];
      previewDataBuffers := map[];
      selectedChart := Temp;
      loggedCount := 0;
    }

    /** The two per-channel records. */
    function State(): Windows
      reads this
    {
      Windows(previewDataBuffers, fullHistoryData)
    }

    /** What every handler keeps: bounded and clean previews and histories, a
        recent list of at most 100 records, and a preview chart of at most 50
        points none of which holds the `-1` placeholder. */
    predicate Valid()
      reads this
    {
      Bounded(State()) && Clean(State()) && |recentData| <= 100 &&
      |previewChartData| <= 50 && SentinelFill.SentinelFree(previewChartData)
    }

    /** `handleSerialData`: the record becomes the current one and heads the
        recent list; each sensor with a reading gets its point; the selected
        sensor's preview is copied to the preview chart; and the logged count
        goes up by one while logging. */
    method HandleSerialData(data: map<string, Value>, timeLabel: string -> string)
      requires IsSerialData(data) && Valid()
      modifies this
      ensures Valid()
      ensures State() == Ingest(old(State()), data, timeLabel)
      ensures old(Tracks(State())) ==> Tracks(State())
      ensures currentData == Some(data) && recentData == Recent(old(recentData), data)
      ensures previewChartData == if selectedChart in previewDataBuffers then previewDataBuffers[selectedChart] else old(previewChartData)
      ensures loggedCount == if isLogging then old(loggedCount) + 1 else old(loggedCount)
      ensures isConnected == old(isConnected) && isLogging == old(isLogging) && selectedChart == old(selectedChart)
    {
      currentData := Some(data);
      recentData := [data] + (if |recentData| > 99 then recentData[..99] else recentData);
      ghost var start := State();
      var i := 0;
      while i < |Channels|
        invariant 0 <= i <= |Channels|
        invariant State() == IngestChannels(start, data, Channels[..i], timeLabel)
        invariant currentData == Some(data) && recentData == Recent(old(recentData), data)
        invariant previewChartData == old(previewChartData) && loggedCount == old(loggedCount)
        invariant isConnected == old(isConnected) && isLogging == old(isLogging) && selectedChart == old(selectedChart)
      {
        IngestSensor(data, Channels[i], timeLabel);
        IngestSnoc(start, data, timeLabel, i + 1);
        i := i + 1;
      }
      assert Channels[..|Channels|] == Channels;
      IngestBounded(start, data, timeLabel);
      IngestClean(start, data, timeLabel);
      if old(Tracks(State())) {
        IngestTracks(start, data, timeLabel);
      }
      if selectedChart in previewDataBuffers {
        previewChartData := previewDataBuffers[selectedChart];
        assert previewChartData == Buffer(State().preview, selectedChart);
      }
      if isLogging {
        loggedCount := loggedCount + 1;
      }
    }

    /** The body of the `forEach` for one sensor. */
    method IngestSensor(data: map<string, Value>, c: Channel, timeLabel: string -> string)
      requires IsSerialData(data)
      modifies this
      ensures State() == IngestChannel(old(State()), data, c, timeLabel)
      ensures currentData == old(currentData) && recentData == old(recentData)
      ensures previewChartData == old(previewChartData) && loggedCount == old(loggedCount)
      ensures isConnected == old(isConnected) && isLogging == old(isLogging) && selectedChart == old(selectedChart)
    {
      var sensorValue := Reading(data, c);
      if sensorValue.Some? {
        var buffer := Buffer(previewDataBuffers, c);
        var dataPoint := MakePoint(data, sensorValue.value, buffer, timeLabel);
        previewDataBuffers := previewDataBuffers[c := Roll(buffer, dataPoint)];
        fullHistoryData := fullHistoryData[c := Buffer(fullHistoryData, c) + [dataPoint]];
      }
    }

    /** `handleSerialStatus`: the connection flag follows the status; a closed
        port stops logging, zeroes the count and empties the preview chart, the
        previews and the histories. */
    method HandleSerialStatus(connected: bool)
      requires Valid()
      modifies this
      ensures Valid()
      ensures isConnected == connected
      ensures !connected ==> !isLogging && loggedCount == 0 && previewChartData == [] && State() == Empty && Tracks(State())
      ensures connected ==> (isLogging == old(isLogging) && loggedCount == old(loggedCount) &&
        previewChartData == old(previewChartData) && State() == old(State()))
      ensures currentData == old(currentData) && recentData == old(recentData) && selectedChart == old(selectedChart)
    {
      isConnected := connected;
      if !connected {
        isLogging := false;
        loggedCount := 0;
        previewChartData := [];
        fullHistoryData := map[];
        previewDataBuffers := map[];
        EmptyInvariants();
      }
    }

    /** `handleDisconnect` after the port was closed: the current record, the
        recent list, the preview chart and the histories are cleared; the
        preview buffers are left for the status handler to clear. */
    method HandleDisconnect()
      requires Valid()
      modifies this
      ensures Valid()
      ensures currentData.None? && recentData == [] && previewChartData == [] && fullHistoryData == map[]
      ensures previewDataBuffers == old(previewDataBuffers)
      ensures isConnected == old(isConnected) && isLogging == old(isLogging)
      ensures loggedCount == old(loggedCount) && selectedChart == old(selectedChart)
    {
      currentData := None;
      recentData := [];
      previewChartData := [];
      fullHistoryData := map[];
    }

    /** `handleStartLogging`: on success, logging on and the count zeroed. */
    method HandleStartLogging(success: bool)
      requires Valid()
      modifies this
      ensures Valid()
      ensures success ==> isLogging && loggedCount == 0
      ensures !success ==> isLogging == old(isLogging) && loggedCount == old(loggedCount)
      ensures State() == old(State()) && previewChartData == old(previewChartData)
      ensures recentData == old(recentData) && currentData == old(currentData)
      ensures isConnected == old(isConnected) && selectedChart == old(selectedChart)
    {
      if success {
        isLogging := true;
        loggedCount := 0;
      }
    }

    /** `handleStopLogging`: on success, logging off; the count is kept. */
    method HandleStopLogging(success: bool)
      requires Valid()
      modifies this
      ensures Valid()
      ensures isLogging == (old(isLogging) && !success)
      ensures loggedCount == old(loggedCount)
      ensures State() == old(State()) && previewChartData == old(previewChartData)
      ensures recentData == old(recentData) && currentData == old(currentData)
      ensures isConnected == old(isConnected) && selectedChart == old(selectedChart)
    {
      if success {
        isLogging := false;
      }
    }

    /** Choosing a sensor: when the choice changes, the preview chart becomes a
        copy of that sensor's preview buffer, or empty when it has none. */
    method SelectChart(c: Channel)
      requires Valid()
      modifies this
      ensures Valid()
      ensures selectedChart == c
      ensures c != old(selectedChart) ==> previewChartData == Buffer(previewDataBuffers, c)
      ensures c == old(selectedChart) ==> previewChartData == old(previewChartData)
      ensures State() == old(State()) && recentData == old(recentData) && currentData == old(currentData)
      ensures isConnected == old(isConnected) && isLogging == old(isLogging) && loggedCount == old(loggedCount)
    {
      if c != selectedChart {
        selectedChart := c;
        previewChartData := Buffer(previewDataBuffers, c);
        assert previewChartData == Buffer(State().preview, c);
      }
    }
  }
}
