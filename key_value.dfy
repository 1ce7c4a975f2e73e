/** The `key:value` line protocol shared by the Electron main process and the
    Python backend: how one value text is decoded, how the decoded pairs of a line
    collect into a table where a later key overwrites an earlier one, and how the
    firmware's short keys are renamed to the field names the dashboard uses. */
module KeyValue {
  import opened Values

  /** The three exact spellings the firmware prints for a missing reading. */
  predicate IsMissingMarker(v: string) {
    v == "nan" || v == "inf" || v == "-inf"
  }

  /** Decodes one trimmed value text. `parse` is the platform's number reader
      (`Number.parseFloat` or `float()`), returning None where that reader yields
      NaN or raises. */
  function DecodeValue(v: string, parse: string -> Option<real>): (d: Value)
    ensures d == Null <==> IsMissingMarker(v)
    ensures d.Num? ==> parse(v) == Some(d.r)
    ensures d.Str? ==> d.s == v && parse(v) == None
  {
    if IsMissingMarker(v) then Null
    else match parse(v)
      case Some(x) => Num(x)
      case None => Str(v)
  }

  /** One decoded `key:value` token. */
  datatype Entry = Entry(key: string, value: Value)

  /** Some token of `es` decoded to an entry for key k. */
  predicate Mentions(es: seq<Option<Entry>>, k: string) {
    exists i :: 0 <= i < |es| && es[i].Some? && es[i].value.key == k
  }

  /** The table built by storing each decoded token in turn (`result[key] = ...`);
      tokens that decoded to nothing are skipped. */
  function Collect(es: seq<Option<Entry>>): (m: map<string, Value>)
    decreases |es|
  {
    if es == [] then map[]
    else
      var m := Collect(es[..|es| - 1]);
      match es[|es| - 1]
      case None => m
      case Some(e) => m[e.key := e.value]
  }

  /** Storing one more token. */
  lemma CollectSnoc(es: seq<Option<Entry>>, i: nat)
    requires i < |es|
    ensures es[i].None? ==> Collect(es[..i + 1]) == Collect(es[..i])
    ensures es[i].Some? ==> Collect(es[..i + 1]) == Collect(es[..i])[es[i].value.key := es[i].value.value]
  {
    assert es[..i + 1][..i] == es[..i];
  }

  /** The storing loop: each decoded token is written into the table in turn,
      so a later token overwrites an earlier one with the same key. */
  method StoreEntries(es: seq<Option<Entry>>) returns (result: map<string, Value>)
    ensures result == Collect(es)
  {
    result := map[];
    var i := 0;
    while i < |es|
      invariant 0 <= i <= |es|
      invariant result == Collect(es[..i])
    {
      CollectSnoc(es, i);
      if es[i].Some? {
        result := result[es[i].value.key := es[i].value.value];
      }
      i := i + 1;
    }
    assert es[..|es|] == es;
  }

  /** A key is in the table exactly when some token mentions it. */
  lemma {:induction false} CollectKeys(es: seq<Option<Entry>>, k: string)
    ensures k in Collect(es) <==> Mentions(es, k)
    decreases |es|
  {
    if es != [] {
      var init := es[..|es| - 1];
      CollectKeys(init, k);
      if Mentions(init, k) {
        var i :| 0 <= i < |init| && init[i].Some? && init[i].value.key == k;
        assert es[i] == init[i];
      }
      if Mentions(es, k) && !(es[|es| - 1].Some? && es[|es| - 1].value.key == k) {
        var i :| 0 <= i < |es| && es[i].Some? && es[i].value.key == k;
        assert i < |es| - 1 && init[i] == es[i];
      }
    }
  }

  /** The last token that mentions a key decides its value. */
  lemma {:induction false} CollectLastWins(es: seq<Option<Entry>>, i: nat)
    requires i < |es| && es[i].Some?
    requires forall j :: i < j < |es| ==> es[j].None? || es[j].value.key != es[i].value.key
    ensures es[i].value.key in Collect(es)
    ensures Collect(es)[es[i].value.key] == es[i].value.value
    decreases |es|
  {
    if i < |es| - 1 {
      var init := es[..|es| - 1];
      assert init[i] == es[i];
      CollectLastWins(init, i);
    }
  }

  /** The twelve field names a parsed line can carry. */
  const OutputKeys: set<string> :=
    {"temp", "humid", "ch4", "co2", "tvoc", "co", "nox", "pm_1_0", "pm_2_5", "pm_10_0", "lat", "lon"}

  /** The twelve field names in the order the mapping step writes them. */
  const FieldOrder: seq<string> :=
    ["temp", "humid", "ch4", "co2", "tvoc", "co", "nox", "pm_1_0", "pm_2_5", "pm_10_0", "lat", "lon"]

  /** The firmware's keys that are renamed; every other key is dropped. */
  const SourceKeys: set<string> :=
    {"t", "h", "ch4", "co2", "tvoc", "co", "nox", "pm1.0", "pm2.5", "pm10.0", "lat", "lon"}

  /** The two fields every data point carries besides the parsed ones. */
  lemma ReservedKeys()
    ensures "raw" !in OutputKeys && "timestamp" !in OutputKeys
  {
  }

  /** The firmware key each output field is read from. */
  function SourceKey(out: string): string {
    if out == "temp" then "t"
    else if out == "humid" then "h"
    else if out == "pm_1_0" then "pm1.0"
    else if out == "pm_2_5" then "pm2.5"
    else if out == "pm_10_0" then "pm10.0"
    else out
  }

  /** Every output field is read from one of the firmware's keys. */
  lemma SourceKeyIsKnown(o: string)
    requires o in OutputKeys
    ensures SourceKey(o) in SourceKeys
  {
  }

  /** The mapping step: each output field is copied from its firmware key when
      that key is present. */
  function Rename(result: map<string, Value>): (mapped: map<string, Value>)
    ensures mapped.Keys <= OutputKeys
    ensures forall o :: o in OutputKeys ==> (o in mapped <==> SourceKey(o) in result)
    ensures forall o :: o in mapped ==> mapped[o] == result[SourceKey(o)]
  {
    map o | o in OutputKeys && SourceKey(o) in result :: result[SourceKey(o)]
  }

  /** Keys outside the firmware's twelve do not influence the renamed fields. */
  lemma RenameIgnoresOtherKeys(result: map<string, Value>, k: string, v: Value)
    requires k !in SourceKeys
    ensures Rename(result[k := v]) == Rename(result)
  {
    forall o | o in OutputKeys
      ensures SourceKey(o) != k
    {
      SourceKeyIsKnown(o);
    }
  }

  /** A data point (`{timestamp, raw: line, ...fields}`): the arrival time and the
      line, with the parsed fields spread over them. */
  function Stamp(timestamp: string, line: string, fields: map<string, Value>): (point: map<string, Value>)
    ensures forall k :: k in point <==> k == "timestamp" || k == "raw" || k in fields
    ensures forall k :: k in fields ==> point[k] == fields[k]
    ensures "timestamp" !in fields ==> point["timestamp"] == Str(timestamp)
    ensures "raw" !in fields ==> point["raw"] == Str(line)
  {
    map["timestamp" := Str(timestamp), "raw" := Str(line)] + fields
  }

  /** Over fields that already hold the line as `raw` and have no `timestamp`,
      stamping only adds the time. */
  lemma StampAddsTime(timestamp: string, line: string, fields: map<string, Value>)
    requires "raw" in fields && fields["raw"] == Str(line) && "timestamp" !in fields
    ensures Stamp(timestamp, line, fields) == fields["timestamp" := Str(timestamp)]
  {
  }

  /** Over fields with neither reserved name, stamping adds the time and the line. */
  lemma StampAddsTimeAndLine(timestamp: string, line: string, fields: map<string, Value>)
    requires "raw" !in fields && "timestamp" !in fields
    ensures Stamp(timestamp, line, fields) == fields["timestamp" := Str(timestamp)]["raw" := Str(line)]
  {
  }
}
