/** The values and records that travel from the serial line to the charts and
    the CSV files. */
module Values {

  datatype Option<T> = None | Some(value: T)

  /** The `{ success, error }` replies of the logging handlers. */
  datatype Result<T> = Success(value: T) | Failure(error: string)

  /** One decoded field value: a number, an explicit null (the firmware printed
      `nan`, `inf` or `-inf`), or the text itself when it is not a number. */
  datatype Value = Num(r: real) | Null | Str(s: string)

  /** `-1`, printed by the sensors while they warm up; the dashboard and the
      charts replace it by the last value shown. */
  const Sentinel: Value := Num(-1.0)

  /** One chart point (`ChartData`): the axis label, the value, and the full
      ISO timestamp of the line it came from. */
  datatype Point = Point(timestamp: string, value: Value, fullTimestamp: string)

  /** The ten charted sensors. */
  datatype Channel = Temp | Humid | Ch4 | Co2 | Tvoc | Co | Nox | Pm1_0 | Pm2_5 | Pm10_0

  /** The field name of a channel in a `SerialData` record. */
  function Key(c: Channel): string {
    match c
    case Temp => "temp"
    case Humid => "humid"
    case Ch4 => "ch4"
    case Co2 => "co2"
    case Tvoc => "tvoc"
    case Co => "co"
    case Nox => "nox"
    case Pm1_0 => "pm_1_0"
    case Pm2_5 => "pm_2_5"
    case Pm10_0 => "pm_10_0"
  }

  /** The sensors in the key order of `sensorLabels`, which the dashboard visits in turn. */
  const Channels: seq<Channel> := [Temp, Humid, Ch4, Co2, Tvoc, Co, Nox, Pm1_0, Pm2_5, Pm10_0]

  /** Every channel is visited exactly once, and distinct channels have distinct keys. */
  lemma ChannelsEnumerate()
    ensures forall c: Channel :: c in Channels
    ensures forall i, j :: 0 <= i < j < |Channels| ==> Channels[i] != Channels[j]
    ensures forall c, d: Channel :: c != d ==> Key(c) != Key(d)
  {
    forall c: Channel
      ensures c in Channels
    {
      match c
      case Temp => assert Channels[0] == c;
      case Humid => assert Channels[1] == c;
      case Ch4 => assert Channels[2] == c;
      case Co2 => assert Channels[3] == c;
      case Tvoc => assert Channels[4] == c;
      case Co => assert Channels[5] == c;
      case Nox => assert Channels[6] == c;
      case Pm1_0 => assert Channels[7] == c;
      case Pm2_5 => assert Channels[8] == c;
      case Pm10_0 => assert Channels[9] == c;
    }
  }
}
