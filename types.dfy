/** Record shapes shared by the stores, the routes and the dashboard (lib/types.ts).
    A JavaScript `Date` is its millisecond count, an `int`; a JavaScript `number`
    holding a measurement or a coordinate is a `real`. */
module SensorTypes {

  datatype Option<+T> = None | Some(value: T)

  /** `eventType: "connect" | "disconnect"` */
  datatype EventType = Connect | Disconnect

  /** `SensorReading`. The data route builds readings without an `id`, hence the Option. */
  datatype Reading = Reading(
    id: Option<string>,
    sensorId: string,
    timestamp: int,
    temperature: real,
    humidity: real,
    pm25: real)

  /** `Sensor`; `lastDisconnection: Date | null` */
  datatype Sensor = Sensor(
    id: string,
    name: string,
    latitude: real,
    longitude: real,
    isConnected: bool,
    lastConnection: int,
    lastDisconnection: Option<int>)

  /** `ConnectionEvent` */
  datatype ConnectionEvent = ConnectionEvent(
    id: string,
    sensorId: string,
    timestamp: int,
    eventType: EventType)

  /** `SensorWithLastReading`: the sensor's own fields, plus its newest reading or null. */
  datatype SensorWithLastReading = SensorWithLastReading(sensor: Sensor, lastReading: Option<Reading>)

  /** The decimal digit for `d`. */
  function DigitChar(d: nat): (c: char)
    requires d < 10
    ensures '0' <= c <= '9' && c as int - '0' as int == d
  {
    ('0' as int + d) as char
  }

  /** How JavaScript renders a non-negative integer in a template string (`${i}`),
      for values below 10^21, where it would switch to exponent notation. */
  function NatToString(n: nat): (s: string)
    ensures |s| >= 1
    ensures forall k :: 0 <= k < |s| ==> '0' <= s[k] <= '9'
    ensures n >= 10 ==> |s| >= 2
  {
    if n < 10 then [DigitChar(n)] else NatToString(n / 10) + [DigitChar(n % 10)]
  }

  /** `${n}` for any integer: a minus sign, then the digits of the magnitude. */
  function IntToString(n: int): (s: string)
    ensures |s| >= 1
    ensures (s[0] == '-') <==> n < 0
  {
    if n < 0 then "-" + NatToString(-n) else NatToString(n)
  }

  /** Distinct numbers render as distinct strings, so ids built from them differ. */
  lemma {:induction false} NatToStringInjective(a: nat, b: nat)
    requires NatToString(a) == NatToString(b)
    ensures a == b
  {
    var sa, sb := NatToString(a), NatToString(b);
    if a < 10 && b < 10 {
      assert sa[0] == sb[0];
    } else if a >= 10 && b >= 10 {
      assert sa[|sa| - 1] == DigitChar(a % 10);
      assert sb[|sb| - 1] == DigitChar(b % 10);
      assert sa[..|sa| - 1] == NatToString(a / 10);
      assert sb[..|sb| - 1] == NatToString(b / 10);
      NatToStringInjective(a / 10, b / 10);
    }
  }

  /** Ids of the form `${prefix}-${i}` are pairwise distinct in `i`. */
  lemma TaggedIdsDistinct(prefix: string, i: nat, j: nat)
    requires i != j
    ensures prefix + "-" + NatToString(i) != prefix + "-" + NatToString(j)
  {
    if prefix + "-" + NatToString(i) == prefix + "-" + NatToString(j) {
      var p := prefix + "-";
      assert (p + NatToString(i))[|p|..] == NatToString(i);
      assert (p + NatToString(j))[|p|..] == NatToString(j);
      NatToStringInjective(i, j);
    }
  }
}
