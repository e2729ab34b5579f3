/**
 * The records of a MetroTransit stop (stop.go): the stop details read from
 * the database, one departure as the NexTrip API reports it, the combined
 * stop, the decoder for the API's fixed-width departure timestamp and the
 * snake_case re-keying of a departure for output.
 */
module Records {
  import opened Wrappers
  import opened Strconv
  import opened Errors

  /** A time.Time with zero nanoseconds, as whole seconds since 1970-01-01T00:00:00Z. */
  datatype Instant = Instant(unix: int)

  /** The zero time.Time (January 1, year 1, UTC) in Unix seconds. */
  const ZeroTime: Instant := Instant(-62135596800)

  /** A float64 carried through untouched; no arithmetic is done on it. */
  datatype Float64 = Float64(bits: bv64)

  const ZeroFloat: Float64 := Float64(0)

  /** Stop-specific information from the stops table. */
  datatype Details = Details(
    id: int,
    code: string,
    name: string,
    description: string,
    latitude: Float64,
    longitude: Float64,
    zoneID: string,
    url: string,
    locationType: int,
    wheelchairBoarding: int)

  const ZeroDetails: Details := Details(0, "", "", "", ZeroFloat, ZeroFloat, "", "", 0, 0)

  /** One predicted departure of one bus. */
  datatype Departure = Departure(
    actual: bool,
    blockNumber: int,
    departureText: string,
    departureTime: Instant,
    description: string,
    gate: string,
    route: string,
    routeDirection: string,
    terminal: string,
    vehicleHeading: int,
    vehicleLatitude: Float64,
    vehicleLongitude: Float64)

  const ZeroDeparture: Departure :=
    Departure(false, 0, "", ZeroTime, "", "", "", "", "", 0, ZeroFloat, ZeroFloat)

  /** The value a Stop holds: its departures, its details, its id and when it was assembled. */
  datatype StopView = StopView(departures: seq<Departure>, details: Details, stopID: int, updateTime: Instant)

  /** A stop as the aggregator builds it: allocated with only its id, then filled in field by field. */
  class Stop {
    var departures: seq<Departure>
    var details: Details
    var stopID: int
    var updateTime: Instant

    /** `&Stop{StopID: stopID}`: every other field at its zero value. */
    constructor (stopID: int)
      ensures View() == StopView([], ZeroDetails, stopID, ZeroTime)
    {
      this.departures := [];
      this.details := ZeroDetails;
      this.stopID := stopID;
      this.updateTime := ZeroTime;
    }

    function View(): StopView
      reads this
    {
      StopView(departures, details, stopID, updateTime)
    }
  }

  // ---------------------------------------------------------------------------
  // The departure-time decoder

  /** The only token length the decoder accepts, quotes included. */
  const TokenLength: nat := 30

  /** Where the seconds are read from: bytes 8 up to (not including) 18. */
  const WindowStart: nat := 8
  const WindowEnd: nat := 18

  function WrongLengthText(n: nat): string {
    "date is wrong length: " + AsString(FormatInt(n)) + " expected 30"
  }

  /**
   * The departure time a raw JSON token denotes: the token must be exactly 30
   * bytes, and bytes 8..17 are parsed with strconv.ParseInt(_, 10, 64) as whole
   * seconds since the Unix epoch. Nothing outside that window is looked at.
   */
  function DecodeDepartureTime(b: seq<byte>): (r: Result<Instant, Error>)
    ensures r == Err(Message(WrongLengthText(|b|))) <==> |b| != TokenLength
    ensures r.Ok? ==> -999_999_999 <= r.value.unix <= 9_999_999_999
  {
    if |b| != TokenLength then Err(Message(WrongLengthText(|b|)))
    else
      var window := b[WindowStart..WindowEnd];
      ParseIntShort(window);
      match ParseInt(window)
      case Err(e) => Err(Num(e))
      case Ok(i) =>
        WindowBounds(window);
        Ok(Instant(i))
  }

  /** A ten-byte numeral lies in [-999999999, 9999999999]: a sign leaves room for nine digits. */
  lemma WindowBounds(w: seq<byte>)
    requires |w| == 10 && DecimalSyntax(w)
    ensures -999_999_999 <= NumeralValue(w) <= 9_999_999_999
  {
    Pow10Bounds();
    assert Pow10(10) == 10 * Pow10(9);
  }

  /** The receiver of UnmarshalJSON: the departure-time field being decoded. */
  class JsonDepartureTime {
    var time: Instant

    constructor ()
      ensures time == ZeroTime
    {
      time := ZeroTime;
    }

    /**
     * Decodes `b` into the field. On success the field holds the decoded
     * instant; on any failure the error is returned and the field is untouched.
     */
    method UnmarshalJSON(b: seq<byte>) returns (err: Option<Error>)
      modifies this
      ensures err == None <==> DecodeDepartureTime(b).Ok?
      ensures err == None ==> time == DecodeDepartureTime(b).value
      ensures err != None ==> err == Some(DecodeDepartureTime(b).error) && time == old(time)
    {
      if |b| != TokenLength {
        return Some(Message(WrongLengthText(|b|)));
      }
      var parsed := ParseInt(b[WindowStart..WindowEnd]);
      if parsed.Err? {
        return Some(Num(parsed.error));
      }
      time := Instant(parsed.value);
      return None;
    }
  }

  /** Two 30-byte tokens that agree on bytes 8..17 decode alike, whatever else they hold. */
  lemma DecodeReadsOnlyWindow(b: seq<byte>, c: seq<byte>)
    requires |b| == TokenLength && |c| == TokenLength
    requires b[WindowStart..WindowEnd] == c[WindowStart..WindowEnd]
    ensures DecodeDepartureTime(b) == DecodeDepartureTime(c)
  {
  }

  /**
   * A 30-byte token decodes exactly when its window is an optional sign followed
   * by decimal digits; the result is then the numeral's value in seconds, and
   * otherwise ParseInt's syntax error naming the window.
   */
  lemma DecodeWindowSyntax(b: seq<byte>)
    requires |b| == TokenLength
    ensures var w := b[WindowStart..WindowEnd];
      && (DecodeDepartureTime(b).Ok? <==> DecimalSyntax(w))
      && (DecimalSyntax(w) ==> DecodeDepartureTime(b) == Ok(Instant(NumeralValue(w))))
      && (!DecimalSyntax(w) ==> DecodeDepartureTime(b) == Err(Num(NumError("ParseInt", w, ErrSyntax))))
  {
    ParseIntShort(b[WindowStart..WindowEnd]);
  }

  /**
   * The text of the syntax error a printable window produces, as Go prints
   * it: `strconv.ParseInt: parsing "<window>": invalid syntax`.
   */
  lemma WindowSyntaxErrorText(b: seq<byte>)
    requires |b| == TokenLength
    requires !DecimalSyntax(b[WindowStart..WindowEnd])
    requires forall i :: WindowStart <= i < WindowEnd ==> 0x20 <= b[i] < 0x7f && b[i] != '"' as int && b[i] != '\\' as int
    ensures DecodeDepartureTime(b).Err?
    ensures Text(DecodeDepartureTime(b).error)
      == "strconv." + "ParseInt" + ": parsing " + ("\"" + AsString(b[WindowStart..WindowEnd]) + "\"") + ": " + "invalid syntax"
  {
    var w := b[WindowStart..WindowEnd];
    DecodeWindowSyntax(b);
    forall i | 0 <= i < |w|
      ensures 0x20 <= w[i] < 0x7f && w[i] != '"' as int && w[i] != '\\' as int
    {
      assert w[i] == b[WindowStart + i];
    }
    SyntaxErrorText(w);
  }

  /**
   * Any number of seconds below 10^10, written as ten zero-padded digits at
   * bytes 8..17 of a 30-byte token, decodes back to itself.
   */
  lemma {:induction false} DecodeRoundTrip(prefix: seq<byte>, n: nat, suffix: seq<byte>)
    requires |prefix| == WindowStart && |suffix| == TokenLength - WindowEnd
    requires n < Pow10(10)
    ensures DecodeDepartureTime(prefix + ZeroPad(n, 10) + suffix) == Ok(Instant(n))
  {
    var b := prefix + ZeroPad(n, 10) + suffix;
    assert b[WindowStart..WindowEnd] == ZeroPad(n, 10);
    ZeroPadValue(n, 10);
    DecodeWindowSyntax(b);
  }

  /**
   * The API's WCF-style token `"\/Date(<ms><zone>)\/"`: with the millisecond
   * count written as 13 digits after the 8-byte prefix, the window holds its
   * first ten digits, so the decoded instant is the millisecond count truncated
   * to whole seconds; the last three digits and the zone suffix are not read.
   */
  lemma DecodeWcfMillis(prefix: seq<byte>, ms: nat, suffix: seq<byte>)
    requires |prefix| == WindowStart && |suffix| == TokenLength - WindowStart - 13
    requires ms < Pow10(13)
    ensures DecodeDepartureTime(prefix + ZeroPad(ms, 13) + suffix) == Ok(Instant(ms / 1000))
  {
    var digits := ZeroPad(ms, 13);
    assert Pow10(3) == 1000;
    ZeroPadPrefix(ms, 10, 3);
    var tail := digits[10..] + suffix;
    assert digits == ZeroPad(ms / 1000, 10) + digits[10..];
    assert prefix + digits + suffix == prefix + ZeroPad(ms / 1000, 10) + tail;
    DecodeRoundTrip(prefix, ms / 1000, tail);
  }

  // ---------------------------------------------------------------------------
  // Output re-keying

  /** The JSON values a departure's output map holds. */
  datatype JsonValue =
    | JBool(b: bool)
    | JInt(i: int)
    | JString(s: string)
    | JTime(t: Instant)
    | JFloat(f: Float64)

  /** The twelve output keys. */
  const SnakeKeys: set<string> := {
    "actual", "block_number", "departure_text", "departure_time",
    "description", "gate", "route", "route_direction",
    "terminal", "vehicle_heading", "vehicle_latitude", "vehicle_longitude"}

  /** The output map of a departure: each snake_case key bound to the field of that name. */
  function SnakeCase(d: Departure): (m: map<string, JsonValue>)
    ensures m.Keys == SnakeKeys
  {
    var m := map[
      "actual" := JBool(d.actual),
      "block_number" := JInt(d.blockNumber),
      "departure_text" := JString(d.departureText),
      "departure_time" := JTime(d.departureTime),
      "description" := JString(d.description),
      "gate" := JString(d.gate),
      "route" := JString(d.route),
      "route_direction" := JString(d.routeDirection),
      "terminal" := JString(d.terminal),
      "vehicle_heading" := JInt(d.vehicleHeading),
      "vehicle_latitude" := JFloat(d.vehicleLatitude),
      "vehicle_longitude" := JFloat(d.vehicleLongitude)];
    m
  }

  /** The twelve keys are pairwise distinct, so the output map has twelve entries. */
  lemma SnakeKeysDistinct()
    ensures |SnakeKeys| == 12
  {
  }

  /** Reads a departure back out of an output map; None if a key is missing or has the wrong kind. */
  function FromSnakeCase(m: map<string, JsonValue>): Option<Departure> {
    if SnakeKeys <= m.Keys then
      match (m["actual"], m["block_number"], m["departure_text"], m["departure_time"],
             m["description"], m["gate"], m["route"], m["route_direction"],
             m["terminal"], m["vehicle_heading"], m["vehicle_latitude"], m["vehicle_longitude"])
      case (JBool(a), JInt(bn), JString(dt), JTime(t), JString(de), JString(g), JString(r),
            JString(rd), JString(te), JInt(vh), JFloat(la), JFloat(lo)) =>
        Some(Departure(a, bn, dt, t, de, g, r, rd, te, vh, la, lo))
      case _ => None
    else None
  }

  /** The re-keying loses nothing: every field can be read back from its key. */
  lemma SnakeCaseRoundTrip(d: Departure)
    ensures FromSnakeCase(SnakeCase(d)) == Some(d)
  {
  }

  /**
   * MarshalJSON: fills a fresh map by twelve insertions, one per field.
   * Serialising the map to bytes is done by encoding/json and is not modelled.
   */
  method MarshalJSON(d: Departure) returns (m: map<string, JsonValue>)
    ensures m == SnakeCase(d)
  {
    m := map[];
    m := m["actual" := JBool(d.actual)];
    m := m["block_number" := JInt(d.blockNumber)];
    m := m["departure_text" := JString(d.departureText)];
    m := m["departure_time" := JTime(d.departureTime)];
    m := m["description" := JString(d.description)];
    m := m["gate" := JString(d.gate)];
    m := m["route" := JString(d.route)];
    m := m["route_direction" := JString(d.routeDirection)];
    m := m["terminal" := JString(d.terminal)];
    m := m["vehicle_heading" := JInt(d.vehicleHeading)];
    m := m["vehicle_latitude" := JFloat(d.vehicleLatitude)];
    m := m["vehicle_longitude" := JFloat(d.vehicleLongitude)];
  }
}
