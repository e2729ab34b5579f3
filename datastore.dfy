/**
 * The Datastore interface (datastore.go) and its default implementation over
 * PostgreSQL and the NexTrip HTTP API. The database and the network are not
 * run: what they answer is an input (ScanOutcome, HttpOutcome, ConnectOutcome)
 * and the model is the decision logic around those answers.
 */
module Datastores {
  import opened Wrappers
  import opened Strconv
  import opened Errors
  import opened Records

  /** `(*Details, error)`: the pointer may be nil. */
  datatype DetailsReply = DetailsReply(details: Option<Details>, err: Option<Error>)

  /** `(*[]Departure, error)`: the pointer may be nil. */
  datatype DeparturesReply = DeparturesReply(departures: Option<seq<Departure>>, err: Option<Error>)

  /** The interface's unwritten promise, which callers rely on: a nil error comes with a non-nil result. */
  predicate DetailsUsable(r: DetailsReply) {
    r.err.None? ==> r.details.Some?
  }

  predicate DeparturesUsable(r: DeparturesReply) {
    r.err.None? ==> r.departures.Some?
  }

  /** An implementation of the Datastore interface, given by what each of its two methods answers for each stop id. */
  datatype Datastore = Datastore(getStopDetails: int -> DetailsReply, getStopDepartures: int -> DeparturesReply)

  /** The implementation keeps the interface's promise for every stop id. */
  ghost predicate KeepsPromise(ds: Datastore) {
    forall id :: DetailsUsable(ds.getStopDetails(id)) && DeparturesUsable(ds.getStopDepartures(id))
  }

  // ---------------------------------------------------------------------------
  // The default implementation's collaborators, as the answers they give

  /** One row of mt.stops as the driver hands it to Scan: any of the ten columns may be NULL. */
  datatype StopRow = StopRow(
    id: Option<int>,
    code: Option<string>,
    name: Option<string>,
    description: Option<string>,
    latitude: Option<Float64>,
    longitude: Option<Float64>,
    zoneID: Option<string>,
    url: Option<string>,
    locationType: Option<int>,
    wheelchairBoarding: Option<int>)

  /** What `QueryRow(...).Scan(...)` reports: a scanned row, or an error (sql.ErrNoRows among them). */
  datatype ScanOutcome = Scanned(row: StopRow) | ScanFailed(e: Error)

  /** The database behind `*sql.DB`: its answer to the stop query for each stop id. */
  datatype Database = Database(queryStop: int -> ScanOutcome)

  /** One element of the API's JSON array as encoding/json hands over its fields; DepartureTime stays the raw token, None when the key is absent. */
  datatype RawDeparture = RawDeparture(
    actual: bool,
    blockNumber: int,
    departureText: string,
    departureTime: Option<seq<byte>>,
    description: string,
    gate: string,
    route: string,
    routeDirection: string,
    terminal: string,
    vehicleHeading: int,
    vehicleLatitude: Float64,
    vehicleLongitude: Float64)

  /** What encoding/json makes of the body before any DepartureTime hook runs. */
  datatype JsonBody =
    | JsonNull                              // the literal `null`
    | JsonRejected(reason: string)          // a syntax or type error found by the decoder itself
    | JsonArray(elements: seq<RawDeparture>)

  /** What building, sending and reading one GET request yields; the library's errors appear as their text. */
  datatype HttpOutcome =
    | RequestFailed(reason: string)         // http.NewRequest
    | TransportFailed(reason: string)       // HTTPClient.Do: DNS, connect, timeout
    | Response(status: int, body: BodyRead)

  datatype BodyRead = ReadFailed(reason: string) | Read(json: JsonBody)

  /** The `*http.Client`: its timeout and what the web answers for each URL. */
  datatype HttpClient = HttpClient(timeoutSeconds: int, get: string -> HttpOutcome)

  /** What sql.Open followed by db.Ping yields for a connection string. */
  datatype ConnectOutcome = OpenFailed(reason: string) | PingFailed(reason: string) | Connected(db: Database)

  datatype DefaultDatastore = DefaultDatastore(db: Database, httpClient: HttpClient)

  const ClientTimeoutSeconds: int := 10

  // ---------------------------------------------------------------------------
  // InitDefaultDatastore

  /**
   * The PostgreSQL connection string `user=%s password=%s dbname=%s host=%s port=%s sslmode=%s`:
   * six key=value words, in this order, separated by single spaces.
   */
  function ConnectionString(user: string, password: string, dbname: string, host: string, port: string, sslmode: string): string {
    JoinSpaces(["user=" + user, "password=" + password, "dbname=" + dbname,
                "host=" + host, "port=" + port, "sslmode=" + sslmode])
  }

  /** Position of the first `c` in `s`. */
  function IndexOf(s: string, c: char): (i: nat)
    requires c in s
    ensures i < |s| && s[i] == c && c !in s[..i]
  {
    if s[0] == c then 0 else 1 + IndexOf(s[1..], c)
  }

  /** The words of `s` between single spaces. */
  function SplitSpaces(s: string): seq<string>
    decreases |s|
  {
    if ' ' in s then
      var i := IndexOf(s, ' ');
      [s[..i]] + SplitSpaces(s[i + 1..])
    else [s]
  }

  /** A `key=value` word read as a pair; the key runs up to the first '='. */
  function ReadPair(w: string): Option<(string, string)> {
    if '=' in w then
      var i := IndexOf(w, '=');
      Some((w[..i], w[i + 1..]))
    else None
  }

  function ReadPairs(words: seq<string>): Option<seq<(string, string)>> {
    if words == [] then Some([])
    else
      match (ReadPair(words[0]), ReadPairs(words[1..]))
      case (Some(p), Some(ps)) => Some([p] + ps)
      case _ => None
  }

  /** How a key=value connection string reads: words separated by spaces, each a key=value pair. */
  function ReadConnectionString(s: string): Option<seq<(string, string)>> {
    ReadPairs(SplitSpaces(s))
  }

  lemma {:induction false} IndexOfAfter(a: string, c: char, b: string)
    requires c !in a
    ensures c in a + [c] + b && IndexOf(a + [c] + b, c) == |a|
    decreases |a|
  {
    var s := a + [c] + b;
    assert s[|a|] == c;
    if a != [] {
      assert s[1..] == a[1..] + [c] + b;
      IndexOfAfter(a[1..], c, b);
    }
  }

  lemma SplitAfterWord(a: string, b: string)
    requires ' ' !in a
    ensures SplitSpaces(a + " " + b) == [a] + SplitSpaces(b)
  {
    IndexOfAfter(a, ' ', b);
    var s := a + " " + b;
    assert s[..|a|] == a && s[|a| + 1..] == b;
  }

  lemma ReadKeyValue(prefix: string, key: string, v: string)
    requires prefix == key + "=" && '=' !in key
    ensures ReadPair(prefix + v) == Some((key, v))
  {
    IndexOfAfter(key, '=', v);
    var w := key + "=" + v;
    assert w[..|key|] == key && w[|key| + 1..] == v;
  }

  /**
   * The connection string names user, password, dbname, host, port and
   * sslmode, in that order, each bound to its argument, as long as no value
   * contains a space (the values are not quoted).
   */
  lemma ConnectionStringReadsBack(user: string, password: string, dbname: string, host: string, port: string, sslmode: string)
    requires ' ' !in user && ' ' !in password && ' ' !in dbname
    requires ' ' !in host && ' ' !in port && ' ' !in sslmode
    ensures ReadConnectionString(ConnectionString(user, password, dbname, host, port, sslmode))
      == Some([("user", user), ("password", password), ("dbname", dbname),
               ("host", host), ("port", port), ("sslmode", sslmode)])
  {
    var words := ["user=" + user, "password=" + password, "dbname=" + dbname,
                  "host=" + host, "port=" + port, "sslmode=" + sslmode];
    assert forall i :: 0 <= i < 6 ==> ' ' !in words[i];
    SplitJoin(words);
    ReadConnectionPairs(user, password, dbname, host, port, sslmode);
  }

  lemma ReadConnectionPairs(user: string, password: string, dbname: string, host: string, port: string, sslmode: string)
    ensures ReadPairs(["user=" + user, "password=" + password, "dbname=" + dbname,
                       "host=" + host, "port=" + port, "sslmode=" + sslmode])
      == Some([("user", user), ("password", password), ("dbname", dbname),
               ("host", host), ("port", port), ("sslmode", sslmode)])
  {
    var words := ["user=" + user, "password=" + password, "dbname=" + dbname,
                  "host=" + host, "port=" + port, "sslmode=" + sslmode];
    var pairs := [("user", user), ("password", password), ("dbname", dbname),
                  ("host", host), ("port", port), ("sslmode", sslmode)];
    ReadKeyValue("user=", "user", user);
    ReadKeyValue("password=", "password", password);
    ReadKeyValue("dbname=", "dbname", dbname);
    ReadKeyValue("host=", "host", host);
    ReadKeyValue("port=", "port", port);
    ReadKeyValue("sslmode=", "sslmode", sslmode);
    forall i | 0 <= i < |words|
      ensures ReadPair(words[i]) == Some(pairs[i])
    {
    }
    ReadPairsEach(words, pairs);
  }

  /** Words joined by single spaces. */
  function JoinSpaces(words: seq<string>): string
    requires |words| > 0
  {
    if |words| == 1 then words[0] else words[0] + " " + JoinSpaces(words[1..])
  }

  /** Splitting at spaces undoes joining with spaces, when no word holds a space. */
  lemma {:induction false} SplitJoin(words: seq<string>)
    requires |words| > 0 && forall i :: 0 <= i < |words| ==> ' ' !in words[i]
    ensures SplitSpaces(JoinSpaces(words)) == words
    decreases |words|
  {
    if |words| > 1 {
      var rest := words[1..];
      forall i | 0 <= i < |rest|
        ensures ' ' !in rest[i]
      {
        assert rest[i] == words[i + 1];
      }
      assert JoinSpaces(words) == words[0] + " " + JoinSpaces(rest);
      SplitAfterWord(words[0], JoinSpaces(rest));
      SplitJoin(rest);
      assert words == [words[0]] + rest;
    }
  }

  lemma {:induction false} ReadPairsEach(words: seq<string>, pairs: seq<(string, string)>)
    requires |words| == |pairs| && forall i :: 0 <= i < |words| ==> ReadPair(words[i]) == Some(pairs[i])
    ensures ReadPairs(words) == Some(pairs)
    decreases |words|
  {
    if words != [] {
      ReadPairsEach(words[1..], pairs[1..]);
      assert pairs == [pairs[0]] + pairs[1..];
    }
  }

  /**
   * InitDefaultDatastore: all of host, port, user, password and database must be
   * non-empty (sslmode may be empty); then the connection string is opened and
   * pinged, and the client gets a ten-second timeout.
   */
  function InitDefaultDatastore(
    host: string, port: string, user: string, password: string, database: string, sslMode: string,
    connect: string -> ConnectOutcome, web: string -> HttpOutcome): (r: Result<DefaultDatastore, Error>)
    ensures r == Err(Message("all fields must be set"))
      <==> host == "" || port == "" || user == "" || password == "" || database == ""
    ensures r.Ok? <==> !(host == "" || port == "" || user == "" || password == "" || database == "")
                       && connect(ConnectionString(user, password, database, host, port, sslMode)).Connected?
    ensures !(host == "" || port == "" || user == "" || password == "" || database == "")
            && !connect(ConnectionString(user, password, database, host, port, sslMode)).Connected?
            ==> r == Err(Foreign(connect(ConnectionString(user, password, database, host, port, sslMode)).reason))
    ensures r.Ok? ==> (r.value.db == connect(ConnectionString(user, password, database, host, port, sslMode)).db
                       && r.value.httpClient == HttpClient(ClientTimeoutSeconds, web))
  {
    if host == "" || port == "" || user == "" || password == "" || database == "" then
      Err(Message("all fields must be set"))
    else
      match connect(ConnectionString(user, password, database, host, port, sslMode))
      case OpenFailed(reason) => Err(Foreign(reason))
      case PingFailed(reason) => Err(Foreign(reason))
      case Connected(db) => Ok(DefaultDatastore(db, HttpClient(ClientTimeoutSeconds, web)))
  }

  // ---------------------------------------------------------------------------
  // GetStopDetails

  /** The sql.Null* holders Scan fills: a value and whether the column was non-NULL (a NULL leaves the zero value). */
  datatype NullInt64 = NullInt64(int64: int, valid: bool)
  datatype NullString = NullString(str: string, valid: bool)
  datatype NullFloat64 = NullFloat64(float64: Float64, valid: bool)

  function ScanInt64(c: Option<int>): NullInt64 {
    match c case Some(v) => NullInt64(v, true) case None => NullInt64(0, false)
  }

  function ScanString(c: Option<string>): NullString {
    match c case Some(v) => NullString(v, true) case None => NullString("", false)
  }

  function ScanFloat64(c: Option<Float64>): NullFloat64 {
    match c case Some(v) => NullFloat64(v, true) case None => NullFloat64(ZeroFloat, false)
  }

  function OrZero<T>(c: Option<T>, zero: T): T {
    match c case Some(v) => v case None => zero
  }

  /** The details a row denotes: column i gives field i, and a NULL column gives that field's zero value. */
  function RowDetails(row: StopRow): Details {
    Details(
      OrZero(row.id, 0), OrZero(row.code, ""), OrZero(row.name, ""), OrZero(row.description, ""),
      OrZero(row.latitude, ZeroFloat), OrZero(row.longitude, ZeroFloat), OrZero(row.zoneID, ""),
      OrZero(row.url, ""), OrZero(row.locationType, 0), OrZero(row.wheelchairBoarding, 0))
  }

  /** The reply GetStopDetails gives for what the query reported. */
  function StopDetailsReply(o: ScanOutcome): (r: DetailsReply)
    ensures DetailsUsable(r)
    ensures r.details.Some? <==> r.err.None?
    ensures o.ScanFailed? ==> r.err.Some?
    ensures o.Scanned? ==> r == DetailsReply(Some(RowDetails(o.row)), None)
  {
    match o
    case ScanFailed(NoRows) => DetailsReply(None, Some(Message("no stop with that ID")))
    case ScanFailed(e) => DetailsReply(None, Some(e))
    case Scanned(row) => DetailsReply(Some(RowDetails(row)), None)
  }

  /**
   * GetStopDetails: scans the ten columns into sql.Null* holders, classifies
   * the scan error, then copies the holders into a Details field by field.
   */
  method GetStopDetails(dd: DefaultDatastore, stopID: int) returns (sd: Option<Details>, err: Option<Error>)
    ensures DetailsReply(sd, err) == StopDetailsReply(dd.db.queryStop(stopID))
  {
    var stop := ZeroDetails;
    var dbID, dbLocationType, dbWheelchairBoarding := NullInt64(0, false), NullInt64(0, false), NullInt64(0, false);
    var dbCode, dbName, dbDescription := NullString("", false), NullString("", false), NullString("", false);
    var dbZoneID, dbURL := NullString("", false), NullString("", false);
    var dbLatitude, dbLongitude := NullFloat64(ZeroFloat, false), NullFloat64(ZeroFloat, false);
    var scanErr: Option<Error> := None;
    match dd.db.queryStop(stopID) {
      case ScanFailed(e) =>
        scanErr := Some(e);
      case Scanned(row) =>
        dbID, dbCode, dbName := ScanInt64(row.id), ScanString(row.code), ScanString(row.name);
        dbDescription, dbLatitude := ScanString(row.description), ScanFloat64(row.latitude);
        dbLongitude, dbZoneID := ScanFloat64(row.longitude), ScanString(row.zoneID);
        dbURL, dbLocationType := ScanString(row.url), ScanInt64(row.locationType);
        dbWheelchairBoarding := ScanInt64(row.wheelchairBoarding);
    }
    if scanErr == Some(NoRows) {
      return None, Some(Message("no stop with that ID"));
    } else if scanErr.Some? {
      return None, scanErr;
    }
    stop := stop.(id := dbID.int64);
    stop := stop.(code := dbCode.str);
    stop := stop.(name := dbName.str);
    stop := stop.(description := dbDescription.str);
    stop := stop.(latitude := dbLatitude.float64);
    stop := stop.(longitude := dbLongitude.float64);
    stop := stop.(zoneID := dbZoneID.str);
    stop := stop.(url := dbURL.str);
    stop := stop.(locationType := dbLocationType.int64);
    stop := stop.(wheelchairBoarding := dbWheelchairBoarding.int64);
    return Some(stop), None;
  }

  /** A row of NULLs is not an error: it yields the all-zero Details. */
  lemma AllNullRowIsZero()
    ensures StopDetailsReply(Scanned(StopRow(None, None, None, None, None, None, None, None, None, None)))
      == DetailsReply(Some(ZeroDetails), None)
  {
  }

  /** A row holding every field of `d` reads back as `d`: the columns map onto the fields by position. */
  lemma RowDetailsPositional(d: Details)
    ensures RowDetails(StopRow(Some(d.id), Some(d.code), Some(d.name), Some(d.description),
      Some(d.latitude), Some(d.longitude), Some(d.zoneID), Some(d.url),
      Some(d.locationType), Some(d.wheelchairBoarding))) == d
  {
  }

  /** Scan errors: no rows becomes "no stop with that ID", any other error passes through unchanged, and no Details comes back. */
  lemma StopDetailsErrors(e: Error)
    ensures StopDetailsReply(ScanFailed(e)).details == None
    ensures StopDetailsReply(ScanFailed(e)).err
      == Some(if e == NoRows then Message("no stop with that ID") else e)
  {
  }

  // ---------------------------------------------------------------------------
  // GetStopDepartures

  const NexTripBase: string := "http://svc.metrotransit.org/NexTrip/"
  const JsonQuery: string := "?format=json"

  /** The NexTrip URL for a stop: the base, the id in decimal, then `?format=json`. */
  function NexTripURL(stopID: int): string {
    NexTripBase + AsString(FormatInt(stopID)) + JsonQuery
  }

  /** Reads the stop id back out of a NexTrip URL. */
  function URLStopID(url: string): Option<int> {
    if |url| >= |NexTripBase| + |JsonQuery| && url[..|NexTripBase|] == NexTripBase
      && url[|url| - |JsonQuery|..] == JsonQuery
      && forall i :: |NexTripBase| <= i < |url| - |JsonQuery| ==> url[i] as int < 128
    then
      match ParseInt(AsciiBytes(url[|NexTripBase|..|url| - |JsonQuery|]))
      case Ok(n) => Some(n)
      case Err(_) => None
    else None
  }

  /** The URL names the stop it was built for: reading it back gives the id, for every 64-bit id. */
  lemma NexTripURLRoundTrip(stopID: int)
    requires MinInt64 <= stopID <= MaxInt64
    ensures URLStopID(NexTripURL(stopID)) == Some(stopID)
  {
    var digits := FormatInt(stopID);
    var mid := AsString(digits);
    var url := NexTripURL(stopID);
    assert url[|NexTripBase|..|url| - |JsonQuery|] == mid;
    assert url[..|NexTripBase|] == NexTripBase;
    assert url[|url| - |JsonQuery|..] == JsonQuery;
    FormatIntAscii(stopID);
    AsciiBytesAsString(digits);
    FormatParseRoundTrip(stopID);
  }

  lemma FormatIntAscii(n: int)
    ensures forall i :: 0 <= i < |FormatInt(n)| ==> FormatInt(n)[i] < 128
  {
    FormatIntCanonical(n);
    var s := FormatInt(n);
    forall i | 0 <= i < |s|
      ensures s[i] < 128
    {
      if i > 0 || s[0] != Minus {
        assert Unsigned(s)[if s[0] == Minus then i - 1 else i] == s[i];
      }
    }
  }

  lemma {:induction false} AsciiBytesAsString(s: seq<byte>)
    requires forall i :: 0 <= i < |s| ==> s[i] < 128
    ensures AsciiBytes(AsString(s)) == s
  {
    if s != [] {
      AsciiBytesAsString(s[1..]);
      assert AsString(s)[1..] == AsString(s[1..]);
    }
  }

  /** One element's decoded Departure: the DepartureTime token goes through the decoder; an absent key leaves the zero time. */
  function DecodeElement(raw: RawDeparture): (r: Result<Departure, Error>)
    ensures r.Ok? <==> raw.departureTime.None? || DecodeDepartureTime(raw.departureTime.value).Ok?
    ensures r.Ok? ==> (r.value.departureTime
                       == if raw.departureTime.None? then ZeroTime else DecodeDepartureTime(raw.departureTime.value).value)
    ensures r.Ok? ==> (r.value.actual == raw.actual && r.value.blockNumber == raw.blockNumber
                       && r.value.departureText == raw.departureText && r.value.description == raw.description
                       && r.value.gate == raw.gate && r.value.route == raw.route
                       && r.value.routeDirection == raw.routeDirection && r.value.terminal == raw.terminal
                       && r.value.vehicleHeading == raw.vehicleHeading
                       && r.value.vehicleLatitude == raw.vehicleLatitude
                       && r.value.vehicleLongitude == raw.vehicleLongitude)
    ensures r.Err? ==> raw.departureTime.Some? && r.error == DecodeDepartureTime(raw.departureTime.value).error
  {
    var t := match raw.departureTime
      case None => Ok(ZeroTime)
      case Some(tok) => DecodeDepartureTime(tok);
    match t
    case Err(e) => Err(e)
    case Ok(time) =>
      Ok(Departure(raw.actual, raw.blockNumber, raw.departureText, time, raw.description,
        raw.gate, raw.route, raw.routeDirection, raw.terminal, raw.vehicleHeading,
        raw.vehicleLatitude, raw.vehicleLongitude))
  }

  /**
   * The array decoded element by element in order; the first element whose
   * DepartureTime fails to decode stops the decoding with its error.
   */
  function DecodeElements(elems: seq<RawDeparture>): (r: Result<seq<Departure>, Error>)
    ensures r.Ok? <==> forall i :: 0 <= i < |elems| ==> DecodeElement(elems[i]).Ok?
    ensures r.Ok? ==> (|r.value| == |elems|
                       && forall i :: 0 <= i < |elems| ==> DecodeElement(elems[i]) == Ok(r.value[i]))
    ensures r.Err? ==> (exists k :: 0 <= k < |elems| && DecodeElement(elems[k]) == Err(r.error)
                                   && forall i :: 0 <= i < k ==> DecodeElement(elems[i]).Ok?)
  {
    if elems == [] then Ok([])
    else
      match DecodeElement(elems[0])
      case Err(e) => Err(e)
      case Ok(d) =>
        match DecodeElements(elems[1..])
        case Err(e) =>
          FirstErrorShifts(elems, e);
          Err(e)
        case Ok(ds) =>
          AllDecodedShifts(elems, d, ds);
          Ok([d] + ds)
  }

  /** A first failing element of the tail is the first failing element of the whole array. */
  lemma FirstErrorShifts(elems: seq<RawDeparture>, e: Error)
    requires |elems| > 0 && DecodeElement(elems[0]).Ok?
    requires exists k :: 0 <= k < |elems[1..]| && DecodeElement(elems[1..][k]) == Err(e)
                         && forall i :: 0 <= i < k ==> DecodeElement(elems[1..][i]).Ok?
    ensures exists k :: 0 <= k < |elems| && DecodeElement(elems[k]) == Err(e)
                        && forall i :: 0 <= i < k ==> DecodeElement(elems[i]).Ok?
  {
    var k :| 0 <= k < |elems[1..]| && DecodeElement(elems[1..][k]) == Err(e)
             && forall i :: 0 <= i < k ==> DecodeElement(elems[1..][i]).Ok?;
    assert DecodeElement(elems[k + 1]) == Err(e);
    forall i | 0 <= i < k + 1
      ensures DecodeElement(elems[i]).Ok?
    {
      if i > 0 {
        assert elems[i] == elems[1..][i - 1];
      }
    }
  }

  /** Decoding the head and every element of the tail decodes every element of the array. */
  lemma AllDecodedShifts(elems: seq<RawDeparture>, d: Departure, ds: seq<Departure>)
    requires |elems| > 0 && DecodeElement(elems[0]) == Ok(d)
    requires |ds| == |elems| - 1 && forall i :: 0 <= i < |ds| ==> DecodeElement(elems[1..][i]) == Ok(ds[i])
    ensures forall i :: 0 <= i < |elems| ==> DecodeElement(elems[i]) == Ok(([d] + ds)[i])
  {
    forall i | 0 <= i < |elems|
      ensures DecodeElement(elems[i]) == Ok(([d] + ds)[i])
    {
      if i > 0 {
        assert elems[i] == elems[1..][i - 1];
      }
    }
  }

  function CouldNotParse(e: Error): Error {
    Message("could not parse: " + Text(e))
  }

  /**
   * The reply of GetStopDepartures as the source writes it. A JSON `null` body
   * makes encoding/json set the departures pointer itself to nil, so that case
   * yields a nil pointer with a nil error.
   */
  function DeparturesReplyAsWritten(o: HttpOutcome): (r: DeparturesReply)
    ensures r.err.Some? ==> r.departures == Some([])
    ensures r.departures.None? <==> o.Response? && o.status != 400 && o.body == Read(JsonNull)
    ensures r.err.None? <==> (o.Response? && o.status != 400 && o.body.Read?
                              && (o.body.json.JsonNull? || (o.body.json.JsonArray? && DecodeElements(o.body.json.elements).Ok?)))
    ensures o.Response? && o.body.Read? && o.body.json.JsonArray? && r.err.None?
            ==> r.departures == Some(DecodeElements(o.body.json.elements).value)
    ensures o.RequestFailed? || o.TransportFailed? ==> r == DeparturesReply(Some([]), Some(Foreign(o.reason)))
    ensures o.Response? && o.status != 400 && o.body.ReadFailed?
            ==> r == DeparturesReply(Some([]), Some(Foreign(o.body.reason)))
  {
    match o
    case RequestFailed(reason) => DeparturesReply(Some([]), Some(Foreign(reason)))
    case TransportFailed(reason) => DeparturesReply(Some([]), Some(Foreign(reason)))
    case Response(status, body) =>
      if status == 400 then DeparturesReply(Some([]), Some(Message("bad request")))
      else
        match body
        case ReadFailed(reason) => DeparturesReply(Some([]), Some(Foreign(reason)))
        case Read(JsonNull) => DeparturesReply(None, None)
        case Read(JsonRejected(reason)) => DeparturesReply(Some([]), Some(CouldNotParse(Foreign(reason))))
        case Read(JsonArray(elems)) =>
          match DecodeElements(elems)
          case Err(e) => DeparturesReply(Some([]), Some(CouldNotParse(e)))
          case Ok(ds) => DeparturesReply(Some(ds), None)
  }

  /** A 200 response whose body is `null` breaks the interface's promise: nil departures, nil error. */
  lemma NullBodyBreaksPromise(status: int)
    requires status != 400
    ensures !DeparturesUsable(DeparturesReplyAsWritten(Response(status, Read(JsonNull))))
  {
  }

  /**
   * The reply GetStopDepartures evidently intends: the same as written, except
   * that a `null` body leaves the pre-allocated empty list in place.
   */
  function DeparturesReplyFor(o: HttpOutcome): (r: DeparturesReply)
    ensures r.departures.Some?
    ensures !(o.Response? && o.status != 400 && o.body == Read(JsonNull)) ==> r == DeparturesReplyAsWritten(o)
  {
    match o
    case Response(status, Read(JsonNull)) =>
      if status == 400 then DeparturesReply(Some([]), Some(Message("bad request")))
      else DeparturesReply(Some([]), None)
    case _ => DeparturesReplyAsWritten(o)
  }

  /**
   * Only status 400 is "bad request"; every other status goes on to the body.
   * A body that does not decode gives an error prefixed "could not parse: ".
   */
  lemma DeparturesStatusAndParse(status: int, body: BodyRead)
    ensures DeparturesReplyFor(Response(status, body)).err == Some(Message("bad request")) <==> status == 400
    ensures status != 400 && body.Read? && body.json.JsonRejected? ==>
      DeparturesReplyFor(Response(status, body)).err == Some(CouldNotParse(Foreign(body.json.reason)))
    ensures status != 400 && body.Read? && body.json.JsonArray? && DecodeElements(body.json.elements).Err? ==>
      DeparturesReplyFor(Response(status, body)) == DeparturesReply(Some([]), Some(CouldNotParse(DecodeElements(body.json.elements).error)))
  {
  }

  /**
   * A bad DepartureTime in any element fails the whole response: the first
   * element whose token does not decode gives the error, prefixed
   * "could not parse: ", beside the empty list.
   */
  lemma BadDepartureTimeFails(status: int, elems: seq<RawDeparture>, k: nat)
    requires status != 400 && k < |elems| && elems[k].departureTime.Some?
    requires DecodeDepartureTime(elems[k].departureTime.value).Err?
    requires forall i :: 0 <= i < k ==> DecodeElement(elems[i]).Ok?
    ensures DeparturesReplyFor(Response(status, Read(JsonArray(elems))))
      == DeparturesReply(Some([]), Some(Message("could not parse: "
           + Text(DecodeDepartureTime(elems[k].departureTime.value).error))))
  {
    var r := DecodeElements(elems);
    assert r.Err?;
    var j :| 0 <= j < |elems| && DecodeElement(elems[j]) == Err(r.error)
             && forall i :: 0 <= i < j ==> DecodeElement(elems[i]).Ok?;
    assert j == k;
  }

  /**
   * GetStopDepartures: builds the NexTrip URL, sends the request, rejects status
   * 400, reads the body and decodes it into the pre-allocated list, returning
   * that list beside every error.
   */
  method GetStopDepartures(dd: DefaultDatastore, stopID: int) returns (departures: Option<seq<Departure>>, err: Option<Error>)
    ensures DeparturesReply(departures, err) == DeparturesReplyAsWritten(dd.httpClient.get(NexTripURL(stopID)))
  {
    departures := Some([]);
    var res := dd.httpClient.get(NexTripURL(stopID));
    if res.RequestFailed? {
      return departures, Some(Foreign(res.reason));
    }
    if res.TransportFailed? {
      return departures, Some(Foreign(res.reason));
    }
    if res.status == 400 {
      return departures, Some(Message("bad request"));
    }
    if res.body.ReadFailed? {
      return departures, Some(Foreign(res.body.reason));
    }
    match res.body.json {
      case JsonNull =>
        departures := None;
      case JsonRejected(reason) =>
        return departures, Some(CouldNotParse(Foreign(reason)));
      case JsonArray(elems) =>
        var decoded := DecodeElements(elems);
        if decoded.Err? {
          return departures, Some(CouldNotParse(decoded.error));
        }
        departures := Some(decoded.value);
    }
    return departures, None;
  }

  /** The default datastore as an implementation of the interface, with the corrected departures reply. */
  function AsDatastore(dd: DefaultDatastore): (ds: Datastore)
    ensures KeepsPromise(ds)
  {
    var ds := Datastore(
      id => StopDetailsReply(dd.db.queryStop(id)),
      id => DeparturesReplyFor(dd.httpClient.get(NexTripURL(id))));
    assert forall id :: ds.getStopDetails(id) == StopDetailsReply(dd.db.queryStop(id));
    assert forall id :: ds.getStopDepartures(id) == DeparturesReplyFor(dd.httpClient.get(NexTripURL(id)));
    ds
  }
}
