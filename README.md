# metrotransit in Dafny

A model of the core of the `metrotransit` Go package, which shows a MetroTransit
bus stop by combining two sources: the stop's static details, read from a
PostgreSQL table, and its live departures, fetched from the NexTrip JSON API.

- `Records` (stop.go): the `Details`, `Departure` and `Stop` records. It also
  holds the decoder for the API's 30-byte `DepartureTime` token. The token's
  bytes 8..17 are parsed with `strconv.ParseInt` as Unix seconds. The module
  also has the snake_case re-keying that `Departure.MarshalJSON` performs.
- `Datastores` (datastore.go): the `Datastore` interface and the decision logic
  of `DefaultDatastore`. That logic covers field validation and the
  connection string in `InitDefaultDatastore`, and error classification plus
  NULL-to-zero copying in `GetStopDetails`. It also covers the URL, the
  status-400 check and body decoding in `GetStopDepartures`. The database,
  the network and encoding/json are inputs: what they answer is a value
  (`ScanOutcome`, `HttpOutcome`, `JsonBody`, `ConnectOutcome`).
- `Environment` (environment.go): `Env.GetDepartures`, the fail-fast
  aggregator. It is an imperative method on a class. The method is proved
  against the function `GetDeparturesOutcome`, and the lemmas about that
  function state the aggregator's promises.
- `MockDatastore` (metrotransit_test.go): the test's `mockDS` as a concrete
  `Datastore`, with the test's expectations proved as lemmas.
- `Strconv`, `Errors`, `Wrappers`: the parts of Go's `strconv`/`fmt` the code
  relies on (ParseInt with its scan, cutoff and range checks, `%d`,
  `strconv.Quote`), Go error values, and Option/Result.

The Go interface is modelled as a datatype
`Datastore(getStopDetails, getStopDepartures)`. Each field is a function from
stop id to what that method answers, so one value of it is one implementation.
`GetDepartures` dereferences the result of a call whose error is nil. The
predicate `Dereferenceable` states exactly when that cannot fail. The calls
made through the interface go into a ghost log on `Env`, so that order and
at-most-once can be stated.

Points of the code's behaviour that are easy to misread:

- The seconds are read from bytes 8..17 of the raw token. Byte 0 is the
  opening quote.
- Only status exactly 400 is "bad request". Other 4xx statuses go on to body
  parsing.
- A non-positive id returns a non-nil `Stop` that carries the id, together
  with the error.
- The `Stop` holds the whole `Details` record read from the database.

## Model

| member | source | states |
|---|---|---|
| `Strconv.ParseIntShort` | stop.go:76 | On at most 18 bytes, `strconv.ParseInt(s, 10, 64)` succeeds exactly on an optional sign followed by decimal digits. It then gives the numeral's value. Otherwise it gives a syntax error naming the whole input. |
| `Strconv.FormatParseRoundTrip` | datastore.go:93 | `%d` of any int64 parses back to the same number. |
| `Strconv.FormatIntCanonical` | stop.go:74 | `%d` prints a sign only for negatives and then digits, with no leading zero unless the number is 0. |
| `Records.DecodeDepartureTime` | stop.go:71-83 | Decoding fails with `date is wrong length: <n> expected 30` exactly when the token is not 30 bytes. A decoded time lies in [-999999999, 9999999999] seconds, so it cannot overflow. |
| `Records.DecodeReadsOnlyWindow` | stop.go:76 | Two 30-byte tokens that agree on bytes 8..17 decode to the same result. |
| `Records.DecodeWindowSyntax` | stop.go:76-81 | A 30-byte token decodes exactly when bytes 8..17 are a signed decimal numeral. It then decodes to that many seconds. Otherwise the error is ParseInt's syntax error on the window. |
| `Records.WindowSyntaxErrorText` | stop.go:76-79 | When the window is printable text that is not a numeral, the error reads `strconv.ParseInt: parsing "<window>": invalid syntax`. |
| `Records.DecodeRoundTrip` | stop.go:76-81 | Any n < 10^10, zero-padded to ten digits at bytes 8..17 of a 30-byte token, decodes to n seconds. |
| `Records.DecodeWcfMillis` | stop.go:76-81 | For a `"\/Date(<13-digit ms><zone>)\/"` token, the decoded instant is the millisecond count divided by 1000. The last three digits and the zone are ignored. |
| `Records.JsonDepartureTime.UnmarshalJSON` | stop.go:71-83 | On success the field holds the decoded instant. On any failure the decoder's error is returned and the field is unchanged. |
| `Records.SnakeCase` | stop.go:49-64 | The output map's keys are exactly the twelve snake_case names. |
| `Records.SnakeCaseRoundTrip` | stop.go:50-62 | Each key is bound to the field it names, so every field can be read back from the output map. |
| `Records.SnakeKeysDistinct` | stop.go:50-62 | The twelve keys are pairwise distinct. |
| `Records.MarshalJSON` | stop.go:49-64 | Twelve successive insertions build exactly the snake_case map of the departure. |
| `Records.Stop.constructor` | environment.go:15-17 | A new Stop carries the given id and zero values everywhere else. |
| `Datastores.InitDefaultDatastore` | datastore.go:29-49 | Fails with `all fields must be set` exactly when host, port, user, password or database is empty. An empty sslmode is accepted. Otherwise it succeeds exactly when the connection string opens and pings. An open or ping error passes through unchanged. On success the client timeout is 10 seconds. |
| `Datastores.ConnectionStringReadsBack` | datastore.go:34-36 | The connection string reads back as user, password, dbname, host, port and sslmode, in that order, each bound to its argument. |
| `Datastores.StopDetailsReply` | datastore.go:67-86 | Every reply keeps the interface's promise. Details come back exactly when there is no error, and a scan error always gives an error. A scanned row always succeeds, with the row's Details: each NULL column gives that field's zero value. |
| `Datastores.StopDetailsErrors` | datastore.go:68-73 | No rows gives `no stop with that ID`. Any other scan error passes through unchanged. Neither path returns Details. |
| `Datastores.AllNullRowIsZero` | datastore.go:75-84 | A row of NULL columns gives the all-zero Details, not an error. |
| `Datastores.RowDetailsPositional` | datastore.go:67 | The ten columns map by position onto ID, Code, Name, Description, Latitude, Longitude, ZoneID, URL, LocationType and WheelchairBoarding. |
| `Datastores.GetStopDetails` | datastore.go:52-87 | Scanning into sql.Null holders and copying them field by field gives the reply `StopDetailsReply` specifies. |
| `Datastores.NexTripURLRoundTrip` | datastore.go:93 | The URL is the NexTrip base, the decimal id and `?format=json`, and the id reads back from it for every 64-bit id. |
| `Datastores.DecodeElement` | stop.go:71-83 | An element decodes exactly when its DepartureTime key is absent or its token decodes. The decoded DepartureTime is the token's instant, or the zero time when the key is absent. The other eleven fields are copied unchanged. A failure carries the token decoder's error. |
| `Datastores.DecodeElements` | datastore.go:112-113 | The array decodes exactly when every element does, keeping length and order. Otherwise the error is that of the first failing element. |
| `Datastores.DeparturesReplyAsWritten` | datastore.go:90-116 | Every error path returns the pre-allocated list. The departures pointer is nil exactly for a non-400 response whose body is `null`. The error is nil exactly for a non-400 response that reads and decodes. On success with an array body, the list is the element-by-element decoding. A request, transport or body-read error is returned unchanged. |
| `Datastores.NullBodyBreaksPromise` | datastore.go:112-115 | A non-400 response with body `null` returns a nil pointer with a nil error. |
| `Datastores.DeparturesReplyFor` | datastore.go:90-116 | The corrected reply always carries a list and agrees with the source on every other outcome. |
| `Datastores.DeparturesStatusAndParse` | datastore.go:103-113 | Only status exactly 400 gives `bad request`. A body the decoder rejects gives an error prefixed `could not parse: `. So does an array with an element that fails to decode: the error is the first failing element's, and the list is empty. |
| `Datastores.BadDepartureTimeFails` | datastore.go:112-113 | When an element's DepartureTime token fails to decode and every earlier element decodes, the reply is the empty list with `could not parse: ` followed by that token's decoding error. |
| `Datastores.GetStopDepartures` | datastore.go:90-116 | The early returns around the pre-allocated list give the reply `DeparturesReplyAsWritten` specifies, for the response at the stop's NexTrip URL. |
| `Datastores.AsDatastore` | datastore.go:17-20 | The default datastore, with the corrected departures reply, keeps the interface's promise for every id. |
| `Environment.GetDeparturesOutcome` | environment.go:14-36 | Success implies a positive id and a Stop. Every returned Stop carries the caller's id. |
| `Environment.Env.GetDepartures` | environment.go:14-36 | The method logs exactly the calls of `GetDeparturesOutcome`, returns its error, and returns a nil Stop exactly when it does. Otherwise it returns a fresh Stop holding its value. |
| `Environment.InvalidStopID` | environment.go:15-20 | A non-positive id returns a Stop with only the id set and `invalid stopID`, without any datastore call. |
| `Environment.DetailsErrorFailsFast` | environment.go:21-24 | A details error returns a nil Stop with that same error, and departures are never requested. |
| `Environment.DeparturesErrorDiscardsDetails` | environment.go:27-30 | A departures error after good details returns a nil Stop with that same error. |
| `Environment.SuccessCombinesBoth` | environment.go:18-35 | Success happens exactly when the id is positive and both fetches succeed. The Stop then holds the id, the fetched details, the fetched departures in order, and the clock reading. |
| `Environment.CallsInOrder` | environment.go:21-27 | Calls go details first, then departures, each at most once and with the caller's id. There are none for a non-positive id. |
| `Environment.Idempotent` | environment.go:14-36 | Two calls with the same id against the same datastore agree on everything but the update time. This is determinism only: a datastore here answers each id the same way on every call. |
| `Environment.DefaultDatastoreDereferenceable` | environment.go:25-31 | With the corrected default datastore, GetDepartures never dereferences a nil result. |
| `MockDatastore.MockGetStopDetails` | metrotransit_test.go:14-23 | Never an error. The name is set for 5611 and 17946 and empty otherwise, and every other field is zero. |
| `MockDatastore.MockGetStopDepartures` | metrotransit_test.go:24-36 | One zero-valued departure for 5611 and 17946. Any other id gives nil and `no information found`. |
| `MockDatastore.MockKeepsPromise` | metrotransit_test.go:14-36 | The mock keeps the interface's promise for every id. |
| `MockDatastore.NegativeStopFails` | metrotransit_test.go:44-47 | `GetDepartures(-12)` fails with `invalid stopID`. |
| `MockDatastore.VictoriaStSucceeds` | metrotransit_test.go:50-61 | `GetDepartures(5611)` succeeds with name `Victoria St & Idaho Ave` and non-empty departures. |
| `MockDatastore.HennepinAveSucceeds` | metrotransit_test.go:63-74 | `GetDepartures(17946)` succeeds with name `Hennepin Ave & 7th St S` and non-empty departures. |
| `MockDatastore.OtherStopsFail` | metrotransit_test.go:35 | Any other positive id fails with `no information found` and a nil Stop, after both calls. |

## Findings

| source | as written | input that shows it | evidently intended | confidence | as-written member | corrected member |
|---|---|---|---|---|---|---|
| datastore.go:112-115 | `json.Unmarshal(body, &departures)` on the body `null` sets the `departures` pointer itself to nil, and the function returns `(nil, nil)`. `GetDepartures` then dereferences it at environment.go:31. | a response with status 200 and body `null` | the pre-allocated empty list stays, so a nil error always comes with a list | medium, not executed | `Datastores.NullBodyBreaksPromise` | `Datastores.DeparturesReplyFor` |

## Left out

- I/O is not run. `sql.Open`, `db.Ping`, `QueryRow(...).Scan`, `http.NewRequest`, `HTTPClient.Do` and `ioutil.ReadAll` appear only as the outcomes they report. The SQL text and the driver registration are left out. The 10-second timeout is carried as `ClientTimeoutSeconds`, not enforced.
- The response body is never closed in the source. Resource lifetimes are not modelled.
- `time.Now()` is the parameter `now`, so how the update time moves between calls is not modelled.
- `time.Time` is whole Unix seconds. The location that `time.Unix` attaches and RFC 3339 output are not modelled.
- Floating-point fields are opaque 64-bit values, and no arithmetic is done on them.
- encoding/json is not modelled. Serialising the map that `MarshalJSON` builds is left out, and so is the JSON shape of `Stop` and `Details`. The decoder's own work is reduced to `JsonBody`: `null`, a rejection with its message, or the array's elements with each DepartureTime as a raw token. A body that mixes a decoder type error with a bad DepartureTime is modelled as rejected. Go saves a type error and keeps decoding, but the DepartureTime decoder's error stops it. So Go reports the DepartureTime error after `could not parse: `, and a rejection's reason is to be read as that text.
- `Datastores.DeparturesReplyAsWritten`: on a parse failure it returns the empty pre-allocated list. Go returns whatever the decoder had written before failing, which the aggregator discards.
- `Datastores.ConnectionStringReadsBack`: proved only for values without spaces. The source does not quote values, so the PostgreSQL driver would misread a value with a space. The driver's own parser is not modelled; the read-back is a plain split on spaces and on the first '='.
- `Strconv.Quote` escapes every byte at or above 0x80 as `\xHH`. Go does that only for bytes that are not valid UTF-8. It keeps a valid printable rune verbatim, and writes a valid non-printable rune (U+0085, U+00A0, ...) as a `\u` or `\U` escape.
- Go strings other than the raw JSON token are Dafny strings of characters, and nil slices are not told apart from empty ones.
- An implementation of the interface answers each id the same way on every call. A datastore whose answers change between calls is not modelled.
- Concurrency safety of the connection pool and HTTP client is left out, as is the Ginkgo/Gomega harness.
