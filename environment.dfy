/**
 * The aggregator (environment.go): validates the stop id, fetches the stop's
 * details and then its departures through the Datastore interface, failing
 * fast on the first error, and assembles the Stop.
 */
module Environment {
  import opened Wrappers
  import opened Errors
  import opened Records
  import opened Datastores

  /** A call made through the Datastore interface. */
  datatype Call = DetailsCall(stopID: int) | DeparturesCall(stopID: int)

  /** What GetDepartures hands back (the Stop's value, if the pointer is non-nil, and the error) and the calls it made. */
  datatype Outcome = Outcome(stop: Option<StopView>, err: Option<Error>, calls: seq<Call>)

  /**
   * GetDepartures dereferences a datastore result only when its error is nil;
   * it cannot go wrong exactly when each result it dereferences is non-nil.
   */
  predicate Dereferenceable(ds: Datastore, stopID: int) {
    stopID > 0 ==>
      DetailsUsable(ds.getStopDetails(stopID))
      && (ds.getStopDetails(stopID).err.None? ==> DeparturesUsable(ds.getStopDepartures(stopID)))
  }

  /** What GetDepartures(stopID) does against `ds` when the clock reads `now`. */
  function GetDeparturesOutcome(ds: Datastore, stopID: int, now: Instant): (r: Outcome)
    requires Dereferenceable(ds, stopID)
    ensures r.err.None? ==> stopID > 0 && r.stop.Some?
    ensures r.stop.Some? ==> r.stop.value.stopID == stopID
  {
    if stopID <= 0 then
      Outcome(Some(StopView([], ZeroDetails, stopID, ZeroTime)), Some(Message("invalid stopID")), [])
    else
      var sd := ds.getStopDetails(stopID);
      if sd.err.Some? then Outcome(None, sd.err, [DetailsCall(stopID)])
      else
        var deps := ds.getStopDepartures(stopID);
        var calls := [DetailsCall(stopID), DeparturesCall(stopID)];
        if deps.err.Some? then Outcome(None, deps.err, calls)
        else Outcome(Some(StopView(deps.departures.value, sd.details.value, stopID, now)), None, calls)
  }

  /** An environment: the Datastore it reads through, and (for the proofs) the log of calls made through it. */
  class Env {
    const ds: Datastore
    ghost var calls: seq<Call>

    constructor (ds: Datastore)
      ensures this.ds == ds && calls == []
    {
      this.ds := ds;
      calls := [];
    }

    /**
     * GetDepartures: allocates the Stop with its id, rejects a non-positive id,
     * then fills in the details, the departures and the update time between
     * early returns. `now` is the wall clock's reading.
     */
    method GetDepartures(stopID: int, now: Instant) returns (stop: Stop?, err: Option<Error>)
      requires Dereferenceable(ds, stopID)
      modifies this`calls
      ensures var r := GetDeparturesOutcome(ds, stopID, now);
        && calls == old(calls) + r.calls
        && err == r.err
        && (stop == null <==> r.stop.None?)
        && (stop != null ==> fresh(stop) && stop.View() == r.stop.value)
    {
      stop := new Stop(stopID);
      if stopID <= 0 {
        return stop, Some(Message("invalid stopID"));
      }
      calls := calls + [DetailsCall(stopID)];
      var sd := ds.getStopDetails(stopID);
      if sd.err.Some? {
        return null, sd.err;
      }
      stop.details := sd.details.value;

      calls := calls + [DeparturesCall(stopID)];
      var stopDepartures := ds.getStopDepartures(stopID);
      if stopDepartures.err.Some? {
        return null, stopDepartures.err;
      }
      stop.departures := stopDepartures.departures.value;

      stop.updateTime := now;

      return stop, None;
    }
  }

  /** A non-positive id: a Stop carrying only the id, "invalid stopID", and no datastore call. */
  lemma InvalidStopID(ds: Datastore, stopID: int, now: Instant)
    requires stopID <= 0
    ensures GetDeparturesOutcome(ds, stopID, now)
      == Outcome(Some(StopView([], ZeroDetails, stopID, ZeroTime)), Some(Message("invalid stopID")), [])
  {
  }

  /** A details error is returned as is, with a nil Stop, and the departures are never asked for. */
  lemma DetailsErrorFailsFast(ds: Datastore, stopID: int, now: Instant)
    requires stopID > 0 && ds.getStopDetails(stopID).err.Some?
    ensures GetDeparturesOutcome(ds, stopID, now)
      == Outcome(None, ds.getStopDetails(stopID).err, [DetailsCall(stopID)])
  {
  }

  /** A departures error after good details is returned as is, and the details are discarded. */
  lemma DeparturesErrorDiscardsDetails(ds: Datastore, stopID: int, now: Instant)
    requires stopID > 0 && DetailsUsable(ds.getStopDetails(stopID))
    requires ds.getStopDetails(stopID).err.None? && ds.getStopDepartures(stopID).err.Some?
    ensures GetDeparturesOutcome(ds, stopID, now)
      == Outcome(None, ds.getStopDepartures(stopID).err, [DetailsCall(stopID), DeparturesCall(stopID)])
  {
  }

  /**
   * GetDepartures succeeds exactly when the id is positive and both fetches
   * succeed; the Stop then holds the id, the fetched details, the fetched
   * departures in their order, and the clock reading.
   */
  lemma SuccessCombinesBoth(ds: Datastore, stopID: int, now: Instant)
    requires Dereferenceable(ds, stopID)
    ensures var r := GetDeparturesOutcome(ds, stopID, now);
      r.err.None? <==> stopID > 0 && ds.getStopDetails(stopID).err.None? && ds.getStopDepartures(stopID).err.None?
    ensures var r := GetDeparturesOutcome(ds, stopID, now);
      r.err.None? ==> r.stop == Some(StopView(ds.getStopDepartures(stopID).departures.value,
                                               ds.getStopDetails(stopID).details.value, stopID, now))
  {
  }

  /** The calls made are details then departures, each at most once, each with the caller's id. */
  lemma CallsInOrder(ds: Datastore, stopID: int, now: Instant)
    requires Dereferenceable(ds, stopID)
    ensures var calls := GetDeparturesOutcome(ds, stopID, now).calls;
      calls <= [DetailsCall(stopID), DeparturesCall(stopID)]
      && (calls == [] <==> stopID <= 0)
      && (|calls| == 2 <==> stopID > 0 && ds.getStopDetails(stopID).err.None?)
  {
  }

  /**
   * Two calls for the same id against the same datastore agree on everything
   * but the update time. This is determinism only: a Datastore here answers
   * each id the same way on every call, so nothing about a datastore whose
   * answers change between calls follows from it.
   */
  lemma Idempotent(ds: Datastore, stopID: int, now1: Instant, now2: Instant)
    requires Dereferenceable(ds, stopID)
    ensures var r1, r2 := GetDeparturesOutcome(ds, stopID, now1), GetDeparturesOutcome(ds, stopID, now2);
      r1.err == r2.err && r1.calls == r2.calls && r1.stop.Some? == r2.stop.Some?
      && (r1.stop.Some? ==> r1.stop.value.(updateTime := now2) == r2.stop.value.(updateTime := now2))
  {
  }

  /** With the corrected default datastore, GetDepartures can never dereference a nil result. */
  lemma DefaultDatastoreDereferenceable(dd: DefaultDatastore, stopID: int)
    ensures Dereferenceable(AsDatastore(dd), stopID)
  {
  }
}
