/**
 * The test double of metrotransit_test.go: a stateless Datastore that knows
 * two stops, and the test's expectations about GetDepartures proved of it.
 */
module MockDatastore {
  import opened Wrappers
  import opened Errors
  import opened Records
  import opened Datastores
  import opened Environment

  const VictoriaSt: int := 5611
  const HennepinAve: int := 17946

  /** Details are never an error: a name for the two known stops, all-zero Details otherwise. */
  function MockGetStopDetails(stopID: int): (r: DetailsReply)
    ensures r.err.None? && r.details.Some?
    ensures r.details.value == ZeroDetails.(name := r.details.value.name)
    ensures r.details.value.name ==
      if stopID == VictoriaSt then "Victoria St & Idaho Ave"
      else if stopID == HennepinAve then "Hennepin Ave & 7th St S"
      else ""
  {
    var stop := ZeroDetails;
    var stop := if stopID == VictoriaSt then stop.(name := "Victoria St & Idaho Ave")
      else if stopID == HennepinAve then stop.(name := "Hennepin Ave & 7th St S")
      else stop;
    DetailsReply(Some(stop), None)
  }

  /** One zero-valued departure for the two known stops; nil and "no information found" otherwise. */
  function MockGetStopDepartures(stopID: int): (r: DeparturesReply)
    ensures r.err.None? <==> stopID == VictoriaSt || stopID == HennepinAve
    ensures r.err.None? ==> r.departures == Some([ZeroDeparture])
    ensures r.err.Some? ==> r == DeparturesReply(None, Some(Message("no information found")))
  {
    if stopID == VictoriaSt then DeparturesReply(Some([ZeroDeparture]), None)
    else if stopID == HennepinAve then DeparturesReply(Some([ZeroDeparture]), None)
    else DeparturesReply(None, Some(Message("no information found")))
  }

  const Mock: Datastore := Datastore(MockGetStopDetails, MockGetStopDepartures)

  lemma MockKeepsPromise()
    ensures KeepsPromise(Mock)
  {
  }

  /** "-12 should return an error": invalid stopID. */
  lemma NegativeStopFails(now: Instant)
    ensures GetDeparturesOutcome(Mock, -12, now).err == Some(Message("invalid stopID"))
  {
  }

  /** Stop 5611: no error, the Victoria St name, a non-empty departure list. */
  lemma VictoriaStSucceeds(now: Instant)
    ensures var r := GetDeparturesOutcome(Mock, VictoriaSt, now);
      r.err.None? && r.stop.Some?
      && r.stop.value.details.name == "Victoria St & Idaho Ave"
      && |r.stop.value.departures| > 0
  {
  }

  /** Stop 17946: no error, the Hennepin Ave name, a non-empty departure list. */
  lemma HennepinAveSucceeds(now: Instant)
    ensures var r := GetDeparturesOutcome(Mock, HennepinAve, now);
      r.err.None? && r.stop.Some?
      && r.stop.value.details.name == "Hennepin Ave & 7th St S"
      && |r.stop.value.departures| > 0
  {
  }

  /** Every other positive id fails with "no information found" and a nil Stop. */
  lemma OtherStopsFail(stopID: int, now: Instant)
    requires stopID > 0 && stopID != VictoriaSt && stopID != HennepinAve
    ensures GetDeparturesOutcome(Mock, stopID, now)
      == Outcome(None, Some(Message("no information found")), [DetailsCall(stopID), DeparturesCall(stopID)])
  {
  }
}
