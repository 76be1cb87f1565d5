/** The route-creation request: the order in which it looks records up,
    resolves the distance, computes cost, time and revenue, and hands the
    new route to the store, and the reply each path ends in. The lookups,
    the two directions responses and the store's verdict are inputs. */
module RouteCreation {
  import opened Numbers
  import opened Entities
  import opened Directions
  import opened Costing
  import opened Duration
  import opened DurationText

  /** The outcome of one `findById`: the record, null, or a thrown error
      (a malformed identifier or a failing store). */
  datatype Lookup<T> = Found(record: T) | NotFound | Threw

  /** What the request's three lookups produced. */
  datatype Lookups = Lookups(startCity: Lookup<City>, endCity: Lookup<City>, vehicle: Lookup<Vehicle>)

  /** Why the catch-all error reply was sent. */
  datatype Fault =
    | LookupThrew    // a findById call threw
    | VehicleIsNull  // reading regularLoad of a null vehicle threw
    | CostIsNull     // destructuring the null result of the cost computation threw
    | SaveRejected   // the store refused the new route

  datatype Status =
    | Redirected           // redirect to the dashboard
    | InvalidIds           // 400 "Invalid city or vehicle ID"
    | DistanceUnavailable  // 500 "Unable to calculate distance"
    | CreateFailed(cause: Fault)  // 500 "Failed to create route"

  /** The reply, the number of calls made to the directions service, and
      the route handed to the store, if any. */
  datatype Reply = Reply(status: Status, directionsCalls: nat, submitted: Option<RouteRecord>)

  function HttpStatus(s: Status): int {
    match s
    case Redirected => 302
    case InvalidIds => 400
    case DistanceUnavailable => 500
    case CreateFailed(_) => 500
  }

  predicate AnyThrew(l: Lookups) {
    l.startCity.Threw? || l.endCity.Threw? || l.vehicle.Threw?
  }

  predicate AllFound(l: Lookups) {
    l.startCity.Found? && l.endCity.Found? && l.vehicle.Found?
  }

  /** The cost stored with a route: the computed total when it is truthy,
      otherwise distance times the vehicle's `fuelCost`. */
  function StoredCost(totalCost: Num, distance: real, v: Vehicle): (c: Num)
    ensures c.Fin?
  {
    Or(totalCost, Fin(distance * v.fuelCost))
  }

  /** The route handed to the store: the three ids, the handler's distance,
      the stored cost, the formatted time and the revenue computed from the
      stored cost. */
  function NewRoute(start: City, end: City, v: Vehicle, d: real, estimate: CostEstimate): RouteRecord {
    var cost := StoredCost(estimate.totalCost, d, v);
    var revenue := CalculateRevenue(Fin(d), Fin(v.regularLoad), Some(v), cost);
    RouteRecord(start.id, end.id, v.id, d, cost, TimeText(estimate.timeInMinutes), revenue)
  }

  /** The request once the three records are found: the handler's own
      distance lookup, the cost computation with its second lookup, the new
      route and the store's verdict on it. */
  function CreateFound(start: City, end: City, v: Vehicle, first: Response, second: Response,
                       accepts: RouteRecord -> bool): (r: Reply)
    ensures 1 <= r.directionsCalls <= 2
    ensures r.status != InvalidIds && r.status != CreateFailed(LookupThrew) && r.status != CreateFailed(VehicleIsNull)
    ensures r.status == DistanceUnavailable <==> !Usable(ResolveDistance(first))
    ensures r.submitted.Some? <==> Usable(ResolveDistance(first)) && Usable(ResolveDistance(second))
    ensures r.submitted.Some? ==>
      && r.directionsCalls == 2
      && r.submitted.value
         == NewRoute(start, end, v, ResolveDistance(first).value, CalculateCost(second, v).value)
    ensures r.status == Redirected <==> r.submitted.Some? && accepts(r.submitted.value)
  {
    var distance := ResolveDistance(first);
    if !Usable(distance) then Reply(DistanceUnavailable, 1, None)
    else
      var estimate := CalculateCost(second, v);
      if estimate.None? then Reply(CreateFailed(CostIsNull), 2, None)
      else
        var route := NewRoute(start, end, v, distance.value, estimate.value);
        if accepts(route) then Reply(Redirected, 2, Some(route))
        else Reply(CreateFailed(SaveRejected), 2, Some(route))
  }

  /** The route-creation request. `first` is the answer to the distance
      lookup made by the handler, `second` the answer to the one the cost
      computation makes on its own; `accepts` is the store's verdict on the
      route handed to it. */
  function CreateRoute(l: Lookups, first: Response, second: Response, accepts: RouteRecord -> bool): (r: Reply)
    // The 400 reply happens exactly when the vehicle was found and a city was not.
    ensures r.status == InvalidIds <==> !AnyThrew(l) && l.vehicle.Found? && !AllFound(l)
    // A missing vehicle ends on the catch-all 500 path, whatever the cities.
    ensures !AnyThrew(l) && l.vehicle.NotFound? ==> r.status == CreateFailed(VehicleIsNull)
    // Nothing leaves the process before all three records are found.
    ensures r.directionsCalls > 0 ==> AllFound(l)
    ensures r.directionsCalls <= 2
    ensures r.status == DistanceUnavailable <==> AllFound(l) && !Usable(ResolveDistance(first))
    ensures r.submitted.Some? <==>
      AllFound(l) && Usable(ResolveDistance(first)) && Usable(ResolveDistance(second))
    ensures r.status == Redirected <==> r.submitted.Some? && accepts(r.submitted.value)
    ensures r.submitted.Some? ==> r.directionsCalls == 2
  {
    if AnyThrew(l) then Reply(CreateFailed(LookupThrew), 0, None)
    else if l.vehicle.NotFound? then Reply(CreateFailed(VehicleIsNull), 0, None)
    else if l.startCity.NotFound? || l.endCity.NotFound? then Reply(InvalidIds, 0, None)
    else CreateFound(l.startCity.record, l.endCity.record, l.vehicle.record, first, second, accepts)
  }

  /** What the submitted route holds: the ids of the three records, the
      handler's own distance, the fallback cost rule applied to the second
      lookup's total cost, the text of the second lookup's time, and the
      revenue computed from the same cost value that is stored. */
  lemma SubmittedRoute(l: Lookups, first: Response, second: Response, accepts: RouteRecord -> bool)
    requires AllFound(l) && Usable(ResolveDistance(first)) && Usable(ResolveDistance(second))
    ensures CreateRoute(l, first, second, accepts).submitted.Some?
    ensures
      var route := CreateRoute(l, first, second, accepts).submitted.value;
      var v := l.vehicle.record;
      var d := ResolveDistance(first).value;
      var estimate := CalculateCost(second, v).value;
      && route.startCity == l.startCity.record.id
      && route.endCity == l.endCity.record.id
      && route.vehicle == v.id
      && route.distance == d
      && (Truthy(estimate.totalCost) ==> route.cost == estimate.totalCost)
      && (!Truthy(estimate.totalCost) ==> route.cost == Fin(d * v.fuelCost))
      && route.timeInMinutes == TimeText(estimate.timeInMinutes)
      && route.revenue == CalculateRevenue(Fin(d), Fin(v.regularLoad), Some(v), route.cost)
  {
    SubmittedIsNewRoute(l, first, second, accepts);
    var v := l.vehicle.record;
    var d := ResolveDistance(first).value;
    var estimate := CalculateCost(second, v).value;
    var cost := StoredCost(estimate.totalCost, d, v);
    assert CreateRoute(l, first, second, accepts).submitted.value
        == RouteRecord(l.startCity.record.id, l.endCity.record.id, v.id, d, cost,
                       TimeText(estimate.timeInMinutes),
                       CalculateRevenue(Fin(d), Fin(v.regularLoad), Some(v), cost));
  }

  /** With all three records found and both lookups usable, a route is
      submitted, built from the found records, the first distance and the
      second cost estimate. */
  lemma SubmittedIsNewRoute(l: Lookups, first: Response, second: Response, accepts: RouteRecord -> bool)
    requires AllFound(l) && Usable(ResolveDistance(first)) && Usable(ResolveDistance(second))
    ensures CreateRoute(l, first, second, accepts).submitted.Some?
    ensures CalculateCost(second, l.vehicle.record).Some?
    ensures CreateRoute(l, first, second, accepts).submitted.value
         == NewRoute(l.startCity.record, l.endCity.record, l.vehicle.record,
                     ResolveDistance(first).value, CalculateCost(second, l.vehicle.record).value)
  {
    assert CreateRoute(l, first, second, accepts)
        == CreateFound(l.startCity.record, l.endCity.record, l.vehicle.record, first, second, accepts);
  }

  /** A vehicle loaded from the store has no `fuelPrice`, so the computed
      total cost is always NaN and the stored cost is always the fallback
      `distance * fuelCost`. */
  lemma StoredVehicleAlwaysFallsBack(l: Lookups, first: Response, second: Response, accepts: RouteRecord -> bool)
    requires AllFound(l) && Usable(ResolveDistance(first)) && Usable(ResolveDistance(second))
    requires StoredVehicle(l.vehicle.record)
    ensures CreateRoute(l, first, second, accepts).submitted.Some?
    ensures CreateRoute(l, first, second, accepts).submitted.value.cost
         == Fin(ResolveDistance(first).value * l.vehicle.record.fuelCost)
  {
    StoredVehicleCostIsNaN(second, l.vehicle.record);
    SubmittedRoute(l, first, second, accepts);
  }

  /** The handler does not check the revenue: a vehicle whose regular load
      is zero gives a NaN revenue, and the route is still handed to the store
      (and the reply is a redirect if the store accepts it). */
  lemma InvalidRevenueIsSubmitted(l: Lookups, first: Response, second: Response, accepts: RouteRecord -> bool)
    requires AllFound(l) && Usable(ResolveDistance(first)) && Usable(ResolveDistance(second))
    requires l.vehicle.record.regularLoad == 0.0
    ensures CreateRoute(l, first, second, accepts).submitted.Some?
    ensures CreateRoute(l, first, second, accepts).submitted.value.revenue == NaN
  {
  }

  /** A failing second lookup, after the first one succeeded, ends on the
      catch-all 500 path with nothing submitted, not on the "Unable to
      calculate distance" reply. */
  lemma SecondLookupFailureIsCaught(l: Lookups, first: Response, accepts: RouteRecord -> bool)
    requires AllFound(l) && Usable(ResolveDistance(first))
    ensures CreateRoute(l, first, CallFailed, accepts) == Reply(CreateFailed(CostIsNull), 2, None)
  {
  }

  /** The reply codes: 400 only for a missing city next to a found vehicle,
      302 only for an accepted route, 500 for a throwing lookup, a missing
      vehicle, or a found trio whose route was not stored. */
  lemma ReplyCodes(l: Lookups, first: Response, second: Response, accepts: RouteRecord -> bool)
    ensures
      var r := CreateRoute(l, first, second, accepts);
      && (HttpStatus(r.status) == 400 <==> !AnyThrew(l) && l.vehicle.Found? && !AllFound(l))
      && (HttpStatus(r.status) == 302 <==> r.submitted.Some? && accepts(r.submitted.value))
      && (HttpStatus(r.status) == 500 <==>
            || AnyThrew(l)
            || l.vehicle.NotFound?
            || (AllFound(l) && !(r.submitted.Some? && accepts(r.submitted.value))))
  {
  }

  /** A 100 km route for a vehicle with speed 50, fuel efficiency 10, fuel
      cost 1.5, maintenance 0.2 per km, 20 per hour, capacity 1000 and
      regular load 500. */
  function ExampleVehicle(fuelPrice: Option<real>): Vehicle {
    Vehicle(ObjectId(3), Truck, 50.0, 1000.0, 1.5, 10.0, 0.2, 20.0, 500.0, fuelPrice)
  }

  function ExampleLookups(fuelPrice: Option<real>): Lookups {
    Lookups(Found(City(ObjectId(1), "A", 0.0, 0.0)), Found(City(ObjectId(2), "B", 1.0, 1.0)),
            Found(ExampleVehicle(fuelPrice)))
  }

  const HundredKm: Response := Answered(Some([DirectionsRoute([Leg(100000.0)])]))

  /** With a fuel price of 1.5 per unit the cost is 15 + 20 + 40 = 75 and the
      revenue 5 * 100 * 0.5 - 75 = 175, over two hours. */
  lemma ExampleWithFuelPrice(accepts: RouteRecord -> bool)
    ensures
      var r := CreateRoute(ExampleLookups(Some(1.5)), HundredKm, HundredKm, accepts);
      && r.submitted.Some?
      && r.submitted.value.cost == Fin(75.0)
      && r.submitted.value.revenue == Fin(175.0)
      && r.submitted.value.timeInMinutes == "2 hours 0 minutes 0 seconds"
  {
    var l := ExampleLookups(Some(1.5));
    ExampleCost();
    assert ResolveDistance(HundredKm).value == 100.0;
    SubmittedIsNewRoute(l, HundredKm, HundredKm, accepts);
    ExampleRouteWithFuelPrice();
  }

  lemma ExampleRouteWithFuelPrice()
    ensures
      var l := ExampleLookups(Some(1.5));
      var route := NewRoute(l.startCity.record, l.endCity.record, l.vehicle.record, 100.0,
                            CostEstimate(Fin(75.0), Fin(120.0)));
      && route.cost == Fin(75.0)
      && route.revenue == Fin(175.0)
      && route.timeInMinutes == "2 hours 0 minutes 0 seconds"
  {
    TwoHoursText();
    ExampleRevenue();
  }

  lemma ExampleRevenue()
    ensures CalculateRevenue(Fin(100.0), Fin(500.0), Some(ExampleVehicle(Some(1.5))), Fin(75.0)) == Fin(175.0)
  {
    assert 5.0 * 100.0 * (500.0 / 1000.0) - 75.0 == 175.0;
  }

  lemma ExampleCost()
    ensures CalculateCost(HundredKm, ExampleVehicle(Some(1.5))) == Some(CostEstimate(Fin(75.0), Fin(120.0)))
  {
    assert ResolveDistance(HundredKm).value == 100.0;
    assert (100.0 / 10.0) * 1.5 == 15.0;
    assert 100.0 * 0.2 == 20.0;
    assert (100.0 / 50.0) * 20.0 == 40.0;
    assert (100.0 / 50.0) * 60.0 == 120.0;
  }

  /** The same route with the vehicle as stored (no fuel price): the cost
      falls back to 100 * 1.5 = 150 and the revenue is 250 - 150 = 100. */
  lemma ExampleAsStored(accepts: RouteRecord -> bool)
    ensures
      var r := CreateRoute(ExampleLookups(None), HundredKm, HundredKm, accepts);
      && r.submitted.Some?
      && r.submitted.value.cost == Fin(150.0)
      && r.submitted.value.revenue == Fin(100.0)
  {
    var v := ExampleVehicle(None);
    assert ResolveDistance(HundredKm) == Some(100.0);
    StoredVehicleCostIsNaN(HundredKm, v);
  }

  lemma TwoHoursText()
    ensures TimeText(Fin(120.0)) == "2 hours 0 minutes 0 seconds"
  {
    TwoHoursSegments();
    TimeTextIsJoinedWords(Fin(120.0));
    TwoHoursWords();
  }

  lemma TwoHoursSegments()
    ensures FormatTime(Fin(120.0)) ==
      [Segment(Whole(2), HoursUnit), Segment(Whole(0), MinutesUnit),
       Segment(Whole(0), SecondsUnit)]
  {
    assert Trunc(2.0) == 2;
    assert Mod60(120.0) == 0.0;
    var c := Split(120.0);
    assert c == Clock(2, 0, 0);
  }

  lemma TwoHoursWords()
    ensures Join(Words([Segment(Whole(2), HoursUnit),
                        Segment(Whole(0), MinutesUnit),
                        Segment(Whole(0), SecondsUnit)]))
         == "2 hours 0 minutes 0 seconds"
  {
    TwoHoursWordList();
    TwoHoursJoin();
  }

  lemma TwoHoursJoin()
    ensures Join(["2", "hours", "0", "minutes", "0", "seconds"]) == "2 hours 0 minutes 0 seconds"
  {
    JoinSix("2", "hours", "0", "minutes", "0", "seconds");
    TwoHoursLiteral();
  }

  lemma TwoHoursLiteral()
    ensures "2" + " " + ("hours" + " " + ("0" + " " + ("minutes" + " " + ("0" + " " + "seconds")))) == "2 hours 0 minutes 0 seconds"
  {
  }

  lemma TwoHoursWordList()
    ensures Words([Segment(Whole(2), HoursUnit),
                   Segment(Whole(0), MinutesUnit),
                   Segment(Whole(0), SecondsUnit)])
         == ["2", "hours", "0", "minutes", "0", "seconds"]
  {
    var segs := [Segment(Whole(2), HoursUnit),
                 Segment(Whole(0), MinutesUnit),
                 Segment(Whole(0), SecondsUnit)];
    assert CountText(Whole(2)) == "2" && CountText(Whole(0)) == "0";
    assert Words(segs[2..]) == ["0", "seconds"];
    assert Words(segs[1..]) == ["0", "minutes", "0", "seconds"] by { assert segs[1..][1..] == segs[2..]; }
  }
}
