/** The cost and revenue arithmetic of route creation. */
module Costing {
  import opened Numbers
  import opened Entities
  import opened Directions

  /** What the cost computation returns: the total cost and the travel time
      in minutes. Either may be NaN. */
  datatype CostEstimate = CostEstimate(totalCost: Num, timeInMinutes: Num)

  /** The flat price charged per kilometre at full load, for every vehicle type. */
  const BasePricePerKm: real := 5.0

  /** The total cost when every term is a finite number: fuel, maintenance
      and time cost, stated over the reals. */
  function CostFormula(d: real, efficiency: real, price: real, v: Vehicle): real
    requires efficiency != 0.0 && v.speed != 0.0
  {
    (d / efficiency) * price + d * v.maintenanceCostPerKm + (d / v.speed) * v.timeCostPerHour
  }

  /** The cost computation. It resolves the distance itself, from its own
      directions response, and yields nothing (null) when that distance is
      missing or zero. The fuel term reads the vehicle's `fuelPrice`.
      `calculateCost` never reads its `load` parameter, so it is not modelled. */
  function CalculateCost(response: Response, v: Vehicle): (r: Option<CostEstimate>)
    ensures r.None? <==> !Usable(ResolveDistance(response))
    ensures r.Some? ==>
      var d := ResolveDistance(response).value;
      && (r.value.timeInMinutes.Fin? <==> v.speed != 0.0)
      && (r.value.timeInMinutes.Fin? ==> r.value.timeInMinutes.r * v.speed == 60.0 * d)
      && (r.value.totalCost.Fin? <==> v.fuelPrice.Some? && v.fuelEfficiency != 0.0 && v.speed != 0.0)
      && (r.value.totalCost.Fin? ==>
            r.value.totalCost.r == CostFormula(d, v.fuelEfficiency, v.fuelPrice.value, v))
  {
    var distance := ResolveDistance(response);
    if !Usable(distance) then None
    else
      var d := Fin(distance.value);
      var fuelCost := Mul(Div(d, Fin(v.fuelEfficiency)), FieldValue(v.fuelPrice));
      var maintenanceCost := Mul(d, Fin(v.maintenanceCostPerKm));
      var timeInHours := Div(d, Fin(v.speed));
      var timeInMinutes := Mul(timeInHours, Fin(60.0));
      var timeCost := Mul(timeInHours, Fin(v.timeCostPerHour));
      Some(CostEstimate(Add(Add(fuelCost, maintenanceCost), timeCost), timeInMinutes))
  }

  /** The revenue computation. Missing or zero distance, load, vehicle or
      capacity give NaN, so does a load factor outside [0, 1]; otherwise the
      flat price for the loaded share of the distance minus the total cost,
      which may be negative. */
  function CalculateRevenue(distance: Num, load: Num, vehicle: Option<Vehicle>, totalCost: Num): (r: Num)
    ensures !Truthy(distance) || !Truthy(load) || vehicle.None? || vehicle.value.capacity == 0.0 ==> r == NaN
    ensures r.Fin? ==> totalCost.Fin? && 0.0 <= load.r / vehicle.value.capacity <= 1.0
    ensures r.Fin? ==> r.r == BasePricePerKm * distance.r * (load.r / vehicle.value.capacity) - totalCost.r
  {
    if !Truthy(distance) || !Truthy(load) || vehicle.None? || vehicle.value.capacity == 0.0 then NaN
    else
      var loadFactor := load.r / vehicle.value.capacity;
      if loadFactor < 0.0 || loadFactor > 1.0 then NaN
      else Sub(Fin(BasePricePerKm * distance.r * loadFactor), totalCost)
  }

  /** Exactly when the revenue is a number: every input truthy, the load
      factor within [0, 1] and the total cost a number. */
  lemma RevenueValidIff(distance: Num, load: Num, vehicle: Option<Vehicle>, totalCost: Num)
    ensures CalculateRevenue(distance, load, vehicle, totalCost).Fin? <==>
      && Truthy(distance) && Truthy(load) && vehicle.Some? && vehicle.value.capacity != 0.0
      && 0.0 <= load.r / vehicle.value.capacity <= 1.0
      && totalCost.Fin?
  {
  }

  /** For a positive capacity the load-factor test is a test on the load
      itself: the revenue is a number exactly when 0 < load <= capacity
      (a zero load is rejected as missing), the distance is truthy and the
      total cost is a number. */
  lemma RevenueValidForPositiveCapacity(distance: Num, load: real, v: Vehicle, totalCost: Num)
    requires v.capacity > 0.0
    ensures CalculateRevenue(distance, Fin(load), Some(v), totalCost).Fin? <==>
      Truthy(distance) && 0.0 < load <= v.capacity && totalCost.Fin?
  {
    if 0.0 < load <= v.capacity {
      DivBounds(load, v.capacity);
    } else if load < 0.0 {
      assert load / v.capacity < 0.0 by { DivSign(load, v.capacity); }
    } else if load > v.capacity {
      assert load / v.capacity > 1.0 by { DivAboveOne(load, v.capacity); }
    }
  }

  lemma DivBounds(x: real, c: real)
    requires 0.0 < x <= c
    ensures 0.0 <= x / c <= 1.0
  {
    assert x / c * c == x;
  }

  lemma DivSign(x: real, c: real)
    requires x < 0.0 < c
    ensures x / c < 0.0
  {
    assert x / c * c == x;
  }

  lemma DivAboveOne(x: real, c: real)
    requires 0.0 < c < x
    ensures x / c > 1.0
  {
    assert x / c * c == x;
  }

  /** The load-factor test does not reject every negative load: with a
      negative capacity a negative load gives a positive factor and a
      revenue number. */
  lemma NegativeLoadAcceptedWithNegativeCapacity(v: Vehicle)
    requires v.capacity == -10.0
    ensures CalculateRevenue(Fin(100.0), Fin(-5.0), Some(v), Fin(0.0)) == Fin(250.0)
  {
  }

  /** A total cost above the revenue gives a negative revenue, returned as is. */
  lemma RevenueMayBeNegative(v: Vehicle)
    requires v.capacity == 1000.0
    ensures CalculateRevenue(Fin(100.0), Fin(500.0), Some(v), Fin(400.0)) == Fin(-150.0)
  {
  }

  /** With the vehicle as stored (no `fuelPrice`), the fuel term is NaN and
      so is the total cost, whatever the distance and the other rates. */
  lemma StoredVehicleCostIsNaN(response: Response, v: Vehicle)
    requires StoredVehicle(v)
    requires Usable(ResolveDistance(response))
    ensures CalculateCost(response, v).Some?
    ensures CalculateCost(response, v).value.totalCost == NaN
  {
  }

  /** The two results agree: the time cost is the time in hours times the
      hourly rate, so the total cost is the fuel and maintenance cost plus
      `timeInMinutes / 60 * timeCostPerHour`. */
  lemma TotalCostAgreesWithTime(response: Response, v: Vehicle)
    requires Usable(ResolveDistance(response))
    requires v.fuelPrice.Some? && v.fuelEfficiency != 0.0 && v.speed != 0.0
    ensures CalculateCost(response, v).value.totalCost.Fin?
    ensures CalculateCost(response, v).value.timeInMinutes.Fin?
    ensures
      var d := ResolveDistance(response).value;
      var e := CalculateCost(response, v).value;
      e.totalCost.r == (d / v.fuelEfficiency) * v.fuelPrice.value + d * v.maintenanceCostPerKm
                       + (e.timeInMinutes.r / 60.0) * v.timeCostPerHour
  {
    var d := ResolveDistance(response).value;
    var e := CalculateCost(response, v).value;
    assert e.timeInMinutes.r == (d / v.speed) * 60.0;
  }

  /** Cost and time scale with the distance: a first leg k times as long
      gives k times the total cost and k times the travel time. */
  lemma CostScalesWithDistance(leg: Leg, k: real, v: Vehicle)
    requires k > 0.0 && leg.distance != 0.0
    requires v.fuelPrice.Some? && v.fuelEfficiency != 0.0 && v.speed != 0.0
    ensures
      var one := CalculateCost(Answered(Some([DirectionsRoute([leg])])), v).value;
      var many := CalculateCost(Answered(Some([DirectionsRoute([Leg(k * leg.distance)])])), v).value;
      && many.totalCost.r == k * one.totalCost.r
      && many.timeInMinutes.r == k * one.timeInMinutes.r
  {
    var d := leg.distance / 1000.0;
    var longer := Answered(Some([DirectionsRoute([Leg(k * leg.distance)])]));
    assert longer.routes.value[0].legs[0].distance == k * leg.distance;
    ScaleQuotient(k, leg.distance, 1000.0);
    assert ResolveDistance(longer).value == k * d;
    FormulaScales(k, d, v.fuelEfficiency, v.fuelPrice.value, v);
    TimeScales(k, d, v.speed);
  }

  lemma ScaleQuotient(k: real, x: real, y: real)
    requires y != 0.0
    ensures (k * x) / y == k * (x / y)
  {
  }

  lemma FormulaScales(k: real, d: real, efficiency: real, price: real, v: Vehicle)
    requires efficiency != 0.0 && v.speed != 0.0
    ensures CostFormula(k * d, efficiency, price, v) == k * CostFormula(d, efficiency, price, v)
  {
    ScaleQuotient(k, d, efficiency);
    ScaleQuotient(k, d, v.speed);
    var a, b, c := d / efficiency, d / v.speed, d * v.maintenanceCostPerKm;
    assert (k * a) * price == k * (a * price);
    assert (k * b) * v.timeCostPerHour == k * (b * v.timeCostPerHour);
    assert (k * d) * v.maintenanceCostPerKm == k * c;
  }

  /** The travel time of a k times longer distance, `60 * (k d) / speed`. */
  lemma TimeScales(k: real, d: real, speed: real)
    requires speed != 0.0
    ensures ((k * d) / speed) * 60.0 == k * ((d / speed) * 60.0)
  {
    ScaleQuotient(k, d, speed);
  }
}
