/** The three stored records: cities, vehicles and routes. */
module Entities {
  import opened Numbers

  /** A document identifier; only equality matters to the model. */
  datatype ObjectId = ObjectId(n: nat)

  /** A city: `x` is its longitude and `y` its latitude. */
  datatype City = City(id: ObjectId, name: string, x: real, y: real)

  datatype VehicleType = Truck | Train

  /** A vehicle as the cost code reads it. Every numeric field of the
      schema is required. `fuelPrice` is the field the fuel-cost formula
      reads; the schema does not define it, so it is `None` on every
      vehicle loaded from the store (see `StoredVehicle`). */
  datatype Vehicle = Vehicle(
    id: ObjectId,
    kind: VehicleType,
    speed: real,
    capacity: real,
    fuelCost: real,
    fuelEfficiency: real,
    maintenanceCostPerKm: real,
    timeCostPerHour: real,
    regularLoad: real,
    fuelPrice: Option<real>)

  /** A vehicle as the store returns it: it carries no `fuelPrice`. */
  predicate StoredVehicle(v: Vehicle) {
    v.fuelPrice.None?
  }

  /** A route as handed to the store. `cost` and `revenue` may be NaN;
      `timeInMinutes` is the formatted duration text. */
  datatype RouteRecord = RouteRecord(
    startCity: ObjectId,
    endCity: ObjectId,
    vehicle: ObjectId,
    distance: real,
    cost: Num,
    timeInMinutes: string,
    revenue: Num)
}
