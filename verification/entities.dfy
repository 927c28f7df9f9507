/**
  The persisted entities of the delivery service. Every Java reference field
  may be null, so each one is an `Option`; the numeric identifiers are
  generated by the store and are absent on records that were never saved.
 */
module Entities {
  import opened Wrappers
  import opened DeliveryStatuses

  datatype VehicleType = Car | Truck | Train | Plane | Ship | Helicopter | Drone

  /** The constant's identifier: the text stored in the type column and matched by search filters. */
  function VehicleTypeName(t: VehicleType): string {
    match t
    case Car => "CAR"
    case Truck => "TRUCK"
    case Train => "TRAIN"
    case Plane => "PLANE"
    case Ship => "SHIP"
    case Helicopter => "HELICOPTER"
    case Drone => "DRONE"
  }

  datatype Vehicle = Vehicle(
    id: Option<int>,
    vehicleType: Option<VehicleType>,
    vehicleNumber: Option<string>,
    routeFrom: Option<string>,
    routeTo: Option<string>)

  /** A cargo record; `vehicle` is the owning vehicle of the many-to-one relation. */
  datatype Cargo = Cargo(
    id: Option<int>,
    vehicle: Option<Vehicle>,
    description: Option<string>,
    weight: Option<real>,
    status: Option<DeliveryStatus>)
}
