/**
 * The record shapes the scrapers and notifiers pass around. Optional fields of the original records
 * are `Option`s; a numeric field that JavaScript would hold as NaN is folded into `None`.
 */
module Interfaces {
  import opened Wrappers

  /** A listing found on a result page, before it has a row id (`Omit<IVehicleEntry, 'id'>`). */
  datatype VehicleEntry = VehicleEntry(platform: string, platformId: string, link: string)

  /** The technical data of one listing; `id` is the listing's row id. */
  datatype VehicleSpec = VehicleSpec(
    id: nat,
    km: Option<int>,
    kw: Option<int>,
    fuel: Option<string>,
    transmission: Option<string>,
    ccm: Option<int>,
    price: Option<int>,
    city: Option<string>,
    zipcode: Option<int>)

  /** A vehicle category without its row id (`IVehicleTypePreview`). */
  datatype VehicleTypePreview = VehicleTypePreview(make: string, model: string, age: int)

  /** A spec joined with its category, as handed to every notifier (`IVehicleFullData`). */
  datatype VehicleFullData = VehicleFullData(
    id: nat,
    cartype: nat,
    ccm: Option<int>,
    fuel: Option<string>,
    transmission: Option<string>,
    price: Option<int>,
    kw: Option<int>,
    km: Option<int>,
    zipcode: Option<int>,
    make: string,
    model: string,
    age: int)

  /** A user's alert; every constraint is optional (`IVehicleAlertFilters`). */
  datatype AlertFilter = AlertFilter(
    id: nat,
    zipcodes: Option<seq<int>>,
    agemax: Option<int>,
    agemin: Option<int>,
    ccmmax: Option<int>,
    ccmmin: Option<int>,
    kmmax: Option<int>,
    kmmin: Option<int>,
    kwmax: Option<int>,
    kwmin: Option<int>,
    fuel: Option<string>,
    transmission: Option<string>,
    pricemax: Option<int>,
    pricemin: Option<int>,
    make: Option<string>,
    model: Option<string>)
}
