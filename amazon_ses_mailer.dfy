/**
 * The alert filter of `AmazonSESMailer.checkAlerts` (src/notifications/amazon-ses-mailer.ts): which of
 * the users' alerts a newly scraped vehicle satisfies.
 *
 * Every condition of the original is a JavaScript truthiness test: a constraint of 0 or of the empty
 * string counts as unset, and a set constraint fails when the vehicle's field is missing, 0 or empty.
 * `Matches` follows the original expression clause by clause; `Constraints` and `Satisfies` give an
 * independent reading of an alert as the list of conditions it sets, and `MatchesIffConstraints`
 * shows that the two agree.
 */
module AmazonSesMailer {
  import opened Wrappers
  import opened Interfaces
  import Text

  // ---------------------------------------------------------------------------
  // Truthiness

  /** A number is truthy when it is present and not 0 (NaN is folded into absence). */
  predicate Truthy(o: Option<int>) {
    o.Some? && o.value != 0
  }

  /** A string is truthy when it is present and not empty. */
  predicate Filled(o: Option<string>) {
    o.Some? && o.value != ""
  }

  // ---------------------------------------------------------------------------
  // The zip region

  /**
   * `Number(zipcode?.toString().slice(0, 2))`: the number formed by the first two characters of the
   * zipcode; a missing zipcode gives NaN (`None`).
   */
  function ZipRegion(zipcode: Option<int>): Option<int> {
    match zipcode
    case None => None
    case Some(z) =>
      var s := Text.IntString(z);
      Text.ToNumber(s[..if |s| < 2 then |s| else 2])
  }

  /** A four-digit zipcode's region is its first two digits. */
  lemma FourDigitRegion(z: int)
    requires 1000 <= z <= 9999
    ensures ZipRegion(Some(z)) == Some(z / 100)
  {
    var s := Text.DecimalString(z);
    var lead := Text.DecimalString(z / 100);
    assert Text.DecimalString(z / 10) == lead + [Text.DigitChar((z / 10) % 10)];
    assert s == lead + [Text.DigitChar((z / 10) % 10)] + [Text.DigitChar(z % 10)];
    assert |lead| == 2 by {
      assert lead == Text.DecimalString(z / 1000) + [Text.DigitChar((z / 100) % 10)];
    }
    assert s[..2] == lead;
    Text.NumberOfDecimalString(z / 100);
  }

  // ---------------------------------------------------------------------------
  // The filter predicate as written

  /** `bound ? (value ? bound >= value : false) : true`: an upper bound that fails closed. */
  predicate AtMostIfSet(bound: Option<int>, value: Option<int>) {
    if Truthy(bound) then (if Truthy(value) then bound.value >= value.value else false) else true
  }

  /** `bound ? (value ? bound <= value : false) : true`: a lower bound that fails closed. */
  predicate AtLeastIfSet(bound: Option<int>, value: Option<int>) {
    if Truthy(bound) then (if Truthy(value) then bound.value <= value.value else false) else true
  }

  /** `want ? (have ? want === have : false) : true`. */
  predicate SameIfSet(want: Option<string>, have: Option<string>) {
    if Filled(want) then (if Filled(have) then want.value == have.value else false) else true
  }

  /** The predicate `checkAlerts` passes to `filter`: every clause of the original, in order. */
  predicate Matches(alert: AlertFilter, car: VehicleFullData) {
    && (if alert.zipcodes.Some? then ZipRegion(car.zipcode).Some? && ZipRegion(car.zipcode).value in alert.zipcodes.value else true)
    && (if Truthy(alert.agemax) then alert.agemax.value >= car.age else true)
    && (if Truthy(alert.agemin) then alert.agemin.value <= car.age else true)
    && AtMostIfSet(alert.ccmmax, car.ccm) && AtLeastIfSet(alert.ccmmin, car.ccm)
    && AtMostIfSet(alert.kmmax, car.km) && AtLeastIfSet(alert.kmmin, car.km)
    && AtMostIfSet(alert.kwmax, car.kw) && AtLeastIfSet(alert.kwmin, car.kw)
    && SameIfSet(alert.fuel, car.fuel) && SameIfSet(alert.transmission, car.transmission)
    && AtMostIfSet(alert.pricemax, car.price) && AtLeastIfSet(alert.pricemin, car.price)
    && (if Filled(alert.make) then (if car.make != "" then alert.make.value == car.make else false) else true)
    && (if Filled(alert.model) then (if car.model != "" then Text.Contains(car.model, alert.model.value) else false) else true)
  }

  // ---------------------------------------------------------------------------
  // An alert read as a list of conditions

  datatype NumericField = Age | Ccm | Km | Kw | Price
  datatype TextField = Fuel | Transmission | Make

  /** One condition an alert sets. */
  datatype Constraint =
    | InRegions(regions: seq<int>)
    | AtMost(field: NumericField, bound: int)
    | AtLeast(field: NumericField, bound: int)
    | SameText(textField: TextField, text: string)
    | ModelContains(part: string)

  function CarNumber(car: VehicleFullData, f: NumericField): Option<int> {
    match f
    case Age => Some(car.age)
    case Ccm => car.ccm
    case Km => car.km
    case Kw => car.kw
    case Price => car.price
  }

  function CarText(car: VehicleFullData, f: TextField): Option<string> {
    match f
    case Fuel => car.fuel
    case Transmission => car.transmission
    case Make => Some(car.make)
  }

  /** A vehicle's reading of a numeric field can be compared: the age always, any other field when it is truthy. */
  predicate Usable(car: VehicleFullData, f: NumericField) {
    CarNumber(car, f).Some? && (f == Age || CarNumber(car, f).value != 0)
  }

  /** What each condition asks of a vehicle. */
  predicate Satisfies(c: Constraint, car: VehicleFullData) {
    match c
    case InRegions(regions) => ZipRegion(car.zipcode).Some? && ZipRegion(car.zipcode).value in regions
    case AtMost(f, bound) => Usable(car, f) && CarNumber(car, f).value <= bound
    case AtLeast(f, bound) => Usable(car, f) && bound <= CarNumber(car, f).value
    case SameText(f, text) => CarText(car, f) == Some(text)
    case ModelContains(part) => Text.Contains(car.model, part)
  }

  function MaxOf(f: NumericField, o: Option<int>): seq<Constraint> {
    if Truthy(o) then [AtMost(f, o.value)] else []
  }

  function MinOf(f: NumericField, o: Option<int>): seq<Constraint> {
    if Truthy(o) then [AtLeast(f, o.value)] else []
  }

  function TextOf(f: TextField, o: Option<string>): seq<Constraint> {
    if Filled(o) then [SameText(f, o.value)] else []
  }

  /** The conditions an alert sets: every truthy field, and the zip list whenever it is present, even empty. */
  function Constraints(a: AlertFilter): (cs: seq<Constraint>)
  {
    (if a.zipcodes.Some? then [InRegions(a.zipcodes.value)] else [])
    + MaxOf(Age, a.agemax) + MinOf(Age, a.agemin)
    + MaxOf(Ccm, a.ccmmax) + MinOf(Ccm, a.ccmmin)
    + MaxOf(Km, a.kmmax) + MinOf(Km, a.kmmin)
    + MaxOf(Kw, a.kwmax) + MinOf(Kw, a.kwmin)
    + TextOf(Fuel, a.fuel) + TextOf(Transmission, a.transmission)
    + MaxOf(Price, a.pricemax) + MinOf(Price, a.pricemin)
    + TextOf(Make, a.make)
    + (if Filled(a.model) then [ModelContains(a.model.value)] else [])
  }

  /** Every condition in `cs` holds of the vehicle. */
  predicate AllSatisfied(cs: seq<Constraint>, car: VehicleFullData) {
    forall i :: 0 <= i < |cs| ==> Satisfies(cs[i], car)
  }

  lemma AllSatisfiedAppend(x: seq<Constraint>, y: seq<Constraint>, car: VehicleFullData)
    ensures AllSatisfied(x + y, car) <==> AllSatisfied(x, car) && AllSatisfied(y, car)
  {
    if AllSatisfied(x + y, car) {
      forall i | 0 <= i < |x|
        ensures Satisfies(x[i], car)
      {
        assert (x + y)[i] == x[i];
      }
      forall i | 0 <= i < |y|
        ensures Satisfies(y[i], car)
      {
        assert (x + y)[|x| + i] == y[i];
      }
    }
    if AllSatisfied(x, car) && AllSatisfied(y, car) {
      forall i | 0 <= i < |x + y|
        ensures Satisfies((x + y)[i], car)
      {
        if i < |x| {
          assert (x + y)[i] == x[i];
        } else {
          assert (x + y)[i] == y[i - |x|];
        }
      }
    }
  }

  lemma SingleSatisfied(c: Constraint, car: VehicleFullData)
    ensures AllSatisfied([c], car) <==> Satisfies(c, car)
  {
    assert [c][0] == c;
  }

  /** An upper-bound piece holds exactly when the original's fail-closed clause does (the age is never falsy). */
  lemma MaxPiece(f: NumericField, o: Option<int>, car: VehicleFullData)
    ensures AllSatisfied(MaxOf(f, o), car)
        <==> if f == Age then (Truthy(o) ==> o.value >= car.age) else AtMostIfSet(o, CarNumber(car, f))
  {
    if Truthy(o) {
      SingleSatisfied(AtMost(f, o.value), car);
    }
  }

  lemma MinPiece(f: NumericField, o: Option<int>, car: VehicleFullData)
    ensures AllSatisfied(MinOf(f, o), car)
        <==> if f == Age then (Truthy(o) ==> o.value <= car.age) else AtLeastIfSet(o, CarNumber(car, f))
  {
    if Truthy(o) {
      SingleSatisfied(AtLeast(f, o.value), car);
    }
  }

  /** A text piece holds exactly when the original's clause does: an equal text is non-empty anyway. */
  lemma TextPiece(f: TextField, o: Option<string>, car: VehicleFullData)
    ensures AllSatisfied(TextOf(f, o), car)
        <==> if f == Make then (Filled(o) ==> car.make != "" && o.value == car.make) else SameIfSet(o, CarText(car, f))
  {
    if Filled(o) {
      SingleSatisfied(SameText(f, o.value), car);
    }
  }

  /** An empty model text is contained in no non-empty part. */
  lemma EmptyContainsNothing(part: string)
    requires part != ""
    ensures !Text.Contains("", part)
  {
  }

  /** The filter predicate holds exactly when the vehicle satisfies every condition the alert sets. */
  lemma MatchesIffConstraints(a: AlertFilter, car: VehicleFullData)
    ensures Matches(a, car) <==> AllSatisfied(Constraints(a), car)
  {
    var zip := if a.zipcodes.Some? then [InRegions(a.zipcodes.value)] else [];
    var model := if Filled(a.model) then [ModelContains(a.model.value)] else [];
    // Peel the conditions off one piece at a time, left to right.
    var cs := zip;
    if a.zipcodes.Some? {
      SingleSatisfied(InRegions(a.zipcodes.value), car);
    }
    if Filled(a.model) {
      SingleSatisfied(ModelContains(a.model.value), car);
    }
    AllSatisfiedAppend(cs, MaxOf(Age, a.agemax), car);
    cs := cs + MaxOf(Age, a.agemax);
    MaxPiece(Age, a.agemax, car);
    AllSatisfiedAppend(cs, MinOf(Age, a.agemin), car);
    cs := cs + MinOf(Age, a.agemin);
    MinPiece(Age, a.agemin, car);
    AllSatisfiedAppend(cs, MaxOf(Ccm, a.ccmmax), car);
    cs := cs + MaxOf(Ccm, a.ccmmax);
    MaxPiece(Ccm, a.ccmmax, car);
    AllSatisfiedAppend(cs, MinOf(Ccm, a.ccmmin), car);
    cs := cs + MinOf(Ccm, a.ccmmin);
    MinPiece(Ccm, a.ccmmin, car);
    AllSatisfiedAppend(cs, MaxOf(Km, a.kmmax), car);
    cs := cs + MaxOf(Km, a.kmmax);
    MaxPiece(Km, a.kmmax, car);
    AllSatisfiedAppend(cs, MinOf(Km, a.kmmin), car);
    cs := cs + MinOf(Km, a.kmmin);
    MinPiece(Km, a.kmmin, car);
    AllSatisfiedAppend(cs, MaxOf(Kw, a.kwmax), car);
    cs := cs + MaxOf(Kw, a.kwmax);
    MaxPiece(Kw, a.kwmax, car);
    AllSatisfiedAppend(cs, MinOf(Kw, a.kwmin), car);
    cs := cs + MinOf(Kw, a.kwmin);
    MinPiece(Kw, a.kwmin, car);
    AllSatisfiedAppend(cs, TextOf(Fuel, a.fuel), car);
    cs := cs + TextOf(Fuel, a.fuel);
    TextPiece(Fuel, a.fuel, car);
    AllSatisfiedAppend(cs, TextOf(Transmission, a.transmission), car);
    cs := cs + TextOf(Transmission, a.transmission);
    TextPiece(Transmission, a.transmission, car);
    AllSatisfiedAppend(cs, MaxOf(Price, a.pricemax), car);
    cs := cs + MaxOf(Price, a.pricemax);
    MaxPiece(Price, a.pricemax, car);
    AllSatisfiedAppend(cs, MinOf(Price, a.pricemin), car);
    cs := cs + MinOf(Price, a.pricemin);
    MinPiece(Price, a.pricemin, car);
    AllSatisfiedAppend(cs, TextOf(Make, a.make), car);
    cs := cs + TextOf(Make, a.make);
    TextPiece(Make, a.make, car);
    AllSatisfiedAppend(cs, model, car);
    cs := cs + model;
    assert cs == Constraints(a);
    if Filled(a.model) && car.model == "" {
      EmptyContainsNothing(a.model.value);
    }
  }

  // ---------------------------------------------------------------------------
  // Properties

  /** An alert that sets nothing (every field absent, 0 or empty, and no zip list) matches every vehicle. */
  lemma UnconstrainedMatchesAll(a: AlertFilter, car: VehicleFullData)
    requires Constraints(a) == []
    ensures Matches(a, car)
  {
    MatchesIffConstraints(a, car);
  }

  /** Every bound of 0 and every text of "" is the same as no constraint on that field. */
  lemma ZeroIsUnset(a: AlertFilter)
    ensures Constraints(a.(agemax := Some(0), agemin := Some(0), ccmmax := Some(0), ccmmin := Some(0),
                           kmmax := Some(0), kmmin := Some(0), kwmax := Some(0), kwmin := Some(0),
                           pricemax := Some(0), pricemin := Some(0)))
         == Constraints(a.(agemax := None, agemin := None, ccmmax := None, ccmmin := None,
                           kmmax := None, kmmin := None, kwmax := None, kwmin := None,
                           pricemax := None, pricemin := None))
    ensures Constraints(a.(fuel := Some(""), transmission := Some(""), make := Some(""), model := Some("")))
         == Constraints(a.(fuel := None, transmission := None, make := None, model := None))
  {
  }

  /** Fail-closed: a set numeric constraint rejects a vehicle whose field is missing or 0. */
  lemma FailClosed(a: AlertFilter, car: VehicleFullData)
    requires || ((Truthy(a.ccmmax) || Truthy(a.ccmmin)) && !Truthy(car.ccm))
             || ((Truthy(a.kmmax) || Truthy(a.kmmin)) && !Truthy(car.km))
             || ((Truthy(a.kwmax) || Truthy(a.kwmin)) && !Truthy(car.kw))
             || ((Truthy(a.pricemax) || Truthy(a.pricemin)) && !Truthy(car.price))
             || (Filled(a.fuel) && !Filled(car.fuel))
             || (Filled(a.transmission) && !Filled(car.transmission))
             || (Filled(a.make) && car.make == "")
             || (Filled(a.model) && car.model == "")
    ensures !Matches(a, car)
  {
  }

  /** An alert that only sets one numeric field's range. */
  function RangeAlert(id: nat, f: NumericField, lo: int, hi: int): AlertFilter {
    var none := AlertFilter(id, None, None, None, None, None, None, None, None, None, None, None, None, None, None, None);
    match f
    case Age => none.(agemin := Some(lo), agemax := Some(hi))
    case Ccm => none.(ccmmin := Some(lo), ccmmax := Some(hi))
    case Km => none.(kmmin := Some(lo), kmmax := Some(hi))
    case Kw => none.(kwmin := Some(lo), kwmax := Some(hi))
    case Price => none.(pricemin := Some(lo), pricemax := Some(hi))
  }

  /** Range bounds are inclusive at both ends, and apply only to a usable reading. */
  lemma InclusiveRange(id: nat, f: NumericField, lo: int, hi: int, car: VehicleFullData)
    requires lo != 0 && hi != 0
    ensures Matches(RangeAlert(id, f, lo, hi), car)
        <==> Usable(car, f) && lo <= CarNumber(car, f).value <= hi
  {
    var a := RangeAlert(id, f, lo, hi);
    MatchesIffConstraints(a, car);
    assert Constraints(a) == [AtMost(f, hi), AtLeast(f, lo)];
  }

  /** A zip list matches only a vehicle whose region it contains: an empty list or a missing zipcode never matches. */
  lemma ZipListNeedsRegion(a: AlertFilter, car: VehicleFullData)
    requires a.zipcodes.Some?
    requires a.zipcodes.value == [] || car.zipcode.None?
    ensures !Matches(a, car)
  {
  }

  // ---------------------------------------------------------------------------
  // The filter

  /** `s.filter(keep)`. */
  function Filter<T(!new)>(s: seq<T>, keep: T -> bool): (r: seq<T>)
    ensures |r| <= |s|
    ensures forall x :: x in r <==> x in s && keep(x)
  {
    if s == [] then []
    else if keep(s[0]) then [s[0]] + Filter(s[1..], keep)
    else Filter(s[1..], keep)
  }

  /** Filtering a concatenation filters each part and keeps them in order. */
  lemma {:induction false} FilterAppend<T(!new)>(x: seq<T>, y: seq<T>, keep: T -> bool)
    ensures Filter(x + y, keep) == Filter(x, keep) + Filter(y, keep)
  {
    if x != [] {
      assert (x + y)[1..] == x[1..] + y;
      FilterAppend(x[1..], y, keep);
    } else {
      assert x + y == y;
    }
  }

  /** `alertList.filter(...)`: the alerts the vehicle matches. */
  function CheckAlerts(alerts: seq<AlertFilter>, car: VehicleFullData): (r: seq<AlertFilter>)
    ensures forall x :: x in r <==> x in alerts && Matches(x, car)
  {
    Filter(alerts, a => Matches(a, car))
  }

  /**
   * The matching alerts come out in list order: the result for a list split in two is the result for
   * the first part followed by the result for the second.
   */
  lemma CheckAlertsKeepsOrder(x: seq<AlertFilter>, y: seq<AlertFilter>, car: VehicleFullData)
    ensures CheckAlerts(x + y, car) == CheckAlerts(x, car) + CheckAlerts(y, car)
  {
    FilterAppend(x, y, a => Matches(a, car));
  }

  /** A single alert is kept exactly when it matches. */
  lemma CheckOneAlert(a: AlertFilter, car: VehicleFullData)
    ensures CheckAlerts([a], car) == if Matches(a, car) then [a] else []
  {
    assert [a][1..] == [];
  }
}
