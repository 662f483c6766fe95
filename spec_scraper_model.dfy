/**
 * The spec-extraction cycle of `SpecScraper` (src/models/spec-scraper.model.ts).
 *
 * One call of `runScraper`, up to the point where it sleeps and calls itself again, is one cycle:
 * pick the oldest un-crawled listing of the platform, fetch its page, let the platform adapter
 * (`processData`) turn the page into a spec and a category, and store the result. The HTTP result
 * and the adapter are parameters of the cycle.
 *
 * `Cycle` states what one cycle does to the database and to the scraper's `sleepTime` and
 * `errorCount`; the class `SpecScraper` performs it step by step, and `RunScraper` is proved to do
 * exactly what `Cycle` says.
 */
module SpecScraperModel {
  import opened Wrappers
  import opened Interfaces
  import opened Database
  import Utils

  /** What fetching a listing's page produced: the page, or a failure with the HTTP status if there was a response. */
  datatype Fetched<P> = Page(body: P) | FetchError(status: Option<int>)

  /**
   * What the platform adapter made of a page: a spec and its category, a page missing a required field
   * (the adapter has the listing marked crawled), or an exception.
   */
  datatype ParseOutcome = Parsed(spec: VehicleSpec, vtype: VehicleTypePreview) | Incomplete | ParseError

  /** How a cycle ended. */
  datatype CycleOutcome =
    | Idle           // no listing to scrape
    | Gone           // the page answered 404 or 410
    | FetchFailed    // any other fetch failure
    | Dropped        // the page lacked make, model or age
    | Saved(typeId: nat)
    | Retrying       // an exception, below the error limit
    | Abandoned      // an exception that reached the error limit

  /** The database and the scraper's mutable fields. */
  datatype ScraperState = ScraperState(tables: Tables, sleepTime: int, errorCount: nat)

  /** `slowDown` caps the interval at 2.5 minutes. */
  const MaxSleepTime := 25
  /** `speedUp` never goes below 0.2 minutes ... */
  const MinSleepTime := 2
  /** ... and shortens by 0.25 minutes (in hundredths). */
  const SpeedUpStep := 25
  /** Statistics need at least this many pooled specs. */
  const MinSampleSize := 5

  // ---------------------------------------------------------------------------
  // Queries

  /** `findEntryToScrape`: the un-crawled listing of `platform` with the least id. */
  function EntryToScrape(t: Tables, platform: string): (r: Option<nat>)
    ensures r.Some? ==> r.value in t.carlist && !t.carlist[r.value].crawled && t.carlist[r.value].platform == platform
    ensures r.Some? ==> forall k :: k in t.carlist && k < r.value ==> t.carlist[k].crawled || t.carlist[k].platform != platform
    ensures r.None? && KeysBelow(t.carlist, t.nextListingId) ==>
              forall k :: k in t.carlist ==> t.carlist[k].crawled || t.carlist[k].platform != platform
  {
    FirstKey(t.carlist, (l: Listing) => !l.crawled && l.platform == platform, 0, t.nextListingId)
  }

  /** `cartype.where({make, model, age}).first()`. */
  function TypeLookup(t: Tables, v: VehicleTypePreview): Option<nat> {
    FirstKey(t.cartype, (x: VehicleTypePreview) => x == v, 0, t.nextTypeId)
  }

  /** With at most one row per category, the look-up finds the row of `v` whenever there is one. */
  lemma TypeLookupFinds(t: Tables, v: VehicleTypePreview, id: nat)
    requires KeysBelow(t.cartype, t.nextTypeId) && TypesUnique(t.cartype)
    requires id in t.cartype && t.cartype[id] == v
    ensures TypeLookup(t, v) == Some(id)
  {
    FirstKeyFindsOnly(t.cartype, (x: VehicleTypePreview) => x == v, t.nextTypeId, id);
  }

  /**
   * `getTypeId`: the new tables and the id of category `v`. An existing category is returned as it is;
   * a new one is inserted with the next id.
   */
  function TypeIdFor(t: Tables, v: VehicleTypePreview): (r: (Tables, nat))
    ensures r.1 in r.0.cartype && r.0.cartype[r.1] == v
    ensures r.0 == t || r.0 == WithType(t, v)
  {
    match TypeLookup(t, v)
    case Some(id) => (t, id)
    case None => (WithType(t, v), t.nextTypeId)
  }

  /** `getTypeId` keeps the database valid and inserts a category only when it is missing. */
  lemma TypeIdForKeepsValid(t: Tables, v: VehicleTypePreview)
    requires Valid(t)
    ensures Valid(TypeIdFor(t, v).0)
    ensures (exists id :: id in t.cartype && t.cartype[id] == v) <==> TypeIdFor(t, v).0 == t
  {
    if TypeLookup(t, v).None? {
      var t' := WithType(t, v);
      assert t.nextTypeId !in t.cartype;
      forall a, b | a in t'.cartype && b in t'.cartype && t'.cartype[a] == t'.cartype[b]
        ensures a == b
      {
      }
      assert t'.cartype.Keys != t.cartype.Keys;
    }
  }

  /** Asking twice for the same category gives the same id and inserts nothing the second time. */
  lemma TypeIdForIdempotent(t: Tables, v: VehicleTypePreview)
    requires Valid(t)
    ensures TypeIdFor(TypeIdFor(t, v).0, v) == TypeIdFor(t, v)
  {
    var (t1, id) := TypeIdFor(t, v);
    TypeIdForKeepsValid(t, v);
    TypeLookupFinds(t1, v, id);
  }

  // ---------------------------------------------------------------------------
  // Price statistics

  /** The category of `typeId` and, when they exist, the same make and model one year older and one year newer. */
  function PoolIds(t: Tables, typeId: nat): set<nat>
    requires typeId in t.cartype
  {
    var c := t.cartype[typeId];
    var older := TypeLookup(t, VehicleTypePreview(c.make, c.model, c.age - 1));
    var newer := TypeLookup(t, VehicleTypePreview(c.make, c.model, c.age + 1));
    {typeId} + (if older.Some? then {older.value} else {}) + (if newer.Some? then {newer.value} else {})
  }

  /** `e.price ?? 0` for every pooled spec. */
  function Prices(rows: seq<SpecRow>): (r: seq<int>)
    ensures |r| == |rows|
    ensures forall i :: 0 <= i < |rows| ==> r[i] == rows[i].spec.price.GetOr(0)
  {
    if rows == [] then [] else [rows[0].spec.price.GetOr(0)] + Prices(rows[1..])
  }

  /** `getAllPricesForType`: the pooled prices, or nothing when the category is unknown or the pool has fewer than five specs. */
  function PricesForType(t: Tables, typeId: nat): (r: Option<seq<int>>)
    ensures r.Some? ==> typeId in t.cartype && |r.value| >= MinSampleSize
    ensures r.None? <==> typeId !in t.cartype || |SpecsOfTypes(t.carspec, PoolIds(t, typeId))| < MinSampleSize
  {
    if typeId !in t.cartype then None
    else
      var pool := SpecsOfTypes(t.carspec, PoolIds(t, typeId));
      if |pool| >= MinSampleSize then Some(Prices(pool)) else None
  }

  /** Two categories are pooled together when they share make and model and are at most a year apart. */
  predicate Neighbours(a: VehicleTypePreview, b: VehicleTypePreview) {
    a.make == b.make && a.model == b.model && -1 <= a.age - b.age <= 1
  }

  /** The specs pooled for `typeId`, defined by category values instead of by looked-up ids. */
  function PoolByCategory(types: map<nat, VehicleTypePreview>, typeId: nat, rows: seq<SpecRow>): seq<SpecRow>
    requires typeId in types
  {
    if rows == [] then []
    else
      var r := rows[0];
      (if r.cartype in types && Neighbours(types[r.cartype], types[typeId]) then [r] else [])
      + PoolByCategory(types, typeId, rows[1..])
  }

  /** A stored spec's category is among the looked-up ids exactly when it neighbours the category. */
  lemma InPoolIds(t: Tables, typeId: nat, other: nat)
    requires Valid(t) && typeId in t.cartype && other in t.cartype
    ensures other in PoolIds(t, typeId) <==> Neighbours(t.cartype[other], t.cartype[typeId])
  {
    var c, o := t.cartype[typeId], t.cartype[other];
    var older := VehicleTypePreview(c.make, c.model, c.age - 1);
    var newer := VehicleTypePreview(c.make, c.model, c.age + 1);
    if Neighbours(o, c) {
      if o.age == c.age {
        assert o == c;
      } else if o.age == c.age - 1 {
        assert o == older;
        TypeLookupFinds(t, older, other);
      } else {
        assert o == newer;
        TypeLookupFinds(t, newer, other);
      }
    }
  }

  /**
   * The sample `getAllPricesForType` collects through the looked-up neighbour ids is exactly the specs
   * of every category with the same make and model at most a year apart, in table order.
   */
  lemma {:induction false} PoolIsNeighbours(t: Tables, typeId: nat, rows: seq<SpecRow>)
    requires Valid(t) && typeId in t.cartype
    requires forall i :: 0 <= i < |rows| ==> rows[i].cartype in t.cartype
    ensures SpecsOfTypes(rows, PoolIds(t, typeId)) == PoolByCategory(t.cartype, typeId, rows)
  {
    if rows != [] {
      InPoolIds(t, typeId, rows[0].cartype);
      PoolIsNeighbours(t, typeId, rows[1..]);
    }
  }

  /**
   * `updateAvgMedianPrices`: with a sample, the category's single statistics row is replaced by the
   * sample's average and median; without one, nothing changes.
   */
  function WithUpdatedStats(t: Tables, typeId: nat): (r: Tables)
    ensures r.(averagePrices := t.averagePrices) == t
    ensures forall k :: k != typeId ==> (k in r.averagePrices <==> k in t.averagePrices)
    ensures forall k :: k != typeId && k in t.averagePrices ==> r.averagePrices[k] == t.averagePrices[k]
  {
    match PricesForType(t, typeId)
    case None => t
    case Some(prices) =>
      WithStats(t, typeId, PriceStats(Utils.CalculateAverage(prices), Utils.CalculateMedian(prices)))
  }

  /**
   * The five-spec threshold, stated over the neighbouring categories: with fewer pooled specs the tables
   * are untouched; with five or more the category's row becomes the average and median of their prices.
   */
  lemma StatsThreshold(t: Tables, typeId: nat)
    requires Valid(t) && typeId in t.cartype
    ensures var pool := PoolByCategory(t.cartype, typeId, t.carspec);
            && (|pool| < MinSampleSize ==> WithUpdatedStats(t, typeId) == t)
            && (|pool| >= MinSampleSize ==>
                  WithUpdatedStats(t, typeId).averagePrices
                  == t.averagePrices[typeId := PriceStats(Utils.CalculateAverage(Prices(pool)),
                                                          Utils.CalculateMedian(Prices(pool)))])
  {
    PoolIsNeighbours(t, typeId, t.carspec);
    var pool := PoolByCategory(t.cartype, typeId, t.carspec);
    if |pool| < MinSampleSize {
      assert PricesForType(t, typeId).None?;
    } else {
      assert PricesForType(t, typeId) == Some(Prices(pool));
    }
  }

  /** A written statistics row lies within the cheapest and the dearest pooled price. */
  lemma StatsWithinSample(t: Tables, typeId: nat)
    requires PricesForType(t, typeId).Some?
    ensures typeId in WithUpdatedStats(t, typeId).averagePrices
    ensures var p := PricesForType(t, typeId).value;
            var s := WithUpdatedStats(t, typeId).averagePrices[typeId];
            Utils.SeqMin(p) <= s.avg <= Utils.SeqMax(p) && Utils.SeqMin(p) <= s.median <= Utils.SeqMax(p)
  {
    Utils.MedianWithinSample(PricesForType(t, typeId).value);
  }

  // ---------------------------------------------------------------------------
  // One cycle

  /** The `catch` block: count the error; at the limit, mark the oldest un-crawled listing crawled and start over. */
  function AfterError(s: ScraperState, platform: string, maxErrorCount: nat): (ScraperState, CycleOutcome) {
    var count := s.errorCount + 1;
    if count < maxErrorCount then (s.(errorCount := count), Retrying)
    else
      var t := match EntryToScrape(s.tables, platform)
        case Some(id) => WithCrawled(s.tables, id)
        case None => s.tables;
      (ScraperState(t, s.sleepTime, 0), Abandoned)
  }

  /**
   * Whether the `carspec` insert of `saveProcessed` accepts the spec. `price` is a NOT NULL integer
   * column and `zipcode` an integer column; a NaN in either (a price heading or a contact line without a
   * number, folded into `None`) is not an integer, so the database rejects the row and the insert throws.
   */
  predicate Insertable(spec: VehicleSpec) {
    spec.price.Some? && spec.zipcode.Some?
  }

  /** The writes of a successful cycle: category, spec, `crawled` flag, statistics and work item. */
  function SaveAll(t: Tables, spec: VehicleSpec, vtype: VehicleTypePreview): (Tables, nat) {
    var (t1, typeId) := TypeIdFor(t, vtype);
    var t2 := WithCrawled(WithSpec(t1, SpecRow(spec, typeId)), spec.id);
    var t3 := WithUpdatedStats(t2, typeId);
    (WithWork(t3, spec.id), typeId)
  }

  /** One `runScraper` cycle. */
  function Cycle<P>(s: ScraperState, platform: string, maxErrorCount: nat, fetched: Fetched<P>,
                    processData: (P, nat) -> ParseOutcome): (ScraperState, CycleOutcome)
  {
    match EntryToScrape(s.tables, platform)
    case None => (s.(sleepTime := Utils.SlowDown(s.sleepTime, MaxSleepTime, Utils.DefaultAmount)), Idle)
    case Some(id) =>
      match fetched
      case FetchError(status) =>
        if status == Some(410) || status == Some(404) then (s.(tables := WithCrawled(s.tables, id)), Gone)
        else (s.(sleepTime := Utils.SlowDown(s.sleepTime, MaxSleepTime, Utils.DefaultAmount)), FetchFailed)
      case Page(body) =>
        match processData(body, id)
        case Incomplete => (s.(tables := WithCrawled(s.tables, id)), Dropped)
        case ParseError => AfterError(s, platform, maxErrorCount)
        case Parsed(spec, vtype) =>
          if !Insertable(spec) then AfterError(s.(tables := TypeIdFor(s.tables, vtype).0), platform, maxErrorCount)
          else
            var (t, typeId) := SaveAll(s.tables, spec, vtype);
            (ScraperState(t, Utils.SpeedUp(s.sleepTime, MinSleepTime, SpeedUpStep), s.errorCount), Saved(typeId))
  }

  // ---------------------------------------------------------------------------
  // Properties of a cycle

  /** With nothing to scrape, the database is untouched and the interval grows. */
  lemma IdleCycle<P>(s: ScraperState, platform: string, maxErrorCount: nat, fetched: Fetched<P>,
                     processData: (P, nat) -> ParseOutcome)
    requires forall k :: k in s.tables.carlist ==> s.tables.carlist[k].crawled || s.tables.carlist[k].platform != platform
    ensures Cycle(s, platform, maxErrorCount, fetched, processData)
         == (s.(sleepTime := Utils.SlowDown(s.sleepTime, MaxSleepTime, Utils.DefaultAmount)), Idle)
  {
  }

  /** A page that answered 404 or 410 only marks its listing crawled: no spec, category, statistics or work item. */
  lemma GoneCycle<P>(s: ScraperState, platform: string, maxErrorCount: nat, status: int,
                     processData: (P, nat) -> ParseOutcome)
    requires status == 404 || status == 410
    requires EntryToScrape(s.tables, platform).Some?
    ensures var (s', outcome) := Cycle(s, platform, maxErrorCount, FetchError(Some(status)), processData);
            var id := EntryToScrape(s.tables, platform).value;
            && outcome == Gone
            && s'.tables == WithCrawled(s.tables, id)
            && s'.sleepTime == s.sleepTime && s'.errorCount == s.errorCount
  {
  }

  /** A successful cycle stores the spec under its category, marks the listing, queues the work item and speeds up. */
  lemma SavedCycle<P>(s: ScraperState, platform: string, maxErrorCount: nat, body: P,
                      processData: (P, nat) -> ParseOutcome)
    requires EntryToScrape(s.tables, platform).Some?
    requires processData(body, EntryToScrape(s.tables, platform).value).Parsed?
    requires Insertable(processData(body, EntryToScrape(s.tables, platform).value).spec)
    ensures var (s', outcome) := Cycle(s, platform, maxErrorCount, Page(body), processData);
            var p := processData(body, EntryToScrape(s.tables, platform).value);
            && outcome.Saved?
            && s'.tables.cartype[outcome.typeId] == p.vtype
            && s'.tables.carspec == s.tables.carspec + [SpecRow(p.spec, outcome.typeId)]
            && s'.tables.workingQueue == s.tables.workingQueue + [QueueRow(p.spec.id, false)]
            && (p.spec.id in s.tables.carlist ==> s'.tables.carlist[p.spec.id].crawled)
            && s'.tables.carlist.Keys == s.tables.carlist.Keys
            && (forall k :: k in s.tables.carlist && k != p.spec.id ==> s'.tables.carlist[k] == s.tables.carlist[k])
            && (Valid(s.tables) ==>
                  var pool := PoolByCategory(s'.tables.cartype, outcome.typeId, s'.tables.carspec);
                  && (|pool| < MinSampleSize ==> s'.tables.averagePrices == s.tables.averagePrices)
                  && (|pool| >= MinSampleSize ==>
                        s'.tables.averagePrices
                        == s.tables.averagePrices[outcome.typeId := PriceStats(Utils.CalculateAverage(Prices(pool)),
                                                                               Utils.CalculateMedian(Prices(pool)))]))
            && s'.sleepTime == Utils.SpeedUp(s.sleepTime, MinSleepTime, SpeedUpStep)
            && s'.errorCount == s.errorCount
  {
    var p := processData(body, EntryToScrape(s.tables, platform).value);
    SaveAllWrites(s.tables, p.spec, p.vtype);
    if Valid(s.tables) {
      SaveAllStats(s.tables, p.spec, p.vtype);
    }
  }

  /** The writes of `SaveAll`, table by table. */
  lemma SaveAllWrites(t: Tables, spec: VehicleSpec, vtype: VehicleTypePreview)
    ensures var (t', typeId) := SaveAll(t, spec, vtype);
            && typeId in t'.cartype && t'.cartype[typeId] == vtype
            && t'.carspec == t.carspec + [SpecRow(spec, typeId)]
            && t'.workingQueue == t.workingQueue + [QueueRow(spec.id, false)]
            && (spec.id in t.carlist ==> t'.carlist[spec.id].crawled)
            && t'.carlist.Keys == t.carlist.Keys
            && (forall k :: k in t.carlist && k != spec.id ==> t'.carlist[k] == t.carlist[k])
  {
    var (t1, typeId) := TypeIdFor(t, vtype);
    var t2 := WithCrawled(WithSpec(t1, SpecRow(spec, typeId)), spec.id);
    assert t2.cartype == t1.cartype && t2.carspec == t.carspec + [SpecRow(spec, typeId)];
    assert spec.id in t.carlist ==> spec.id in t2.carlist && t2.carlist[spec.id].crawled;
  }

  /** The statistics `SaveAll` writes, by the five-spec threshold over the stored category and its neighbours. */
  lemma SaveAllStats(t: Tables, spec: VehicleSpec, vtype: VehicleTypePreview)
    requires Valid(t)
    ensures var (t', typeId) := SaveAll(t, spec, vtype);
            && typeId in t'.cartype
            && var pool := PoolByCategory(t'.cartype, typeId, t'.carspec);
               && (|pool| < MinSampleSize ==> t'.averagePrices == t.averagePrices)
               && (|pool| >= MinSampleSize ==>
                     t'.averagePrices == t.averagePrices[typeId := PriceStats(Utils.CalculateAverage(Prices(pool)),
                                                                             Utils.CalculateMedian(Prices(pool)))])
  {
    var (t1, typeId) := TypeIdFor(t, vtype);
    var t2 := WithCrawled(WithSpec(t1, SpecRow(spec, typeId)), spec.id);
    TypeIdForKeepsValid(t, vtype);
    assert Valid(t2);
    StatsThreshold(t2, typeId);
  }

  /**
   * An exception counts one more error and retries below `maxErrorCount`; at the limit the oldest
   * un-crawled listing is marked crawled and the count starts again from 0.
   */
  lemma ErrorCycle<P>(s: ScraperState, platform: string, maxErrorCount: nat, body: P,
                      processData: (P, nat) -> ParseOutcome)
    requires EntryToScrape(s.tables, platform).Some?
    requires processData(body, EntryToScrape(s.tables, platform).value).ParseError?
    ensures var (s', outcome) := Cycle(s, platform, maxErrorCount, Page(body), processData);
            var id := EntryToScrape(s.tables, platform).value;
            && s'.sleepTime == s.sleepTime
            && (s.errorCount + 1 < maxErrorCount ==> outcome == Retrying && s' == s.(errorCount := s.errorCount + 1))
            && (s.errorCount + 1 >= maxErrorCount ==>
                  outcome == Abandoned && s'.errorCount == 0 && s'.tables == WithCrawled(s.tables, id))
  {
  }

  /**
   * A parsed spec the database rejects (a NaN price or zipcode) is handled as an exception: nothing but
   * the category looked up or inserted before the failed insert is written, the error is counted, and
   * below the limit the listing stays un-crawled, to be fetched again.
   */
  lemma RejectedSpecCycle<P>(s: ScraperState, platform: string, maxErrorCount: nat, body: P,
                             processData: (P, nat) -> ParseOutcome)
    requires EntryToScrape(s.tables, platform).Some?
    requires processData(body, EntryToScrape(s.tables, platform).value).Parsed?
    requires !Insertable(processData(body, EntryToScrape(s.tables, platform).value).spec)
    ensures var (s', outcome) := Cycle(s, platform, maxErrorCount, Page(body), processData);
            var id := EntryToScrape(s.tables, platform).value;
            var t1 := TypeIdFor(s.tables, processData(body, id).vtype).0;
            && s'.sleepTime == s.sleepTime
            && s'.tables.carspec == s.tables.carspec
            && s'.tables.averagePrices == s.tables.averagePrices
            && s'.tables.workingQueue == s.tables.workingQueue
            && (s.errorCount + 1 < maxErrorCount ==>
                  && outcome == Retrying && s'.errorCount == s.errorCount + 1
                  && s'.tables == t1 && !s'.tables.carlist[id].crawled)
            && (s.errorCount + 1 >= maxErrorCount ==>
                  outcome == Abandoned && s'.errorCount == 0 && s'.tables == WithCrawled(t1, id))
  {
    var id := EntryToScrape(s.tables, platform).value;
    var t1 := TypeIdFor(s.tables, processData(body, id).vtype).0;
    assert t1.carlist == s.tables.carlist && t1.carspec == s.tables.carspec;
    assert EntryToScrape(t1, platform) == Some(id);
  }

  /** Once below the limit, the error count stays below it. */
  lemma ErrorCountBelowLimit<P>(s: ScraperState, platform: string, maxErrorCount: nat, fetched: Fetched<P>,
                                processData: (P, nat) -> ParseOutcome)
    requires s.errorCount < maxErrorCount
    ensures Cycle(s, platform, maxErrorCount, fetched, processData).0.errorCount < maxErrorCount
  {
  }

  /** The writes of a successful cycle keep the database valid. */
  lemma SaveAllKeepsValid(t: Tables, spec: VehicleSpec, vtype: VehicleTypePreview)
    requires Valid(t)
    ensures Valid(SaveAll(t, spec, vtype).0)
  {
    TypeIdForKeepsValid(t, vtype);
    var (t1, typeId) := TypeIdFor(t, vtype);
    var t2 := WithSpec(t1, SpecRow(spec, typeId));
    assert Valid(t2);
    assert Valid(WithCrawled(t2, spec.id));
  }

  /** A cycle keeps the database valid: unique platform ids and categories, ids below their sequences, specs with a category. */
  lemma CycleKeepsValid<P>(s: ScraperState, platform: string, maxErrorCount: nat, fetched: Fetched<P>,
                           processData: (P, nat) -> ParseOutcome)
    requires Valid(s.tables)
    ensures Valid(Cycle(s, platform, maxErrorCount, fetched, processData).0.tables)
  {
    var e := EntryToScrape(s.tables, platform);
    if e.Some? && fetched.Page? {
      var p := processData(fetched.body, e.value);
      if p.Parsed? && Insertable(p.spec) {
        SaveAllKeepsValid(s.tables, p.spec, p.vtype);
      } else if p.Parsed? {
        TypeIdForKeepsValid(s.tables, p.vtype);
      }
    }
  }

  // ---------------------------------------------------------------------------
  // The scraper

  class SpecScraper {
    const db: Store
    const platform: string
    const maxErrorCount: nat
    var sleepTime: int
    var errorCount: nat

    function State(): ScraperState
      reads this, db
    {
      ScraperState(db.Snapshot(), sleepTime, errorCount)
    }

    constructor (db: Store, platform: string, sleepTime: int, maxErrorCount: nat)
      ensures this.db == db && this.platform == platform && this.maxErrorCount == maxErrorCount
      ensures this.sleepTime == sleepTime && errorCount == 0
    {
      this.db := db;
      this.platform := platform;
      this.maxErrorCount := maxErrorCount;
      this.sleepTime := sleepTime;
      errorCount := 0;
    }

    method FindEntryToScrape() returns (entry: Option<nat>)
      ensures entry == EntryToScrape(db.Snapshot(), platform)
    {
      entry := FirstKey(db.carlist, (l: Listing) => !l.crawled && l.platform == platform, 0, db.nextListingId);
    }

    method RemoveEntry(id: nat)
      modifies db
      ensures db.Snapshot() == WithCrawled(old(db.Snapshot()), id)
    {
      db.MarkCrawled(id);
    }

    method GetTypeId(v: VehicleTypePreview) returns (id: nat)
      modifies db
      ensures (db.Snapshot(), id) == TypeIdFor(old(db.Snapshot()), v)
    {
      var found := FirstKey(db.cartype, (x: VehicleTypePreview) => x == v, 0, db.nextTypeId);
      if found.Some? {
        id := found.value;
      } else {
        id := db.InsertType(v);
      }
    }

    /** `saveProcessed`; `saved` is false where the spec insert throws, and then nothing is written. */
    method SaveProcessed(spec: VehicleSpec, typeId: nat) returns (saved: bool)
      modifies db
      ensures saved == Insertable(spec)
      ensures saved ==> db.Snapshot() == WithCrawled(WithSpec(old(db.Snapshot()), SpecRow(spec, typeId)), spec.id)
      ensures !saved ==> db.Snapshot() == old(db.Snapshot())
    {
      if !Insertable(spec) {
        return false;
      }
      db.InsertSpec(SpecRow(spec, typeId));
      db.MarkCrawled(spec.id);
      return true;
    }

    method UpdateQueue(spec: VehicleSpec)
      modifies db
      ensures db.Snapshot() == WithWork(old(db.Snapshot()), spec.id)
    {
      db.InsertWork(spec.id);
    }

    method GetAllPricesForType(typeId: nat) returns (prices: Option<seq<int>>)
      ensures prices == PricesForType(db.Snapshot(), typeId)
    {
      prices := PricesForType(db.Snapshot(), typeId);
    }

    method UpdateAvgMedianPrices(typeId: nat)
      modifies db
      ensures db.Snapshot() == WithUpdatedStats(old(db.Snapshot()), typeId)
    {
      var prices := GetAllPricesForType(typeId);
      if prices.None? {
        return;
      }
      var avg := Utils.CalculateAverage(prices.value);
      var median := Utils.CalculateMedian(prices.value);
      db.UpsertStats(typeId, PriceStats(avg, median));
    }

    method SlowDown()
      modifies this
      ensures sleepTime == Utils.SlowDown(old(sleepTime), MaxSleepTime, Utils.DefaultAmount)
      ensures errorCount == old(errorCount)
    {
      sleepTime := Utils.SlowDown(sleepTime, MaxSleepTime, Utils.DefaultAmount);
    }

    method SpeedUp()
      modifies this
      ensures sleepTime == Utils.SpeedUp(old(sleepTime), MinSleepTime, SpeedUpStep)
      ensures errorCount == old(errorCount)
    {
      sleepTime := Utils.SpeedUp(sleepTime, MinSleepTime, SpeedUpStep);
    }

    method ResetErrorCount()
      modifies this
      ensures errorCount == 0 && sleepTime == old(sleepTime)
    {
      errorCount := 0;
    }

    /** The `catch` block of `runScraper`. */
    method HandleError() returns (outcome: CycleOutcome)
      modifies this, db
      ensures (State(), outcome) == AfterError(old(State()), platform, maxErrorCount)
    {
      errorCount := errorCount + 1;
      if errorCount < maxErrorCount {
        return Retrying;
      }
      var faulty := FindEntryToScrape();
      if faulty.Some? {
        RemoveEntry(faulty.value);
      }
      ResetErrorCount();
      return Abandoned;
    }

    /** One cycle of `runScraper`, given the result of the page request and the platform's `processData`. */
    method RunScraper<P>(fetched: Fetched<P>, processData: (P, nat) -> ParseOutcome) returns (outcome: CycleOutcome)
      modifies this, db
      ensures (State(), outcome) == Cycle(old(State()), platform, maxErrorCount, fetched, processData)
    {
      var entry := FindEntryToScrape();
      if entry.None? {
        SlowDown();
        return Idle;
      }
      var id := entry.value;
      match fetched {
        case FetchError(status) =>
          if status == Some(410) || status == Some(404) {
            RemoveEntry(id);
            return Gone;
          }
          SlowDown();
          return FetchFailed;
        case Page(body) =>
          match processData(body, id) {
            case Incomplete =>
              RemoveEntry(id);
              return Dropped;
            case ParseError =>
              outcome := HandleError();
            case Parsed(spec, vtype) =>
              var typeId := GetTypeId(vtype);
              var saved := SaveProcessed(spec, typeId);
              if !saved {
                outcome := HandleError();
                return;
              }
              UpdateAvgMedianPrices(typeId);
              UpdateQueue(spec);
              SpeedUp();
              return Saved(typeId);
          }
      }
    }
  }
}
