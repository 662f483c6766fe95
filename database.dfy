/**
 * The tables of the `create_base_tables` migration, and the statements the scrapers and the
 * notification manager run against them.
 *
 * `Tables` is a value: one snapshot of every table. `Store` is the database the components share;
 * each of its methods is one insert, update or delete, specified by the pure function on `Tables`
 * that it performs. Row ids come from a sequence (`bigIncrements`), so every id in a table is below
 * the table's next id.
 */
module Database {
  import opened Wrappers
  import opened Interfaces

  /** A `carlist` row. `crawled` defaults to false. */
  datatype Listing = Listing(platform: string, platformId: string, link: string, crawled: bool)

  /** A `carspec` row: the spec and the id of its `cartype` row. */
  datatype SpecRow = SpecRow(spec: VehicleSpec, cartype: nat)

  /** An `average_prices` row, keyed by category id. */
  datatype PriceStats = PriceStats(avg: int, median: int)

  /** A `working_queue` row. `working` defaults to false. */
  datatype QueueRow = QueueRow(id: nat, working: bool)

  datatype Tables = Tables(
    carlist: map<nat, Listing>,
    nextListingId: nat,
    cartype: map<nat, VehicleTypePreview>,
    nextTypeId: nat,
    carspec: seq<SpecRow>,
    averagePrices: map<nat, PriceStats>,
    workingQueue: seq<QueueRow>)

  /** The unique constraint on `carlist.platform_id`. */
  predicate PlatformIdsUnique(carlist: map<nat, Listing>) {
    forall a, b :: a in carlist && b in carlist && carlist[a].platformId == carlist[b].platformId ==> a == b
  }

  /** At most one `cartype` row per `(make, model, age)`: kept by the look-up-then-insert of the spec scraper. */
  predicate TypesUnique(cartype: map<nat, VehicleTypePreview>) {
    forall a, b :: a in cartype && b in cartype && cartype[a] == cartype[b] ==> a == b
  }

  predicate KeysBelow<V>(m: map<nat, V>, bound: nat) {
    forall k :: k in m ==> k < bound
  }

  /** The invariant of the shared database. */
  predicate Valid(t: Tables) {
    && KeysBelow(t.carlist, t.nextListingId)
    && KeysBelow(t.cartype, t.nextTypeId)
    && PlatformIdsUnique(t.carlist)
    && TypesUnique(t.cartype)
    && (forall i :: 0 <= i < |t.carspec| ==> t.carspec[i].cartype in t.cartype)
  }

  /** An empty database; the id sequences start at 1. */
  function EmptyTables(): (t: Tables)
    ensures Valid(t)
  {
    Tables(map[], 1, map[], 1, [], map[], [])
  }

  // ---------------------------------------------------------------------------
  // Queries

  /**
   * `.where(p).orderBy('id').first()` over ids in `[from, bound)`: the least id whose row satisfies `p`.
   */
  function FirstKey<V>(m: map<nat, V>, p: V -> bool, from: nat, bound: nat): (r: Option<nat>)
    ensures r.Some? ==> from <= r.value < bound && r.value in m && p(m[r.value])
    ensures r.Some? ==> forall k :: from <= k < r.value && k in m ==> !p(m[k])
    ensures r.None? ==> forall k :: from <= k < bound && k in m ==> !p(m[k])
    decreases bound - from
  {
    if from >= bound then None
    else if from in m && p(m[from]) then Some(from)
    else FirstKey(m, p, from + 1, bound)
  }

  /** When exactly one row satisfies `p`, the query returns that row's id. */
  lemma FirstKeyFindsOnly<V>(m: map<nat, V>, p: V -> bool, bound: nat, k: nat)
    requires KeysBelow(m, bound)
    requires k in m && p(m[k])
    requires forall j :: j in m && p(m[j]) ==> j == k
    ensures FirstKey(m, p, 0, bound) == Some(k)
  {
    assert k < bound;
  }

  /** `.where('platform_id', pid).first()` finds a row. */
  predicate HasPlatformId(carlist: map<nat, Listing>, pid: string) {
    exists k :: k in carlist && carlist[k].platformId == pid
  }

  /** The `carspec` rows whose category is one of `ids`, in table order. */
  function SpecsOfTypes(rows: seq<SpecRow>, ids: set<nat>): (r: seq<SpecRow>)
    ensures |r| <= |rows|
    ensures forall x :: x in r <==> x in rows && x.cartype in ids
  {
    if rows == [] then []
    else (if rows[0].cartype in ids then [rows[0]] else []) + SpecsOfTypes(rows[1..], ids)
  }

  // ---------------------------------------------------------------------------
  // Statements, as functions on a snapshot

  /** `carlist.where('id', id).update('crawled', true)`: only that row's flag changes, and it becomes true. */
  function WithCrawled(t: Tables, id: nat): (r: Tables)
    ensures r.carlist.Keys == t.carlist.Keys
    ensures forall k :: k in r.carlist ==> r.carlist[k].crawled == (k == id || t.carlist[k].crawled)
    ensures forall k :: k in r.carlist ==> r.carlist[k].(crawled := t.carlist[k].crawled) == t.carlist[k]
    ensures r.(carlist := t.carlist) == t
  {
    if id in t.carlist then t.(carlist := t.carlist[id := t.carlist[id].(crawled := true)]) else t
  }

  /** Inserting a listing; it receives the next id and is not crawled yet. */
  function WithListing(t: Tables, e: VehicleEntry): Tables {
    t.(carlist := t.carlist[t.nextListingId := Listing(e.platform, e.platformId, e.link, false)],
       nextListingId := t.nextListingId + 1)
  }

  /** Inserting a category; it receives the next id. */
  function WithType(t: Tables, v: VehicleTypePreview): Tables {
    t.(cartype := t.cartype[t.nextTypeId := v], nextTypeId := t.nextTypeId + 1)
  }

  /** Inserting a spec row. */
  function WithSpec(t: Tables, row: SpecRow): Tables {
    t.(carspec := t.carspec + [row])
  }

  /** `insert(...).onConflict('id').merge()` on `average_prices`: one row per category, the latest wins. */
  function WithStats(t: Tables, typeId: nat, stats: PriceStats): Tables {
    t.(averagePrices := t.averagePrices[typeId := stats])
  }

  /** Inserting a `working_queue` row; `working` starts false. */
  function WithWork(t: Tables, id: nat): Tables {
    t.(workingQueue := t.workingQueue + [QueueRow(id, false)])
  }

  /** `working_queue.where('id', id).update('working', true)`: the rows keep their order. */
  function Claimed(q: seq<QueueRow>, id: nat): (r: seq<QueueRow>)
    ensures |r| == |q|
    ensures forall i :: 0 <= i < |q| ==> r[i].id == q[i].id
    ensures forall i :: 0 <= i < |q| ==> r[i].working == (q[i].working || q[i].id == id)
  {
    if q == [] then []
    else [if q[0].id == id then q[0].(working := true) else q[0]] + Claimed(q[1..], id)
  }

  /** `working_queue.where('id', id).del()`: every row with that id goes, every other row stays, in order. */
  function WithoutWork(q: seq<QueueRow>, id: nat): (r: seq<QueueRow>)
    ensures |r| <= |q|
    ensures forall x :: x in r <==> x in q && x.id != id
  {
    if q == [] then []
    else (if q[0].id == id then [] else [q[0]]) + WithoutWork(q[1..], id)
  }

  /** Deleting the rows of an item after claiming them is the same as deleting them outright. */
  lemma {:induction false} DeleteAfterClaim(q: seq<QueueRow>, id: nat)
    ensures WithoutWork(Claimed(q, id), id) == WithoutWork(q, id)
  {
    if q != [] {
      DeleteAfterClaim(q[1..], id);
      assert Claimed(q, id)[1..] == Claimed(q[1..], id);
    }
  }

  lemma {:induction false} RestrictedConcat(a: seq<QueueRow>, b: seq<QueueRow>, id: nat)
    ensures Restricted(a + b, id) == Restricted(a, id) + Restricted(b, id)
  {
    if a == [] {
      assert a + b == b;
    } else {
      var head := if a[0].id == id then [a[0]] else [];
      assert (a + b)[0] == a[0] && (a + b)[1..] == a[1..] + b;
      assert Restricted(a + b, id) == head + Restricted(a[1..] + b, id);
      RestrictedConcat(a[1..], b, id);
      assert Restricted(a, id) == head + Restricted(a[1..], id);
    }
  }

  /** Deleting one item leaves the rows of every other item as they were, in order. */
  lemma {:induction false} DeleteKeepsOthers(q: seq<QueueRow>, id: nat, other: nat)
    requires other != id
    ensures Restricted(WithoutWork(q, id), other) == Restricted(q, other)
  {
    if q != [] {
      DeleteKeepsOthers(q[1..], id, other);
      var kept := if q[0].id == id then [] else [q[0]];
      RestrictedConcat(kept, WithoutWork(q[1..], id), other);
      assert Restricted(kept, other) == Restricted([q[0]], other);
      RestrictedConcat([q[0]], q[1..], other);
      assert q == [q[0]] + q[1..];
    }
  }

  /** Claiming one item leaves the rows of every other item as they were, in order. */
  lemma {:induction false} ClaimKeepsOthers(q: seq<QueueRow>, id: nat, other: nat)
    requires other != id
    ensures Restricted(Claimed(q, id), other) == Restricted(q, other)
  {
    if q != [] {
      ClaimKeepsOthers(q[1..], id, other);
      var head := if q[0].id == id then q[0].(working := true) else q[0];
      assert Claimed(q, id) == [head] + Claimed(q[1..], id);
      RestrictedConcat([head], Claimed(q[1..], id), other);
      assert Restricted([head], other) == Restricted([q[0]], other);
      RestrictedConcat([q[0]], q[1..], other);
      assert q == [q[0]] + q[1..];
    }
  }

  /** The rows of one item, in order. */
  function Restricted(q: seq<QueueRow>, id: nat): seq<QueueRow> {
    if q == [] then []
    else (if q[0].id == id then [q[0]] else []) + Restricted(q[1..], id)
  }

  // ---------------------------------------------------------------------------
  // The shared database

  class Store {
    var carlist: map<nat, Listing>
    var nextListingId: nat
    var cartype: map<nat, VehicleTypePreview>
    var nextTypeId: nat
    var carspec: seq<SpecRow>
    var averagePrices: map<nat, PriceStats>
    var workingQueue: seq<QueueRow>

    function Snapshot(): Tables
      reads this
    {
      Tables(carlist, nextListingId, cartype, nextTypeId, carspec, averagePrices, workingQueue)
    }

    constructor ()
      ensures Snapshot() == EmptyTables()
    {
      carlist, nextListingId := map[], 1;
      cartype, nextTypeId := map[], 1;
      carspec := [];
      averagePrices := map[];
      workingQueue := [];
    }

    method MarkCrawled(id: nat)
      modifies this
      ensures Snapshot() == WithCrawled(old(Snapshot()), id)
    {
      if id in carlist {
        carlist := carlist[id := carlist[id].(crawled := true)];
      }
    }

    method InsertListing(e: VehicleEntry)
      modifies this
      ensures Snapshot() == WithListing(old(Snapshot()), e)
    {
      carlist := carlist[nextListingId := Listing(e.platform, e.platformId, e.link, false)];
      nextListingId := nextListingId + 1;
    }

    method InsertType(v: VehicleTypePreview) returns (id: nat)
      modifies this
      ensures id == old(nextTypeId)
      ensures Snapshot() == WithType(old(Snapshot()), v)
    {
      id := nextTypeId;
      cartype := cartype[id := v];
      nextTypeId := nextTypeId + 1;
    }

    method InsertSpec(row: SpecRow)
      modifies this
      ensures Snapshot() == WithSpec(old(Snapshot()), row)
    {
      carspec := carspec + [row];
    }

    method UpsertStats(typeId: nat, stats: PriceStats)
      modifies this
      ensures Snapshot() == WithStats(old(Snapshot()), typeId, stats)
    {
      averagePrices := averagePrices[typeId := stats];
    }

    method InsertWork(id: nat)
      modifies this
      ensures Snapshot() == WithWork(old(Snapshot()), id)
    {
      workingQueue := workingQueue + [QueueRow(id, false)];
    }

    method ClaimWork(id: nat)
      modifies this
      ensures Snapshot() == old(Snapshot()).(workingQueue := Claimed(old(workingQueue), id))
    {
      workingQueue := Claimed(workingQueue, id);
    }

    method DeleteWork(id: nat)
      modifies this
      ensures Snapshot() == old(Snapshot()).(workingQueue := WithoutWork(old(workingQueue), id))
    {
      workingQueue := WithoutWork(workingQueue, id);
    }
  }
}
