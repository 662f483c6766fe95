/**
 * The discovery loop of `EntryScraper` (src/models/entry-scraper.model.ts): save the listings a result
 * page yielded, skipping platform ids that are already stored, count the insertions, and adapt the
 * polling interval to that count.
 *
 * `SaveBatch` and `EntryCycle` state what `saveData` and one `runScraper` cycle do; the class
 * `EntryScraper` performs them, item by item.
 */
module EntryScraperModel {
  import opened Interfaces
  import opened Database
  import Utils

  /** `tweakSpeed` slows down towards at most 15 minutes ... */
  const SlowDownCap := 150
  /** ... or speeds up towards at least 0.5 minutes ... */
  const SpeedUpFloor := 5
  /** ... depending on whether more than five listings were new. */
  const FewNewEntries := 5

  /** One iteration of `saveData`: insert `item` unless a listing with its platform id is stored; report whether it was inserted. */
  function SaveItem(t: Tables, item: VehicleEntry): (r: (Tables, bool))
    ensures r.1 <==> !HasPlatformId(t.carlist, item.platformId)
    ensures r.0 == (if r.1 then WithListing(t, item) else t)
  {
    if HasPlatformId(t.carlist, item.platformId) then (t, false) else (WithListing(t, item), true)
  }

  /** `saveData`: the items in input order; the tables afterwards and the number of listings inserted. */
  function SaveBatch(t: Tables, items: seq<VehicleEntry>): (Tables, nat)
    decreases |items|
  {
    if items == [] then (t, 0)
    else
      var (t1, n) := SaveBatch(t, items[..|items| - 1]);
      var (t2, inserted) := SaveItem(t1, items[|items| - 1]);
      (t2, if inserted then n + 1 else n)
  }

  /**
   * Saving a batch keeps at most one listing per platform id, even when the batch repeats an id, and
   * keeps the database valid.
   */
  lemma {:induction false} SaveBatchKeepsValid(t: Tables, items: seq<VehicleEntry>)
    requires Valid(t)
    ensures Valid(SaveBatch(t, items).0)
    decreases |items|
  {
    if items != [] {
      var t1 := SaveBatch(t, items[..|items| - 1]).0;
      SaveBatchKeepsValid(t, items[..|items| - 1]);
      var item := items[|items| - 1];
      if !HasPlatformId(t1.carlist, item.platformId) {
        var t2 := WithListing(t1, item);
        assert t1.nextListingId !in t1.carlist;
        assert PlatformIdsUnique(t2.carlist);
      }
    }
  }

  /**
   * Saving a batch never modifies or removes a stored listing, touches no other table, and gives the
   * inserted listings exactly the next `n` ids, where `n` is the count it reports.
   */
  lemma {:induction false} SaveBatchOnlyInserts(t: Tables, items: seq<VehicleEntry>)
    requires KeysBelow(t.carlist, t.nextListingId)
    ensures var (r, n) := SaveBatch(t, items);
            && (forall k :: k in t.carlist ==> k in r.carlist && r.carlist[k] == t.carlist[k])
            && r.nextListingId == t.nextListingId + n
            && (forall k :: k in r.carlist ==> k in t.carlist || t.nextListingId <= k < r.nextListingId)
            && (forall k :: t.nextListingId <= k < r.nextListingId ==> k in r.carlist)
            && r.(carlist := t.carlist, nextListingId := t.nextListingId) == t
    decreases |items|
  {
    if items != [] {
      SaveBatchOnlyInserts(t, items[..|items| - 1]);
      var t1 := SaveBatch(t, items[..|items| - 1]).0;
      assert forall k :: t.nextListingId <= k < t1.nextListingId ==> k in t1.carlist;
    }
  }

  /** After saving a batch, every item's platform id is stored. */
  lemma {:induction false} SaveBatchStoresEveryItem(t: Tables, items: seq<VehicleEntry>)
    requires Valid(t)
    ensures forall i :: 0 <= i < |items| ==> HasPlatformId(SaveBatch(t, items).0.carlist, items[i].platformId)
    decreases |items|
  {
    if items != [] {
      var front := items[..|items| - 1];
      SaveBatchStoresEveryItem(t, front);
      SaveBatchKeepsValid(t, front);
      var t1 := SaveBatch(t, front).0;
      var item := items[|items| - 1];
      var t2 := SaveItem(t1, item).0;
      assert t1.nextListingId !in t1.carlist;
      forall i | 0 <= i < |items|
        ensures HasPlatformId(t2.carlist, items[i].platformId)
      {
        if i < |items| - 1 {
          assert items[i] == front[i];
          var k :| k in t1.carlist && t1.carlist[k].platformId == items[i].platformId;
          assert k in t2.carlist && t2.carlist[k] == t1.carlist[k];
        } else if t2 != t1 {
          assert t2.carlist[t1.nextListingId].platformId == item.platformId;
        }
      }
    }
  }

  /** A repeated platform id is inserted at most once: a batch of the same listing twice counts one insertion at most. */
  lemma DuplicateInBatch(t: Tables, item: VehicleEntry)
    ensures SaveBatch(t, [item, item]).1 == SaveBatch(t, [item]).1
    ensures SaveBatch(t, [item, item]).0 == SaveBatch(t, [item]).0
  {
    assert [item, item][..1] == [item];
    assert [item][..0] == [];
    var t1 := SaveItem(t, item).0;
    if t1 != t {
      assert t1.carlist[t.nextListingId].platformId == item.platformId;
    }
  }

  /** `tweakSpeed`: with at most five new listings slow down towards 15 minutes, otherwise speed up towards 0.5. */
  function Tweaked(sleepTime: int, count: nat): (r: int)
    ensures count <= FewNewEntries && sleepTime < SlowDownCap ==> r >= sleepTime
    ensures count <= FewNewEntries && sleepTime >= SlowDownCap ==> r == SlowDownCap
    ensures count > FewNewEntries ==> SpeedUpFloor <= r && (sleepTime > SpeedUpFloor ==> r <= sleepTime)
  {
    if count <= FewNewEntries then Utils.SlowDown(sleepTime, SlowDownCap, Utils.DefaultAmount)
    else Utils.SpeedUp(sleepTime, SpeedUpFloor, Utils.DefaultAmount)
  }

  /** The database and the scraper's mutable fields. */
  datatype EntryState = EntryState(tables: Tables, sleepTime: int, count: nat)

  /**
   * One `runScraper` cycle, given what `processData` returned for the fetched page, or nothing when
   * the request or `processData` threw: then nothing changes.
   */
  function EntryCycle(s: EntryState, processed: Wrappers.Option<seq<VehicleEntry>>): EntryState {
    match processed
    case None => s
    case Some(items) =>
      var (t, n) := SaveBatch(s.tables, items);
      EntryState(t, Tweaked(s.sleepTime, s.count + n), 0)
  }

  /** A cycle keeps the database valid, and after a successful one the insertion count is 0 again. */
  lemma EntryCycleKeepsValid(s: EntryState, processed: Wrappers.Option<seq<VehicleEntry>>)
    requires Valid(s.tables)
    ensures Valid(EntryCycle(s, processed).tables)
    ensures processed.Some? ==> EntryCycle(s, processed).count == 0
    ensures processed.None? ==> EntryCycle(s, processed).sleepTime == s.sleepTime
  {
    if processed.Some? {
      SaveBatchKeepsValid(s.tables, processed.value);
    }
  }

  class EntryScraper {
    const db: Store
    var sleepTime: int
    var count: nat

    function State(): EntryState
      reads this, db
    {
      EntryState(db.Snapshot(), sleepTime, count)
    }

    constructor (db: Store, sleepTime: int)
      ensures this.db == db && this.sleepTime == sleepTime && count == 0
    {
      this.db := db;
      this.sleepTime := sleepTime;
      count := 0;
    }

    method SaveData(data: seq<VehicleEntry>)
      modifies this, db
      ensures db.Snapshot() == SaveBatch(old(db.Snapshot()), data).0
      ensures count == old(count) + SaveBatch(old(db.Snapshot()), data).1
      ensures sleepTime == old(sleepTime)
    {
      for i := 0 to |data|
        invariant db.Snapshot() == SaveBatch(old(db.Snapshot()), data[..i]).0
        invariant count == old(count) + SaveBatch(old(db.Snapshot()), data[..i]).1
        invariant sleepTime == old(sleepTime)
      {
        assert data[..i + 1][..i] == data[..i];
        var item := data[i];
        var stored := HasPlatformId(db.carlist, item.platformId);
        if !stored {
          count := count + 1;
          db.InsertListing(item);
        }
      }
      assert data[..|data|] == data;
    }

    method TweakSpeed()
      modifies this
      ensures sleepTime == Tweaked(old(sleepTime), old(count)) && count == 0
    {
      if count <= FewNewEntries {
        sleepTime := Utils.SlowDown(sleepTime, SlowDownCap, Utils.DefaultAmount);
      } else {
        sleepTime := Utils.SpeedUp(sleepTime, SpeedUpFloor, Utils.DefaultAmount);
      }
      count := 0;
    }

    /** One cycle of `runScraper`. */
    method RunScraper(processed: Wrappers.Option<seq<VehicleEntry>>)
      modifies this, db
      ensures State() == EntryCycle(old(State()), processed)
    {
      if processed.None? {
        return;
      }
      SaveData(processed.value);
      TweakSpeed();
    }
  }
}
