/**
 * The work-queue dispatch of `NotificationManager` (src/notifications/notification-manager.ts): claim
 * the first unclaimed `working_queue` row, join its spec with its category, delete the item and hand
 * the joined record to every notifier.
 *
 * `ClaimFirst` and `Step` state what one `findWork` call and one `processNotifications` round do; the
 * class `NotificationManager` performs them. A notifier is only an identity here: what it does with
 * the record is not part of this model.
 */
module Notifications {
  import opened Wrappers
  import opened Interfaces
  import opened Database

  /** The interval the manager sleeps for when there is no work: two minutes, in milliseconds. */
  const IdleSleepTime := 2 * 60 * 1000

  /** One `sendNotification` call: which notifier received which record. */
  datatype Delivery<N> = Delivery(notifier: N, data: VehicleFullData)

  /** `working_queue.where('working', false).first()`: the position of the first unclaimed row. */
  function FirstUnclaimed(q: seq<QueueRow>): (r: Option<nat>)
    ensures r.Some? ==> r.value < |q| && !q[r.value].working
    ensures r.Some? ==> forall i :: 0 <= i < r.value ==> q[i].working
    ensures r.None? ==> forall i :: 0 <= i < |q| ==> q[i].working
  {
    if q == [] then None
    else if !q[0].working then Some(0)
    else match FirstUnclaimed(q[1..])
      case None => None
      case Some(i) => Some(i + 1)
  }

  /** The first spec row with id `id`. */
  function SpecOf(rows: seq<SpecRow>, id: nat): (r: Option<SpecRow>)
    ensures r.Some? ==> r.value in rows && r.value.spec.id == id
    ensures r.None? ==> forall i :: 0 <= i < |rows| ==> rows[i].spec.id != id
  {
    if rows == [] then None
    else if rows[0].spec.id == id then Some(rows[0])
    else SpecOf(rows[1..], id)
  }

  /** The spec columns of a joined record; `city` is not selected by the join, so it is supplied. */
  function SpecColumns(d: VehicleFullData, city: Option<string>): VehicleSpec {
    VehicleSpec(d.id, d.km, d.kw, d.fuel, d.transmission, d.ccm, d.price, city, d.zipcode)
  }

  /**
   * The spec with id `id` joined with its category, as the notifiers receive it: every spec column but
   * the city, the spec row's category id, and that category's make, model and year. Nothing without a
   * spec or without its category.
   */
  function JoinPayload(t: Tables, id: nat): (r: Option<VehicleFullData>)
    ensures r.Some? <==> SpecOf(t.carspec, id).Some? && SpecOf(t.carspec, id).value.cartype in t.cartype
    ensures r.Some? ==> var row := SpecOf(t.carspec, id).value;
                        && r.value.id == id
                        && r.value.cartype == row.cartype
                        && SpecColumns(r.value, row.spec.city) == row.spec
    ensures r.Some? ==> var c := t.cartype[r.value.cartype];
                        r.value.make == c.make && r.value.model == c.model && r.value.age == c.age
  {
    match SpecOf(t.carspec, id)
    case None => None
    case Some(row) =>
      if row.cartype !in t.cartype then None
      else
        var s, c := row.spec, t.cartype[row.cartype];
        Some(VehicleFullData(s.id, row.cartype, s.ccm, s.fuel, s.transmission, s.price, s.kw, s.km,
                             s.zipcode, c.make, c.model, c.age))
  }

  /**
   * `findWork`: claim every row of the first unclaimed item and return the joined record. The claimed
   * rows stay claimed even when the join finds nothing.
   */
  function ClaimFirst(t: Tables): (r: (Tables, Option<VehicleFullData>))
    ensures FirstUnclaimed(t.workingQueue).None? ==> r == (t, None)
    ensures r.1.Some? ==> exists i :: 0 <= i < |t.workingQueue| && !t.workingQueue[i].working
                                    && t.workingQueue[i].id == r.1.value.id
    ensures FirstUnclaimed(t.workingQueue).Some? ==>
              var q := t.workingQueue;
              var id := q[FirstUnclaimed(q).value].id;
              && |r.0.workingQueue| == |q|
              && (forall i :: 0 <= i < |q| ==> && r.0.workingQueue[i].id == q[i].id
                                               && r.0.workingQueue[i].working == (q[i].working || q[i].id == id))
              && r.1 == JoinPayload(t, id)
    ensures r.0.(workingQueue := t.workingQueue) == t
  {
    match FirstUnclaimed(t.workingQueue)
    case None => (t, None)
    case Some(i) =>
      var id := t.workingQueue[i].id;
      (t.(workingQueue := Claimed(t.workingQueue, id)), JoinPayload(t, id))
  }

  /** `notifiers.forEach(n => n.sendNotification(data))`. */
  function Deliveries<N>(notifiers: seq<N>, data: VehicleFullData): seq<Delivery<N>> {
    seq(|notifiers|, i requires 0 <= i < |notifiers| => Delivery(notifiers[i], data))
  }

  /**
   * One round of `processNotifications`: the tables, the new `sleepTime` and the notifications sent.
   * Without a record the manager sleeps two minutes; with one, the item is deleted, every notifier gets
   * the record, and `sleepTime` stays as it is.
   */
  function Step<N>(t: Tables, sleepTime: int, notifiers: seq<N>): (Tables, int, seq<Delivery<N>>) {
    var (t1, work) := ClaimFirst(t);
    match work
    case None => (t1, IdleSleepTime, [])
    case Some(data) => (t1.(workingQueue := WithoutWork(t1.workingQueue, data.id)), sleepTime, Deliveries(notifiers, data))
  }

  /** A round that finds work deletes every row of that item, and keeps every other row as it was, in order. */
  lemma StepDeletesItem<N>(t: Tables, sleepTime: int, notifiers: seq<N>)
    requires ClaimFirst(t).1.Some?
    ensures var (t', sleep', sent) := Step(t, sleepTime, notifiers);
            var id := ClaimFirst(t).1.value.id;
            && t'.workingQueue == WithoutWork(t.workingQueue, id)
            && (forall other :: other != id ==> Restricted(t'.workingQueue, other) == Restricted(t.workingQueue, other))
            && t'.(workingQueue := t.workingQueue) == t
            && sleep' == sleepTime
  {
    var id := ClaimFirst(t).1.value.id;
    DeleteAfterClaim(t.workingQueue, id);
    forall other | other != id
      ensures Restricted(WithoutWork(t.workingQueue, id), other) == Restricted(t.workingQueue, other)
    {
      DeleteKeepsOthers(t.workingQueue, id, other);
    }
  }

  /** Every notifier is called exactly once, in list order, and all with the same record. */
  lemma StepNotifiesEach<N>(t: Tables, sleepTime: int, notifiers: seq<N>)
    requires ClaimFirst(t).1.Some?
    ensures var sent := Step(t, sleepTime, notifiers).2;
            && |sent| == |notifiers|
            && forall i :: 0 <= i < |sent| ==> sent[i].notifier == notifiers[i] && sent[i].data == ClaimFirst(t).1.value
  {
  }

  /** Without an unclaimed row nothing is deleted or sent, and the manager sleeps two minutes. */
  lemma IdleStep<N>(t: Tables, sleepTime: int, notifiers: seq<N>)
    requires forall i :: 0 <= i < |t.workingQueue| ==> t.workingQueue[i].working
    ensures Step(t, sleepTime, notifiers) == (t, IdleSleepTime, [])
  {
    assert FirstUnclaimed(t.workingQueue).None?;
  }

  /**
   * An item without a spec or without a category is claimed but never delivered: its rows stay in the
   * queue, now claimed, nothing is sent, and the manager sleeps as if there were no work.
   */
  lemma UnjoinableItemStaysClaimed<N>(t: Tables, sleepTime: int, notifiers: seq<N>)
    requires FirstUnclaimed(t.workingQueue).Some?
    requires JoinPayload(t, t.workingQueue[FirstUnclaimed(t.workingQueue).value].id).None?
    ensures var (t', sleep', sent) := Step(t, sleepTime, notifiers);
            var i := FirstUnclaimed(t.workingQueue).value;
            && sent == [] && sleep' == IdleSleepTime
            && |t'.workingQueue| == |t.workingQueue|
            && t'.workingQueue[i] == QueueRow(t.workingQueue[i].id, true)
            && FirstUnclaimed(t'.workingQueue) != Some(i)
  {
  }

  /**
   * Two unclaimed items `a` then `b`, with `a` joinable: one round leaves exactly the row of `b`, still
   * unclaimed, and notifies about `a`.
   */
  lemma TwoItemsExample<N>(t: Tables, sleepTime: int, notifiers: seq<N>, a: nat, b: nat)
    requires a != b
    requires t.workingQueue == [QueueRow(a, false), QueueRow(b, false)]
    requires JoinPayload(t, a).Some?
    ensures var (t', _, sent) := Step(t, sleepTime, notifiers);
            t'.workingQueue == [QueueRow(b, false)] && |sent| == |notifiers|
            && forall i :: 0 <= i < |sent| ==> sent[i].data.id == a
  {
    var q := t.workingQueue;
    assert FirstUnclaimed(q) == Some(0);
    DeleteAfterClaim(q, a);
    assert q[1..] == [QueueRow(b, false)];
    assert WithoutWork(q[1..], a) == [QueueRow(b, false)] + WithoutWork([], a);
  }

  class NotificationManager<N> {
    const db: Store
    const notifiers: seq<N>
    var sleepTime: int

    constructor (db: Store, notifiers: seq<N>)
      ensures this.db == db && this.notifiers == notifiers && sleepTime == 2
    {
      this.db := db;
      this.notifiers := notifiers;
      sleepTime := 2;
    }

    method RemoveFromQueue(id: nat)
      modifies db
      ensures db.Snapshot() == old(db.Snapshot()).(workingQueue := WithoutWork(old(db.workingQueue), id))
    {
      db.DeleteWork(id);
    }

    method FindWork() returns (work: Option<VehicleFullData>)
      modifies db
      ensures (db.Snapshot(), work) == ClaimFirst(old(db.Snapshot()))
    {
      var first := FirstUnclaimed(db.workingQueue);
      if first.None? {
        return None;
      }
      var id := db.workingQueue[first.value].id;
      db.ClaimWork(id);
      work := JoinPayload(db.Snapshot(), id);
    }

    /** Hands `data` to every notifier in turn; the result lists the calls made. */
    method Notify(data: VehicleFullData) returns (sent: seq<Delivery<N>>)
      ensures sent == Deliveries(notifiers, data)
    {
      sent := [];
      for i := 0 to |notifiers|
        invariant sent == Deliveries(notifiers[..i], data)
      {
        sent := sent + [Delivery(notifiers[i], data)];
      }
      assert notifiers[..|notifiers|] == notifiers;
    }

    /** One round of `processNotifications`. */
    method ProcessNotifications() returns (sent: seq<Delivery<N>>)
      modifies this, db
      ensures (db.Snapshot(), sleepTime, sent) == Step(old(db.Snapshot()), old(sleepTime), notifiers)
    {
      var carSpec := FindWork();
      if carSpec.None? {
        sleepTime := IdleSleepTime;
        return [];
      }
      RemoveFromQueue(carSpec.value.id);
      sent := Notify(carSpec.value);
    }
  }
}
