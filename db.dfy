/** The MongoDB collections the controllers read and write, as one mutable
    object, plus the value the handlers are specified against. */
module Db {
  import opened Common
  import opened Schema

  /** The contents of the collections at one moment. `nextId` is the next
      ObjectId to hand out; every stored id is below it. */
  datatype Snapshot = Snapshot(
    users: map<ObjectId, User>,
    shuttles: map<ObjectId, Shuttle>,
    reservations: map<ObjectId, Reservation>,
    notifications: map<ObjectId, Notification>,
    nextId: ObjectId)

  predicate WellFormed(st: Snapshot)
  {
    && (forall id :: id in st.users ==> id < st.nextId)
    && (forall id :: id in st.shuttles ==> id < st.nextId)
    && (forall id :: id in st.reservations ==> id < st.nextId)
    && (forall id :: id in st.notifications ==> id < st.nextId)
  }

  /** An HTTP reply: a status with the document it returns, or a status
      with an error message. */
  datatype Reply<R> = Success(status: nat, id: ObjectId, body: R) | Failure(status: nat, message: string)

  const ServerError := "Server error"

  /** The ids below `bound` whose document satisfies p, ascending: the order
      in which a find() with that filter returns documents. */
  function IdsBelow<V>(m: map<ObjectId, V>, bound: nat, p: V -> bool): (r: seq<ObjectId>)
    ensures forall i :: 0 <= i < |r| ==> r[i] in m && r[i] < bound && p(m[r[i]])
    ensures forall id :: id in m && id < bound && p(m[id]) ==> id in r
    ensures forall i, j :: 0 <= i < j < |r| ==> r[i] < r[j]
  {
    if bound == 0 then []
    else
      var rest := IdsBelow(m, bound - 1, p);
      if bound - 1 in m && p(m[bound - 1]) then rest + [bound - 1] else rest
  }

  /** Every document of a collection that satisfies p, each once, in id order. */
  function IdsWhere<V>(m: map<ObjectId, V>, bound: nat, p: V -> bool): (r: seq<ObjectId>)
    requires forall id :: id in m ==> id < bound
    ensures forall i :: 0 <= i < |r| ==> r[i] in m && p(m[r[i]])
    ensures forall id :: id in m && p(m[id]) ==> id in r
    ensures forall i, j :: 0 <= i < j < |r| ==> r[i] < r[j]
  {
    IdsBelow(m, bound, p)
  }

  class Database {
    var users: map<ObjectId, User>
    var shuttles: map<ObjectId, Shuttle>
    var reservations: map<ObjectId, Reservation>
    var notifications: map<ObjectId, Notification>
    var nextId: ObjectId

    function State(): Snapshot
      reads this
    {
      Snapshot(users, shuttles, reservations, notifications, nextId)
    }

    predicate Valid()
      reads this
    {
      WellFormed(State())
    }

    /** A database holding the given users and shuttles and nothing else. */
    constructor (users: map<ObjectId, User>, shuttles: map<ObjectId, Shuttle>, nextId: ObjectId)
      requires forall id :: id in users ==> id < nextId
      requires forall id :: id in shuttles ==> id < nextId
      ensures Valid()
      ensures State() == Snapshot(users, shuttles, map[], map[], nextId)
    {
      this.users := users;
      this.shuttles := shuttles;
      this.reservations := map[];
      this.notifications := map[];
      this.nextId := nextId;
    }
  }
}
