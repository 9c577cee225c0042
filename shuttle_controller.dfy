/** getShuttles and reserveShuttle: the older booking path, which reads the
    shuttle, creates a reservation whose seat number is the counter, then
    decrements the counter and saves the shuttle. */
module ShuttleController {
  import opened Common
  import opened Schema
  import opened Db
  import opened ReservationController

  // ---------------------------------------------------------------------
  // getShuttles

  datatype ShuttleDoc = ShuttleDoc(id: ObjectId, shuttle: Shuttle)

  function Docs(st: Snapshot, ids: seq<ObjectId>): (r: seq<ShuttleDoc>)
    requires forall i :: 0 <= i < |ids| ==> ids[i] in st.shuttles
    ensures |r| == |ids|
    ensures forall i :: 0 <= i < |r| ==> r[i] == ShuttleDoc(ids[i], st.shuttles[ids[i]])
  {
    if ids == [] then [] else [ShuttleDoc(ids[0], st.shuttles[ids[0]])] + Docs(st, ids[1..])
  }

  /** The documents of the stored shuttles satisfying p, in id order: each
      is stored and satisfies p, every such shuttle is among them, and there
      are none exactly when no stored shuttle satisfies p. */
  lemma DocsWhere(st: Snapshot, p: Shuttle -> bool)
    requires WellFormed(st)
    ensures var r := Docs(st, IdsWhere(st.shuttles, st.nextId, p));
            && (forall i :: 0 <= i < |r| ==> r[i].id in st.shuttles && r[i].shuttle == st.shuttles[r[i].id]
                                             && p(r[i].shuttle))
            && (forall id :: id in st.shuttles && p(st.shuttles[id]) ==> exists i :: 0 <= i < |r| && r[i].id == id)
            && (forall i, j :: 0 <= i < j < |r| ==> r[i].id < r[j].id)
            && (r == [] <==> forall id :: id in st.shuttles ==> !p(st.shuttles[id]))
  {
    DocsWhereStored(st, p);
    var ids := IdsWhere(st.shuttles, st.nextId, p);
    forall id | id in st.shuttles && p(st.shuttles[id])
      ensures exists i :: 0 <= i < |Docs(st, ids)| && Docs(st, ids)[i].id == id
    {
      DocOf(st, ids, id);
    }
    DocsWhereEmpty(st, p);
  }

  lemma DocsWhereStored(st: Snapshot, p: Shuttle -> bool)
    requires WellFormed(st)
    ensures var r := Docs(st, IdsWhere(st.shuttles, st.nextId, p));
            && (forall i :: 0 <= i < |r| ==> r[i].id in st.shuttles && r[i].shuttle == st.shuttles[r[i].id]
                                             && p(r[i].shuttle))
            && (forall i, j :: 0 <= i < j < |r| ==> r[i].id < r[j].id)
  {
  }

  /** A listed id has its document. */
  lemma DocOf(st: Snapshot, ids: seq<ObjectId>, id: ObjectId)
    requires forall i :: 0 <= i < |ids| ==> ids[i] in st.shuttles
    requires id in ids
    ensures exists i :: 0 <= i < |Docs(st, ids)| && Docs(st, ids)[i].id == id
  {
    var i :| 0 <= i < |ids| && ids[i] == id;
    assert Docs(st, ids)[i].id == id;
  }

  lemma DocsWhereEmpty(st: Snapshot, p: Shuttle -> bool)
    requires WellFormed(st)
    ensures Docs(st, IdsWhere(st.shuttles, st.nextId, p)) == [] <==> forall id :: id in st.shuttles ==> !p(st.shuttles[id])
  {
    var ids := IdsWhere(st.shuttles, st.nextId, p);
    if ids != [] {
      assert ids[0] in st.shuttles && p(st.shuttles[ids[0]]);
    }
  }

  function AnyShuttle(): Shuttle -> bool
  {
    (s: Shuttle) => true
  }

  /** Shuttle.find(): every stored shuttle, once each, in id order. */
  function GetShuttles(st: Snapshot): (r: seq<ShuttleDoc>)
    requires WellFormed(st)
    ensures forall i :: 0 <= i < |r| ==> r[i].id in st.shuttles && r[i].shuttle == st.shuttles[r[i].id]
    ensures forall id :: id in st.shuttles ==> exists i :: 0 <= i < |r| && r[i].id == id
    ensures forall i, j :: 0 <= i < j < |r| ==> r[i].id < r[j].id
  {
    DocsWhere(st, AnyShuttle());
    Docs(st, IdsWhere(st.shuttles, st.nextId, AnyShuttle()))
  }

  // ---------------------------------------------------------------------
  // reserveShuttle

  /** The outcome of reserveShuttle. The reservation is stored without a
      destination (""), and a caller without a user makes `req.user.id`
      throw before anything is written. */
  function Reserve(st: Snapshot, shuttleId: ObjectId, userId: Option<ObjectId>, now: int)
    : (out: (Snapshot, Reply<Reservation>))
    requires WellFormed(st)
    ensures WellFormed(out.0)
    ensures out.1.Failure? ==> out.0 == st
    ensures shuttleId !in st.shuttles ==> out.1 == Failure(404, "Shuttle not found")
    ensures shuttleId in st.shuttles && st.shuttles[shuttleId].seatsAvailable <= 0
            ==> out.1 == Failure(400, "No seats available")
    ensures out.1.Success? <==> shuttleId in st.shuttles && st.shuttles[shuttleId].seatsAvailable > 0 && userId.Some?
    ensures out.1.Success? ==>
              && out.1.status == 200 && out.1.id == st.nextId && out.1.id !in st.reservations
              && out.1.body == Reservation(userId.value, shuttleId, st.shuttles[shuttleId].seatsAvailable, "", now, Active, None)
              && out.1.body.seatNumber >= 1
              && out.0 == st.(reservations := st.reservations[st.nextId := out.1.body],
                              shuttles := st.shuttles[shuttleId := Decremented(st.shuttles[shuttleId])],
                              nextId := st.nextId + 1)
  {
    if shuttleId !in st.shuttles then (st, Failure(404, "Shuttle not found"))
    else
      var shuttle := st.shuttles[shuttleId];
      if shuttle.seatsAvailable <= 0 then (st, Failure(400, "No seats available"))
      else
        match NewReservation(ReservationInput(userId, Some(shuttleId), Some(shuttle.seatsAvailable), ""), now)
        case None => (st, Failure(500, ServerError))
        case Some(doc) =>
          var st' := st.(reservations := st.reservations[st.nextId := doc],
                         shuttles := st.shuttles[shuttleId := Decremented(shuttle)],
                         nextId := st.nextId + 1);
          (st', Success(200, st.nextId, doc))
  }

  method ReserveShuttle(db: Database, shuttleId: ObjectId, userId: Option<ObjectId>, now: int)
    returns (reply: Reply<Reservation>)
    requires db.Valid()
    modifies db
    ensures db.Valid()
    ensures (db.State(), reply) == Reserve(old(db.State()), shuttleId, userId, now)
  {
    if shuttleId !in db.shuttles {
      return Failure(404, "Shuttle not found");
    }
    var shuttle := db.shuttles[shuttleId];
    if shuttle.seatsAvailable <= 0 {
      return Failure(400, "No seats available");
    }
    if userId.None? {
      return Failure(500, ServerError);
    }
    var doc := Reservation(userId.value, shuttleId, shuttle.seatsAvailable, "", now, Active, None);
    var id := db.nextId;
    db.reservations := db.reservations[id := doc];
    db.nextId := db.nextId + 1;
    shuttle := shuttle.(seatsAvailable := shuttle.seatsAvailable - 1);
    db.shuttles := db.shuttles[shuttleId := shuttle];
    reply := Success(200, id, doc);
  }

  /** reserveShuttle keeps every shuttle's counter + active reservations. */
  lemma ReserveKeepsLedger(st: Snapshot, shuttleId: ObjectId, userId: Option<ObjectId>, now: int, s: ObjectId)
    requires WellFormed(st) && s in st.shuttles
    ensures s in Reserve(st, shuttleId, userId, now).0.shuttles
    ensures Ledger(Reserve(st, shuttleId, userId, now).0, s) == Ledger(st, s)
  {
    var out := Reserve(st, shuttleId, userId, now);
    if out.1.Success? {
      assert st.nextId !in st.reservations;
      ActiveOnInsert(st.reservations, st.nextId, out.1.body, s);
      assert st.nextId !in ActiveOn(st.reservations, s);
    }
  }

  // ---------------------------------------------------------------------
  // Successive bookings on one shuttle

  /** reserveShuttle called once per user, in order, on the same shuttle. */
  function ReserveMany(st: Snapshot, shuttleId: ObjectId, users: seq<ObjectId>, now: int)
    : (out: (Snapshot, seq<Reply<Reservation>>))
    requires WellFormed(st)
    ensures WellFormed(out.0)
    ensures |out.1| == |users|
    decreases |users|
  {
    if users == [] then (st, [])
    else
      var (st1, reply) := Reserve(st, shuttleId, Some(users[0]), now);
      var (st2, replies) := ReserveMany(st1, shuttleId, users[1..], now);
      (st2, [reply] + replies)
  }

  /** From a counter of n and no cancellations, the k-th booking gets seat
      n - k (n, n-1, ..., 1) and every booking after the n-th is refused. */
  lemma {:induction false} ReserveCountdown(st: Snapshot, shuttleId: ObjectId, users: seq<ObjectId>, now: int)
    requires WellFormed(st) && shuttleId in st.shuttles && st.shuttles[shuttleId].seatsAvailable >= 0
    ensures var n := st.shuttles[shuttleId].seatsAvailable;
            var (st', replies) := ReserveMany(st, shuttleId, users, now);
            && (forall k :: 0 <= k < |users| && k < n ==>
                  replies[k].Success? && replies[k].body.seatNumber == n - k && replies[k].body.user == users[k])
            && (forall k :: n <= k < |users| ==> replies[k] == Failure(400, "No seats available"))
            && shuttleId in st'.shuttles
            && st'.shuttles[shuttleId].seatsAvailable == if |users| <= n then n - |users| else 0
    decreases |users|
  {
    if users != [] {
      var n := st.shuttles[shuttleId].seatsAvailable;
      var (st1, reply) := Reserve(st, shuttleId, Some(users[0]), now);
      ReserveCountdown(st1, shuttleId, users[1..], now);
      var replies := ReserveMany(st, shuttleId, users, now).1;
      var rest := ReserveMany(st1, shuttleId, users[1..], now).1;
      assert replies == [reply] + rest;
      if n > 0 {
        assert st1.shuttles[shuttleId].seatsAvailable == n - 1;
        forall k | 0 <= k < |users| && k < n
          ensures replies[k].Success? && replies[k].body.seatNumber == n - k && replies[k].body.user == users[k]
        {
          if k > 0 {
            assert replies[k] == rest[k - 1];
            assert users[1..][k - 1] == users[k];
          }
        }
        forall k | n <= k < |users| ensures replies[k] == Failure(400, "No seats available") {
          assert replies[k] == rest[k - 1];
        }
      } else {
        assert st1 == st;
        forall k | n <= k < |users| ensures replies[k] == Failure(400, "No seats available") {
          if k > 0 {
            assert replies[k] == rest[k - 1];
          }
        }
      }
    }
  }
}
