/** createReservation, getUserReservations and cancelReservation: a booking
    takes the seat number from the shuttle's seatsAvailable counter and
    decrements it; a cancellation increments it again and marks the
    reservation cancelled. Each handler runs as one atomic step. */
module ReservationController {
  import opened Common
  import opened Schema
  import opened Db

  // ---------------------------------------------------------------------
  // The counter ledger

  /** The ids of the active reservations on a shuttle. */
  function ActiveOn(rs: map<ObjectId, Reservation>, shuttle: ObjectId): set<ObjectId>
  {
    set id | id in rs && rs[id].shuttle == shuttle && rs[id].status == Active
  }

  /** A shuttle's counter plus its active reservations: the quantity every
      successful booking and cancellation keeps. */
  function Ledger(st: Snapshot, shuttle: ObjectId): int
    requires shuttle in st.shuttles
  {
    st.shuttles[shuttle].seatsAvailable + |ActiveOn(st.reservations, shuttle)|
  }

  function Decremented(s: Shuttle): Shuttle
  {
    s.(seatsAvailable := s.seatsAvailable - 1)
  }

  function Incremented(s: Shuttle): Shuttle
  {
    s.(seatsAvailable := s.seatsAvailable + 1)
  }

  // ---------------------------------------------------------------------
  // createReservation

  /** The outcome of createReservation: the new collections and the reply. */
  function Create(st: Snapshot, shuttleId: Option<ObjectId>, destination: string, userId: Option<ObjectId>, now: int)
    : (out: (Snapshot, Reply<Reservation>))
    requires WellFormed(st)
    ensures WellFormed(out.0)
    ensures out.1.Failure? ==> out.0 == st
    ensures shuttleId.None? ==> out.1 == Failure(400, "Shuttle ID is required")
    ensures shuttleId.Some? && destination == "" ==> out.1 == Failure(400, "Destination is required")
    ensures shuttleId.Some? && destination != "" && shuttleId.value !in st.shuttles
            ==> out.1 == Failure(404, "Shuttle not found")
    ensures shuttleId.Some? && destination != "" && shuttleId.value in st.shuttles
            && st.shuttles[shuttleId.value].seatsAvailable <= 0
            ==> out.1 == Failure(400, "No available seats on this shuttle for today")
    ensures out.1.Success? <==> shuttleId.Some? && destination != "" && shuttleId.value in st.shuttles
                                && st.shuttles[shuttleId.value].seatsAvailable > 0 && userId.Some?
    ensures out.1.Success? ==>
              var sid := shuttleId.value;
              && out.1.status == 201 && out.1.id == st.nextId && out.1.id !in st.reservations
              && out.1.body == Reservation(userId.value, sid, st.shuttles[sid].seatsAvailable, destination, now, Active, None)
              && out.1.body.seatNumber >= 1
              && out.0 == st.(reservations := st.reservations[st.nextId := out.1.body],
                              shuttles := st.shuttles[sid := Decremented(st.shuttles[sid])],
                              nextId := st.nextId + 1)
  {
    if shuttleId.None? then (st, Failure(400, "Shuttle ID is required"))
    else if destination == "" then (st, Failure(400, "Destination is required"))
    else if shuttleId.value !in st.shuttles then (st, Failure(404, "Shuttle not found"))
    else
      var sid := shuttleId.value;
      var shuttle := st.shuttles[sid];
      if shuttle.seatsAvailable <= 0 then (st, Failure(400, "No available seats on this shuttle for today"))
      else
        match NewReservation(ReservationInput(userId, Some(sid), Some(shuttle.seatsAvailable), destination), now)
        case None => (st, Failure(500, ServerError))
        case Some(doc) =>
          var st' := st.(reservations := st.reservations[st.nextId := doc],
                         shuttles := st.shuttles[sid := Decremented(shuttle)],
                         nextId := st.nextId + 1);
          (st', Success(201, st.nextId, doc))
  }

  method CreateReservation(db: Database, shuttleId: Option<ObjectId>, destination: string, userId: Option<ObjectId>, now: int)
    returns (reply: Reply<Reservation>)
    requires db.Valid()
    modifies db
    ensures db.Valid()
    ensures (db.State(), reply) == Create(old(db.State()), shuttleId, destination, userId, now)
  {
    if shuttleId.None? {
      return Failure(400, "Shuttle ID is required");
    }
    if destination == "" {
      return Failure(400, "Destination is required");
    }
    var sid := shuttleId.value;
    if sid !in db.shuttles {
      return Failure(404, "Shuttle not found");
    }
    var shuttle := db.shuttles[sid];
    if shuttle.seatsAvailable <= 0 {
      return Failure(400, "No available seats on this shuttle for today");
    }
    var doc := NewReservation(ReservationInput(userId, Some(sid), Some(shuttle.seatsAvailable), destination), now);
    if doc.None? {
      // the save fails validation and the handler answers 500
      return Failure(500, ServerError);
    }
    var id := db.nextId;
    db.reservations := db.reservations[id := doc.value];
    db.nextId := db.nextId + 1;
    // $inc: { seatsAvailable: -1 } on the current document
    var current := db.shuttles[sid];
    db.shuttles := db.shuttles[sid := Decremented(current)];
    reply := Success(201, id, doc.value);
  }

  // ---------------------------------------------------------------------
  // cancelReservation

  function Cancel(st: Snapshot, reservationId: Option<ObjectId>, userId: Option<ObjectId>, now: int)
    : (out: (Snapshot, Reply<Reservation>))
    requires WellFormed(st)
    ensures WellFormed(out.0)
    ensures out.1.Failure? ==> out.0 == st
    ensures reservationId.None? || userId.None?
            ==> out.1 == Failure(400, "Reservation ID and user ID are required")
    ensures reservationId.Some? && userId.Some? && reservationId.value !in st.reservations
            ==> out.1 == Failure(404, "Reservation not found")
    ensures reservationId.Some? && userId.Some? && reservationId.value in st.reservations
            && st.reservations[reservationId.value].user != userId.value
            ==> out.1 == Failure(403, "Unauthorized to cancel this reservation")
    ensures reservationId.Some? && userId.Some? && reservationId.value in st.reservations
            && st.reservations[reservationId.value].user == userId.value
            && st.reservations[reservationId.value].status == Cancelled
            ==> out.1 == Failure(400, "Reservation is already cancelled")
    ensures out.1.Success? <==> reservationId.Some? && userId.Some? && reservationId.value in st.reservations
                                && st.reservations[reservationId.value].user == userId.value
                                && st.reservations[reservationId.value].status == Active
    ensures out.1.Success? ==>
              var rid := reservationId.value;
              var r := st.reservations[rid];
              && out.1.status == 200 && out.1.id == rid
              && out.1.body == r.(status := Cancelled, cancelledAt := Some(now))
              && out.0.reservations == st.reservations[rid := out.1.body]
              && out.0.shuttles == (if r.shuttle in st.shuttles
                                    then st.shuttles[r.shuttle := Incremented(st.shuttles[r.shuttle])]
                                    else st.shuttles)
              && out.0.users == st.users && out.0.notifications == st.notifications && out.0.nextId == st.nextId
  {
    if reservationId.None? || userId.None? then (st, Failure(400, "Reservation ID and user ID are required"))
    else if reservationId.value !in st.reservations then (st, Failure(404, "Reservation not found"))
    else
      var rid := reservationId.value;
      var r := st.reservations[rid];
      if r.user != userId.value then (st, Failure(403, "Unauthorized to cancel this reservation"))
      else if r.status.Cancelled? then (st, Failure(400, "Reservation is already cancelled"))
      else
        assert r.status == Active;
        var shuttles := if r.shuttle in st.shuttles
                        then st.shuttles[r.shuttle := Incremented(st.shuttles[r.shuttle])]
                        else st.shuttles;
        var r' := r.(status := Cancelled, cancelledAt := Some(now));
        (st.(shuttles := shuttles, reservations := st.reservations[rid := r']), Success(200, rid, r'))
  }

  method CancelReservation(db: Database, reservationId: Option<ObjectId>, userId: Option<ObjectId>, now: int)
    returns (reply: Reply<Reservation>)
    requires db.Valid()
    modifies db
    ensures db.Valid()
    ensures (db.State(), reply) == Cancel(old(db.State()), reservationId, userId, now)
  {
    if reservationId.None? || userId.None? {
      return Failure(400, "Reservation ID and user ID are required");
    }
    var rid := reservationId.value;
    if rid !in db.reservations {
      return Failure(404, "Reservation not found");
    }
    var reservation := db.reservations[rid];
    if reservation.user != userId.value {
      return Failure(403, "Unauthorized to cancel this reservation");
    }
    if reservation.status == Cancelled {
      return Failure(400, "Reservation is already cancelled");
    }
    // $inc: { seatsAvailable: 1 }; updating a missing shuttle matches nothing
    if reservation.shuttle in db.shuttles {
      var current := db.shuttles[reservation.shuttle];
      db.shuttles := db.shuttles[reservation.shuttle := Incremented(current)];
    }
    reservation := reservation.(status := Cancelled);
    reservation := reservation.(cancelledAt := Some(now));
    db.reservations := db.reservations[rid := reservation];
    reply := Success(200, rid, reservation);
  }

  /** Cancelled is terminal: a second cancel by the owner is refused and
      changes nothing. */
  lemma CancelIsTerminal(st: Snapshot, rid: ObjectId, user: ObjectId, now: int, later: int)
    requires WellFormed(st)
    requires Cancel(st, Some(rid), Some(user), now).1.Success?
    ensures var st1 := Cancel(st, Some(rid), Some(user), now).0;
            Cancel(st1, Some(rid), Some(user), later) == (st1, Failure(400, "Reservation is already cancelled"))
  {
  }

  // ---------------------------------------------------------------------
  // getUserReservations

  /** A reservation with its shuttle populated (None when the shuttle no
      longer exists, which populate() reports as null). */
  datatype PopulatedReservation = PopulatedReservation(id: ObjectId, reservation: Reservation, shuttle: Option<Shuttle>)

  function Populate(st: Snapshot, id: ObjectId): (p: PopulatedReservation)
    requires id in st.reservations
    ensures p.id == id && p.reservation == st.reservations[id]
    ensures p.shuttle.Some? <==> st.reservations[id].shuttle in st.shuttles
    ensures p.shuttle.Some? ==> p.shuttle.value == st.shuttles[st.reservations[id].shuttle]
  {
    var r := st.reservations[id];
    PopulatedReservation(id, r, if r.shuttle in st.shuttles then Some(st.shuttles[r.shuttle]) else None)
  }

  /** The ids of the reservations a user holds, ascending. */
  function OwnedIds(st: Snapshot, userId: ObjectId): (ids: seq<ObjectId>)
    requires WellFormed(st)
    ensures forall i :: 0 <= i < |ids| ==> ids[i] in st.reservations && st.reservations[ids[i]].user == userId
    ensures forall id :: id in st.reservations && st.reservations[id].user == userId ==> id in ids
    ensures forall i, j :: 0 <= i < j < |ids| ==> ids[i] < ids[j]
  {
    IdsWhere(st.reservations, st.nextId, (r: Reservation) => r.user == userId)
  }

  /** Each id's reservation with its shuttle, in the order of `ids`. */
  function PopulateAll(st: Snapshot, ids: seq<ObjectId>): (r: seq<PopulatedReservation>)
    requires forall i :: 0 <= i < |ids| ==> ids[i] in st.reservations
    ensures |r| == |ids|
    ensures forall i :: 0 <= i < |r| ==> r[i].id == ids[i] && r[i] == Populate(st, ids[i])
  {
    if ids == [] then [] else [Populate(st, ids[0])] + PopulateAll(st, ids[1..])
  }

  /** Reservation.find({ user }).populate("shuttle"). */
  function UserReservations(st: Snapshot, userId: ObjectId): (r: seq<PopulatedReservation>)
    requires WellFormed(st)
    ensures forall i :: 0 <= i < |r| ==> r[i].id in st.reservations && r[i] == Populate(st, r[i].id)
                                         && r[i].reservation.user == userId
    ensures forall id :: id in st.reservations && st.reservations[id].user == userId
                         ==> exists i :: 0 <= i < |r| && r[i].id == id
    ensures forall i, j :: 0 <= i < j < |r| ==> r[i].id < r[j].id
  {
    PopulateAll(st, OwnedIds(st, userId))
  }

  // ---------------------------------------------------------------------
  // Conservation of counter + active reservations

  /** Storing a new reservation adds its id to the active set of its shuttle
      when it is active, and leaves every other active set alone. */
  lemma ActiveOnInsert(rs: map<ObjectId, Reservation>, id: ObjectId, r: Reservation, s: ObjectId)
    requires id !in rs
    ensures ActiveOn(rs[id := r], s)
            == if r.shuttle == s && r.status == Active then ActiveOn(rs, s) + {id} else ActiveOn(rs, s)
  {
  }

  /** createReservation keeps every shuttle's ledger: the counter drops by
      one exactly when one active reservation is added to that shuttle. */
  lemma CreateKeepsLedger(st: Snapshot, shuttleId: Option<ObjectId>, destination: string,
                          userId: Option<ObjectId>, now: int, s: ObjectId)
    requires WellFormed(st) && s in st.shuttles
    ensures s in Create(st, shuttleId, destination, userId, now).0.shuttles
    ensures Ledger(Create(st, shuttleId, destination, userId, now).0, s) == Ledger(st, s)
  {
    var out := Create(st, shuttleId, destination, userId, now);
    if out.1.Success? {
      var doc := out.1.body;
      assert st.nextId !in st.reservations;
      ActiveOnInsert(st.reservations, st.nextId, doc, s);
      assert st.nextId !in ActiveOn(st.reservations, s);
    }
  }

  /** cancelReservation keeps every shuttle's ledger: the counter rises by
      one exactly when one active reservation on that shuttle is cancelled. */
  lemma CancelKeepsLedger(st: Snapshot, reservationId: Option<ObjectId>, userId: Option<ObjectId>,
                          now: int, s: ObjectId)
    requires WellFormed(st) && s in st.shuttles
    ensures s in Cancel(st, reservationId, userId, now).0.shuttles
    ensures Ledger(Cancel(st, reservationId, userId, now).0, s) == Ledger(st, s)
  {
    var out := Cancel(st, reservationId, userId, now);
    if out.1.Success? {
      var rid := reservationId.value;
      var before := ActiveOn(st.reservations, s);
      var after := ActiveOn(out.0.reservations, s);
      if st.reservations[rid].shuttle == s {
        assert rid in before;
        assert after == before - {rid};
      } else {
        assert after == before;
      }
    }
  }

  // ---------------------------------------------------------------------
  // Seat numbers are not unique

  /** With two seats, A books seat 2 and B seat 1; A cancels, which puts the
      counter back to 1, so C is also given seat 1 while B still holds it. */
  lemma CancelThenCreateDuplicatesSeat()
    ensures
      var shuttle := Shuttle("Shuttle A", "07:30", 2, "Bakakeng");
      var st0 := Snapshot(map[], map[0 := shuttle], map[], map[], 4);
      var (st1, a) := Create(st0, Some(0), "Bakakeng", Some(1), 100);
      var (st2, b) := Create(st1, Some(0), "Bakakeng", Some(2), 200);
      var (st3, _) := Cancel(st2, Some(a.id), Some(1), 300);
      var (st4, c) := Create(st3, Some(0), "Bakakeng", Some(3), 400);
      && a.Success? && b.Success? && c.Success?
      && a.body.seatNumber == 2 && b.body.seatNumber == 1 && c.body.seatNumber == 1
      && b.id != c.id && b.id in st4.reservations && c.id in st4.reservations
      && st4.reservations[b.id].status == Active && st4.reservations[c.id].status == Active
      && st4.reservations[b.id].shuttle == st4.reservations[c.id].shuttle
      && st4.reservations[b.id].seatNumber == st4.reservations[c.id].seatNumber
  {
  }
}
