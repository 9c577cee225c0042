/** getShuttleReservations: the driver's passenger list. The query is built
    field by field, run against the active reservations, sorted by seat and
    projected onto six fields of the reservation, its user and its shuttle.
    The `$regex` on destination is modelled as a case-insensitive substring
    match (the pattern's regex metacharacters are not interpreted). */
module DriverController {
  import opened Common
  import opened Schema
  import opened Db

  // ---------------------------------------------------------------------
  // The query

  datatype ShuttleFilter = AnyShuttle | OneShuttle(id: ObjectId) | AmongShuttles(ids: seq<ObjectId>)

  datatype Query = Query(status: ReservationStatus, shuttle: ShuttleFilter, destination: Option<string>)

  /** The request's query parameters as the driver screen sends them; ""
      stands for a missing departureTime or destination. */
  method BuildQuery(st: Snapshot, shuttleId: Option<ObjectId>, departureTime: string, destination: string)
    returns (q: Query)
    requires WellFormed(st)
    ensures q.status == Active
    ensures shuttleId.Some? ==> q.shuttle == OneShuttle(shuttleId.value)
    ensures shuttleId.None? && departureTime == "" ==> q.shuttle == AnyShuttle
    ensures shuttleId.None? && departureTime != "" ==>
              && q.shuttle.AmongShuttles?
              && forall id :: id in q.shuttle.ids <==> id in st.shuttles && st.shuttles[id].departureTime == departureTime
    ensures q.destination == if destination == "" then None else Some(destination)
  {
    q := Query(Active, AnyShuttle, None);
    if shuttleId.Some? {
      q := q.(shuttle := OneShuttle(shuttleId.value));
    } else if departureTime != "" {
      var ids := IdsWhere(st.shuttles, st.nextId, (s: Shuttle) => s.departureTime == departureTime);
      q := q.(shuttle := AmongShuttles(ids));
    }
    if destination != "" {
      q := q.(destination := Some(destination));
    }
  }

  predicate ShuttleMatches(f: ShuttleFilter, shuttle: ObjectId)
  {
    match f
    case AnyShuttle => true
    case OneShuttle(id) => shuttle == id
    case AmongShuttles(ids) => shuttle in ids
  }

  /** The Mongo filter applied to one reservation. */
  predicate Matches(q: Query, r: Reservation)
  {
    && r.status == q.status
    && ShuttleMatches(q.shuttle, r.shuttle)
    && (q.destination.Some? ==> ContainsFolded(r.destination, Lower(q.destination.value)))
  }

  /** What the driver asks for, stated on the request parameters directly. */
  predicate Selected(st: Snapshot, shuttleId: Option<ObjectId>, departureTime: string, destination: string, r: Reservation)
  {
    && r.status == Active
    && (shuttleId.Some? ==> r.shuttle == shuttleId.value)
    && (shuttleId.None? && departureTime != "" ==>
          r.shuttle in st.shuttles && st.shuttles[r.shuttle].departureTime == departureTime)
    && (destination != "" ==> Contains(Lower(r.destination), Lower(destination)))
  }

  // ---------------------------------------------------------------------
  // Running the query

  datatype Row = Row(id: ObjectId, reservation: Reservation)

  function Rows(st: Snapshot, ids: seq<ObjectId>): (r: seq<Row>)
    requires forall i :: 0 <= i < |ids| ==> ids[i] in st.reservations
    ensures |r| == |ids|
    ensures forall i :: 0 <= i < |r| ==> r[i] == Row(ids[i], st.reservations[ids[i]])
  {
    if ids == [] then [] else [Row(ids[0], st.reservations[ids[0]])] + Rows(st, ids[1..])
  }

  /** The query as a condition on one reservation. */
  function MatchesQuery(q: Query): Reservation -> bool
  {
    (r: Reservation) => Matches(q, r)
  }

  /** Reservation.find(query): the matching reservations, each once, in id order. */
  function Found(st: Snapshot, q: Query): (r: seq<Row>)
    requires WellFormed(st)
    ensures forall i :: 0 <= i < |r| ==> r[i].id in st.reservations && r[i].reservation == st.reservations[r[i].id]
                                         && Matches(q, r[i].reservation)
    ensures forall id :: id in st.reservations && Matches(q, st.reservations[id])
                         ==> exists i :: 0 <= i < |r| && r[i].id == id
    ensures forall i, j :: 0 <= i < j < |r| ==> r[i].id < r[j].id
  {
    var ids := IdsWhere(st.reservations, st.nextId, MatchesQuery(q));
    RowsOfIds(st, q, ids);
    Rows(st, ids)
  }

  /** The rows of the matching ids, each once and in order, are the matches. */
  lemma RowsOfIds(st: Snapshot, q: Query, ids: seq<ObjectId>)
    requires forall i :: 0 <= i < |ids| ==> ids[i] in st.reservations && Matches(q, st.reservations[ids[i]])
    requires forall id :: id in st.reservations && Matches(q, st.reservations[id]) ==> id in ids
    requires forall i, j :: 0 <= i < j < |ids| ==> ids[i] < ids[j]
    ensures var r := Rows(st, ids);
            && (forall i :: 0 <= i < |r| ==> r[i].id in st.reservations && r[i].reservation == st.reservations[r[i].id]
                                             && Matches(q, r[i].reservation))
            && (forall id :: id in st.reservations && Matches(q, st.reservations[id])
                             ==> exists i :: 0 <= i < |r| && r[i].id == id)
            && (forall i, j :: 0 <= i < j < |r| ==> r[i].id < r[j].id)
  {
    var rows := Rows(st, ids);
    forall id | id in st.reservations && Matches(q, st.reservations[id])
      ensures exists i :: 0 <= i < |rows| && rows[i].id == id
    {
      var k :| 0 <= k < |ids| && ids[k] == id;
      assert rows[k].id == id;
    }
  }

  function SeatKey(row: Row): int
  {
    row.reservation.seatNumber
  }

  /** .sort({ seatNumber: 1 }): a permutation of the matches, by seat. */
  function BySeat(st: Snapshot, q: Query): (r: seq<Row>)
    requires WellFormed(st)
    ensures multiset(r) == multiset(Found(st, q))
    ensures forall i, j :: 0 <= i < j < |r| ==> r[i].reservation.seatNumber <= r[j].reservation.seatNumber
    ensures forall i :: 0 <= i < |r| ==> r[i].id in st.reservations && r[i].reservation == st.reservations[r[i].id]
                                         && Matches(q, r[i].reservation)
    ensures forall id :: id in st.reservations && Matches(q, st.reservations[id])
                         ==> exists i :: 0 <= i < |r| && r[i].id == id
  {
    var found := Found(st, q);
    var r := SortByInt(found, SeatKey);
    PermutedRows(st, q, found, r);
    r
  }

  /** Sorting the matches keeps them sound and complete. */
  lemma PermutedRows(st: Snapshot, q: Query, found: seq<Row>, r: seq<Row>)
    requires multiset(r) == multiset(found) && SortedByInt(r, SeatKey)
    requires forall k :: 0 <= k < |found| ==> found[k].id in st.reservations
                                              && found[k].reservation == st.reservations[found[k].id]
                                              && Matches(q, found[k].reservation)
    requires forall id :: id in st.reservations && Matches(q, st.reservations[id])
                          ==> exists k :: 0 <= k < |found| && found[k].id == id
    ensures forall i, j :: 0 <= i < j < |r| ==> r[i].reservation.seatNumber <= r[j].reservation.seatNumber
    ensures forall i :: 0 <= i < |r| ==> r[i].id in st.reservations && r[i].reservation == st.reservations[r[i].id]
                                         && Matches(q, r[i].reservation)
    ensures forall id :: id in st.reservations && Matches(q, st.reservations[id])
                         ==> exists i :: 0 <= i < |r| && r[i].id == id
  {
    forall i | 0 <= i < |r|
      ensures r[i].id in st.reservations && r[i].reservation == st.reservations[r[i].id] && Matches(q, r[i].reservation)
    {
      InMultiset(r[i], r, found);
    }
    forall id | id in st.reservations && Matches(q, st.reservations[id])
      ensures exists i :: 0 <= i < |r| && r[i].id == id
    {
      var k :| 0 <= k < |found| && found[k].id == id;
      InMultiset(found[k], found, r);
    }
    forall i, j | 0 <= i < j < |r| ensures r[i].reservation.seatNumber <= r[j].reservation.seatNumber {
      assert SeatKey(r[i]) <= SeatKey(r[j]);
    }
  }

  // ---------------------------------------------------------------------
  // Projection

  datatype Passenger = Passenger(
    name: string, email: string, destination: string, seatNumber: int,
    departureTime: string, shuttleName: string)

  /** A row whose user or shuttle no longer exists populates as null, and
      reading its fields throws. */
  function Project(st: Snapshot, row: Row): (p: Option<Passenger>)
    ensures p.Some? <==> row.reservation.user in st.users && row.reservation.shuttle in st.shuttles
    ensures p.Some? ==>
              var user := st.users[row.reservation.user];
              var shuttle := st.shuttles[row.reservation.shuttle];
              p.value == Passenger(user.name, user.email, row.reservation.destination, row.reservation.seatNumber,
                                   shuttle.departureTime, shuttle.name)
  {
    var r := row.reservation;
    if r.user in st.users && r.shuttle in st.shuttles then
      var user := st.users[r.user];
      var shuttle := st.shuttles[r.shuttle];
      Some(Passenger(user.name, user.email, r.destination, r.seatNumber, shuttle.departureTime, shuttle.name))
    else None
  }

  function ProjectAll(st: Snapshot, rows: seq<Row>): (r: Option<seq<Passenger>>)
    ensures r.Some? <==> forall i :: 0 <= i < |rows| ==> Project(st, rows[i]).Some?
    ensures r.Some? ==> |r.value| == |rows| && forall i :: 0 <= i < |rows| ==> r.value[i] == Project(st, rows[i]).value
  {
    if rows == [] then Some([])
    else
      var head := Project(st, rows[0]);
      var tail := ProjectAll(st, rows[1..]);
      if head.Some? && tail.Some? then
        Some([head.value] + tail.value)
      else
        assert head.None? ==> !Project(st, rows[0]).Some?;
        assert tail.None? ==> exists i :: 0 <= i < |rows| - 1 && !Project(st, rows[1..][i]).Some?;
        None
  }

  datatype DriverReply = Listed(passengers: seq<Passenger>) | ListFailed(status: nat, message: string)

  function Listing(st: Snapshot, q: Query): (r: DriverReply)
    requires WellFormed(st)
    ensures r.Listed? || r == ListFailed(500, ServerError)
    ensures r.Listed? <==> forall i :: 0 <= i < |BySeat(st, q)| ==> Project(st, BySeat(st, q)[i]).Some?
    ensures r.Listed? ==> |r.passengers| == |BySeat(st, q)|
                          && forall i :: 0 <= i < |r.passengers| ==> r.passengers[i] == Project(st, BySeat(st, q)[i]).value
  {
    match ProjectAll(st, BySeat(st, q))
    case Some(ps) => Listed(ps)
    case None => ListFailed(500, ServerError)
  }

  /** The outcome the driver is promised, on the request parameters: the
      passengers sorted by seat, one for each selected reservation. */
  predicate ListsSelection(st: Snapshot, shuttleId: Option<ObjectId>, departureTime: string, destination: string,
                           ps: seq<Passenger>)
  {
    && SeatOrdered(ps)
    && OnlyRequested(st, shuttleId, departureTime, destination, ps)
    && AllRequested(st, shuttleId, departureTime, destination, ps)
  }

  /** The passengers are in ascending seat order. */
  predicate SeatOrdered(ps: seq<Passenger>)
  {
    forall i, j :: 0 <= i < j < |ps| ==> ps[i].seatNumber <= ps[j].seatNumber
  }

  /** Each passenger is the projection of a requested reservation. */
  predicate OnlyRequested(st: Snapshot, shuttleId: Option<ObjectId>, departureTime: string, destination: string,
                          ps: seq<Passenger>)
  {
    forall i :: 0 <= i < |ps| ==>
      exists id :: id in st.reservations
                   && Selected(st, shuttleId, departureTime, destination, st.reservations[id])
                   && Project(st, Row(id, st.reservations[id])) == Some(ps[i])
  }

  /** Each requested reservation is projected among the passengers. */
  predicate AllRequested(st: Snapshot, shuttleId: Option<ObjectId>, departureTime: string, destination: string,
                         ps: seq<Passenger>)
  {
    forall id :: id in st.reservations && Selected(st, shuttleId, departureTime, destination, st.reservations[id])
                 ==> exists i :: 0 <= i < |ps| && Project(st, Row(id, st.reservations[id])) == Some(ps[i])
  }


  lemma ListingSorted(st: Snapshot, q: Query)
    requires WellFormed(st) && Listing(st, q).Listed?
    ensures SeatOrdered(Listing(st, q).passengers)
  {
    var ps := Listing(st, q).passengers;
    var rows := BySeat(st, q);
    forall i, j | 0 <= i < j < |ps| ensures ps[i].seatNumber <= ps[j].seatNumber {
      assert ps[i].seatNumber == rows[i].reservation.seatNumber;
      assert ps[j].seatNumber == rows[j].reservation.seatNumber;
    }
  }

  lemma ListingSound(st: Snapshot, q: Query, shuttleId: Option<ObjectId>, departureTime: string, destination: string)
    requires WellFormed(st)
    requires forall r :: Matches(q, r) <==> Selected(st, shuttleId, departureTime, destination, r)
    requires Listing(st, q).Listed?
    ensures OnlyRequested(st, shuttleId, departureTime, destination, Listing(st, q).passengers)
  {
    var ps := Listing(st, q).passengers;
    var rows := BySeat(st, q);
    forall i | 0 <= i < |ps|
      ensures exists id :: id in st.reservations
                           && Selected(st, shuttleId, departureTime, destination, st.reservations[id])
                           && Project(st, Row(id, st.reservations[id])) == Some(ps[i])
    {
      var id := rows[i].id;
      assert rows[i] == Row(id, st.reservations[id]);
      assert Project(st, rows[i]) == Some(ps[i]);
    }
  }

  lemma ListingComplete(st: Snapshot, q: Query, shuttleId: Option<ObjectId>, departureTime: string, destination: string)
    requires WellFormed(st)
    requires forall r :: Matches(q, r) <==> Selected(st, shuttleId, departureTime, destination, r)
    requires Listing(st, q).Listed?
    ensures AllRequested(st, shuttleId, departureTime, destination, Listing(st, q).passengers)
  {
    var ps := Listing(st, q).passengers;
    var rows := BySeat(st, q);
    forall id | id in st.reservations && Selected(st, shuttleId, departureTime, destination, st.reservations[id])
      ensures exists i :: 0 <= i < |ps| && Project(st, Row(id, st.reservations[id])) == Some(ps[i])
    {
      assert Matches(q, st.reservations[id]);
      var i :| 0 <= i < |rows| && rows[i].id == id;
      assert rows[i] == Row(id, st.reservations[id]);
      assert Project(st, rows[i]) == Some(ps[i]);
    }
  }

  /** The ids of the reservations the driver asked for. */
  function SelectedIds(st: Snapshot, shuttleId: Option<ObjectId>, departureTime: string, destination: string)
    : set<ObjectId>
  {
    set id | id in st.reservations && Selected(st, shuttleId, departureTime, destination, st.reservations[id])
  }

  /** The passengers are, one for one, the projections of distinct ids among
      ids: passenger i is the record of reservation rows[i]. */
  predicate EnumeratedBy(st: Snapshot, ids: set<ObjectId>, rows: seq<ObjectId>, ps: seq<Passenger>)
  {
    && |rows| == |ps|
    && Distinct(rows)
    && forall i :: 0 <= i < |rows| ==>
         rows[i] in ids && rows[i] in st.reservations
         && Project(st, Row(rows[i], st.reservations[rows[i]])) == Some(ps[i])
  }

  /** Some duplicate-free enumeration of ids projects to the passengers. */
  ghost predicate Enumerates(st: Snapshot, ids: set<ObjectId>, ps: seq<Passenger>)
  {
    exists rows :: EnumeratedBy(st, ids, rows, ps)
  }

  /** The ids of rows, in order. */
  function RowIds(rows: seq<Row>): seq<ObjectId>
  {
    seq(|rows|, i requires 0 <= i < |rows| => rows[i].id)
  }

  /** No reservation id occurs twice among the sorted matches. */
  lemma BySeatIdsDistinct(st: Snapshot, q: Query)
    requires WellFormed(st)
    ensures Distinct(RowIds(BySeat(st, q)))
  {
    var found := Found(st, q);
    var sorted := BySeat(st, q);
    assert Distinct(found) by {
      forall i, j | 0 <= i < j < |found| ensures found[i] != found[j] {
        assert found[i].id < found[j].id;
      }
    }
    DistinctPermutation(found, sorted);
    var ids := RowIds(sorted);
    forall i, j | 0 <= i < j < |ids| ensures ids[i] != ids[j] {
      assert sorted[i] != sorted[j];
    }
  }

  /** Stored rows with distinct ids among ids, projecting one for one to the
      passengers, enumerate them. */
  lemma RowsEnumerate(st: Snapshot, ids: set<ObjectId>, rows: seq<Row>, ps: seq<Passenger>)
    requires |rows| == |ps| && Distinct(RowIds(rows))
    requires forall i :: 0 <= i < |rows| ==> rows[i].id in ids && rows[i].id in st.reservations
                                             && rows[i].reservation == st.reservations[rows[i].id]
                                             && Project(st, rows[i]) == Some(ps[i])
    ensures Enumerates(st, ids, ps)
  {
    assert EnumeratedBy(st, ids, RowIds(rows), ps);
  }

  /** A successful listing holds one record per requested reservation: the
      ids of the sorted rows enumerate the request without repeats. */
  lemma ListingEnumerates(st: Snapshot, q: Query, shuttleId: Option<ObjectId>, departureTime: string, destination: string)
    requires WellFormed(st)
    requires forall r :: Matches(q, r) <==> Selected(st, shuttleId, departureTime, destination, r)
    requires Listing(st, q).Listed?
    ensures Enumerates(st, SelectedIds(st, shuttleId, departureTime, destination), Listing(st, q).passengers)
  {
    var ps := Listing(st, q).passengers;
    var sorted := BySeat(st, q);
    var ids := SelectedIds(st, shuttleId, departureTime, destination);
    BySeatIdsDistinct(st, q);
    forall i | 0 <= i < |sorted| ensures sorted[i].id in ids {
      assert Selected(st, shuttleId, departureTime, destination, st.reservations[sorted[i].id]);
    }
    RowsEnumerate(st, ids, sorted, ps);
  }

  /** A reservation whose user and shuttle both still exist populates fully. */
  predicate Populates(st: Snapshot, r: Reservation)
  {
    r.user in st.users && r.shuttle in st.shuttles
  }

  /** Every reservation among ids populates fully. */
  predicate AllPopulate(st: Snapshot, ids: set<ObjectId>)
  {
    forall id :: id in ids && id in st.reservations ==> Populates(st, st.reservations[id])
  }

  /** The ids of the reservations the query matches. */
  function MatchedIds(st: Snapshot, q: Query): set<ObjectId>
  {
    set id | id in st.reservations && Matches(q, st.reservations[id])
  }

  /** The query's matches have as many rows as matching ids. */
  lemma FoundCount(st: Snapshot, q: Query)
    requires WellFormed(st)
    ensures |Found(st, q)| == |MatchedIds(st, q)|
  {
    var ids := IdsWhere(st.reservations, st.nextId, MatchesQuery(q));
    assert (set id | id in ids) == MatchedIds(st, q);
    AscendingCard(ids);
  }

  /** A listing has one row per match. */
  lemma ListingLength(st: Snapshot, q: Query)
    requires WellFormed(st)
    ensures Listing(st, q).Listed? ==> |Listing(st, q).passengers| == |MatchedIds(st, q)|
  {
    var rows := BySeat(st, q);
    assert |multiset(rows)| == |multiset(Found(st, q))|;
    FoundCount(st, q);
  }

  /** Sound and complete rows all project exactly when every match still has
      its user and its shuttle. */
  lemma RowsProject(st: Snapshot, q: Query, rows: seq<Row>)
    requires forall i :: 0 <= i < |rows| ==> rows[i].id in st.reservations
                                             && rows[i].reservation == st.reservations[rows[i].id]
                                             && Matches(q, rows[i].reservation)
    requires forall id :: id in st.reservations && Matches(q, st.reservations[id])
                          ==> exists i :: 0 <= i < |rows| && rows[i].id == id
    ensures (forall i :: 0 <= i < |rows| ==> Populates(st, rows[i].reservation))
            <==> AllPopulate(st, MatchedIds(st, q))
  {
    if AllPopulate(st, MatchedIds(st, q)) {
      forall i | 0 <= i < |rows| ensures Populates(st, rows[i].reservation) {
        assert rows[i].id in MatchedIds(st, q);
      }
    } else {
      var id :| id in MatchedIds(st, q) && !Populates(st, st.reservations[id]);
      var i :| 0 <= i < |rows| && rows[i].id == id;
    }
  }

  /** The listing succeeds exactly when every match still has its user and
      its shuttle. */
  lemma ListingSucceeds(st: Snapshot, q: Query)
    requires WellFormed(st)
    ensures Listing(st, q).Listed? <==> AllPopulate(st, MatchedIds(st, q))
  {
    var rows := BySeat(st, q);
    RowsProject(st, q, rows);
    assert (forall i :: 0 <= i < |rows| ==> Project(st, rows[i]).Some?)
           <==> (forall i :: 0 <= i < |rows| ==> Populates(st, rows[i].reservation));
  }

  /** The listing succeeds exactly when every requested reservation still has
      its user and shuttle, and then has one row per requested reservation. */
  lemma ListingOutcome(st: Snapshot, q: Query, shuttleId: Option<ObjectId>, departureTime: string, destination: string)
    requires WellFormed(st)
    requires forall r :: Matches(q, r) <==> Selected(st, shuttleId, departureTime, destination, r)
    ensures var ids := SelectedIds(st, shuttleId, departureTime, destination);
            && (Listing(st, q).Listed? <==> AllPopulate(st, ids))
            && (Listing(st, q).Listed? ==> |Listing(st, q).passengers| == |ids|)
  {
    assert MatchedIds(st, q) == SelectedIds(st, shuttleId, departureTime, destination);
    ListingLength(st, q);
    ListingSucceeds(st, q);
  }

  /** The handler: build the query, then list. It changes nothing. */
  method GetShuttleReservations(db: Database, shuttleId: Option<ObjectId>, departureTime: string, destination: string)
    returns (r: DriverReply)
    requires db.Valid()
    ensures AnswersRequest(db.State(), shuttleId, departureTime, destination, r)
  {
    var st := db.State();
    var q := BuildQuery(st, shuttleId, departureTime, destination);
    MatchesIffSelected(st, q, shuttleId, departureTime, destination);
    r := Listing(st, q);
    ListingAnswers(st, q, shuttleId, departureTime, destination);
  }

  /** What the driver is promised: 500 when a requested reservation has lost
      its user or its shuttle, and otherwise the passengers sorted by seat,
      exactly one record for each requested reservation. */
  ghost predicate AnswersRequest(st: Snapshot, shuttleId: Option<ObjectId>, departureTime: string, destination: string,
                           r: DriverReply)
  {
    var ids := SelectedIds(st, shuttleId, departureTime, destination);
    && (r.Listed? || r == ListFailed(500, ServerError))
    && (r.Listed? <==> AllPopulate(st, ids))
    && (r.Listed? ==> ListsSelection(st, shuttleId, departureTime, destination, r.passengers) && |r.passengers| == |ids|)
    && (r.Listed? ==> Enumerates(st, ids, r.passengers))
  }

  lemma ListingAnswers(st: Snapshot, q: Query, shuttleId: Option<ObjectId>, departureTime: string, destination: string)
    requires WellFormed(st)
    requires forall r :: Matches(q, r) <==> Selected(st, shuttleId, departureTime, destination, r)
    ensures AnswersRequest(st, shuttleId, departureTime, destination, Listing(st, q))
  {
    ListingOutcome(st, q, shuttleId, departureTime, destination);
    if Listing(st, q).Listed? {
      ListingSelects(st, q, shuttleId, departureTime, destination);
      ListingEnumerates(st, q, shuttleId, departureTime, destination);
    }
  }

  /** A successful listing is the requested passengers: sorted, sound and
      complete. */
  lemma ListingSelects(st: Snapshot, q: Query, shuttleId: Option<ObjectId>, departureTime: string, destination: string)
    requires WellFormed(st)
    requires forall r :: Matches(q, r) <==> Selected(st, shuttleId, departureTime, destination, r)
    requires Listing(st, q).Listed?
    ensures ListsSelection(st, shuttleId, departureTime, destination, Listing(st, q).passengers)
  {
    ListingSorted(st, q);
    ListingSound(st, q, shuttleId, departureTime, destination);
    ListingComplete(st, q, shuttleId, departureTime, destination);
  }

  /** The query the handler builds selects exactly what the driver asked for. */
  lemma MatchesIffSelected(st: Snapshot, q: Query, shuttleId: Option<ObjectId>, departureTime: string, destination: string)
    requires WellFormed(st)
    requires q.status == Active
    requires shuttleId.Some? ==> q.shuttle == OneShuttle(shuttleId.value)
    requires shuttleId.None? && departureTime == "" ==> q.shuttle == AnyShuttle
    requires shuttleId.None? && departureTime != "" ==>
               && q.shuttle.AmongShuttles?
               && forall id :: id in q.shuttle.ids <==> id in st.shuttles && st.shuttles[id].departureTime == departureTime
    requires q.destination == if destination == "" then None else Some(destination)
    ensures forall r :: Matches(q, r) <==> Selected(st, shuttleId, departureTime, destination, r)
  {
  }

  /** shuttleId wins over departureTime: with a shuttle id, the departure
      time given makes no difference. */
  lemma ShuttleIdTakesPrecedence(st: Snapshot, id: ObjectId, t1: string, t2: string, destination: string, r: Reservation)
    ensures Selected(st, Some(id), t1, destination, r) <==> Selected(st, Some(id), t2, destination, r)
  {
  }
}
