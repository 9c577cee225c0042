/** The passenger's schedule screen: the trip cards built from the fetched
    shuttles, the search box, the 20-seat map and its 5 x 4 layout, seat
    selection, the client-side time-conflict check and the seats-left
    preview. Missing string fields are "". */
module ScheduleScreen {
  import opened Common

  // ---------------------------------------------------------------------
  // Trip cards

  /** One fetched trip as the screen reads it. */
  datatype FetchedTrip = FetchedTrip(
    id: string, shuttleName: string, direction: string, departureTime: string,
    destination: string, seatsAvailable: Option<int>, takenSeats: Option<seq<int>>)

  datatype TripCard = TripCard(
    id: string, title: string, time: string, route: string, seats: string,
    seatsAvailable: int, takenSeats: seq<int>, shuttleName: string)

  predicate EndsWith(s: string, suffix: string)
  {
    |suffix| <= |s| && s[|s| - |suffix|..] == suffix
  }

  /** "<name> - Trip <idx+1>", with " (Reverse)" for a reverse trip. */
  function TripTitle(shuttleName: string, idx: nat, direction: string): (title: string)
    ensures EndsWith(title, " (Reverse)") <==> direction == "reverse"
    ensures direction != "reverse" ==> title == shuttleName + " - Trip " + NatToString(idx + 1)
    ensures direction == "reverse" ==> title == shuttleName + " - Trip " + NatToString(idx + 1) + " (Reverse)"
  {
    var base := shuttleName + " - Trip " + NatToString(idx + 1);
    var title := base + (if direction == "reverse" then " (Reverse)" else "");
    var digits := NatToString(idx + 1);
    assert direction != "reverse" ==> title[|title| - 1] == digits[|digits| - 1];
    assert " (Reverse)"[9] == ')';
    title
  }

  function SeatsLabel(n: int): string
  {
    IntToString(n) + " seats left"
  }

  function Card(t: FetchedTrip, idx: nat): (c: TripCard)
    ensures c.shuttleName == (if t.shuttleName == "" then "Shuttle" else t.shuttleName)
    ensures c.title == TripTitle(c.shuttleName, idx, t.direction)
    ensures t.departureTime == "" ==> c.time == "TBD"
    ensures t.departureTime != "" ==> c.time == t.departureTime
    ensures c.route == (if t.destination == "" then "Route not set" else t.destination)
    ensures c.seatsAvailable == (if t.seatsAvailable.None? then 0 else t.seatsAvailable.value)
    ensures c.takenSeats == (if t.takenSeats.None? then [] else t.takenSeats.value)
    ensures c.id == (if t.id == "" then NatToString(idx) else t.id)
    ensures c.seats == SeatsLabel(c.seatsAvailable)
  {
    var name := OrText(t.shuttleName, "Shuttle");
    var seats := OrDefault(t.seatsAvailable, 0);
    TripCard(OrText(t.id, NatToString(idx)), TripTitle(name, idx, t.direction), OrText(t.departureTime, "TBD"),
             OrText(t.destination, "Route not set"), SeatsLabel(seats), seats,
             OrDefault(t.takenSeats, []), name)
  }


  /** `trips`: one card per fetched trip, in order. */
  function Trips(fetched: seq<FetchedTrip>): (r: seq<TripCard>)
    ensures |r| == |fetched|
    ensures forall i :: 0 <= i < |r| ==> r[i] == Card(fetched[i], i)
  {
    seq(|fetched|, i requires 0 <= i < |fetched| => Card(fetched[i], i))
  }

  /** Two cards always differ in title when their positions differ, so the
      list never shows two identical titles for one shuttle name and
      direction. */
  lemma TitlesNumberTrips(name: string, i: nat, j: nat, direction: string)
    requires i != j
    ensures TripTitle(name, i, direction) != TripTitle(name, j, direction)
  {
    var a := name + " - Trip " + NatToString(i + 1);
    var b := name + " - Trip " + NatToString(j + 1);
    var dir := if direction == "reverse" then " (Reverse)" else "";
    if a + dir == b + dir {
      assert a == (a + dir)[..|a + dir| - |dir|];
      assert b == (b + dir)[..|b + dir| - |dir|];
      var prefix := name + " - Trip ";
      assert NatToString(i + 1) == a[|prefix|..];
      assert NatToString(j + 1) == b[|prefix|..];
      NatToStringInjective(i + 1, j + 1);
    }
  }

  // ---------------------------------------------------------------------
  // Search

  /** A card matches when its time, title, shuttle name or route contains
      the query, ignoring case; every card matches the empty query. */
  function TripMatches(t: TripCard, q: string): (b: bool)
    ensures q == "" ==> b
    ensures ContainsFolded(t.time, q) || ContainsFolded(t.title, q) ==> b
    ensures ContainsFolded(t.shuttleName, q) || ContainsFolded(t.route, q) ==> b
  {
    EveryStringContainsEmpty(Lower(t.time));
    ContainsFolded(t.time, q) || ContainsFolded(t.title, q) || ContainsFolded(t.shuttleName, q)
    || ContainsFolded(t.route, q)
  }

  /** The search as a condition on one card. */
  function MatchesQuery(q: string): TripCard -> bool
  {
    (t: TripCard) => TripMatches(t, q)
  }

  /** `filteredTrips`. */
  function FilteredTrips(trips: seq<TripCard>, query: string): (r: seq<TripCard>)
    ensures IsBlank(query) ==> r == trips
    ensures !IsBlank(query) ==>
              && (forall i :: 0 <= i < |r| ==> r[i] in trips && TripMatches(r[i], Trim(Lower(query))))
              && (forall i :: 0 <= i < |trips| && TripMatches(trips[i], Trim(Lower(query))) ==> trips[i] in r)
  {
    if IsBlank(query) then trips
    else Filter(MatchesQuery(Trim(Lower(query))), trips)
  }

  /** The search keeps the order of the list: filtering a concatenation
      filters each part. */
  lemma FilteredTripsAppend(a: seq<TripCard>, b: seq<TripCard>, query: string)
    ensures FilteredTrips(a + b, query) == FilteredTrips(a, query) + FilteredTrips(b, query)
  {
    if !IsBlank(query) {
      FilterAppend(MatchesQuery(Trim(Lower(query))), a, b);
    }
  }

  /** A single card is kept, once, exactly when the query is blank or the card
      matches it. */
  lemma FilteredTripsSingle(t: TripCard, query: string)
    ensures FilteredTrips([t], query) == if IsBlank(query) || TripMatches(t, Trim(Lower(query))) then [t] else []
  {
    if !IsBlank(query) {
      FilterSingle(MatchesQuery(Trim(Lower(query))), t);
    }
  }

  // ---------------------------------------------------------------------
  // Seats

  const TotalSeats := 20

  datatype Seat = Seat(number: int, available: bool)

  /** `seatMap`: nothing without a selected trip, else seats 1..20, each
      available iff its number is not taken. */
  function SeatMap(selected: Option<TripCard>): (r: seq<Seat>)
    ensures selected.None? ==> r == []
    ensures selected.Some? ==> |r| == TotalSeats
    ensures selected.Some? ==> forall i :: 0 <= i < |r| ==>
              r[i].number == i + 1 && (r[i].available <==> i + 1 !in selected.value.takenSeats)
  {
    if selected.None? then []
    else
      var taken := selected.value.takenSeats;
      seq(TotalSeats, i requires 0 <= i < TotalSeats => Seat(i + 1, i + 1 !in taken))
  }

  /** Array.prototype.slice(from, to) for 0 <= from <= to: both ends are
      clamped to the length. */
  function Slice<T>(s: seq<T>, from: nat, to: nat): (r: seq<T>)
    requires from <= to
    ensures |s| >= to ==> r == s[from..to]
    ensures |s| <= from ==> r == []
  {
    var a := if from < |s| then from else |s|;
    var b := if to < |s| then to else |s|;
    s[a..b]
  }

  function Min(a: int, b: int): int
  {
    if a < b then a else b
  }

  /** `seatRows`: five rows of four, whose concatenation is the first 20
      seats of the map (all of it for a selected trip). */
  method SeatRows(seatMap: seq<Seat>) returns (rows: seq<seq<Seat>>)
    ensures |rows| == 5
    ensures forall i :: 0 <= i < 5 ==> rows[i] == Slice(seatMap, i * 4, i * 4 + 4)
    ensures Flatten(rows) == seatMap[..Min(20, |seatMap|)]
  {
    rows := [];
    var i := 0;
    while i < 5
      invariant 0 <= i <= 5
      invariant |rows| == i
      invariant forall k :: 0 <= k < i ==> rows[k] == Slice(seatMap, k * 4, k * 4 + 4)
      invariant Flatten(rows) == seatMap[..Min(i * 4, |seatMap|)]
    {
      var row := Slice(seatMap, i * 4, i * 4 + 4);
      assert seatMap[..Min(i * 4, |seatMap|)] + row == seatMap[..Min(i * 4 + 4, |seatMap|)];
      assert (rows + [row])[..|rows|] == rows;
      rows := rows + [row];
      i := i + 1;
    }
  }

  /** For a selected trip every row has exactly four seats. */
  lemma SeatRowsOfSelected(selected: TripCard, rows: seq<seq<Seat>>)
    requires |rows| == 5
    requires forall i :: 0 <= i < 5 ==> rows[i] == Slice(SeatMap(Some(selected)), i * 4, i * 4 + 4)
    ensures forall i :: 0 <= i < 5 ==> |rows[i]| == 4
    ensures forall i, k :: 0 <= i < 5 && 0 <= k < 4 ==> rows[i][k].number == i * 4 + k + 1
  {
  }

  /** Pressing a seat selects it only if it is available. */
  function PressSeat(selectedSeat: Option<int>, seat: Seat): (r: Option<int>)
    ensures seat.available ==> r == Some(seat.number)
    ensures !seat.available ==> r == selectedSeat
  {
    if seat.available then Some(seat.number) else selectedSeat
  }

  /** `seatsAfterBooking`: what the counter will show after this booking. */
  function SeatsAfterBooking(selected: Option<TripCard>): (r: Option<int>)
    ensures selected.None? <==> r.None?
    ensures selected.Some? ==> r.value >= 0
    ensures selected.Some? && selected.value.seatsAvailable >= 1 ==> r.value == selected.value.seatsAvailable - 1
    ensures selected.Some? && selected.value.seatsAvailable < 1 ==> r.value == 0
  {
    if selected.None? then None
    else
      var remaining := selected.value.seatsAvailable - 1;
      Some(if remaining >= 0 then remaining else 0)
  }

  // ---------------------------------------------------------------------
  // The reserve button

  /** A reservation as fetchMyReservations returns it: `trip` is read for the
      conflict check; `shuttleName` is "" when the shuttle is missing. */
  datatype ClientTrip = ClientTrip(departureTime: string)

  datatype ClientReservation = ClientReservation(status: string, trip: Option<ClientTrip>, shuttleName: string)

  /** The reservation lookup: no token (skipped), a failure (caught and
      logged), or the fetched list. */
  datatype Lookup = NoToken | LookupFailed | Fetched(reservations: seq<ClientReservation>)

  datatype ReserveOutcome =
    | Ignored
    | AskForSeat(message: string)
    | Conflict(message: string)
    | Confirm

  predicate Conflicts(r: ClientReservation, time: string)
  {
    r.status == "active" && r.trip.Some? && r.trip.value.departureTime != "" && r.trip.value.departureTime == time
  }

  /** activeReservations.find(...): the first conflicting reservation. */
  function FirstConflict(rs: seq<ClientReservation>, time: string): (r: Option<nat>)
    ensures r.Some? ==> r.value < |rs| && Conflicts(rs[r.value], time)
                        && forall k :: 0 <= k < r.value ==> !Conflicts(rs[k], time)
    ensures r.None? <==> forall k :: 0 <= k < |rs| ==> !Conflicts(rs[k], time)
  {
    if rs == [] then None
    else if Conflicts(rs[0], time) then Some(0)
    else
      var rest := FirstConflict(rs[1..], time);
      if rest.None? then
        assert forall k :: 1 <= k < |rs| ==> rs[k] == rs[1..][k - 1];
        None
      else
        assert forall k :: 1 <= k <= rest.value ==> rs[k] == rs[1..][k - 1];
        Some(rest.value + 1)
  }

  /** The alert text names the time and the other booking's shuttle, or
      "another trip" when the name is missing. */
  function ConflictMessage(time: string, shuttleName: string): (m: string)
    ensures var named := if shuttleName == "" then "another trip" else shuttleName;
            var head := "You already have a reservation at " + time + " for ";
            && |m| > |head| + |named|
            && m[..|head|] == head && m[|head|..|head| + |named|] == named
  {
    "You already have a reservation at " + time + " for " + OrText(shuttleName, "another trip")
    + ". Please cancel it first or choose a different time."
  }

  /** `handleReservePress`. */
  function ReservePress(selectedTrip: Option<TripCard>, selectedSeat: Option<int>, lookup: Lookup): (r: ReserveOutcome)
    ensures selectedTrip.None? <==> r == Ignored
    ensures selectedTrip.Some? && selectedSeat.None? ==> r == AskForSeat("Please select a seat.")
    ensures r.Conflict? <==>
              && selectedTrip.Some? && selectedSeat.Some? && lookup.Fetched?
              && exists k :: 0 <= k < |lookup.reservations| && Conflicts(lookup.reservations[k], selectedTrip.value.time)
    ensures selectedTrip.Some? && selectedSeat.Some? && !lookup.Fetched? ==> r == Confirm
    ensures selectedTrip.Some? && selectedSeat.Some? && !r.Conflict? ==> r == Confirm
    ensures r.Conflict? ==>
              var k := FirstConflict(lookup.reservations, selectedTrip.value.time);
              k.Some? && r.message == ConflictMessage(selectedTrip.value.time, lookup.reservations[k.value].shuttleName)
  {
    if selectedTrip.None? then Ignored
    else if selectedSeat.None? then AskForSeat("Please select a seat.")
    else if !lookup.Fetched? then Confirm
    else
      var time := selectedTrip.value.time;
      var rs := lookup.reservations;
      match FirstConflict(rs, time)
      case None => Confirm
      case Some(k) => Conflict(ConflictMessage(time, rs[k].shuttleName))
  }

  /** A reservation list without trip objects never blocks a booking. */
  lemma NoTripNeverConflicts(selectedTrip: TripCard, seat: int, rs: seq<ClientReservation>)
    requires forall k :: 0 <= k < |rs| ==> rs[k].trip.None?
    ensures ReservePress(Some(selectedTrip), Some(seat), Fetched(rs)) == Confirm
  {
  }

  /** Cancelled reservations never block a booking. */
  lemma CancelledNeverConflict(selectedTrip: TripCard, seat: int, rs: seq<ClientReservation>)
    requires forall k :: 0 <= k < |rs| ==> rs[k].status != "active"
    ensures ReservePress(Some(selectedTrip), Some(seat), Fetched(rs)) == Confirm
  {
  }
}
