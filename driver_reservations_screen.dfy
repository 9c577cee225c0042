/** DriverReservationsScreen: the driver's trip board. The reservations the
    driver endpoint returns are filtered by destination, grouped into trips by
    shuttle name and departure time, followed by three fixed sample trips, and
    each trip is shown as a seat grid with a per-passenger presence mark. */
module DriverReservationsScreen {
  import opened Common

  /** One row of the driver endpoint. A missing string is "". */
  datatype DriverReservation = DriverReservation(
    name: string, email: string, destination: string,
    seatNumber: int, departureTime: string, shuttleName: string)

  datatype TripStatus = Ongoing | Upcoming | Completed

  datatype DriverTrip = DriverTrip(
    key: string, status: TripStatus, time: string, route: string,
    passengers: seq<DriverReservation>, capacity: int,
    remainingStops: Option<int>, eta: Option<string>, dateLabel: Option<string>)

  const CampusRoute := "SLU Main Campus \U{2192} Bakakeng"
  const ReturnRoute := "Bakakeng \U{2192} SLU Main Campus"

  const Anne := DriverReservation("Anne Villamor", "anne@example.com", "Bakakeng", 10, "7:30 AM", CampusRoute)
  const John := DriverReservation("John Cruz", "john@example.com", "Bakakeng", 11, "7:30 AM", CampusRoute)

  const OngoingSample := DriverTrip("ongoing-0730", Ongoing, "7:30 AM", CampusRoute, [Anne, John],
                                    20, Some(3), Some("12 mins to arrival"), Some("Today"))
  const UpcomingSample := DriverTrip("upcoming-1015", Upcoming, "10:15 AM", ReturnRoute, [], 20,
                                     None, Some("2 hrs 45 mins"), Some("Today"))
  const CompletedSample := DriverTrip("completed-0545", Completed, "5:45 AM", CampusRoute, [], 20,
                                      None, None, Some("Today"))

  /** MOCK_TRIPS. */
  const MockTrips: seq<DriverTrip> := [OngoingSample, UpcomingSample, CompletedSample]

  // ---------------------------------------------------------------------
  // Destination filter

  /** `destinationFilter.trim().toLowerCase()`. */
  function Needle(filter: string): string
  {
    Lower(Trim(filter))
  }

  /** The reservation's destination contains the filter, ignoring case. */
  predicate Matches(res: DriverReservation, filter: string)
  {
    ContainsFolded(res.destination, Needle(filter))
  }

  predicate Kept(res: DriverReservation, filter: string)
  {
    IsBlank(filter) || Matches(res, filter)
  }

  function KeptUnder(filter: string): DriverReservation -> bool
  {
    (res: DriverReservation) => Kept(res, filter)
  }

  /** Under a blank filter every reservation is kept. */
  lemma BlankKeepsAll(reservations: seq<DriverReservation>, filter: string)
    requires IsBlank(filter)
    ensures Filter(KeptUnder(filter), reservations) == reservations
  {
    FilterAll(KeptUnder(filter), reservations);
  }

  /** `filteredReservations`: a blank filter keeps everything, otherwise the
      reservations whose destination contains the filter, ignoring case. */
  function FilterReservations(reservations: seq<DriverReservation>, filter: string)
    : (r: seq<DriverReservation>)
    ensures IsBlank(filter) ==> r == reservations
    ensures forall i :: 0 <= i < |r| ==> r[i] in reservations && Kept(r[i], filter)
    ensures forall i :: 0 <= i < |reservations| && Kept(reservations[i], filter) ==> reservations[i] in r
  {
    if IsBlank(filter) then BlankKeepsAll(reservations, filter); Filter(KeptUnder(filter), reservations)
    else Filter(KeptUnder(filter), reservations)
  }

  // ---------------------------------------------------------------------
  // Grouping into trips

  /** The group key `${shuttleName || "Trip"}-${departureTime || "time"}`. */
  function TripKey(res: DriverReservation): string
  {
    OrText(res.shuttleName, "Trip") + "-" + OrText(res.departureTime, "time")
  }

  /** The grouping key reads as the shuttle name (or "Trip"), a dash, then
      the departure time (or "time"). */
  lemma TripKeyParts(res: DriverReservation)
    ensures var k := TripKey(res);
            var name := OrText(res.shuttleName, "Trip");
            && |k| > |name| && k[..|name|] == name && k[|name|] == '-'
            && k[|name| + 1..] == OrText(res.departureTime, "time")
  {
  }

  /** The trip extended for the first reservation under a key. */
  function NewGroup(res: DriverReservation): (t: DriverTrip)
    ensures t.key == TripKey(res) && t.status == Ongoing && t.passengers == []
    ensures t.time == (if res.departureTime == "" then "TBD" else res.departureTime)
    ensures t.route == (if res.shuttleName == "" then "Route" else res.shuttleName)
    ensures t.capacity == 20 && t.remainingStops == Some(3)
    ensures t.eta == Some("Ready to depart") && t.dateLabel == Some("Today")
  {
    DriverTrip(TripKey(res), Ongoing, OrText(res.departureTime, "TBD"), OrText(res.shuttleName, "Route"),
               [], 20, Some(3), Some("Ready to depart"), Some("Today"))
  }

  /** Position of the trip stored under key. */
  function KeyIndex(trips: seq<DriverTrip>, key: string): (r: Option<nat>)
    ensures r.Some? ==> r.value < |trips| && trips[r.value].key == key
    ensures r.None? <==> forall i :: 0 <= i < |trips| ==> trips[i].key != key
  {
    if trips == [] then None
    else if trips[0].key == key then Some(0)
    else match KeyIndex(trips[1..], key)
      case None => None
      case Some(j) => Some(j + 1)
  }

  /** One forEach step on the values of `grouped`, in insertion order: res is
      pushed onto the trip under its key, which is extended first when absent.
      A key always has text before its '-', so it is never an array index and
      Object.values lists the trips in the order they were extended. */
  function Push(trips: seq<DriverTrip>, res: DriverReservation): (r: seq<DriverTrip>)
  {
    match KeyIndex(trips, TripKey(res))
    case None => trips + [NewGroup(res).(passengers := [res])]
    case Some(j) => trips[j := trips[j].(passengers := trips[j].passengers + [res])]
  }

  /** `Object.values(grouped)` after the forEach over kept. */
  function Group(kept: seq<DriverReservation>): seq<DriverTrip>
  {
    if kept == [] then [] else Push(Group(kept[..|kept| - 1]), kept[|kept| - 1])
  }

  /** Grouping never makes more trips than there are reservations, and makes
      at least one when there is a reservation. */
  lemma {:induction false} GroupLength(kept: seq<DriverReservation>)
    ensures |Group(kept)| <= |kept|
    ensures kept != [] ==> Group(kept) != []
  {
    if kept != [] {
      var front := kept[..|kept| - 1];
      GroupLength(front);
      var before := Group(front);
      var res := kept[|kept| - 1];
      match KeyIndex(before, TripKey(res))
      case None =>
        assert Group(kept) == before + [NewGroup(res).(passengers := [res])];
      case Some(j) =>
        assert |Group(kept)| == |before|;
    }
  }

  /** The reservations of kept filed under key, in input order. */
  function WithKey(kept: seq<DriverReservation>, key: string): (r: seq<DriverReservation>)
    ensures forall i :: 0 <= i < |r| ==> r[i] in kept && TripKey(r[i]) == key
    ensures forall i :: 0 <= i < |kept| && TripKey(kept[i]) == key ==> kept[i] in r
  {
    if kept == [] then []
    else
      var front, last := kept[..|kept| - 1], kept[|kept| - 1];
      assert kept == front + [last];
      WithKey(front, key) + if TripKey(last) == key then [last] else []
  }

  function SumSizes(trips: seq<DriverTrip>): nat
  {
    if trips == [] then 0 else SumSizes(trips[..|trips| - 1]) + |trips[|trips| - 1].passengers|
  }

  predicate KeysDistinct(trips: seq<DriverTrip>)
  {
    forall i, j :: 0 <= i < j < |trips| ==> trips[i].key != trips[j].key
  }

  /** Each trip is non-empty and carries the defaults of its first passenger. */
  predicate OpenedByFirst(trips: seq<DriverTrip>)
  {
    forall i :: 0 <= i < |trips| ==>
      trips[i].passengers != [] && trips[i] == NewGroup(trips[i].passengers[0]).(passengers := trips[i].passengers)
  }

  /** Each trip holds exactly the reservations under its key, in input order. */
  predicate FiledByKey(trips: seq<DriverTrip>, kept: seq<DriverReservation>)
  {
    forall i :: 0 <= i < |trips| ==> trips[i].passengers == WithKey(kept, trips[i].key)
  }

  /** Every reservation has a trip. */
  predicate AllFiled(trips: seq<DriverTrip>, kept: seq<DriverReservation>)
  {
    forall j :: 0 <= j < |kept| ==> KeyIndex(trips, TripKey(kept[j])).Some?
  }

  /** What the grouping promises: one trip per key, extended with the defaults
      of its first reservation, holding exactly the reservations under its key
      in input order; every reservation is filed, and the sizes add up. */
  predicate Grouping(trips: seq<DriverTrip>, kept: seq<DriverReservation>)
  {
    KeysDistinct(trips) && OpenedByFirst(trips) && FiledByKey(trips, kept) && AllFiled(trips, kept)
    && SumSizes(trips) == |kept|
  }

  /** The dictionary `grouped` and its insertion order stand for the trip
      list trips: key k of the order maps to trip k, whose key is k. */
  ghost predicate Represents(grouped: map<string, DriverTrip>, order: seq<string>, trips: seq<DriverTrip>)
  {
    && |order| == |trips|
    && (forall k :: 0 <= k < |order| ==> order[k] in grouped && grouped[order[k]] == trips[k] && trips[k].key == order[k])
    && (forall a, b :: 0 <= a < b < |order| ==> order[a] != order[b])
    && (forall key :: key in grouped ==> key in order)
  }

  /** Opening a trip under a new key. */
  lemma OpenTrip(grouped: map<string, DriverTrip>, order: seq<string>, trips: seq<DriverTrip>, res: DriverReservation)
    requires Represents(grouped, order, trips) && TripKey(res) !in grouped
    ensures Represents(grouped[TripKey(res) := NewGroup(res)], order + [TripKey(res)], trips + [NewGroup(res)])
  {
  }

  /** Pushing onto the trip under an existing key; k is its position. */
  lemma PushOnto(grouped: map<string, DriverTrip>, order: seq<string>, trips: seq<DriverTrip>, res: DriverReservation)
    returns (k: nat)
    requires Represents(grouped, order, trips) && TripKey(res) in grouped
    ensures k < |trips| && trips[k].key == TripKey(res)
    ensures var key := TripKey(res);
            Represents(grouped[key := grouped[key].(passengers := grouped[key].passengers + [res])], order,
                       trips[k := trips[k].(passengers := trips[k].passengers + [res])])
  {
    k :| 0 <= k < |order| && order[k] == TripKey(res);
  }

  /** One forEach step for a reservation whose key has no trip yet. */
  lemma StepNew(grouped: map<string, DriverTrip>, order: seq<string>, before: seq<DriverTrip>, res: DriverReservation)
    requires Represents(grouped, order, before) && TripKey(res) !in grouped
    ensures var key := TripKey(res);
            var g := grouped[key := NewGroup(res)];
            Represents(g[key := g[key].(passengers := g[key].passengers + [res])], order + [key], Push(before, res))
  {
    var key := TripKey(res);
    var g := grouped[key := NewGroup(res)];
    var extended := before + [NewGroup(res)];
    assert forall j :: 0 <= j < |before| ==> before[j].key != key;
    OpenTrip(grouped, order, before, res);
    var k := PushOnto(g, order + [key], extended, res);
    PushNew(before, res);
    assert k == |before|;
    assert NewGroup(res).passengers + [res] == [res];
    assert extended[k := extended[k].(passengers := extended[k].passengers + [res])]
           == before + [NewGroup(res).(passengers := [res])];
  }

  /** One forEach step for a reservation whose key has a trip. */
  lemma StepExisting(grouped: map<string, DriverTrip>, order: seq<string>, before: seq<DriverTrip>, res: DriverReservation)
    requires Represents(grouped, order, before) && TripKey(res) in grouped
    ensures var key := TripKey(res);
            Represents(grouped[key := grouped[key].(passengers := grouped[key].passengers + [res])], order, Push(before, res))
  {
    var k := PushOnto(grouped, order, before, res);
    PushExisting(before, res, k);
  }

  lemma GroupSnoc(kept: seq<DriverReservation>, i: nat)
    requires i < |kept|
    ensures Group(kept[..i + 1]) == Push(Group(kept[..i]), kept[i])
  {
    assert kept[..i + 1][..i] == kept[..i];
  }

  /** The `normalizedTrips` forEach, on a dictionary and its insertion order. */
  method GroupReservations(kept: seq<DriverReservation>) returns (trips: seq<DriverTrip>)
    ensures trips == Group(kept)
    ensures Grouping(trips, kept)
  {
    var grouped: map<string, DriverTrip> := map[];
    var order: seq<string> := [];
    var i := 0;
    while i < |kept|
      invariant 0 <= i <= |kept|
      invariant Represents(grouped, order, Group(kept[..i]))
    {
      var res := kept[i];
      var key := TripKey(res);
      GroupSnoc(kept, i);
      if key !in grouped {
        StepNew(grouped, order, Group(kept[..i]), res);
        grouped := grouped[key := NewGroup(res)];
        order := order + [key];
      } else {
        StepExisting(grouped, order, Group(kept[..i]), res);
      }
      grouped := grouped[key := grouped[key].(passengers := grouped[key].passengers + [res])];
      i := i + 1;
    }
    assert kept[..i] == kept;
    trips := seq(|order|, k requires 0 <= k < |order| && order[k] in grouped => grouped[order[k]]);
    ReadBack(grouped, order, Group(kept), trips);
    GroupingHolds(kept);
    GroupSizes(kept);
  }

  /** Reading the dictionary in insertion order gives back the trip list. */
  lemma ReadBack(grouped: map<string, DriverTrip>, order: seq<string>, trips: seq<DriverTrip>, values: seq<DriverTrip>)
    requires Represents(grouped, order, trips)
    requires |values| == |order| && forall k :: 0 <= k < |order| ==> values[k] == grouped[order[k]]
    ensures values == trips
  {
  }

  lemma PushNew(trips: seq<DriverTrip>, res: DriverReservation)
    requires forall k :: 0 <= k < |trips| ==> trips[k].key != TripKey(res)
    ensures Push(trips, res) == trips + [NewGroup(res).(passengers := [res])]
  {
  }

  lemma PushExisting(trips: seq<DriverTrip>, res: DriverReservation, k: nat)
    requires k < |trips| && trips[k].key == TripKey(res)
    requires forall a, b :: 0 <= a < b < |trips| ==> trips[a].key != trips[b].key
    ensures Push(trips, res) == trips[k := trips[k].(passengers := trips[k].passengers + [res])]
  {
  }

  /** Push keeps every trip at its place under its key and files res. */
  lemma PushKeys(trips: seq<DriverTrip>, res: DriverReservation)
    ensures |trips| <= |Push(trips, res)|
    ensures forall i :: 0 <= i < |trips| ==> Push(trips, res)[i].key == trips[i].key
    ensures KeyIndex(Push(trips, res), TripKey(res)).Some?
  {
    var r := Push(trips, res);
    match KeyIndex(trips, TripKey(res))
    case None => assert r[|trips|].key == TripKey(res);
    case Some(m) => assert r[m].key == TripKey(res);
  }

  lemma SumSizesAppend(trips: seq<DriverTrip>, t: DriverTrip)
    ensures SumSizes(trips + [t]) == SumSizes(trips) + |t.passengers|
  {
    assert (trips + [t])[..|trips|] == trips;
  }

  lemma {:induction false} SumSizesUpdate(trips: seq<DriverTrip>, j: nat, t: DriverTrip)
    requires j < |trips|
    ensures SumSizes(trips[j := t]) + |trips[j].passengers| == SumSizes(trips) + |t.passengers|
    decreases |trips|
  {
    var n := |trips| - 1;
    if j < n {
      assert trips[j := t][..n] == trips[..n][j := t];
      SumSizesUpdate(trips[..n], j, t);
    } else {
      assert trips[j := t][..n] == trips[..n];
    }
  }

  lemma WithKeySnoc(kept: seq<DriverReservation>, res: DriverReservation, key: string)
    ensures WithKey(kept + [res], key) == WithKey(kept, key) + if TripKey(res) == key then [res] else []
  {
    assert (kept + [res])[..|kept|] == kept;
  }

  lemma PushKeysDistinct(trips: seq<DriverTrip>, res: DriverReservation)
    requires KeysDistinct(trips)
    ensures KeysDistinct(Push(trips, res))
  {
  }

  lemma PushOpened(trips: seq<DriverTrip>, res: DriverReservation)
    requires OpenedByFirst(trips)
    ensures OpenedByFirst(Push(trips, res))
  {
  }

  /** A key no trip carries files none of the reservations so far. */
  lemma WithKeyAbsent(trips: seq<DriverTrip>, kept: seq<DriverReservation>, key: string)
    requires AllFiled(trips, kept) && KeyIndex(trips, key).None?
    ensures WithKey(kept, key) == []
  {
  }

  lemma PushFiled(trips: seq<DriverTrip>, kept: seq<DriverReservation>, res: DriverReservation)
    requires KeysDistinct(trips) && FiledByKey(trips, kept) && AllFiled(trips, kept)
    ensures FiledByKey(Push(trips, res), kept + [res])
  {
    var key := TripKey(res);
    var r := Push(trips, res);
    match KeyIndex(trips, key)
    case None =>
      WithKeyAbsent(trips, kept, key);
      WithKeySnoc(kept, res, key);
      forall i | 0 <= i < |trips| ensures r[i].passengers == WithKey(kept + [res], r[i].key) {
        WithKeySnoc(kept, res, trips[i].key);
      }
    case Some(m) =>
      forall i | 0 <= i < |trips| ensures r[i].passengers == WithKey(kept + [res], r[i].key) {
        WithKeySnoc(kept, res, trips[i].key);
      }
  }

  lemma PushAllFiled(trips: seq<DriverTrip>, kept: seq<DriverReservation>, res: DriverReservation)
    requires AllFiled(trips, kept)
    ensures AllFiled(Push(trips, res), kept + [res])
  {
    var r := Push(trips, res);
    var kept' := kept + [res];
    PushKeys(trips, res);
    forall j | 0 <= j < |kept'| ensures KeyIndex(r, TripKey(kept'[j])).Some? {
      if j < |kept| {
        var m := KeyIndex(trips, TripKey(kept[j])).value;
        assert r[m].key == TripKey(kept'[j]);
      }
    }
  }

  lemma PushSizes(trips: seq<DriverTrip>, res: DriverReservation)
    ensures SumSizes(Push(trips, res)) == SumSizes(trips) + 1
  {
    match KeyIndex(trips, TripKey(res))
    case None => SumSizesAppend(trips, NewGroup(res).(passengers := [res]));
    case Some(m) => SumSizesUpdate(trips, m, trips[m].(passengers := trips[m].passengers + [res]));
  }

  lemma {:induction false} GroupKeysDistinct(kept: seq<DriverReservation>)
    ensures KeysDistinct(Group(kept))
  {
    if kept != [] {
      GroupKeysDistinct(kept[..|kept| - 1]);
      PushKeysDistinct(Group(kept[..|kept| - 1]), kept[|kept| - 1]);
    }
  }

  lemma {:induction false} GroupOpened(kept: seq<DriverReservation>)
    ensures OpenedByFirst(Group(kept))
  {
    if kept != [] {
      GroupOpened(kept[..|kept| - 1]);
      PushOpened(Group(kept[..|kept| - 1]), kept[|kept| - 1]);
    }
  }

  lemma {:induction false} GroupFiled(kept: seq<DriverReservation>)
    ensures FiledByKey(Group(kept), kept) && AllFiled(Group(kept), kept)
  {
    if kept != [] {
      var front, last := kept[..|kept| - 1], kept[|kept| - 1];
      GroupFiled(front);
      GroupKeysDistinct(front);
      assert front + [last] == kept;
      PushFiled(Group(front), front, last);
      PushAllFiled(Group(front), front, last);
    }
  }

  lemma GroupingHolds(kept: seq<DriverReservation>)
    ensures KeysDistinct(Group(kept)) && OpenedByFirst(Group(kept))
    ensures FiledByKey(Group(kept), kept) && AllFiled(Group(kept), kept)
  {
    GroupKeysDistinct(kept);
    GroupOpened(kept);
    GroupFiled(kept);
  }

  lemma {:induction false} GroupSizes(kept: seq<DriverReservation>)
    ensures SumSizes(Group(kept)) == |kept|
  {
    if kept != [] {
      var front, last := kept[..|kept| - 1], kept[|kept| - 1];
      GroupSizes(front);
      PushSizes(Group(front), last);
    }
  }

  /** The key joins its two parts with a bare '-', so a shuttle "A-B" at "C"
      and a shuttle "A" at "B-C" are listed as one trip. */
  lemma KeysCanCollide()
    ensures var a := DriverReservation("Ann", "ann@example.com", "Bakakeng", 1, "C", "A-B");
            var b := DriverReservation("Ben", "ben@example.com", "Bakakeng", 2, "B-C", "A");
            a.shuttleName != b.shuttleName && Group([a, b]) == [NewGroup(a).(passengers := [a, b])]
  {
    var a := DriverReservation("Ann", "ann@example.com", "Bakakeng", 1, "C", "A-B");
    var b := DriverReservation("Ben", "ben@example.com", "Bakakeng", 2, "B-C", "A");
    assert TripKey(a) == "A-B-C" == TripKey(b);
    assert [a, b][..1] == [a];
    assert [a][..0] == [];
    var one := Push([], a);
    assert one == [NewGroup(a).(passengers := [a])];
    assert KeyIndex(one, TripKey(b)) == Some(0);
    assert Group([a, b]) == Push(one, b);
    assert [a] + [b] == [a, b];
    assert Push(one, b) == [one[0].(passengers := [a] + [b])];
  }

  // ---------------------------------------------------------------------
  // Sorting passengers and dropping unmatched trips

  function Destination(p: DriverReservation): string
  {
    p.destination
  }

  /** The map step: passengers sorted by destination. */
  function SortPassengers(t: DriverTrip): (r: DriverTrip)
    ensures r == t.(passengers := r.passengers)
    ensures SortedByText(r.passengers, Destination)
    ensures multiset(r.passengers) == multiset(t.passengers)
  {
    t.(passengers := SortByText(t.passengers, Destination))
  }

  function SortAll(trips: seq<DriverTrip>): (r: seq<DriverTrip>)
    ensures |r| == |trips|
    ensures forall i :: 0 <= i < |r| ==> r[i] == SortPassengers(trips[i])
  {
    seq(|trips|, i requires 0 <= i < |trips| => SortPassengers(trips[i]))
  }

  /** The final filter step: with a filter, a trip stays only when one of
      its passengers' destinations matches. */
  predicate Visible(t: DriverTrip, filter: string)
  {
    IsBlank(filter) || exists i :: 0 <= i < |t.passengers| && Matches(t.passengers[i], filter)
  }

  function VisibleUnder(filter: string): DriverTrip -> bool
  {
    (t: DriverTrip) => Visible(t, filter)
  }

  /** `normalizedTrips`. */
  function NormalizedTrips(reservations: seq<DriverReservation>, filter: string): (r: seq<DriverTrip>)
    ensures var merged := Group(FilterReservations(reservations, filter)) + MockTrips;
            && |r| <= |merged|
            && forall i :: 0 <= i < |r| ==> r[i] in SortAll(merged) && Visible(r[i], filter)
  {
    var merged := Group(FilterReservations(reservations, filter)) + MockTrips;
    Filter(VisibleUnder(filter), SortAll(merged))
  }

  /** The two passengers of the first sample trip are in destination order. */
  lemma SamplePassengersOrdered()
    ensures OngoingSample.passengers == [Anne, John]
    ensures TextLe(Destination(Anne), Destination(John))
  {
    TextLeTotal("Bakakeng", "Bakakeng");
  }

  /** A trip whose two passengers are in destination order is left as it is. */
  lemma SortPairTrip(t: DriverTrip, a: DriverReservation, b: DriverReservation)
    requires t.passengers == [a, b] && TextLe(Destination(a), Destination(b))
    ensures SortPassengers(t) == t
  {
    SortPairInOrder(a, b, Destination);
  }

  /** Trips that the passenger sort leaves alone are left alone together. */
  lemma SortAllKeeps(t0: DriverTrip, t1: DriverTrip, t2: DriverTrip)
    requires SortPassengers(t0) == t0 && SortPassengers(t1) == t1 && SortPassengers(t2) == t2
    ensures SortAll([t0, t1, t2]) == [t0, t1, t2]
  {
  }

  /** The sample trips are already in destination order. */
  lemma MocksSorted()
    ensures SortAll(MockTrips) == MockTrips
  {
    SamplePassengersOrdered();
    SortPairTrip(OngoingSample, Anne, John);
    assert UpcomingSample.passengers == [] && CompletedSample.passengers == [];
    SortAllKeeps(OngoingSample, UpcomingSample, CompletedSample);
  }

  lemma SortAllAppend(a: seq<DriverTrip>, b: seq<DriverTrip>)
    ensures SortAll(a + b) == SortAll(a) + SortAll(b)
  {
    var l, r := SortAll(a + b), SortAll(a) + SortAll(b);
    forall i | 0 <= i < |l| ensures l[i] == r[i] {
      if i < |a| {
        assert (a + b)[i] == a[i];
      } else {
        assert (a + b)[i] == b[i - |a|];
      }
    }
  }

  /** Without a filter: every reservation's trip, passengers sorted by
      destination, then the three sample trips unchanged. */
  lemma NormalizedUnfiltered(reservations: seq<DriverReservation>, filter: string)
    requires IsBlank(filter)
    ensures NormalizedTrips(reservations, filter) == SortAll(Group(reservations)) + MockTrips
  {
    var trips := Group(reservations);
    var sorted := SortAll(trips + MockTrips);
    assert FilterReservations(reservations, filter) == reservations;
    forall i | 0 <= i < |sorted| ensures VisibleUnder(filter)(sorted[i]) {
    }
    FilterAll(VisibleUnder(filter), sorted);
    SortAllAppend(trips, MockTrips);
    MocksSorted();
  }

  /** A trip holding a kept passenger is still shown once sorted. */
  lemma SortedTripVisible(t: DriverTrip, filter: string, p: DriverReservation)
    requires p in t.passengers && Kept(p, filter)
    ensures Visible(SortPassengers(t), filter)
  {
    var ps := SortPassengers(t).passengers;
    InMultiset(p, t.passengers, ps);
    var k :| 0 <= k < |ps| && ps[k] == p;
  }

  /** With a filter, every trip grouped from the kept reservations stays. */
  lemma GroupedTripsVisible(reservations: seq<DriverReservation>, filter: string)
    ensures var trips := SortAll(Group(FilterReservations(reservations, filter)));
            Filter(VisibleUnder(filter), trips) == trips
  {
    var kept := FilterReservations(reservations, filter);
    var trips := Group(kept);
    var sorted := SortAll(trips);
    GroupingHolds(kept);
    forall i | 0 <= i < |sorted| ensures VisibleUnder(filter)(sorted[i]) {
      var p := trips[i].passengers[0];
      assert p in WithKey(kept, trips[i].key);
      SortedTripVisible(trips[i], filter, p);
    }
    FilterAll(VisibleUnder(filter), sorted);
  }

  /** A trip without passengers is hidden by any filter. */
  lemma EmptyTripHidden(t: DriverTrip, filter: string)
    requires t.passengers == [] && !IsBlank(filter)
    ensures !Visible(t, filter)
  {
  }

  /** A trip whose passengers all go to d is shown exactly when d matches. */
  lemma SameDestinationVisible(t: DriverTrip, filter: string, d: string)
    requires |t.passengers| > 0 && !IsBlank(filter)
    requires forall i :: 0 <= i < |t.passengers| ==> t.passengers[i].destination == d
    ensures Visible(t, filter) <==> ContainsFolded(d, Needle(filter))
  {
    assert t.passengers[0].destination == d;
  }

  /** Filtering three values of which the last two fail keeps the first
      exactly when it passes. */
  lemma FilterFirstOfThree<T>(p: T -> bool, a: T, b: T, c: T)
    requires !p(b) && !p(c)
    ensures Filter(p, [a, b, c]) == if p(a) then [a] else []
  {
    assert [a, b, c] == [a] + [b] + [c];
    FilterAppend(p, [a] + [b], [c]);
    FilterAppend(p, [a], [b]);
    FilterSingle(p, a);
    FilterSingle(p, b);
    FilterSingle(p, c);
  }

  /** With a filter, only the first sample trip can stay, and only when
      "Bakakeng" matches; the passenger-less ones are always dropped. */
  /** Both passengers of the first sample trip go to Bakakeng. */
  lemma OngoingSampleDestinations()
    ensures forall i :: 0 <= i < |OngoingSample.passengers| ==> OngoingSample.passengers[i].destination == "Bakakeng"
  {
  }

  lemma OngoingSampleVisible(filter: string)
    requires !IsBlank(filter)
    ensures Visible(OngoingSample, filter) <==> ContainsFolded("Bakakeng", Needle(filter))
  {
    OngoingSampleDestinations();
    SameDestinationVisible(OngoingSample, filter, "Bakakeng");
  }

  lemma MocksFiltered(filter: string)
    requires !IsBlank(filter)
    ensures Filter(VisibleUnder(filter), MockTrips)
            == if ContainsFolded("Bakakeng", Needle(filter)) then [OngoingSample] else []
  {
    EmptyTripHidden(UpcomingSample, filter);
    EmptyTripHidden(CompletedSample, filter);
    OngoingSampleVisible(filter);
    FilterFirstOfThree(VisibleUnder(filter), OngoingSample, UpcomingSample, CompletedSample);
  }

  /** With a filter: every grouped trip survives, followed by the first sample
      trip exactly when "Bakakeng" matches. */
  lemma NormalizedFiltered(reservations: seq<DriverReservation>, filter: string)
    requires !IsBlank(filter)
    ensures var kept := FilterReservations(reservations, filter);
            NormalizedTrips(reservations, filter)
            == SortAll(Group(kept)) + if ContainsFolded("Bakakeng", Needle(filter)) then [OngoingSample] else []
  {
    var trips := Group(FilterReservations(reservations, filter));
    SortAllAppend(trips, MockTrips);
    MocksSorted();
    FilterAppend(VisibleUnder(filter), SortAll(trips), MockTrips);
    GroupedTripsVisible(reservations, filter);
    MocksFiltered(filter);
  }

  // ---------------------------------------------------------------------
  // nearestDropOff

  function FirstOngoing(trips: seq<DriverTrip>): (r: Option<nat>)
    ensures r.None? <==> forall i :: 0 <= i < |trips| ==> trips[i].status != Ongoing
    ensures r.Some? ==> r.value < |trips| && trips[r.value].status == Ongoing
                        && forall i :: 0 <= i < r.value ==> trips[i].status != Ongoing
  {
    if trips == [] then None
    else if trips[0].status == Ongoing then Some(0)
    else match FirstOngoing(trips[1..])
      case None => None
      case Some(j) => Some(j + 1)
  }

  function Itself(s: string): string
  {
    s
  }

  function Destinations(t: DriverTrip): (r: seq<string>)
    ensures |r| == |t.passengers|
    ensures forall k :: 0 <= k < |r| ==> r[k] == t.passengers[k].destination
  {
    seq(|t.passengers|, k requires 0 <= k < |t.passengers| => t.passengers[k].destination)
  }

  function NonEmpty(d: string): bool
  {
    d != ""
  }

  /** `passengers.map(p => p.destination).filter(Boolean)`. */
  function DropOffs(t: DriverTrip): (r: seq<string>)
    ensures forall i :: 0 <= i < |r| ==> r[i] != "" && r[i] in Destinations(t)
    ensures forall k :: 0 <= k < |t.passengers| && t.passengers[k].destination != "" ==> t.passengers[k].destination in r
  {
    Filter(NonEmpty, Destinations(t))
  }

  /** The first element of a sorted copy is the least element. */
  lemma SortedHeadIsLeast(ds: seq<string>)
    requires ds != []
    ensures SortByText(ds, Itself)[0] in ds
    ensures forall d :: d in ds ==> TextLe(SortByText(ds, Itself)[0], d)
  {
    var s := SortByText(ds, Itself);
    assert s[0] in multiset(ds);
    forall d | d in ds ensures TextLe(s[0], d) {
      assert d in multiset(s);
      var k :| 0 <= k < |s| && s[k] == d;
      if k == 0 {
        TextLeTotal(d, d);
      } else {
        assert TextLe(Itself(s[0]), Itself(s[k]));
      }
    }
  }

  /** `nearestDropOff`: the least non-empty destination of the first ongoing
      trip, or "" when there is no ongoing trip or it has none. */
  function NearestDropOff(trips: seq<DriverTrip>): (r: string)
    ensures FirstOngoing(trips).None? ==> r == ""
    ensures FirstOngoing(trips).Some? ==>
              var ds := DropOffs(trips[FirstOngoing(trips).value]);
              && (r == "" <==> ds == [])
              && (r != "" ==> r in ds && forall d :: d in ds ==> TextLe(r, d))
  {
    match FirstOngoing(trips)
    case None => ""
    case Some(j) =>
      var ds := DropOffs(trips[j]);
      if ds == [] then ""
      else
        SortedHeadIsLeast(ds);
        SortByText(ds, Itself)[0]
  }

  /** With no reservations and no filter, the board shows the sample trips. */
  lemma SampleBoard(filter: string)
    requires IsBlank(filter)
    ensures NormalizedTrips([], filter) == MockTrips
  {
    NormalizedUnfiltered([], filter);
    var g := Group([]);
    assert g == [];
    assert SortAll(g) == [];
    assert [] + MockTrips == MockTrips;
  }

  /** On the sample trips the nearest drop-off is "Bakakeng". */
  lemma SampleDropOff()
    ensures NearestDropOff(MockTrips) == "Bakakeng"
  {
    assert FirstOngoing(MockTrips) == Some(0);
    var ds := DropOffs(OngoingSample);
    assert Destinations(OngoingSample) == ["Bakakeng", "Bakakeng"];
    assert Anne.destination != "";
    assert "Bakakeng" in ds;
  }

  // ---------------------------------------------------------------------
  // Passenger grid and presence

  datatype Presence = Present | Absent

  datatype CellStatus = Marked(mark: Presence) | Available

  datatype Cell = Cell(seat: nat, key: string, passenger: Option<DriverReservation>, status: CellStatus)

  /** `trip.capacity || 20`, as an Array.from length (negative gives none). */
  function Capacity(t: DriverTrip): (n: nat)
    ensures t.capacity == 0 ==> n == 20
    ensures t.capacity > 0 ==> n == t.capacity
  {
    if t.capacity == 0 then 20 else if t.capacity < 0 then 0 else t.capacity
  }

  /** `passengers.find(p => p.seatNumber === seat)`. */
  function SeatHolder(ps: seq<DriverReservation>, seat: int): (r: Option<DriverReservation>)
    ensures r.None? <==> forall i :: 0 <= i < |ps| ==> ps[i].seatNumber != seat
    ensures r.Some? ==> exists i :: 0 <= i < |ps| && ps[i] == r.value && r.value.seatNumber == seat
                                   && forall k :: 0 <= k < i ==> ps[k].seatNumber != seat
  {
    if ps == [] then None
    else if ps[0].seatNumber == seat then Some(ps[0])
    else
      var r := SeatHolder(ps[1..], seat);
      if r.Some? then
        var i :| 0 <= i < |ps[1..]| && ps[1..][i] == r.value && r.value.seatNumber == seat
                 && forall k :: 0 <= k < i ==> ps[1..][k] != ps[1..][k] || ps[1..][k].seatNumber != seat;
        assert ps[i + 1] == r.value;
        r
      else r
  }

  /** The cell key: `${email}-${seat}` for a taken seat, `seat-${seat}` otherwise. */
  function CellKey(holder: Option<DriverReservation>, seat: nat): string
  {
    match holder
    case None => "seat-" + NatToString(seat)
    case Some(p) => p.email + "-" + NatToString(seat)
  }

  function CellAt(t: DriverTrip, presence: map<string, Presence>, seat: nat): (c: Cell)
    ensures c.seat == seat && c.passenger == SeatHolder(t.passengers, seat)
    ensures c.key == CellKey(c.passenger, seat)
    ensures c.passenger.None? ==> c.status == Available
    ensures c.passenger.Some? ==> c.status == Marked(if c.key in presence then presence[c.key] else Present)
  {
    var holder := SeatHolder(t.passengers, seat);
    var key := CellKey(holder, seat);
    Cell(seat, key, holder,
         if holder.None? then Available
         else if key in presence then Marked(presence[key]) else Marked(Present))
  }

  /** `renderPassengerGrid`: one cell per seat 1..capacity. */
  function PassengerGrid(t: DriverTrip, presence: map<string, Presence>): (r: seq<Cell>)
    ensures |r| == Capacity(t)
    ensures forall i :: 0 <= i < |r| ==> r[i] == CellAt(t, presence, i + 1)
  {
    seq(Capacity(t), i requires 0 <= i => CellAt(t, presence, i + 1))
  }

  /** Every passenger whose seat is on the grid is seen: its cell holds the
      first passenger booked on that seat. */
  lemma GridShowsSeatedPassengers(t: DriverTrip, presence: map<string, Presence>, k: nat)
    requires k < |t.passengers| && 1 <= t.passengers[k].seatNumber <= Capacity(t)
    ensures var c := PassengerGrid(t, presence)[t.passengers[k].seatNumber - 1];
            c.passenger.Some? && c.passenger.value.seatNumber == t.passengers[k].seatNumber
            && c.status.Marked?
  {
  }

  /** The longest run of digits at the end of s. */
  function TrailingDigits(s: string): (r: string)
    ensures AllDigits(r)
  {
    if s == [] || !('0' <= s[|s| - 1] <= '9') then [] else TrailingDigits(s[..|s| - 1]) + [s[|s| - 1]]
  }

  /** After a '-', the digits are exactly the trailing digits. */
  lemma {:induction false} TrailingDigitsAfterDash(p: string, d: string)
    requires AllDigits(d)
    ensures TrailingDigits(p + "-" + d) == d
    decreases |d|
  {
    var s := p + "-" + d;
    if d == [] {
      assert s == p + "-";
    } else {
      var front := d[..|d| - 1];
      assert s[..|s| - 1] == p + "-" + front;
      TrailingDigitsAfterDash(p, front);
      assert d == front + [d[|d| - 1]];
    }
  }

  /** Two different seat numbers printed after a '-' never give one key. */
  lemma SeatSuffixDistinct(a: string, m: nat, b: string, n: nat)
    requires a + "-" + NatToString(m) == b + "-" + NatToString(n)
    ensures m == n
  {
    TrailingDigitsAfterDash(a, NatToString(m));
    TrailingDigitsAfterDash(b, NatToString(n));
    NatToStringInjective(m, n);
  }

  /** Cell keys of two different seats differ, whoever holds them. */
  lemma CellKeysDistinct(h: Option<DriverReservation>, m: nat, h': Option<DriverReservation>, n: nat)
    requires m != n
    ensures CellKey(h, m) != CellKey(h', n)
  {
    var a := if h.Some? then h.value.email else "seat";
    var b := if h'.Some? then h'.value.email else "seat";
    assert CellKey(h, m) == a + "-" + NatToString(m);
    assert CellKey(h', n) == b + "-" + NatToString(n);
    if CellKey(h, m) == CellKey(h', n) {
      SeatSuffixDistinct(a, m, b, n);
    }
  }

  /** Cells of one grid never share a presence key, so a mark set from one
      cell is shown on that cell only. */
  lemma GridKeysDistinct(t: DriverTrip, presence: map<string, Presence>, i: nat, j: nat)
    requires i < j < Capacity(t)
    ensures PassengerGrid(t, presence)[i].key != PassengerGrid(t, presence)[j].key
  {
    var g := PassengerGrid(t, presence);
    CellKeysDistinct(g[i].passenger, i + 1, g[j].passenger, j + 1);
  }

  /** `togglePresence`. */
  function TogglePresence(presence: map<string, Presence>, key: string, status: Presence)
    : (r: map<string, Presence>)
    ensures key in r && r[key] == status
    ensures forall k :: k != key ==> (k in r <==> k in presence) && (k in presence ==> r[k] == presence[k])
  {
    presence[key := status]
  }

  /** Marking one cell changes that cell's status only; a seat without a
      passenger stays available. */
  lemma ToggleChangesOneCell(t: DriverTrip, presence: map<string, Presence>, key: string, status: Presence)
    ensures var before := PassengerGrid(t, presence);
            var after := PassengerGrid(t, TogglePresence(presence, key, status));
            |after| == |before|
            && forall i :: 0 <= i < |before| ==>
                 if before[i].key != key then after[i] == before[i]
                 else after[i] == before[i].(status := if before[i].passenger.Some? then Marked(status) else Available)
  {
  }

  /** The presence record is shared by all trips: the same e-mail on the same
      seat number in two trips shows one mark. */
  lemma PresenceSharedAcrossTrips(t1: DriverTrip, t2: DriverTrip, presence: map<string, Presence>, seat: nat)
    requires 1 <= seat <= Capacity(t1) && seat <= Capacity(t2)
    requires SeatHolder(t1.passengers, seat).Some? && SeatHolder(t2.passengers, seat).Some?
    requires SeatHolder(t1.passengers, seat).value.email == SeatHolder(t2.passengers, seat).value.email
    ensures PassengerGrid(t1, presence)[seat - 1].status == PassengerGrid(t2, presence)[seat - 1].status
  {
  }
}
