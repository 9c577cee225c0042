/** DriverHistoryScreen: the driver's past trips, the three filter boxes
    whose trimmed values are sent with the history request, the KPI row,
    and the passenger list that one trip at a time can expand. */
module DriverHistoryScreen {
  import opened Common

  /** One trip of the fetched history. */
  datatype PassengerLine = PassengerLine(name: string, destination: string)

  datatype TripHistory = TripHistory(
    id: string, date: string, route: string, time: string,
    passengerCount: int, passengers: seq<PassengerLine>)

  /** What the screen keeps between renders. */
  datatype HistoryState = HistoryState(
    dateFilter: string, destinationFilter: string, minPassengers: string,
    expandedId: Option<string>)

  // ---------------------------------------------------------------------
  // The filters sent with the request

  /** The request's filter object; an absent key is None. */
  datatype HistoryFilters = HistoryFilters(
    date: Option<string>, destination: Option<string>, minPassengers: Option<string>)

  /** `if (x.trim()) filters.k = x.trim()`: a box is sent only when it holds
      something besides white space, and then without its surrounding white
      space. */
  function Sent(raw: string): (r: Option<string>)
    ensures r.Some? <==> !AllSpace(raw)
    ensures r.Some? ==> r.value == Trim(raw) && r.value != ""
                        && !IsSpace(r.value[0]) && !IsSpace(r.value[|r.value| - 1])
  {
    BlankIffAllSpace(raw);
    if IsBlank(raw) then None else Some(Trim(raw))
  }

  /** The filter object: each key is present exactly when its box holds
      more than white space, and then carries the trimmed box. */
  function FiltersFor(dateFilter: string, destinationFilter: string, minPassengers: string): (f: HistoryFilters)
    ensures f.date.Some? <==> !AllSpace(dateFilter)
    ensures f.destination.Some? <==> !AllSpace(destinationFilter)
    ensures f.minPassengers.Some? <==> !AllSpace(minPassengers)
    ensures f.date.Some? ==> f.date.value == Trim(dateFilter)
    ensures f.destination.Some? ==> f.destination.value == Trim(destinationFilter)
    ensures f.minPassengers.Some? ==> f.minPassengers.value == Trim(minPassengers)
  {
    HistoryFilters(Sent(dateFilter), Sent(destinationFilter), Sent(minPassengers))
  }

  /** `loadHistory`'s construction of `filters`, one field at a time. */
  method BuildFilters(dateFilter: string, destinationFilter: string, minPassengers: string)
    returns (filters: HistoryFilters)
    ensures filters == FiltersFor(dateFilter, destinationFilter, minPassengers)
    ensures filters.date.Some? <==> !AllSpace(dateFilter)
    ensures filters.destination.Some? <==> !AllSpace(destinationFilter)
    ensures filters.minPassengers.Some? <==> !AllSpace(minPassengers)
  {
    filters := HistoryFilters(None, None, None);
    BlankIffAllSpace(dateFilter);
    BlankIffAllSpace(destinationFilter);
    BlankIffAllSpace(minPassengers);
    if !IsBlank(dateFilter) {
      filters := filters.(date := Some(Trim(dateFilter)));
    }
    if !IsBlank(destinationFilter) {
      filters := filters.(destination := Some(Trim(destinationFilter)));
    }
    if !IsBlank(minPassengers) {
      filters := filters.(minPassengers := Some(Trim(minPassengers)));
    }
  }

  /** How many keys the request carries. */
  function SentCount(f: HistoryFilters): (n: nat)
    ensures n <= 3
  {
    (if f.date.Some? then 1 else 0) + (if f.destination.Some? then 1 else 0)
      + (if f.minPassengers.Some? then 1 else 0)
  }

  // ---------------------------------------------------------------------
  // The list and the KPI row

  /** `filteredHistory`: the server has already filtered, so the list shown
      is the fetched one. */
  function FilteredHistory(history: seq<TripHistory>): (r: seq<TripHistory>)
    ensures r == history
  {
    history
  }

  /** `totalPassengers`: the sum of the trips' passenger counts. */
  function TotalPassengers(history: seq<TripHistory>): (total: int)
    ensures history == [] ==> total == 0
    ensures |history| == 1 ==> total == history[0].passengerCount
    ensures (forall i :: 0 <= i < |history| ==> history[i].passengerCount >= 0) ==> total >= 0
  {
    if history == [] then 0
    else TotalPassengers(history[..|history| - 1]) + history[|history| - 1].passengerCount
  }

  lemma {:induction false} TotalPassengersAppend(a: seq<TripHistory>, b: seq<TripHistory>)
    ensures TotalPassengers(a + b) == TotalPassengers(a) + TotalPassengers(b)
    decreases |b|
  {
    if b != [] {
      var front := b[..|b| - 1];
      assert (a + b)[..|a + b| - 1] == a + front;
      TotalPassengersAppend(a, front);
    } else {
      assert a + b == a;
    }
  }

  /** With no negative counts, the total bounds every trip's count. */
  lemma {:induction false} TotalPassengersBounds(history: seq<TripHistory>)
    requires forall i :: 0 <= i < |history| ==> history[i].passengerCount >= 0
    ensures TotalPassengers(history) >= 0
    ensures forall i :: 0 <= i < |history| ==> history[i].passengerCount <= TotalPassengers(history)
  {
    if history != [] {
      var front := history[..|history| - 1];
      TotalPassengersBounds(front);
      assert forall i :: 0 <= i < |front| ==> front[i] == history[i];
    }
  }

  /** A string is truthy when it is not empty. */
  predicate NonEmpty(x: string)
  {
    x != ""
  }

  /** The three filter boxes, in the order the screen lists them. */
  function Boxes(s: HistoryState): seq<string>
  {
    [s.dateFilter, s.destinationFilter, s.minPassengers]
  }

  /** `[dateFilter, destinationFilter, minPassengers].filter(Boolean).length`:
      the number of boxes that are not empty. */
  function FiltersKpi(s: HistoryState): (n: nat)
    ensures n == CountWhere(NonEmpty, Boxes(s))
    ensures n == (if s.dateFilter != "" then 1 else 0) + (if s.destinationFilter != "" then 1 else 0)
                 + (if s.minPassengers != "" then 1 else 0)
    ensures n <= 3
    ensures n == 0 <==> s.dateFilter == "" && s.destinationFilter == "" && s.minPassengers == ""
  {
    var boxes := Boxes(s);
    FilterLength(NonEmpty, boxes);
    BoxCount(boxes);
    |Filter(NonEmpty, boxes)|
  }

  /** Counting the non-empty entries of a three-entry list, one by one. */
  lemma BoxCount(boxes: seq<string>)
    requires |boxes| == 3
    ensures CountWhere(NonEmpty, boxes)
            == (if boxes[0] != "" then 1 else 0) + (if boxes[1] != "" then 1 else 0) + (if boxes[2] != "" then 1 else 0)
  {
    var two := boxes[..2];
    var one := two[..1];
    assert CountWhere(NonEmpty, one) == (if boxes[0] != "" then 1 else 0) by {
      assert one[..0] == [];
    }
    assert CountWhere(NonEmpty, two) == CountWhere(NonEmpty, one) + (if boxes[1] != "" then 1 else 0);
  }

  datatype Kpis = Kpis(trips: nat, passengers: int, filters: nat)

  /** The KPI row: trips shown, passengers over them, filter boxes in use. */
  function KpiRow(s: HistoryState, history: seq<TripHistory>): (k: Kpis)
    ensures k.trips == |history|
    ensures k.passengers == TotalPassengers(history)
    ensures k.filters == FiltersKpi(s)
  {
    var shown := FilteredHistory(history);
    Kpis(|shown|, TotalPassengers(shown), FiltersKpi(s))
  }

  /** A box that is filled in with white space only. */
  predicate WhiteOnly(x: string)
  {
    x != "" && AllSpace(x)
  }

  /** The Filters KPI never counts fewer boxes than the request carries, and
      counts more exactly when some box holds only white space. */
  lemma SentWithinKpi(s: HistoryState)
    ensures SentCount(FiltersFor(s.dateFilter, s.destinationFilter, s.minPassengers)) <= FiltersKpi(s)
    ensures SentCount(FiltersFor(s.dateFilter, s.destinationFilter, s.minPassengers)) < FiltersKpi(s) <==>
              WhiteOnly(s.dateFilter) || WhiteOnly(s.destinationFilter) || WhiteOnly(s.minPassengers)
  {
    assert AllSpace("");
  }

  /** A box holding one space counts as a filter but nothing is sent. */
  lemma WhitespaceCountsButIsNotSent()
    ensures FiltersKpi(HistoryState(" ", "", "", None)) == 1
    ensures FiltersFor(" ", "", "") == HistoryFilters(None, None, None)
  {
    assert AllSpace(" ");
  }

  // ---------------------------------------------------------------------
  // Clearing the filters and expanding a trip

  /** `clearFilters`. */
  function ClearFilters(s: HistoryState): (r: HistoryState)
    ensures r.dateFilter == "" && r.destinationFilter == "" && r.minPassengers == ""
    ensures r.expandedId == s.expandedId
  {
    s.(dateFilter := "", destinationFilter := "", minPassengers := "")
  }

  /** After clearing, the KPI reads zero and the request carries no filter. */
  lemma ClearedSendsNothing(s: HistoryState)
    ensures var c := ClearFilters(s);
            && FiltersKpi(c) == 0
            && FiltersFor(c.dateFilter, c.destinationFilter, c.minPassengers) == HistoryFilters(None, None, None)
  {
  }

  predicate Expanded(s: HistoryState, trip: TripHistory)
  {
    s.expandedId == Some(trip.id)
  }

  /** The "View / Hide passengers" button of `trip`. */
  function ToggleExpanded(s: HistoryState, trip: TripHistory): (r: HistoryState)
    ensures Expanded(s, trip) ==> r.expandedId.None?
    ensures !Expanded(s, trip) ==> r.expandedId == Some(trip.id)
    ensures r.(expandedId := s.expandedId) == s
  {
    s.(expandedId := if Expanded(s, trip) then None else Some(trip.id))
  }

  /** Pressing the expanded trip collapses every trip; pressing another
      expands it and leaves expanded only the trips that share its id. */
  lemma PressExpandsAtMostOne(s: HistoryState, history: seq<TripHistory>, k: nat)
    requires k < |history|
    ensures var r := ToggleExpanded(s, history[k]);
            && (Expanded(s, history[k]) ==> forall i :: 0 <= i < |history| ==> !Expanded(r, history[i]))
            && (!Expanded(s, history[k]) ==>
                  Expanded(r, history[k])
                  && forall i :: 0 <= i < |history| ==> (Expanded(r, history[i]) <==> history[i].id == history[k].id))
  {
  }

  /** Two presses on the same trip restore the screen when that trip was
      expanded or nothing was. */
  lemma PressTwice(s: HistoryState, trip: TripHistory)
    requires s.expandedId.None? || Expanded(s, trip)
    ensures ToggleExpanded(ToggleExpanded(s, trip), trip) == s
  {
  }
}
