/** MyBookingsScreen: the rider's bookings as cards, with fallbacks for the
    time, route and shuttle label, a status colour, and the cancel button. */
module MyBookingsScreen {
  import opened Common

  // ---------------------------------------------------------------------
  // formatDateTime

  /** The time line of a card; `LocaleDateTime(v)` stands for the locale
      time and date of a parseable v, which is not modelled. */
  datatype TimeText = Text(text: string) | LocaleDateTime(value: string)

  /** `formatDateTime(value)`; `isDate(v)` says whether `new Date(v)` is a
      valid date. A missing, empty or white-space value reads "TBD". */
  function FormatBookingTime(value: Option<string>, isDate: string -> bool): (r: TimeText)
    ensures value.None? ==> r == Text("TBD")
    ensures value.Some? && AllSpace(value.value) ==> r == Text("TBD")
    ensures value.Some? && !AllSpace(value.value) && isDate(value.value) ==> r == LocaleDateTime(value.value)
    ensures value.Some? && !AllSpace(value.value) && !isDate(value.value) ==> r == Text(value.value)
  {
    BlankIffAllSpace(if value.Some? then value.value else "");
    if value.None? || IsBlank(value.value) then Text("TBD")
    else if isDate(value.value) then LocaleDateTime(value.value)
    else Text(value.value)
  }

  // ---------------------------------------------------------------------
  // Route text: `.replace(/->/g, "→")`

  const Arrow: char := '\U{2192}'

  /** No '-' is directly followed by '>'. */
  predicate NoArrow(s: string)
  {
    forall i :: 0 <= i < |s| - 1 ==> !(s[i] == '-' && s[i + 1] == '>')
  }

  /** Every "->", scanning left to right, becomes "→". */
  function ReplaceArrows(s: string): (r: string)
    ensures NoArrow(r)
    ensures |r| <= |s|
    ensures r == [] <==> s == []
    ensures r != [] ==> (r[0] == '>' <==> s[0] == '>')
    ensures NoArrow(s) ==> r == s
    decreases |s|
  {
    if |s| >= 2 && s[0] == '-' && s[1] == '>' then
      var rest := ReplaceArrows(s[2..]);
      [Arrow] + rest
    else if s == [] then []
    else
      var rest := ReplaceArrows(s[1..]);
      assert NoArrow(s) ==> NoArrow(s[1..]);
      [s[0]] + rest
  }

  /** After the replacement the text contains no "->", so the second
      replacement, of "->" with the white space around it, has nothing to
      match. */
  lemma RouteHasNoArrow(s: string)
    ensures !Contains(ReplaceArrows(s), "->")
  {
    var r := ReplaceArrows(s);
    forall i ensures !OccursAt("->", r, i) {
      if 0 <= i && i + 2 <= |r| {
        assert r[i..i + 2] == [r[i], r[i + 1]];
      }
    }
  }

  /** Every "→" back to "->": the inverse of the replacement on texts that
      held no "→" to begin with. */
  function Restore(s: string): (r: string)
    ensures Arrow !in r
    ensures Arrow !in s ==> r == s
  {
    if s == [] then []
    else (if s[0] == Arrow then "->" else [s[0]]) + Restore(s[1..])
  }

  /** The replacement turns each "->" into "→" and changes nothing else:
      restoring the arrows gives the original text back. */
  lemma {:induction false} RestoreReplaceArrows(s: string)
    requires Arrow !in s
    ensures Restore(ReplaceArrows(s)) == s
    decreases |s|
  {
    if |s| >= 2 && s[0] == '-' && s[1] == '>' {
      var rest := ReplaceArrows(s[2..]);
      RestoreReplaceArrows(s[2..]);
      assert ([Arrow] + rest)[1..] == rest;
      assert s == "->" + s[2..];
    } else if s != [] {
      var rest := ReplaceArrows(s[1..]);
      RestoreReplaceArrows(s[1..]);
      assert ([s[0]] + rest)[1..] == rest;
      assert s == [s[0]] + s[1..];
    }
  }

  lemma ReplaceArrowsIdempotent(s: string)
    ensures ReplaceArrows(ReplaceArrows(s)) == ReplaceArrows(s)
  {
  }

  // ---------------------------------------------------------------------
  // The booking cards

  /** The populated shuttle as the client sees it; a missing field is "". */
  datatype ShuttleFields = ShuttleFields(
    departureTime: string, time: string, departureDate: string,
    destination: string, name: string, shuttleNumber: string)

  /** One reservation of the list; a missing string is "", a missing seat 0. */
  datatype ClientReservation = ClientReservation(
    id: string, status: string, shuttle: Option<ShuttleFields>, destination: string,
    createdAt: string, seatNumber: int)

  datatype Booking = Booking(
    id: string, title: string, status: string, time: Option<string>,
    route: string, shuttleNumber: string, createdAt: string, seatNumber: int)

  const NoShuttle := ShuttleFields("", "", "", "", "", "")

  /** `a || b || ... || null` over strings. */
  function FirstText(candidates: seq<string>): (r: Option<string>)
    ensures r.None? <==> forall i :: 0 <= i < |candidates| ==> candidates[i] == ""
    ensures r.Some? ==> exists i :: 0 <= i < |candidates| && candidates[i] == r.value && r.value != ""
                                    && forall k :: 0 <= k < i ==> candidates[k] == ""
  {
    if candidates == [] then None
    else if candidates[0] != "" then Some(candidates[0])
    else
      var r := FirstText(candidates[1..]);
      if r.Some? then
        var i :| 0 <= i < |candidates[1..]| && candidates[1..][i] == r.value && r.value != ""
                 && forall k :: 0 <= k < i ==> candidates[1..][k] == "";
        assert candidates[i + 1] == r.value;
        r
      else r
  }

  /** The card for reservation r at position idx. */
  function Project(r: ClientReservation, idx: nat): (b: Booking)
    ensures b.id == (if r.id != "" then r.id else NatToString(idx))
    ensures b.title == "Booking #" + NatToString(idx + 1)
    ensures b.status == (if r.status != "" then r.status else "active")
    ensures var s := OrDefault(r.shuttle, NoShuttle);
            && b.time == FirstText([s.departureTime, s.time, s.departureDate])
            && b.route == ReplaceArrows(OrDefault(FirstText([s.destination, s.name, r.destination]), "Route not set"))
            && b.shuttleNumber == OrDefault(FirstText([s.shuttleNumber, s.name]), "Shuttle")
    ensures b.createdAt == r.createdAt && b.seatNumber == r.seatNumber
  {
    var s := OrDefault(r.shuttle, NoShuttle);
    Booking(OrText(r.id, NatToString(idx)),
            "Booking #" + NatToString(idx + 1),
            OrText(r.status, "active"),
            FirstText([s.departureTime, s.time, s.departureDate]),
            ReplaceArrows(OrDefault(FirstText([s.destination, s.name, r.destination]), "Route not set")),
            OrDefault(FirstText([s.shuttleNumber, s.name]), "Shuttle"),
            r.createdAt, r.seatNumber)
  }

  /** `bookings`: one card per reservation, in order. */
  function Bookings(rs: seq<ClientReservation>): (r: seq<Booking>)
    ensures |r| == |rs|
    ensures forall i :: 0 <= i < |r| ==> r[i] == Project(rs[i], i)
  {
    seq(|rs|, i requires 0 <= i < |rs| => Project(rs[i], i))
  }

  /** Titles of two different numbers differ. */
  lemma TitleNumbersDistinct(m: nat, n: nat)
    requires m != n
    ensures "Booking #" + NatToString(m) != "Booking #" + NatToString(n)
  {
    var p := "Booking #";
    if p + NatToString(m) == p + NatToString(n) {
      assert (p + NatToString(m))[|p|..] == NatToString(m);
      assert (p + NatToString(n))[|p|..] == NatToString(n);
      NatToStringInjective(m, n);
    }
  }

  /** Card titles number the bookings from one and never repeat. */
  lemma TitlesDistinct(rs: seq<ClientReservation>, i: nat, j: nat)
    requires i < j < |rs|
    ensures Bookings(rs)[i].title != Bookings(rs)[j].title
  {
    TitleNumbersDistinct(i + 1, j + 1);
  }

  /** No route shown on a card contains "->". */
  lemma RoutesHaveNoArrow(rs: seq<ClientReservation>, i: nat)
    requires i < |rs|
    ensures !Contains(Bookings(rs)[i].route, "->")
  {
    var s := OrDefault(rs[i].shuttle, NoShuttle);
    RouteHasNoArrow(OrDefault(FirstText([s.destination, s.name, rs[i].destination]), "Route not set"));
  }

  // ---------------------------------------------------------------------
  // Status and the cancel button

  /** `statusColor`. */
  function StatusColor(status: string): (c: string)
    ensures c == "#0c8b2f" <==> status == "active" || status == "confirmed"
    ensures c != "#0c8b2f" ==> c == "#c62828"
  {
    if status == "active" || status == "confirmed" then "#0c8b2f" else "#c62828"
  }

  /** The status line: "Confirmed" only for "active". */
  function StatusLabel(status: string): (l: string)
    ensures l == "Confirmed" <==> status == "active"
    ensures l != "Confirmed" ==> l == "Cancelled"
  {
    if status == "active" then "Confirmed" else "Cancelled"
  }

  /** A "confirmed" status is coloured green yet labelled "Cancelled" and
      cannot be cancelled. */
  lemma ConfirmedIsMislabelled()
    ensures StatusColor("confirmed") == "#0c8b2f" && StatusLabel("confirmed") == "Cancelled"
    ensures CancelButton(Booking("x", "Booking #1", "confirmed", None, "r", "s", "", 0), None).disabled
  {
  }

  datatype ButtonState = ButtonState(disabled: bool, caption: string)

  /** The cancel button; `actionId` is the booking whose cancel is in flight. */
  function CancelButton(b: Booking, actionId: Option<string>): (r: ButtonState)
    ensures r.disabled <==> b.status != "active" || actionId == Some(b.id)
    ensures r.caption == "Cancelled" <==> b.status != "active"
    ensures r.caption == "Cancelling..." <==> b.status == "active" && actionId == Some(b.id)
    ensures r.caption == "Cancel" <==> !r.disabled
  {
    var inFlight := actionId == Some(b.id);
    ButtonState(b.status != "active" || inFlight,
                if b.status != "active" then "Cancelled" else if inFlight then "Cancelling..." else "Cancel")
  }

  /** The in-flight cancel disables its own button only: every other active
      booking with a different id stays cancellable. */
  lemma InFlightBlocksOnlyItself(bs: seq<Booking>, k: nat)
    requires k < |bs| && bs[k].status == "active"
    ensures CancelButton(bs[k], Some(bs[k].id)).disabled
    ensures forall i :: 0 <= i < |bs| && bs[i].status == "active" && bs[i].id != bs[k].id ==>
              CancelButton(bs[i], Some(bs[k].id)).caption == "Cancel"
  {
  }
}
