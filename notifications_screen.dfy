/** NotificationsScreen: the rider's notification list, with relative
    timestamps, an icon and colour per notification type, marking as read on
    press, and the unread badge. */
module NotificationsScreen {
  import opened Common

  // ---------------------------------------------------------------------
  // formatDateTime

  const MillisPerMinute := 60000
  const MillisPerHour := 3600000
  const MillisPerDay := 86400000

  /** The label shown for a timestamp; `LocaleDate(ms)` stands for the
      locale-formatted calendar date of ms, which is not modelled. */
  datatype Stamp = Label(text: string) | LocaleDate(ms: int)

  /** "s" after a unit exactly when the count is above one. */
  function Plural(n: nat): string
  {
    if n > 1 then "s" else ""
  }

  /** `formatDateTime(value)` at clock time `now`. `parse` is `new Date(value)`
      read as milliseconds, None when the date is invalid. The divisors are
      positive, so Dafny's division is the floor of Math.floor. */
  function FormatDateTime(value: string, parse: string -> Option<int>, now: int): (r: Stamp)
    ensures value == "" ==> r == Label("")
    ensures value != "" && parse(value).None? ==> r == Label(value)
    ensures value != "" && parse(value).Some? ==>
              var diff := now - parse(value).value;
              && (diff < MillisPerMinute ==> r == Label("Just now"))
              && (MillisPerMinute <= diff < MillisPerHour ==>
                    r == Label(NatToString(diff / MillisPerMinute) + " min ago"))
              && (MillisPerHour <= diff < MillisPerDay ==>
                    r == Label(NatToString(diff / MillisPerHour) + " hour" + Plural(diff / MillisPerHour) + " ago"))
              && (MillisPerDay <= diff < 7 * MillisPerDay ==>
                    r == Label(NatToString(diff / MillisPerDay) + " day" + Plural(diff / MillisPerDay) + " ago"))
              && (7 * MillisPerDay <= diff ==> r == LocaleDate(parse(value).value))
  {
    if value == "" then Label("")
    else match parse(value)
      case None => Label(value)
      case Some(ms) =>
        var diff := now - ms;
        var mins, hours, days := diff / MillisPerMinute, diff / MillisPerHour, diff / MillisPerDay;
        if mins < 1 then Label("Just now")
        else if mins < 60 then Label(NatToString(mins) + " min ago")
        else if hours < 24 then Label(NatToString(hours) + " hour" + Plural(hours) + " ago")
        else if days < 7 then Label(NatToString(days) + " day" + Plural(days) + " ago")
        else LocaleDate(ms)
  }

  /** A relative label "N <unit>(s) ago" never overstates the age: N whole
      units have passed and N + 1 have not. */
  lemma RelativeAgeIsFloor(value: string, parse: string -> Option<int>, now: int)
    requires value != "" && parse(value).Some?
    ensures var diff := now - parse(value).value;
            var r := FormatDateTime(value, parse, now);
            && (MillisPerMinute <= diff < MillisPerHour ==>
                  exists n: nat :: r == Label(NatToString(n) + " min ago")
                                   && n * MillisPerMinute <= diff < (n + 1) * MillisPerMinute && 1 <= n < 60)
            && (MillisPerHour <= diff < MillisPerDay ==>
                  exists n: nat :: r == Label(NatToString(n) + " hour" + Plural(n) + " ago")
                                   && n * MillisPerHour <= diff < (n + 1) * MillisPerHour && 1 <= n < 24)
            && (MillisPerDay <= diff < 7 * MillisPerDay ==>
                  exists n: nat :: r == Label(NatToString(n) + " day" + Plural(n) + " ago")
                                   && n * MillisPerDay <= diff < (n + 1) * MillisPerDay && 1 <= n < 7)
  {
    var diff := now - parse(value).value;
    var r := FormatDateTime(value, parse, now);
    if MillisPerMinute <= diff < MillisPerHour {
      var n: nat := diff / MillisPerMinute;
      assert r == Label(NatToString(n) + " min ago") && n * MillisPerMinute <= diff < (n + 1) * MillisPerMinute && 1 <= n < 60;
    }
    if MillisPerHour <= diff < MillisPerDay {
      var n: nat := diff / MillisPerHour;
      assert r == Label(NatToString(n) + " hour" + Plural(n) + " ago") && n * MillisPerHour <= diff < (n + 1) * MillisPerHour && 1 <= n < 24;
    }
    if MillisPerDay <= diff < 7 * MillisPerDay {
      var n: nat := diff / MillisPerDay;
      assert r == Label(NatToString(n) + " day" + Plural(n) + " ago") && n * MillisPerDay <= diff < (n + 1) * MillisPerDay && 1 <= n < 7;
    }
  }

  /** A timestamp in the future also reads "Just now". */
  lemma FutureIsJustNow(value: string, parse: string -> Option<int>, now: int)
    requires value != "" && parse(value).Some? && parse(value).value > now
    ensures FormatDateTime(value, parse, now) == Label("Just now")
  {
  }

  /** The singular is used exactly at one unit. */
  lemma SingularAtOne(value: string, parse: string -> Option<int>, now: int)
    requires value != "" && parse(value).Some?
    ensures var diff := now - parse(value).value;
            && (MillisPerHour <= diff < 2 * MillisPerHour ==> FormatDateTime(value, parse, now) == Label("1 hour ago"))
            && (MillisPerDay <= diff < 2 * MillisPerDay ==> FormatDateTime(value, parse, now) == Label("1 day ago"))
  {
    var diff := now - parse(value).value;
    if MillisPerHour <= diff < 2 * MillisPerHour {
      assert diff / MillisPerHour == 1;
    }
    if MillisPerDay <= diff < 2 * MillisPerDay {
      assert diff / MillisPerDay == 1;
    }
  }

  // ---------------------------------------------------------------------
  // Icon and colour

  /** `getNotificationIcon`. */
  function Icon(kind: string): (icon: string)
    ensures kind == "confirmation" ==> icon == "checkmark-circle"
    ensures kind == "cancellation" ==> icon == "close-circle"
    ensures kind == "reminder" ==> icon == "time"
    ensures kind !in {"confirmation", "cancellation", "reminder"} ==> icon == "notifications"
  {
    match kind
    case "confirmation" => "checkmark-circle"
    case "cancellation" => "close-circle"
    case "reminder" => "time"
    case _ => "notifications"
  }

  /** `getNotificationColor`. */
  function Colour(kind: string): (colour: string)
    ensures kind == "confirmation" ==> colour == "#0c8b2f"
    ensures kind == "cancellation" ==> colour == "#c62828"
    ensures kind == "reminder" ==> colour == "#4A90E2"
    ensures kind !in {"confirmation", "cancellation", "reminder"} ==> colour == "#6b7280"
  {
    match kind
    case "confirmation" => "#0c8b2f"
    case "cancellation" => "#c62828"
    case "reminder" => "#4A90E2"
    case _ => "#6b7280"
  }

  /** Icon and colour agree on which types are known, and tell the known
      types apart. */
  lemma IconAndColourAgree(a: string, b: string)
    ensures Icon(a) == "notifications" <==> Colour(a) == "#6b7280"
    ensures Icon(a) == Icon(b) <==> Colour(a) == Colour(b)
  {
  }

  // ---------------------------------------------------------------------
  // The list, marking as read, and the badge

  /** One entry of the fetched list; `reservation` is "" when absent. */
  datatype ClientNotification = ClientNotification(
    id: string, kind: string, title: string, message: string, isRead: bool, reservation: string)

  predicate Unread(n: ClientNotification)
  {
    !n.isRead
  }

  /** `unreadCount`. */
  function UnreadCount(list: seq<ClientNotification>): (r: nat)
    ensures r == CountWhere(Unread, list)
    ensures r <= |list|
    ensures r == 0 <==> forall i :: 0 <= i < |list| ==> list[i].isRead
    ensures r == |list| <==> forall i :: 0 <= i < |list| ==> !list[i].isRead
  {
    var unread := Filter(Unread, list);
    FilterLength(Unread, list);
    CountAllOrNone(list);
    |unread|
  }

  lemma {:induction false} CountAllOrNone(list: seq<ClientNotification>)
    ensures CountWhere(Unread, list) == 0 <==> forall i :: 0 <= i < |list| ==> list[i].isRead
    ensures CountWhere(Unread, list) == |list| <==> forall i :: 0 <= i < |list| ==> !list[i].isRead
  {
    if list != [] {
      var front := list[..|list| - 1];
      CountAllOrNone(front);
      assert CountWhere(Unread, front) <= |front| by { FilterLength(Unread, front); }
      assert forall i :: 0 <= i < |front| ==> front[i] == list[i];
    }
  }

  /** `handleMarkAsRead`'s state update: the entry with that id is read. */
  function MarkAsReadLocal(list: seq<ClientNotification>, id: string): (r: seq<ClientNotification>)
    ensures |r| == |list|
    ensures forall i :: 0 <= i < |r| ==>
              if list[i].id == id then r[i] == list[i].(isRead := true) else r[i] == list[i]
  {
    seq(|list|, i requires 0 <= i < |list| => if list[i].id == id then list[i].(isRead := true) else list[i])
  }

  /** Predicate of an unread entry with the given id. */
  function UnreadWithId(id: string): ClientNotification -> bool
  {
    (n: ClientNotification) => !n.isRead && n.id == id
  }

  /** Marking drops the badge by exactly the number of unread entries that
      carry the id (one, when ids are unique), and leaves the rest unread. */
  lemma {:induction false} MarkAsReadCount(list: seq<ClientNotification>, id: string)
    ensures UnreadCount(MarkAsReadLocal(list, id)) + CountWhere(UnreadWithId(id), list) == UnreadCount(list)
  {
    FilterLength(Unread, list);
    FilterLength(Unread, MarkAsReadLocal(list, id));
    MarkAsReadCountWhere(list, id);
  }

  lemma {:induction false} MarkAsReadCountWhere(list: seq<ClientNotification>, id: string)
    ensures CountWhere(Unread, MarkAsReadLocal(list, id)) + CountWhere(UnreadWithId(id), list)
            == CountWhere(Unread, list)
  {
    if list != [] {
      var front := list[..|list| - 1];
      MarkAsReadCountWhere(front, id);
      assert MarkAsReadLocal(list, id)[..|list| - 1] == MarkAsReadLocal(front, id);
    }
  }

  lemma MarkAsReadIdempotent(list: seq<ClientNotification>, id: string)
    ensures MarkAsReadLocal(MarkAsReadLocal(list, id), id) == MarkAsReadLocal(list, id)
  {
  }

  /** `handleMarkAsRead`: the server call's outcome is `ok`; on failure the
      list stays as it was and an error is shown. */
  function MarkAsRead(list: seq<ClientNotification>, id: string, ok: bool): (r: (seq<ClientNotification>, bool))
    ensures !ok ==> r == (list, true)
    ensures ok ==> r == (MarkAsReadLocal(list, id), false)
  {
    if ok then (MarkAsReadLocal(list, id), false) else (list, true)
  }

  /** What `handleNotificationPress` does: the request to mark read (only for
      an unread entry) and the alert shown for an entry with a reservation. */
  datatype PressEffect = PressEffect(markRead: Option<string>, alert: Option<(string, string)>)

  function Press(n: ClientNotification): (e: PressEffect)
    ensures e.markRead.Some? <==> !n.isRead
    ensures e.markRead.Some? ==> e.markRead.value == n.id
    ensures e.alert.Some? <==> n.reservation != ""
    ensures e.alert.Some? ==> e.alert.value == (n.title, n.message)
  {
    PressEffect(if n.isRead then None else Some(n.id),
                if n.reservation != "" then Some((n.title, n.message)) else None)
  }

  /** The list after a press whose server call succeeds. */
  function AfterPress(list: seq<ClientNotification>, n: ClientNotification): seq<ClientNotification>
  {
    match Press(n).markRead
    case None => list
    case Some(id) => MarkAsReadLocal(list, id)
  }

  /** Pressing an entry of the list leaves it read, and pressing it again
      sends no request. */
  lemma PressMarksOnce(list: seq<ClientNotification>, k: nat)
    requires k < |list|
    ensures AfterPress(list, list[k])[k].isRead
    ensures Press(AfterPress(list, list[k])[k]).markRead.None?
  {
  }
}
