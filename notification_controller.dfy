/** scheduleReminder, getUserNotifications, markNotificationAsRead and
    sendScheduledReminders. Instants are integer milliseconds; how a
    shuttle's departureTime string is read as an instant is a parameter
    (`parse`), None standing for an Invalid Date. */
module NotificationController {
  import opened Common
  import opened Schema
  import opened Db

  const MillisPerHour := 3600000

  // ---------------------------------------------------------------------
  // scheduleReminder

  function ReminderMessage(hours: int): string
  {
    "Your shuttle departs in " + IntToString(hours) + " hour(s)"
  }

  /** What scheduleReminder hands to Notification.create. */
  function ReminderInput(user: ObjectId, reservation: ObjectId, shuttle: ObjectId, hours: int, when: Option<int>)
    : NotificationInput
  {
    NotificationInput(Some(user), Some(reservation), Some(shuttle), Some("reminder"),
                      "Shuttle Reminder", ReminderMessage(hours), when)
  }

  /** The reminder input is valid exactly when its time is a date. */
  lemma ReminderValidates(user: ObjectId, reservation: ObjectId, shuttle: ObjectId, hours: int,
                          when: Option<int>, now: int)
    ensures NewNotification(ReminderInput(user, reservation, shuttle, hours, when), now)
            == if when.Some? then Some(Notification(user, reservation, shuttle, Reminder, "Shuttle Reminder",
                                                    ReminderMessage(hours), when.value, false, None, false, now))
               else None
  {
    assert ParseNotificationType(Some("reminder")) == Some(Reminder);
    assert |ReminderMessage(hours)| > 0;
  }

  /** `hours` is hoursBeforeDeparture; 0 is the only falsy integer.
      A reservation whose shuttle is gone populates as null and reading its
      departureTime throws; an unparseable departureTime yields an Invalid
      Date that the save rejects. Both answer 500 without writing. */
  function Schedule(st: Snapshot, reservationId: Option<ObjectId>, hours: int, userId: Option<ObjectId>,
                    parse: string -> Option<int>, now: int)
    : (out: (Snapshot, Reply<Notification>))
    requires WellFormed(st)
    ensures WellFormed(out.0)
    ensures out.1.Failure? ==> out.0 == st
    ensures reservationId.None? || hours == 0
            ==> out.1 == Failure(400, "Reservation ID and hours before departure are required")
    ensures reservationId.Some? && hours != 0 && reservationId.value !in st.reservations
            ==> out.1 == Failure(404, "Reservation not found")
    ensures reservationId.Some? && hours != 0 && reservationId.value in st.reservations
            && (userId.None? || st.reservations[reservationId.value].user != userId.value)
            ==> out.1 == Failure(403, "Unauthorized to schedule reminder for this reservation")
    ensures out.1.Success? <==>
              && reservationId.Some? && hours != 0 && reservationId.value in st.reservations
              && userId.Some? && st.reservations[reservationId.value].user == userId.value
              && st.reservations[reservationId.value].shuttle in st.shuttles
              && parse(st.shuttles[st.reservations[reservationId.value].shuttle].departureTime).Some?
    ensures out.1.Success? ==>
              var r := st.reservations[reservationId.value];
              var departure := parse(st.shuttles[r.shuttle].departureTime).value;
              && out.1.status == 201 && out.1.id == st.nextId && out.1.id !in st.notifications
              && out.1.body.scheduledFor == departure - hours * MillisPerHour
              && out.1.body.kind == Reminder && out.1.body.user == userId.value
              && out.1.body.reservation == reservationId.value && out.1.body.shuttle == r.shuttle
              && out.1.body.title == "Shuttle Reminder" && out.1.body.message == ReminderMessage(hours)
              && !out.1.body.isSent && out.1.body.sentAt == None && !out.1.body.isRead
              && out.1.body.createdAt == now
              && out.0 == st.(notifications := st.notifications[st.nextId := out.1.body], nextId := st.nextId + 1)
  {
    if reservationId.None? || hours == 0 then
      (st, Failure(400, "Reservation ID and hours before departure are required"))
    else if reservationId.value !in st.reservations then (st, Failure(404, "Reservation not found"))
    else
      var r := st.reservations[reservationId.value];
      if userId.None? || r.user != userId.value then
        (st, Failure(403, "Unauthorized to schedule reminder for this reservation"))
      else if r.shuttle !in st.shuttles then (st, Failure(500, ServerError))
      else
        var departure := parse(st.shuttles[r.shuttle].departureTime);
        var when := if departure.Some? then Some(departure.value - hours * MillisPerHour) else None;
        ReminderValidates(userId.value, reservationId.value, r.shuttle, hours, when, now);
        match NewNotification(ReminderInput(userId.value, reservationId.value, r.shuttle, hours, when), now)
        case None => (st, Failure(500, ServerError))
        case Some(n) =>
          (st.(notifications := st.notifications[st.nextId := n], nextId := st.nextId + 1),
           Success(201, st.nextId, n))
  }

  method ScheduleReminder(db: Database, reservationId: Option<ObjectId>, hours: int, userId: Option<ObjectId>,
                          parse: string -> Option<int>, now: int)
    returns (reply: Reply<Notification>)
    requires db.Valid()
    modifies db
    ensures db.Valid()
    ensures (db.State(), reply) == Schedule(old(db.State()), reservationId, hours, userId, parse, now)
  {
    if reservationId.None? || hours == 0 {
      return Failure(400, "Reservation ID and hours before departure are required");
    }
    if reservationId.value !in db.reservations {
      return Failure(404, "Reservation not found");
    }
    var reservation := db.reservations[reservationId.value];
    if userId.None? || reservation.user != userId.value {
      return Failure(403, "Unauthorized to schedule reminder for this reservation");
    }
    if reservation.shuttle !in db.shuttles {
      return Failure(500, ServerError);
    }
    var departure := parse(db.shuttles[reservation.shuttle].departureTime);
    if departure.None? {
      return Failure(500, ServerError);
    }
    var scheduledFor := departure.value - hours * MillisPerHour;
    ReminderValidates(userId.value, reservationId.value, reservation.shuttle, hours, Some(scheduledFor), now);
    var notification := Notification(userId.value, reservationId.value, reservation.shuttle, Reminder,
                                     "Shuttle Reminder", ReminderMessage(hours), scheduledFor,
                                     false, None, false, now);
    var id := db.nextId;
    db.notifications := db.notifications[id := notification];
    db.nextId := db.nextId + 1;
    reply := Success(201, id, notification);
  }

  /** A longer lead time schedules the reminder earlier, by exactly one hour
      of milliseconds per extra hour. */
  lemma ScheduleLeadTime(st: Snapshot, rid: ObjectId, user: ObjectId, parse: string -> Option<int>,
                         now: int, h1: int, h2: int)
    requires WellFormed(st) && h1 != 0 && h2 != 0
    requires Schedule(st, Some(rid), h1, Some(user), parse, now).1.Success?
    ensures Schedule(st, Some(rid), h2, Some(user), parse, now).1.Success?
    ensures Schedule(st, Some(rid), h1, Some(user), parse, now).1.body.scheduledFor
            - Schedule(st, Some(rid), h2, Some(user), parse, now).1.body.scheduledFor
            == (h2 - h1) * MillisPerHour
  {
  }

  // ---------------------------------------------------------------------
  // getUserNotifications

  datatype NotificationDoc = NotificationDoc(id: ObjectId, notification: Notification)

  function NotificationDocs(st: Snapshot, ids: seq<ObjectId>): (r: seq<NotificationDoc>)
    requires forall i :: 0 <= i < |ids| ==> ids[i] in st.notifications
    ensures |r| == |ids|
    ensures forall i :: 0 <= i < |r| ==> r[i] == NotificationDoc(ids[i], st.notifications[ids[i]])
  {
    if ids == [] then []
    else [NotificationDoc(ids[0], st.notifications[ids[0]])] + NotificationDocs(st, ids[1..])
  }

  /** A listed id has its document. */
  lemma NotificationDocOf(st: Snapshot, ids: seq<ObjectId>, id: ObjectId)
    requires forall i :: 0 <= i < |ids| ==> ids[i] in st.notifications
    requires id in ids
    ensures exists i :: 0 <= i < |NotificationDocs(st, ids)| && NotificationDocs(st, ids)[i].id == id
  {
    var i :| 0 <= i < |ids| && ids[i] == id;
    assert NotificationDocs(st, ids)[i].id == id;
  }

  /** The documents of the stored notifications satisfying p, in id order:
      each is stored and satisfies p, and every such notification is among
      them. */
  lemma NotificationDocsWhere(st: Snapshot, p: Notification -> bool)
    requires WellFormed(st)
    ensures var r := NotificationDocs(st, IdsWhere(st.notifications, st.nextId, p));
            && (forall i :: 0 <= i < |r| ==> r[i].id in st.notifications
                                             && r[i].notification == st.notifications[r[i].id]
                                             && p(r[i].notification))
            && (forall id :: id in st.notifications && p(st.notifications[id])
                             ==> exists i :: 0 <= i < |r| && r[i].id == id)
            && (forall i, j :: 0 <= i < j < |r| ==> r[i].id < r[j].id)
  {
    var ids := IdsWhere(st.notifications, st.nextId, p);
    forall id | id in st.notifications && p(st.notifications[id])
      ensures exists i :: 0 <= i < |NotificationDocs(st, ids)| && NotificationDocs(st, ids)[i].id == id
    {
      NotificationDocOf(st, ids, id);
    }
  }

  function OwnedBy(userId: ObjectId): Notification -> bool
  {
    (n: Notification) => n.user == userId
  }

  /** Notification.find({ user }) before sorting: the user's notifications
      in id order. */
  function UserDocs(st: Snapshot, userId: ObjectId): (docs: seq<NotificationDoc>)
    requires WellFormed(st)
    ensures forall i :: 0 <= i < |docs| ==> docs[i].id in st.notifications
                                            && docs[i].notification == st.notifications[docs[i].id]
                                            && docs[i].notification.user == userId
    ensures forall id :: id in st.notifications && st.notifications[id].user == userId
                         ==> exists i :: 0 <= i < |docs| && docs[i].id == id
    ensures forall i, j :: 0 <= i < j < |docs| ==> docs[i].id < docs[j].id
  {
    NotificationDocsWhere(st, OwnedBy(userId));
    NotificationDocs(st, IdsWhere(st.notifications, st.nextId, OwnedBy(userId)))
  }

  function NewestFirstKey(d: NotificationDoc): int
  {
    -d.notification.createdAt
  }

  /** Sorting by the negated creation time orders newest first and keeps
      every document. */
  lemma NewestFirst(docs: seq<NotificationDoc>, r: seq<NotificationDoc>)
    requires multiset(r) == multiset(docs) && SortedByInt(r, NewestFirstKey)
    ensures forall i :: 0 <= i < |r| ==> r[i] in docs
    ensures forall k :: 0 <= k < |docs| ==> docs[k] in r
    ensures forall i, j :: 0 <= i < j < |r| ==> r[i].notification.createdAt >= r[j].notification.createdAt
  {
    forall i | 0 <= i < |r| ensures r[i] in docs {
      assert r[i] in multiset(r);
    }
    forall k | 0 <= k < |docs| ensures docs[k] in r {
      assert docs[k] in multiset(docs);
    }
    forall i, j | 0 <= i < j < |r| ensures r[i].notification.createdAt >= r[j].notification.createdAt {
      assert NewestFirstKey(r[i]) <= NewestFirstKey(r[j]);
    }
  }

  /** Notification.find({ user }).sort({ createdAt: -1 }): the user's
      notifications, newest first. */
  function UserNotifications(st: Snapshot, userId: ObjectId): (r: seq<NotificationDoc>)
    requires WellFormed(st)
    ensures forall i :: 0 <= i < |r| ==> r[i].id in st.notifications
                                         && r[i].notification == st.notifications[r[i].id]
                                         && r[i].notification.user == userId
    ensures forall id :: id in st.notifications && st.notifications[id].user == userId
                         ==> exists i :: 0 <= i < |r| && r[i].id == id
    ensures forall i, j :: 0 <= i < j < |r| ==> r[i].notification.createdAt >= r[j].notification.createdAt
    ensures multiset(r) == multiset(UserDocs(st, userId))
  {
    var docs := UserDocs(st, userId);
    var r := SortByInt(docs, NewestFirstKey);
    NewestFirst(docs, r);
    r
  }

  // ---------------------------------------------------------------------
  // markNotificationAsRead

  function MarkRead(st: Snapshot, notificationId: ObjectId, userId: Option<ObjectId>)
    : (out: (Snapshot, Reply<Notification>))
    requires WellFormed(st)
    ensures WellFormed(out.0)
    ensures out.1.Failure? ==> out.0 == st
    ensures notificationId !in st.notifications ==> out.1 == Failure(404, "Notification not found")
    ensures notificationId in st.notifications
            && (userId.None? || st.notifications[notificationId].user != userId.value)
            ==> out.1 == Failure(403, "Unauthorized to update this notification")
    ensures out.1.Success? <==> notificationId in st.notifications && userId.Some?
                                && st.notifications[notificationId].user == userId.value
    ensures out.1.Success? ==>
              && out.1.status == 200 && out.1.id == notificationId
              && out.1.body == st.notifications[notificationId].(isRead := true)
              && out.0 == st.(notifications := st.notifications[notificationId := out.1.body])
  {
    if notificationId !in st.notifications then (st, Failure(404, "Notification not found"))
    else
      var n := st.notifications[notificationId];
      if userId.None? || n.user != userId.value then (st, Failure(403, "Unauthorized to update this notification"))
      else
        var n' := n.(isRead := true);
        (st.(notifications := st.notifications[notificationId := n']), Success(200, notificationId, n'))
  }

  method MarkNotificationAsRead(db: Database, notificationId: ObjectId, userId: Option<ObjectId>)
    returns (reply: Reply<Notification>)
    requires db.Valid()
    modifies db
    ensures db.Valid()
    ensures (db.State(), reply) == MarkRead(old(db.State()), notificationId, userId)
  {
    if notificationId !in db.notifications {
      return Failure(404, "Notification not found");
    }
    var notification := db.notifications[notificationId];
    if userId.None? || notification.user != userId.value {
      return Failure(403, "Unauthorized to update this notification");
    }
    notification := notification.(isRead := true);
    db.notifications := db.notifications[notificationId := notification];
    reply := Success(200, notificationId, notification);
  }

  /** Marking twice is the same as marking once, reply included. */
  lemma MarkReadIdempotent(st: Snapshot, notificationId: ObjectId, userId: Option<ObjectId>)
    requires WellFormed(st)
    ensures var (st1, reply1) := MarkRead(st, notificationId, userId);
            MarkRead(st1, notificationId, userId) == (st1, reply1)
  {
    var (st1, reply1) := MarkRead(st, notificationId, userId);
    if reply1.Success? {
      assert st1.notifications[notificationId := reply1.body] == st1.notifications;
    }
  }

  // ---------------------------------------------------------------------
  // sendScheduledReminders

  /** The sweep's query: a reminder not yet sent whose time has come. */
  predicate IsDue(n: Notification, now: int)
  {
    n.scheduledFor <= now && !n.isSent && n.kind == Reminder
  }

  function MarkedSent(n: Notification, now: int): Notification
  {
    n.(isSent := true, sentAt := Some(now))
  }

  function DueAt(now: int): Notification -> bool
  {
    (n: Notification) => IsDue(n, now)
  }

  /** The documents the sweep fetches, in id order. */
  function DueBatch(st: Snapshot, now: int): (r: seq<NotificationDoc>)
    requires WellFormed(st)
    ensures forall i :: 0 <= i < |r| ==> r[i].id in st.notifications
                                         && r[i].notification == st.notifications[r[i].id]
                                         && IsDue(r[i].notification, now)
    ensures forall id :: id in st.notifications && IsDue(st.notifications[id], now)
                         ==> exists i :: 0 <= i < |r| && r[i].id == id
    ensures forall i, j :: 0 <= i < j < |r| ==> r[i].id < r[j].id
  {
    NotificationDocsWhere(st, DueAt(now));
    NotificationDocs(st, IdsWhere(st.notifications, st.nextId, DueAt(now)))
  }

  /** The loop over the fetched batch: each document is pushed and saved as
      sent; a document whose user or shuttle is gone populates as null and
      the loop throws there, keeping the earlier saves. Returns the new
      collection and how many documents were saved. */
  function Deliver(notes: map<ObjectId, Notification>, batch: seq<NotificationDoc>,
                   users: set<ObjectId>, shuttles: set<ObjectId>, now: int)
    : (out: (map<ObjectId, Notification>, nat))
    requires forall i :: 0 <= i < |batch| ==> batch[i].id in notes
    ensures out.1 <= |batch|
    ensures out.0.Keys == notes.Keys
    decreases |batch|
  {
    if batch == [] then (notes, 0)
    else
      var d := batch[0];
      if d.notification.user !in users || d.notification.shuttle !in shuttles then (notes, 0)
      else
        var (m, k) := Deliver(notes[d.id := MarkedSent(d.notification, now)], batch[1..], users, shuttles, now);
        (m, k + 1)
  }

  predicate Ascending(batch: seq<NotificationDoc>)
  {
    forall i, j :: 0 <= i < j < |batch| ==> batch[i].id < batch[j].id
  }

  predicate Deliverable(d: NotificationDoc, users: set<ObjectId>, shuttles: set<ObjectId>)
  {
    d.notification.user in users && d.notification.shuttle in shuttles
  }

  /** Deliver stops exactly at the first document whose user or shuttle is
      missing. */
  lemma {:induction false} DeliverStops(notes: map<ObjectId, Notification>, batch: seq<NotificationDoc>,
                                        users: set<ObjectId>, shuttles: set<ObjectId>, now: int)
    requires forall i :: 0 <= i < |batch| ==> batch[i].id in notes
    ensures var count := Deliver(notes, batch, users, shuttles, now).1;
            && (forall i :: 0 <= i < count ==> Deliverable(batch[i], users, shuttles))
            && (count < |batch| ==> !Deliverable(batch[count], users, shuttles))
    decreases |batch|
  {
    if batch != [] && Deliverable(batch[0], users, shuttles) {
      var notes1 := notes[batch[0].id := MarkedSent(batch[0].notification, now)];
      DeliverStops(notes1, batch[1..], users, shuttles, now);
      var k := Deliver(notes1, batch[1..], users, shuttles, now).1;
      forall i | 0 <= i < k + 1 ensures Deliverable(batch[i], users, shuttles) {
        if i > 0 {
          assert batch[1..][i - 1] == batch[i];
        }
      }
      if k + 1 < |batch| {
        assert batch[1..][k] == batch[k + 1];
      }
    }
  }

  /** The first `count` documents end up saved as sent. */
  lemma {:induction false} DeliverMarks(notes: map<ObjectId, Notification>, batch: seq<NotificationDoc>,
                                        users: set<ObjectId>, shuttles: set<ObjectId>, now: int)
    requires forall i :: 0 <= i < |batch| ==> batch[i].id in notes
    requires Ascending(batch)
    ensures var (m, count) := Deliver(notes, batch, users, shuttles, now);
            forall i :: 0 <= i < count ==> m[batch[i].id] == MarkedSent(batch[i].notification, now)
    decreases |batch|
  {
    if batch != [] && Deliverable(batch[0], users, shuttles) {
      var d := batch[0];
      var notes1 := notes[d.id := MarkedSent(d.notification, now)];
      var tail := batch[1..];
      DeliverMarks(notes1, tail, users, shuttles, now);
      DeliverKeeps(notes1, tail, users, shuttles, now);
      var (m, k) := Deliver(notes1, tail, users, shuttles, now);
      forall i | 0 <= i < k + 1 ensures m[batch[i].id] == MarkedSent(batch[i].notification, now) {
        if i > 0 {
          assert tail[i - 1] == batch[i];
        } else {
          forall j | 0 <= j < k ensures tail[j].id != d.id {
            assert tail[j] == batch[j + 1];
          }
        }
      }
    }
  }

  /** A notification that is not among the first `count` documents is left
      as it was. */
  lemma {:induction false} DeliverKeeps(notes: map<ObjectId, Notification>, batch: seq<NotificationDoc>,
                                        users: set<ObjectId>, shuttles: set<ObjectId>, now: int)
    requires forall i :: 0 <= i < |batch| ==> batch[i].id in notes
    ensures var (m, count) := Deliver(notes, batch, users, shuttles, now);
            forall id :: id in notes && (forall i :: 0 <= i < count ==> batch[i].id != id) ==> m[id] == notes[id]
    decreases |batch|
  {
    if batch != [] && Deliverable(batch[0], users, shuttles) {
      var d := batch[0];
      var notes1 := notes[d.id := MarkedSent(d.notification, now)];
      var tail := batch[1..];
      DeliverKeeps(notes1, tail, users, shuttles, now);
      var (m, k) := Deliver(notes1, tail, users, shuttles, now);
      forall id | id in notes && (forall i :: 0 <= i < k + 1 ==> batch[i].id != id)
        ensures m[id] == notes[id]
      {
        assert batch[0].id != id;
        forall j | 0 <= j < k ensures tail[j].id != id {
          assert tail[j] == batch[j + 1];
        }
      }
    }
  }

  /** Reply of the sweep: the number of reminders sent, or a server error. */
  datatype SweepReply = Swept(message: string, count: nat) | SweepFailed(status: nat, message: string)

  /** sendScheduledReminders on a snapshot: only notifications change, and
      the sweep reports the batch size exactly when every due reminder still
      has its user and its shuttle, and a server error otherwise. */
  function SendReminders(st: Snapshot, now: int): (out: (Snapshot, SweepReply))
    requires WellFormed(st)
    ensures out.0 == st.(notifications := out.0.notifications)
    ensures out.0.notifications.Keys == st.notifications.Keys
    ensures var batch := DueBatch(st, now);
            out.1 == if forall i :: 0 <= i < |batch| ==> Deliverable(batch[i], st.users.Keys, st.shuttles.Keys)
                     then Swept(NatToString(|batch|) + " reminders sent successfully", |batch|)
                     else SweepFailed(500, ServerError)
  {
    var batch := DueBatch(st, now);
    DeliverStops(st.notifications, batch, st.users.Keys, st.shuttles.Keys, now);
    var (m, count) := Deliver(st.notifications, batch, st.users.Keys, st.shuttles.Keys, now);
    (st.(notifications := m),
     if count == |batch| then Swept(NatToString(|batch|) + " reminders sent successfully", |batch|)
     else SweepFailed(500, ServerError))
  }

  method SendScheduledReminders(db: Database, now: int) returns (reply: SweepReply)
    requires db.Valid()
    modifies db
    ensures db.Valid()
    ensures (db.State(), reply) == SendReminders(old(db.State()), now)
  {
    var batch := DueBatch(db.State(), now);
    var users := db.users.Keys;
    var shuttles := db.shuttles.Keys;
    ghost var keys := db.notifications.Keys;
    ghost var goal := Deliver(db.notifications, batch, users, shuttles, now);
    var i := 0;
    while i < |batch|
      invariant 0 <= i <= goal.1
      invariant db.notifications.Keys == keys
      invariant db.State() == old(db.State()).(notifications := db.notifications)
      invariant Deliver(db.notifications, batch[i..], users, shuttles, now) == (goal.0, goal.1 - i)
    {
      var doc := batch[i];
      assert batch[i..][0] == doc && batch[i..][1..] == batch[i + 1..];
      if doc.notification.user !in db.users || doc.notification.shuttle !in db.shuttles {
        return SweepFailed(500, ServerError);
      }
      // the push itself is a transport call with no effect on the store
      var sent := MarkedSent(doc.notification, now);
      db.notifications := db.notifications[doc.id := sent];
      i := i + 1;
    }
    reply := Swept(NatToString(|batch|) + " reminders sent successfully", |batch|);
  }

  /** A completed sweep marks every due reminder sent at `now`. */
  lemma SweepMarksDue(st: Snapshot, now: int)
    requires WellFormed(st)
    requires SendReminders(st, now).1.Swept?
    ensures forall id :: id in st.notifications && IsDue(st.notifications[id], now)
              ==> SendReminders(st, now).0.notifications[id] == MarkedSent(st.notifications[id], now)
  {
    var batch := DueBatch(st, now);
    DeliverMarks(st.notifications, batch, st.users.Keys, st.shuttles.Keys, now);
  }

  /** A sweep leaves every notification that is not due as it was. */
  lemma SweepKeepsOthers(st: Snapshot, now: int)
    requires WellFormed(st)
    ensures forall id :: id in st.notifications && !IsDue(st.notifications[id], now)
              ==> SendReminders(st, now).0.notifications[id] == st.notifications[id]
  {
    var batch := DueBatch(st, now);
    DeliverKeeps(st.notifications, batch, st.users.Keys, st.shuttles.Keys, now);
  }

  /** The fetched batch lists each due notification once. */
  lemma DueIds(st: Snapshot, now: int)
    requires WellFormed(st)
    ensures var batch := DueBatch(st, now);
            && (set id | id in st.notifications && IsDue(st.notifications[id], now))
               == (set i | 0 <= i < |batch| :: batch[i].id)
            && |set i | 0 <= i < |batch| :: batch[i].id| == |batch|
  {
    DistinctCard(DueBatch(st, now));
  }

  /** A sweep that completes marks every due reminder sent at `now`, changes
      no other notification, and reports their number. */
  lemma SweepMarksExactlyDue(st: Snapshot, now: int)
    requires WellFormed(st)
    requires SendReminders(st, now).1.Swept?
    ensures var st' := SendReminders(st, now).0;
            && st'.notifications.Keys == st.notifications.Keys
            && (forall id :: id in st.notifications && IsDue(st.notifications[id], now)
                  ==> st'.notifications[id] == MarkedSent(st.notifications[id], now))
            && (forall id :: id in st.notifications && !IsDue(st.notifications[id], now)
                  ==> st'.notifications[id] == st.notifications[id])
            && SendReminders(st, now).1.count == |set id | id in st.notifications && IsDue(st.notifications[id], now)|
  {
    SweepMarksDue(st, now);
    SweepKeepsOthers(st, now);
    DueIds(st, now);
  }

  /** Documents with strictly ascending ids have as many ids as entries. */
  lemma {:induction false} DistinctCard(batch: seq<NotificationDoc>)
    requires forall i, j :: 0 <= i < j < |batch| ==> batch[i].id < batch[j].id
    ensures |set i | 0 <= i < |batch| :: batch[i].id| == |batch|
    decreases |batch|
  {
    if batch != [] {
      var front := batch[..|batch| - 1];
      DistinctCard(front);
      var last := batch[|batch| - 1].id;
      assert (set i | 0 <= i < |batch| :: batch[i].id) == (set i | 0 <= i < |front| :: front[i].id) + {last};
      assert last !in (set i | 0 <= i < |front| :: front[i].id);
    }
  }

  /** After a completed sweep, a second sweep at the same instant finds
      nothing due. */
  lemma SecondSweepFindsNothing(st: Snapshot, now: int)
    requires WellFormed(st)
    requires SendReminders(st, now).1.Swept?
    ensures DueBatch(SendReminders(st, now).0, now) == []
  {
    SweepMarksExactlyDue(st, now);
    var st' := SendReminders(st, now).0;
    var r := DueBatch(st', now);
    if r != [] {
      assert false;
    }
  }
}
