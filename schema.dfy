/** The stored records of the backend and how a new document is built from
    the fields a handler passes: required fields, enum values and defaults,
    as Mongoose applies them when a document is saved. A required String
    field rejects the empty string (Mongoose's default required check), and
    defaults are applied before validation. */
module Schema {
  import opened Common

  /** A MongoDB ObjectId. Ids are allocated in increasing order. */
  type ObjectId = nat

  // ---------------------------------------------------------------------
  // Shuttle (the record carrying the seatsAvailable counter)

  datatype Shuttle = Shuttle(name: string, departureTime: string, seatsAvailable: int, destination: string)

  /** Fields given when a shuttle document is created; None = not given. */
  datatype ShuttleInput = ShuttleInput(
    name: Option<string>, departureTime: Option<string>,
    seatsAvailable: Option<int>, destination: Option<string>)

  predicate RequiredText(v: Option<string>)
  {
    v.Some? && v.value != ""
  }


  function NewShuttle(input: ShuttleInput): (r: Option<Shuttle>)
    ensures r.Some? <==> RequiredText(input.name) && RequiredText(input.departureTime)
                         && input.destination.Some? && input.destination.value != ""
    ensures r.Some? ==> r.value.seatsAvailable == OrDefault(input.seatsAvailable, 20)
    ensures r.Some? ==> r.value.name == input.name.value && r.value.departureTime == input.departureTime.value
                        && r.value.destination == input.destination.value
  {
    var destination := OrDefault(input.destination, "");
    if RequiredText(input.name) && RequiredText(input.departureTime) && destination != "" then
      Some(Shuttle(input.name.value, input.departureTime.value, OrDefault(input.seatsAvailable, 20), destination))
    else
      None
  }

  /** The destination default "" never passes the required check, so a
      shuttle created without a destination is rejected. */
  lemma ShuttleWithoutDestinationRejected(name: string, departureTime: string, seats: Option<int>)
    ensures NewShuttle(ShuttleInput(Some(name), Some(departureTime), seats, None)).None?
  {
  }

  // ---------------------------------------------------------------------
  // Reservation

  datatype ReservationStatus = Active | Cancelled

  /** A stored reservation. `destination` is written by createReservation and
      read by the driver query; "" stands for a reservation stored without one. */
  datatype Reservation = Reservation(
    user: ObjectId, shuttle: ObjectId, seatNumber: int, destination: string,
    createdAt: int, status: ReservationStatus, cancelledAt: Option<int>)

  datatype ReservationInput = ReservationInput(
    user: Option<ObjectId>, shuttle: Option<ObjectId>, seatNumber: Option<int>, destination: string)

  /** The document saved for a new reservation, or None when a required
      field is missing (the save then throws). */
  function NewReservation(input: ReservationInput, now: int): (r: Option<Reservation>)
    ensures r.Some? <==> input.user.Some? && input.shuttle.Some? && input.seatNumber.Some?
    ensures r.Some? ==> r.value.status == Active && r.value.cancelledAt == None && r.value.createdAt == now
    ensures r.Some? ==> r.value.user == input.user.value && r.value.shuttle == input.shuttle.value
                        && r.value.seatNumber == input.seatNumber.value && r.value.destination == input.destination
  {
    if input.user.Some? && input.shuttle.Some? && input.seatNumber.Some? then
      Some(Reservation(input.user.value, input.shuttle.value, input.seatNumber.value, input.destination,
                       now, Active, None))
    else
      None
  }

  // ---------------------------------------------------------------------
  // Trip

  datatype Direction = Forward | Reverse

  datatype Trip = Trip(shuttle: ObjectId, departureTime: string, route: string, direction: Direction, seatsCapacity: int)

  datatype TripInput = TripInput(
    shuttle: Option<ObjectId>, departureTime: Option<string>, route: Option<string>,
    direction: Option<string>, seatsCapacity: Option<int>)

  /** The enum check on `direction`: None when the value is not allowed. */
  function ParseDirection(v: Option<string>): (d: Option<Direction>)
    ensures d == Some(Forward) <==> v.None? || v == Some("forward")
    ensures d == Some(Reverse) <==> v == Some("reverse")
  {
    if v.None? || v.value == "forward" then Some(Forward)
    else if v.value == "reverse" then Some(Reverse)
    else None
  }

  /** departureTime is a required wall-clock label kept as a string. */
  function NewTrip(input: TripInput): (r: Option<Trip>)
    ensures r.Some? <==> input.shuttle.Some? && RequiredText(input.departureTime)
                         && ParseDirection(input.direction).Some?
    ensures r.Some? ==> r.value.shuttle == input.shuttle.value && r.value.departureTime == input.departureTime.value
    ensures r.Some? ==> r.value.route == OrDefault(input.route, "") && r.value.seatsCapacity == OrDefault(input.seatsCapacity, 20)
    ensures r.Some? && input.direction.None? ==> r.value.direction == Forward
  {
    var direction := ParseDirection(input.direction);
    if input.shuttle.Some? && RequiredText(input.departureTime) && direction.Some? then
      Some(Trip(input.shuttle.value, input.departureTime.value, OrDefault(input.route, ""),
                direction.value, OrDefault(input.seatsCapacity, 20)))
    else
      None
  }

  // ---------------------------------------------------------------------
  // Notification

  datatype NotificationType = Reminder | Confirmation | CancellationNotice

  datatype Notification = Notification(
    user: ObjectId, reservation: ObjectId, shuttle: ObjectId, kind: NotificationType,
    title: string, message: string, scheduledFor: int,
    isSent: bool, sentAt: Option<int>, isRead: bool, createdAt: int)

  datatype NotificationInput = NotificationInput(
    user: Option<ObjectId>, reservation: Option<ObjectId>, shuttle: Option<ObjectId>,
    kind: Option<string>, title: string, message: string, scheduledFor: Option<int>)

  function ParseNotificationType(v: Option<string>): (t: Option<NotificationType>)
    ensures t == Some(Reminder) <==> v.None? || v == Some("reminder")
    ensures t == Some(Confirmation) <==> v == Some("confirmation")
    ensures t == Some(CancellationNotice) <==> v == Some("cancellation")
  {
    if v.None? || v.value == "reminder" then Some(Reminder)
    else if v.value == "confirmation" then Some(Confirmation)
    else if v.value == "cancellation" then Some(CancellationNotice)
    else None
  }

  /** The document saved for a new notification: not yet sent, unread. */
  function NewNotification(input: NotificationInput, now: int): (r: Option<Notification>)
    ensures r.Some? <==> input.user.Some? && input.reservation.Some? && input.shuttle.Some?
                         && ParseNotificationType(input.kind).Some?
                         && input.title != "" && input.message != "" && input.scheduledFor.Some?
    ensures r.Some? ==> !r.value.isSent && r.value.sentAt == None && !r.value.isRead && r.value.createdAt == now
    ensures r.Some? ==> r.value.user == input.user.value && r.value.reservation == input.reservation.value
                        && r.value.shuttle == input.shuttle.value && r.value.scheduledFor == input.scheduledFor.value
                        && r.value.title == input.title && r.value.message == input.message
    ensures r.Some? && input.kind.None? ==> r.value.kind == Reminder
  {
    var kind := ParseNotificationType(input.kind);
    if input.user.Some? && input.reservation.Some? && input.shuttle.Some? && kind.Some?
       && input.title != "" && input.message != "" && input.scheduledFor.Some? then
      Some(Notification(input.user.value, input.reservation.value, input.shuttle.value, kind.value,
                        input.title, input.message, input.scheduledFor.value, false, None, false, now))
    else
      None
  }

  // ---------------------------------------------------------------------
  // User: only the fields the modelled handlers read

  datatype User = User(name: string, email: string)
}
