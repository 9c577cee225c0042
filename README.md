# Shuttle reservation system: a verified model of the booking rules

This project models the rules of a campus shuttle reservation app.

**Backend (an Express/MongoDB server).** It stores shuttles, each with a `seatsAvailable` counter, plus reservations and notifications.
- `createReservation` and `reserveShuttle` hand out the current counter value as the seat number, then decrement the counter.
- `cancelReservation` increments the counter and marks the reservation cancelled.
- Reminders are scheduled a number of hours before departure, and a sweep marks the due ones as sent.
- Drivers list the active passengers of a shuttle or a departure time, sorted by seat.
- Riders can search shuttles by their exact departure-time label.

**React Native screens.** They compute what they show from the fetched data:
- the passenger's trip cards, trip search, 20-seat map and client-side time-conflict check;
- the driver's trip board, which groups reservations into trips and adds three sample trips;
- the notification list, with relative timestamps and an unread badge;
- the rider's booking cards, with their fallbacks;
- the driver's history, with its filters and KPI row.

**How it is modelled.**
- The collections live in one mutable `Db.Database` object. It holds maps keyed by `ObjectId` (a `nat` handed out in increasing order), so a `find()` returns documents in id order.
- Each handler is a method on that object. It is proved to leave the database in the state, and give the reply, that a pure function of the old state computes (`Create`, `Cancel`, `Reserve`, `Schedule`, `MarkRead`, `SendReminders`).
- Lemmas about those functions carry the properties:
  - error precedence, and "nothing else changes";
  - every shuttle's ledger is kept: its counter plus its active reservations;
  - the counter never goes negative;
  - the countdown of seat numbers;
  - the sweep marks exactly the due reminders.
- The screens are pure functions over sequences. The exceptions are the two places where the code builds something step by step, which are methods with loops or stepwise assignment:
  - the driver board's grouping dictionary;
  - the history screen's filter object.

**Where the code's shape and its declared types disagree, the model follows the code:**
- `src/models/Reservation.ts` declares no `destination` field, yet `createReservation` writes one and the driver query filters on it. Reservations here carry a destination.
- `src/models/Shuttle.ts` declares only name, baseRoute, seatsCapacity and driver. Yet `reserveShuttle` in `src/controllers/shuttleController.ts` reads `seatsAvailable`, and `getShuttleReservations` in `src/controllers/driverController.ts` queries shuttles by `departureTime` and reads it back. Both are modelled over the shuttle of `dist/models/Shuttle.js`, which has those fields. A reservation `reserveShuttle` creates has no destination ("").
- The shuttle schema declares `destination` required with default "", and the required check rejects "". So a shuttle created without a destination is rejected (`Schema.ShuttleWithoutDestinationRejected`).
- The schedule screen's conflict check reads `reservation.trip`, but the reservation list is populated with `shuttle` only. Against this backend the check therefore never blocks a booking (`ScheduleScreen.NoTripNeverConflicts`).
- Seat numbers are not unique. Once a cancellation returns a seat to the counter, the next booking receives a number that is still held (`ReservationController.CancelThenCreateDuplicatesSeat`).
- The booking screen colours a "confirmed" status green, but labels it "Cancelled" and disables its cancel button (`MyBookingsScreen.ConfirmedIsMislabelled`).

Absent strings are modelled as "", because every use site treats `undefined` and "" alike. Instants are integer milliseconds. Date parsing enters as a function parameter, and the clock as a `now` parameter.

## Model

| member | source | states |
|---|---|---|
| Schema.NewShuttle | app/backend/dist/models/Shuttle.js:2-7 | a shuttle is stored iff name, departureTime and destination are given and non-empty; seatsAvailable defaults to 20; the given fields are kept |
| Schema.ShuttleWithoutDestinationRejected | app/backend/dist/models/Shuttle.js:6 | a shuttle given no destination fails validation, because the default "" is not accepted as a required value |
| Schema.NewReservation | app/backend/src/models/Reservation.ts:3-17 | a reservation is stored iff user, shuttle and seatNumber are given; it starts active, with no cancelledAt and createdAt = now |
| Schema.ParseDirection | app/backend/src/models/Trip.ts:7 | direction is forward when absent or "forward", reverse for "reverse", and rejected otherwise |
| Schema.NewTrip | app/backend/src/models/Trip.ts:3-9 | a trip is stored iff shuttle and a non-empty departureTime label are given; route defaults to "", seatsCapacity to 20, direction to forward |
| Schema.ParseNotificationType | app/backend/dist/models/Notification.js:18-22 | the type is one of reminder, confirmation and cancellation, and defaults to reminder |
| Schema.NewNotification | app/backend/dist/models/Notification.js:2-51 | a notification is stored iff its references, an allowed type, title, message and scheduledFor are present; it starts unsent and unread, with no sentAt, and keeps the given fields |
| ReservationController.Create | app/backend/dist/controllers/reservationController.js:3-37 | errors in order: 400 no shuttle id, 400 no destination, 404 unknown shuttle, 400 no seats; each error leaves the state unchanged; success adds exactly one active reservation of the caller with seatNumber = the old counter (>= 1) and decrements that counter by one, nothing else changes |
| ReservationController.CreateReservation | app/backend/dist/controllers/reservationController.js:3-37 | the handler leaves the database in the state, and returns the reply, that Create computes from the old state |
| ReservationController.Cancel | app/backend/dist/controllers/reservationController.js:47-78 | errors in order: 400 missing ids, 404 not found, 403 not owner, 400 already cancelled; each leaves the state unchanged; success sets status cancelled and cancelledAt = now and increments that reservation's shuttle counter, nothing else changes |
| ReservationController.CancelReservation | app/backend/dist/controllers/reservationController.js:47-78 | the handler's new state and reply are those of Cancel on the old state |
| ReservationController.CancelIsTerminal | app/backend/dist/controllers/reservationController.js:61-63 | after a successful cancel, cancelling again answers 400 "already cancelled" and changes nothing |
| ReservationController.Populate | app/backend/dist/controllers/reservationController.js:40 | a reservation is returned with its shuttle document, or null when that shuttle no longer exists |
| ReservationController.PopulateAll | app/backend/dist/controllers/reservationController.js:38-46 | one populated reservation per id, in the order of the ids |
| ReservationController.UserReservations | app/backend/dist/controllers/reservationController.js:38-46 | exactly the caller's reservations, each once, in id order, each with its shuttle populated |
| ReservationController.CreateKeepsLedger | app/backend/dist/controllers/reservationController.js:17-27 | createReservation keeps every shuttle's counter + active-reservation count |
| ReservationController.CancelKeepsLedger | app/backend/dist/controllers/reservationController.js:61-68 | cancelReservation keeps every shuttle's counter + active-reservation count |
| ReservationController.CancelThenCreateDuplicatesSeat | app/backend/dist/controllers/reservationController.js:23-27 | with two seats: A gets seat 2 and B seat 1; after A cancels, C also gets seat 1 while B's reservation is still active |
| SeatLedger.RunKeepsShuttles | app/backend/dist/controllers/reservationController.js:3-78 | no sequence of create, cancel and reserve calls adds or removes a shuttle |
| SeatLedger.RunKeepsLedger | app/backend/dist/controllers/reservationController.js:17-27 | over any sequence of create, cancel and reserve calls, each shuttle's counter + active-reservation count is constant |
| SeatLedger.ApplyKeepsCounterNonNegative | app/backend/dist/controllers/reservationController.js:17-19 | one handler call never drives a non-negative counter below zero |
| SeatLedger.RunKeepsCounterNonNegative | app/backend/dist/controllers/reservationController.js:17-27 | a counter that starts non-negative stays non-negative over any call sequence |
| SeatLedger.ActiveNeverExceedsStart | app/backend/dist/controllers/reservationController.js:17-27 | a shuttle that starts with counter c and no active reservations never has more than c active reservations, and its counter stays within 0..c |
| ShuttleController.GetShuttles | app/backend/src/controllers/shuttleController.ts:4-11 | every stored shuttle, each once, in id order |
| ShuttleController.DocsWhere | app/backend/src/controllers/shuttleController.ts:6 | a query for the shuttles satisfying a condition returns stored shuttles that satisfy it, every such shuttle, in id order, and nothing exactly when none does |
| ShuttleController.Reserve | app/backend/src/controllers/shuttleController.ts:13-33 | 404 for an unknown shuttle, 400 with no seats, no change on error; success stores one reservation of the caller with seatNumber = the old counter (>= 1) and decrements that counter by one |
| ShuttleController.ReserveShuttle | app/backend/src/controllers/shuttleController.ts:13-33 | the handler's new state and reply are those of Reserve on the old state |
| ShuttleController.ReserveKeepsLedger | app/backend/src/controllers/shuttleController.ts:17-27 | reserveShuttle keeps every shuttle's counter + active-reservation count |
| ShuttleController.ReserveCountdown | app/backend/src/controllers/shuttleController.ts:17-27 | from counter n, successive bookings get seats n, n-1, ..., 1, every later one is refused with 400, and the counter ends at max(0, n - calls) |
| SearchController.Search | app/backend/dist/controllers/searchController.js:2-18 | 400 without a departure time; otherwise exactly the shuttles whose label equals it, in id order, or 404 when there are none |
| SearchController.LabelDocs | app/backend/dist/controllers/searchController.js:8 | the query by departure label returns exactly the stored shuttles with that label, in id order, and nothing iff none carries it |
| SearchController.SearchIsExact | app/backend/dist/controllers/searchController.js:8 | searches for two different labels share no shuttle |
| NotificationController.Schedule | app/backend/dist/controllers/notificationController.js:5-44 | errors in order: 400 no reservation id or zero hours, 404, 403 not owner, each with no change; success stores one unsent, unread reminder of the caller for that reservation and shuttle, scheduled at departure - hours x 3,600,000 ms |
| NotificationController.ReminderValidates | app/backend/dist/controllers/notificationController.js:25-33 | the reminder the handler builds passes the model's validation exactly when its scheduled time exists, and is then an unsent, unread "Shuttle Reminder" with the hours in its message |
| NotificationController.ScheduleReminder | app/backend/dist/controllers/notificationController.js:5-44 | the handler's new state and reply are those of Schedule on the old state |
| NotificationController.ScheduleLeadTime | app/backend/dist/controllers/notificationController.js:22-23 | two lead times h1, h2 schedule reminders (h2 - h1) hours of milliseconds apart |
| NotificationController.UserDocs | app/backend/dist/controllers/notificationController.js:48 | exactly the caller's notifications, each once, in ascending id order |
| NotificationController.NewestFirst | app/backend/dist/controllers/notificationController.js:51 | a permutation sorted by descending-createdAt key holds the same documents, newest first |
| NotificationController.UserNotifications | app/backend/dist/controllers/notificationController.js:45-58 | a permutation of the caller's notifications (only and all of them), ordered by createdAt descending |
| NotificationController.MarkRead | app/backend/dist/controllers/notificationController.js:59-81 | 404 unknown, 403 not owner, with no change; otherwise isRead becomes true on that notification and nothing else changes |
| NotificationController.MarkNotificationAsRead | app/backend/dist/controllers/notificationController.js:59-81 | the handler's new state and reply are those of MarkRead on the old state |
| NotificationController.MarkReadIdempotent | app/backend/dist/controllers/notificationController.js:70 | marking twice leaves the same state and reply as marking once |
| NotificationController.DueBatch | app/backend/dist/controllers/notificationController.js:86-92 | the sweep fetches exactly the unsent reminders with scheduledFor <= now, in id order |
| NotificationController.Deliver | app/backend/dist/controllers/notificationController.js:93-106 | the loop saves at most the whole batch and adds or removes no notification |
| NotificationController.DeliverStops | app/backend/dist/controllers/notificationController.js:93-97 | the loop stops exactly at the first document whose user or shuttle no longer exists |
| NotificationController.DeliverMarks | app/backend/dist/controllers/notificationController.js:103-105 | every document the loop reached is saved with isSent true and sentAt = now |
| NotificationController.DeliverKeeps | app/backend/dist/controllers/notificationController.js:93-106 | every notification the loop did not reach is unchanged |
| NotificationController.SendReminders | app/backend/dist/controllers/notificationController.js:82-116 | the sweep changes only notifications, keeps their ids, and reports "<n> reminders sent successfully" with n the batch size exactly when every due reminder still has its user and shuttle, and a 500 otherwise |
| NotificationController.SendScheduledReminders | app/backend/dist/controllers/notificationController.js:82-116 | the handler's new state and reply are those of SendReminders on the old state |
| NotificationController.SweepMarksExactlyDue | app/backend/dist/controllers/notificationController.js:85-110 | a completed sweep marks every due reminder sent at now, changes no other notification, and reports how many were due |
| NotificationController.SweepMarksDue | app/backend/dist/controllers/notificationController.js:93-106 | a completed sweep marks every due reminder sent at now |
| NotificationController.SweepKeepsOthers | app/backend/dist/controllers/notificationController.js:86-106 | a sweep leaves every notification that is not due unchanged |
| NotificationController.DueIds | app/backend/dist/controllers/notificationController.js:86-92 | the fetched batch names every due notification exactly once |
| NotificationController.SecondSweepFindsNothing | app/backend/dist/controllers/notificationController.js:86-90 | after a completed sweep, a second one at the same instant fetches nothing |
| DriverController.BuildQuery | app/backend/src/controllers/driverController.ts:8-20 | the query asks for active reservations; a shuttle id restricts to that shuttle, else a departure time restricts to the shuttles with that label; a destination adds a case-insensitive match |
| DriverController.MatchesIffSelected | app/backend/src/controllers/driverController.ts:8-20 | the built query matches a reservation iff it is active, on the requested shuttle(s) and has a matching destination |
| DriverController.ShuttleIdTakesPrecedence | app/backend/src/controllers/driverController.ts:10-12 | with a shuttle id, the departure time has no effect on what is selected |
| DriverController.Found | app/backend/src/controllers/driverController.ts:22 | exactly the matching reservations, each once, in id order |
| DriverController.RowsOfIds | app/backend/src/controllers/driverController.ts:22 | rows read for sound, complete, ascending ids are exactly the matches, each once, in id order |
| DriverController.FoundCount | app/backend/src/controllers/driverController.ts:22 | the query returns as many rows as there are matching reservations |
| DriverController.BySeat | app/backend/src/controllers/driverController.ts:22-25 | a permutation of the matches sorted by seatNumber ascending |
| DriverController.PermutedRows | app/backend/src/controllers/driverController.ts:22-25 | any seat-sorted permutation of the matches is still in seat order, holds only matches and misses none |
| DriverController.Project | app/backend/src/controllers/driverController.ts:27-34 | the passenger row carries the user's name and email, the reservation's destination and seat, and the shuttle's departureTime and name; it is absent when the user or shuttle is gone |
| DriverController.ProjectAll | app/backend/src/controllers/driverController.ts:27-34 | one row per reservation in order, or failure when any row cannot be projected |
| DriverController.Listing | app/backend/src/controllers/driverController.ts:22-40 | the listing succeeds iff every sorted match projects, with one row per match, and otherwise answers 500 |
| DriverController.ListingSorted | app/backend/src/controllers/driverController.ts:25 | the listed rows are in ascending seat order |
| DriverController.ListingSound | app/backend/src/controllers/driverController.ts:27-34 | each listed row is the projection of a reservation the driver asked for |
| DriverController.ListingComplete | app/backend/src/controllers/driverController.ts:22-34 | each reservation the driver asked for appears among the listed rows |
| DriverController.ListingSelects | app/backend/src/controllers/driverController.ts:22-34 | a successful listing for a query that selects what the driver asked for is in seat order, holds only requested passengers and misses none |
| DriverController.BySeatIdsDistinct | app/backend/src/controllers/driverController.ts:22-25 | sorting the matches by seat keeps every reservation once: no id occurs twice among the sorted rows |
| DriverController.ListingEnumerates | app/backend/src/controllers/driverController.ts:22-34 | a successful listing is one record per requested reservation: passenger i is the projection of reservation rows[i], for a repeat-free sequence rows of requested ids |
| DriverController.ListingLength | app/backend/src/controllers/driverController.ts:22-34 | a listing has one row per matching reservation |
| DriverController.RowsProject | app/backend/src/controllers/driverController.ts:27-34 | sound and complete rows all project exactly when every matching reservation still has its user and its shuttle |
| DriverController.ListingSucceeds | app/backend/src/controllers/driverController.ts:27-39 | the listing succeeds iff every matching reservation still has its user and its shuttle |
| DriverController.ListingOutcome | app/backend/src/controllers/driverController.ts:22-39 | stated on the request parameters: success iff every requested reservation has its user and shuttle, and then one row per requested reservation |
| DriverController.ListingAnswers | app/backend/src/controllers/driverController.ts:22-39 | the listing for a query that selects what the driver asked for is the promised answer: 500, or the requested passengers sorted by seat, with exactly one record for each requested reservation (a repeat-free enumeration of the requested ids projects to the list) |
| DriverController.GetShuttleReservations | app/backend/src/controllers/driverController.ts:4-41 | the handler changes nothing; it answers 500 exactly when some requested reservation has lost its user or its shuttle, and otherwise lists the requested passengers sorted by seat, exactly one record for each requested reservation: a repeat-free sequence of the requested ids, as long as the request, projects position by position to the list |
| ScheduleScreen.TripTitle | app/frontend/src/screens/ScheduleScreen.jsx:91 | the title is "<name> - Trip <idx+1>", followed by " (Reverse)" exactly when the direction is reverse |
| ScheduleScreen.Card | app/frontend/src/screens/ScheduleScreen.jsx:78-100 | each card field with its fallback: "Shuttle", "TBD", "Route not set", 0 seats, no taken seats, String(idx) |
| ScheduleScreen.Trips | app/frontend/src/screens/ScheduleScreen.jsx:72-101 | one card per fetched trip, in order |
| ScheduleScreen.TitlesNumberTrips | app/frontend/src/screens/ScheduleScreen.jsx:91 | cards at different positions of one shuttle never share a title |
| ScheduleScreen.TripMatches | app/frontend/src/screens/ScheduleScreen.jsx:106-110 | a card matches when its time, title, shuttle name or route contains the query case-insensitively; every card matches the empty query |
| ScheduleScreen.FilteredTrips | app/frontend/src/screens/ScheduleScreen.jsx:103-112 | a blank query keeps all trips; otherwise exactly the trips whose time, title, shuttle name or route contains the trimmed query case-insensitively, in order |
| ScheduleScreen.FilteredTripsAppend | app/frontend/src/screens/ScheduleScreen.jsx:103-112 | the search keeps list order: searching a concatenation searches each part in turn |
| ScheduleScreen.FilteredTripsSingle | app/frontend/src/screens/ScheduleScreen.jsx:103-112 | one card is kept, once, exactly when the query is blank or the card matches the trimmed lower-cased query |
| ScheduleScreen.SeatMap | app/frontend/src/screens/ScheduleScreen.jsx:114-125 | no seats without a trip; else seats 1..20 in order, seat k available iff k is not taken |
| ScheduleScreen.SeatRows | app/frontend/src/screens/ScheduleScreen.jsx:127-133 | five rows, row i being the slice [4i, 4i+4); their concatenation is the seat map up to 20 seats |
| ScheduleScreen.SeatRowsOfSelected | app/frontend/src/screens/ScheduleScreen.jsx:127-133 | with a trip selected, every row has four seats and row i holds seats 4i+1..4i+4 |
| ScheduleScreen.PressSeat | app/frontend/src/screens/ScheduleScreen.jsx:355-357 | pressing a seat selects it iff it is available, otherwise the selection stays |
| ScheduleScreen.SeatsAfterBooking | app/frontend/src/screens/ScheduleScreen.jsx:239-243 | null without a trip, else max(0, seatsAvailable - 1) |
| ScheduleScreen.FirstConflict | app/frontend/src/screens/ScheduleScreen.jsx:170-174 | the first active reservation whose trip departureTime equals the selected time, or none when no reservation conflicts |
| ScheduleScreen.ConflictMessage | app/frontend/src/screens/ScheduleScreen.jsx:177-181 | the alert names the selected time and then the conflicting booking's shuttle name, or "another trip" without one |
| ScheduleScreen.ReservePress | app/frontend/src/screens/ScheduleScreen.jsx:156-192 | nothing without a trip; "Please select a seat." without a seat; a conflict alert iff a fetched active reservation conflicts, with the message naming the first conflicting reservation; in every other case (no conflict, a failed or skipped lookup) the confirmation opens |
| ScheduleScreen.NoTripNeverConflicts | app/frontend/src/screens/ScheduleScreen.jsx:171-172 | reservations without trip objects never block a booking |
| ScheduleScreen.CancelledNeverConflict | app/frontend/src/screens/ScheduleScreen.jsx:168 | cancelled reservations never block a booking |
| DriverReservationsScreen.FilterReservations | app/frontend/src/screens/DriverReservationsScreen.tsx:105-108 | a blank filter keeps every reservation; otherwise exactly those whose destination contains the trimmed filter case-insensitively |
| DriverReservationsScreen.GroupReservations | app/frontend/src/screens/DriverReservationsScreen.tsx:110-126 | the dictionary loop yields one trip per key in first-seen order, opened with the defaults of its first passenger and holding exactly its reservations in input order, with sizes summing to the kept count |
| DriverReservationsScreen.TripKeyParts | app/frontend/src/screens/DriverReservationsScreen.tsx:111 | the grouping key is the shuttle name (or "Trip"), a dash, then the departure time (or "time") |
| DriverReservationsScreen.NewGroup | app/frontend/src/screens/DriverReservationsScreen.tsx:112-123 | a new trip has the key, status ongoing, time or "TBD", route or "Route", no passengers, capacity 20, 3 stops, "Ready to depart" and "Today" |
| DriverReservationsScreen.GroupLength | app/frontend/src/screens/DriverReservationsScreen.tsx:110-126 | grouping makes at most one trip per reservation, and at least one trip when there is a reservation |
| DriverReservationsScreen.GroupingHolds | app/frontend/src/screens/DriverReservationsScreen.tsx:110-126 | keys are distinct; each trip is opened by its first reservation; each trip holds exactly the reservations of its key; every reservation is filed |
| DriverReservationsScreen.GroupKeysDistinct | app/frontend/src/screens/DriverReservationsScreen.tsx:110-126 | no two grouped trips share a key |
| DriverReservationsScreen.GroupOpened | app/frontend/src/screens/DriverReservationsScreen.tsx:112-123 | every trip has at least one passenger and takes its key, time, route and fixed fields from its first one |
| DriverReservationsScreen.GroupFiled | app/frontend/src/screens/DriverReservationsScreen.tsx:110-126 | each trip holds exactly the reservations of its key, in order, and every reservation is filed |
| DriverReservationsScreen.GroupSizes | app/frontend/src/screens/DriverReservationsScreen.tsx:110-126 | the group sizes sum to the number of kept reservations |
| DriverReservationsScreen.KeysCanCollide | app/frontend/src/screens/DriverReservationsScreen.tsx:111 | shuttle "A-B" at "C" and shuttle "A" at "B-C" are put in one trip |
| DriverReservationsScreen.SortPassengers | app/frontend/src/screens/DriverReservationsScreen.tsx:131-136 | a trip's passengers become a permutation sorted by destination; the other fields are kept |
| DriverReservationsScreen.SortAll | app/frontend/src/screens/DriverReservationsScreen.tsx:130-136 | every trip is passed through the passenger sort, in order |
| DriverReservationsScreen.MocksSorted | app/frontend/src/screens/DriverReservationsScreen.tsx:31-79 | the sample trips are already in destination order |
| DriverReservationsScreen.NormalizedUnfiltered | app/frontend/src/screens/DriverReservationsScreen.tsx:128-142 | without a filter the board is the grouped trips, sorted, followed by the three sample trips |
| DriverReservationsScreen.GroupedTripsVisible | app/frontend/src/screens/DriverReservationsScreen.tsx:137-142 | with a filter, every trip grouped from the kept reservations stays on the board |
| DriverReservationsScreen.MocksFiltered | app/frontend/src/screens/DriverReservationsScreen.tsx:137-142 | with a filter, the passenger-less sample trips are dropped and the first one stays iff "Bakakeng" contains the filter |
| DriverReservationsScreen.EmptyTripHidden | app/frontend/src/screens/DriverReservationsScreen.tsx:137-142 | with a filter, a trip without passengers is hidden |
| DriverReservationsScreen.SameDestinationVisible | app/frontend/src/screens/DriverReservationsScreen.tsx:137-142 | with a filter, a trip whose passengers all share one destination is shown iff that destination contains the filter |
| DriverReservationsScreen.NormalizedFiltered | app/frontend/src/screens/DriverReservationsScreen.tsx:102-143 | with a filter the board is the sorted trips of the kept reservations, followed by the first sample trip only when it matches |
| DriverReservationsScreen.NormalizedTrips | app/frontend/src/screens/DriverReservationsScreen.tsx:102-143 | the board holds no more trips than the grouped and sample trips, each one of them with its passengers sorted, and each visible under the filter |
| DriverReservationsScreen.SampleBoard | app/frontend/src/screens/DriverReservationsScreen.tsx:128 | with no reservations and no filter the board is exactly the sample trips |
| DriverReservationsScreen.FirstOngoing | app/frontend/src/screens/DriverReservationsScreen.tsx:146 | the position of the first ongoing trip, or none iff no trip is ongoing |
| DriverReservationsScreen.DropOffs | app/frontend/src/screens/DriverReservationsScreen.tsx:148 | exactly the non-empty destinations of the trip's passengers |
| DriverReservationsScreen.SortedHeadIsLeast | app/frontend/src/screens/DriverReservationsScreen.tsx:150 | the head of the sorted destinations is one of them and precedes all of them |
| DriverReservationsScreen.NearestDropOff | app/frontend/src/screens/DriverReservationsScreen.tsx:145-151 | "" without an ongoing trip or a non-empty destination; otherwise the least non-empty destination of the first ongoing trip |
| DriverReservationsScreen.SampleDropOff | app/frontend/src/screens/DriverReservationsScreen.tsx:145-151 | on the sample trips the nearest drop-off is "Bakakeng" |
| DriverReservationsScreen.Capacity | app/frontend/src/screens/DriverReservationsScreen.tsx:257 | a capacity of 0 reads as 20 and a positive capacity is kept |
| DriverReservationsScreen.SeatHolder | app/frontend/src/screens/DriverReservationsScreen.tsx:260 | the first passenger with that seat number, or none iff nobody holds it |
| DriverReservationsScreen.CellAt | app/frontend/src/screens/DriverReservationsScreen.tsx:259-262 | a cell shows its seat's holder with key email-seat and presence defaulting to present; an empty seat is available with key seat-N |
| DriverReservationsScreen.PassengerGrid | app/frontend/src/screens/DriverReservationsScreen.tsx:256-262 | exactly capacity cells, cell i for seat i + 1 |
| DriverReservationsScreen.GridShowsSeatedPassengers | app/frontend/src/screens/DriverReservationsScreen.tsx:256-262 | a passenger whose seat is on the grid makes that seat's cell show a passenger of that seat, with a presence mark |
| DriverReservationsScreen.SeatSuffixDistinct | app/frontend/src/screens/DriverReservationsScreen.tsx:261 | keys ending in "-" and two different seat numbers never coincide |
| DriverReservationsScreen.GridKeysDistinct | app/frontend/src/screens/DriverReservationsScreen.tsx:261 | no two cells of one grid share a presence key |
| DriverReservationsScreen.TogglePresence | app/frontend/src/screens/DriverReservationsScreen.tsx:189-194 | the given key gets the new status and every other key is unchanged |
| DriverReservationsScreen.ToggleChangesOneCell | app/frontend/src/screens/DriverReservationsScreen.tsx:189-194 | marking a key changes only the cell with that key, and an empty seat stays available |
| DriverReservationsScreen.PresenceSharedAcrossTrips | app/frontend/src/screens/DriverReservationsScreen.tsx:90 | the presence record is shared by all trips: the same e-mail on the same seat shows one status in every trip |
| NotificationsScreen.FormatDateTime | app/frontend/src/screens/NotificationsScreen.tsx:23-48 | "" for "", the value for an unparseable date, then by elapsed time: "Just now", "N min ago", "N hour(s) ago", "N day(s) ago", and a calendar date from 7 days on |
| NotificationsScreen.RelativeAgeIsFloor | app/frontend/src/screens/NotificationsScreen.tsx:30-38 | the N of a relative label is the whole number of units elapsed: N units have passed and N + 1 have not |
| NotificationsScreen.FutureIsJustNow | app/frontend/src/screens/NotificationsScreen.tsx:35 | a timestamp in the future reads "Just now" |
| NotificationsScreen.SingularAtOne | app/frontend/src/screens/NotificationsScreen.tsx:37-38 | exactly one hour or one day reads "1 hour ago" or "1 day ago", without "s" |
| NotificationsScreen.Icon | app/frontend/src/screens/NotificationsScreen.tsx:50-61 | the fixed icon of each known type, "notifications" for any other |
| NotificationsScreen.Colour | app/frontend/src/screens/NotificationsScreen.tsx:63-74 | the fixed colour of each known type, "#6b7280" for any other |
| NotificationsScreen.IconAndColourAgree | app/frontend/src/screens/NotificationsScreen.tsx:50-74 | icon and colour agree on which types are unknown, and on which types are told apart |
| NotificationsScreen.UnreadCount | app/frontend/src/screens/NotificationsScreen.tsx:135 | the number of unread entries (CountWhere over the list); at most the list length; 0 iff all are read; the full length iff none is read |
| NotificationsScreen.MarkAsReadLocal | app/frontend/src/screens/NotificationsScreen.tsx:111-113 | same length; an entry with that id becomes read; every other entry is unchanged |
| NotificationsScreen.MarkAsReadCount | app/frontend/src/screens/NotificationsScreen.tsx:111-113 | the badge drops by exactly the number of unread entries carrying the id |
| NotificationsScreen.MarkAsReadIdempotent | app/frontend/src/screens/NotificationsScreen.tsx:112 | marking the same id twice equals marking it once |
| NotificationsScreen.MarkAsRead | app/frontend/src/screens/NotificationsScreen.tsx:106-117 | a failed server call keeps the list and shows an error; a successful one applies the local update |
| NotificationsScreen.Press | app/frontend/src/screens/NotificationsScreen.tsx:119-128 | a mark-read request iff the entry is unread, for its id; an alert with its title and message iff it has a reservation |
| NotificationsScreen.PressMarksOnce | app/frontend/src/screens/NotificationsScreen.tsx:119-122 | after a press the entry is read, and pressing it again sends no request |
| MyBookingsScreen.FormatBookingTime | app/frontend/src/screens/MyBookingsScreen.tsx:22-58 | "TBD" for null, empty or white-space input; a parseable date is shown as a date and time; any other string as it is |
| MyBookingsScreen.FirstText | app/frontend/src/screens/MyBookingsScreen.tsx:124-128 | the first non-empty candidate, or null iff all are empty |
| MyBookingsScreen.ReplaceArrows | app/frontend/src/screens/MyBookingsScreen.tsx:139 | the result contains no "->", is no longer than the input, and is the input itself when it has no "->" |
| MyBookingsScreen.Restore | app/frontend/src/screens/MyBookingsScreen.tsx:139 | turning every "→" back into "->" leaves no "→" and changes nothing in a text without one |
| MyBookingsScreen.RestoreReplaceArrows | app/frontend/src/screens/MyBookingsScreen.tsx:139 | on a text without "→", the replacement turns each "->" into "→" and changes nothing else: restoring the arrows gives the text back |
| MyBookingsScreen.RouteHasNoArrow | app/frontend/src/screens/MyBookingsScreen.tsx:139-140 | after the first replacement the text contains no "->", so the second replacement has nothing to match |
| MyBookingsScreen.ReplaceArrowsIdempotent | app/frontend/src/screens/MyBookingsScreen.tsx:139 | replacing twice equals replacing once |
| MyBookingsScreen.Project | app/frontend/src/screens/MyBookingsScreen.tsx:121-145 | each card field with its fallback chain: id or String(idx), "Booking #idx+1", status or "active", departureTime, time or departureDate, destination, name or reservation destination or "Route not set", shuttleNumber or name or "Shuttle" |
| MyBookingsScreen.Bookings | app/frontend/src/screens/MyBookingsScreen.tsx:119-148 | one card per reservation, in order |
| MyBookingsScreen.TitlesDistinct | app/frontend/src/screens/MyBookingsScreen.tsx:131 | two cards never share a title |
| MyBookingsScreen.RoutesHaveNoArrow | app/frontend/src/screens/MyBookingsScreen.tsx:134-140 | no route shown on a card contains "->" |
| MyBookingsScreen.StatusColor | app/frontend/src/screens/MyBookingsScreen.tsx:116-117 | green iff the status is "active" or "confirmed", red otherwise |
| MyBookingsScreen.StatusLabel | app/frontend/src/screens/MyBookingsScreen.tsx:209 | "Confirmed" iff the status is "active", "Cancelled" otherwise |
| MyBookingsScreen.ConfirmedIsMislabelled | app/frontend/src/screens/MyBookingsScreen.tsx:208-209 | a "confirmed" booking is green but labelled "Cancelled", and its cancel button is disabled |
| MyBookingsScreen.CancelButton | app/frontend/src/screens/MyBookingsScreen.tsx:245-252 | disabled iff the status is not active or its cancel is in flight; caption "Cancelled", "Cancelling..." or "Cancel" accordingly |
| MyBookingsScreen.InFlightBlocksOnlyItself | app/frontend/src/screens/MyBookingsScreen.tsx:245-252 | an in-flight cancel disables its own button and leaves every other active booking cancellable |
| DriverHistoryScreen.Sent | app/frontend/src/screens/DriverHistoryScreen.tsx:36 | a filter box is sent iff it holds something besides white space, and then as its trimmed, non-empty value |
| DriverHistoryScreen.BuildFilters | app/frontend/src/screens/DriverHistoryScreen.tsx:35-38 | the filter object carries date, destination and minPassengers exactly when the box is not blank, each as its trimmed value |
| DriverHistoryScreen.FiltersFor | app/frontend/src/screens/DriverHistoryScreen.tsx:35-38 | each key of the filter object is present iff its box holds more than white space, and then carries the trimmed box |
| DriverHistoryScreen.FilteredHistory | app/frontend/src/screens/DriverHistoryScreen.tsx:53-55 | the list shown is the fetched history unchanged |
| DriverHistoryScreen.TotalPassengersAppend | app/frontend/src/screens/DriverHistoryScreen.tsx:57-60 | the passenger total of two histories joined is the sum of their totals |
| DriverHistoryScreen.TotalPassengers | app/frontend/src/screens/DriverHistoryScreen.tsx:57-60 | 0 for an empty history, a single trip's count for a one-trip history (with TotalPassengersAppend this fixes the sum), and never negative when no trip has a negative count |
| DriverHistoryScreen.TotalPassengersBounds | app/frontend/src/screens/DriverHistoryScreen.tsx:57-60 | with no negative counts the total is non-negative and at least every trip's count |
| DriverHistoryScreen.FiltersKpi | app/frontend/src/screens/DriverHistoryScreen.tsx:93 | the number of non-empty boxes among date, destination and minimum passengers (CountWhere over the three), hence at most 3, and 0 iff all three are empty |
| DriverHistoryScreen.KpiRow | app/frontend/src/screens/DriverHistoryScreen.tsx:81-95 | Trips is the history length, Passengers the passenger total, Filters the count of non-empty boxes |
| DriverHistoryScreen.SentWithinKpi | app/frontend/src/screens/DriverHistoryScreen.tsx:93 | the KPI never counts fewer filters than are sent, and counts more iff some box holds only white space |
| DriverHistoryScreen.WhitespaceCountsButIsNotSent | app/frontend/src/screens/DriverHistoryScreen.tsx:93 | a box holding one space counts in the KPI, but the request carries no filter |
| DriverHistoryScreen.ClearFilters | app/frontend/src/screens/DriverHistoryScreen.tsx:62-66 | all three boxes become "" and the expanded trip is kept |
| DriverHistoryScreen.ClearedSendsNothing | app/frontend/src/screens/DriverHistoryScreen.tsx:62-66 | after clearing, the Filters KPI is 0 and the request carries no filter |
| DriverHistoryScreen.ToggleExpanded | app/frontend/src/screens/DriverHistoryScreen.tsx:166 | pressing the expanded trip collapses it; pressing any other trip expands it; nothing else changes |
| DriverHistoryScreen.PressExpandsAtMostOne | app/frontend/src/screens/DriverHistoryScreen.tsx:166 | after a press either no trip is expanded, or exactly the pressed trip (and any that share its id) is |
| DriverHistoryScreen.PressTwice | app/frontend/src/screens/DriverHistoryScreen.tsx:166 | two presses on a trip restore the screen when that trip, or no trip, was expanded |

## Left out

- Rendering, styles, modals, navigation and the loading/error/refresh state of every screen are not modelled; only the values the screens compute are.
- The network calls (the frontend services, the `useEffect` refetches) are not modelled; fetched data enters as parameters.
- Authentication and the `User` model are not part of this model; a caller is an optional user id.
- Concurrency is not modelled: each handler runs as one atomic step, so the race between `findById` and `$inc` is not captured.
- The push transport is not part of this model; a push succeeds exactly when the notification's user and shuttle still exist.
- A malformed ObjectId makes Mongoose throw a cast error (answer 500); ids are well-formed here.
- `getUserNotifications` without a user is not modelled; the caller's id is always given.
- Date parsing and locale formatting are parameters or placeholders; `new Date` is a function to an optional millisecond count.
- NotificationsScreen.FormatDateTime: the 7-day-and-older branch yields a placeholder for the locale calendar date, not its text.
- MyBookingsScreen.FormatBookingTime: a parseable value yields a placeholder for the locale time and date, not its text.
- NotificationController.UserNotifications: the order among notifications with equal createdAt is left open, as the database leaves it.
- DriverReservationsScreen.SortPassengers: `localeCompare` is approximated by code-point order of the strings. The stability of `Array.prototype.sort` (passengers with the same destination keep their order) is not stated.
- DriverReservationsScreen.NearestDropOff: the least destination is by code-point order, not locale order.
- ShuttleController.ReserveShuttle: the re-validation that `shuttle.save()` performs is not modelled, and the stored-shuttle invariant does not carry the schema's required fields. The validation cannot fail in the application: every stored shuttle was created through the schema (`Schema.NewShuttle`), so its name, departureTime and destination are present and non-empty, and reserving changes only `seatsAvailable`, and only when it is positive.
- DriverController.BuildQuery: the destination `$regex` is modelled as a case-insensitive substring match, so regex metacharacters are not interpreted.
- Case folding (`toLowerCase`) is modelled for ASCII letters only.
- `trim()` removes ASCII white space, no-break space and the byte-order mark, not every Unicode space.
- The booking confirmation (`handleReserve`) is a network call followed by a refetch of the shuttles; it is not modelled.
- The driver board's trip cards (`renderTripCard`) and the history screen's passenger rows are rendering only.
- The optional recurrence fields of a booking card are never set by the projection, so that part of the card is not modelled.
- `src/models/Shuttle.ts` declares only name, baseRoute, seatsCapacity and driver, yet `src/controllers/driverController.ts` and `src/controllers/shuttleController.ts` import it and read `departureTime` and `seatsAvailable`. Their shuttles are modelled with the fields of `dist/models/Shuttle.js`, so that schema file itself is not modelled, nor the older backend schema variants.
- NotificationController.UserNotifications: the `.populate("shuttle").populate("reservation")` of `getUserNotifications` is not modelled; each listed notification carries the ids of its shuttle and reservation, not the documents.
- Hours before departure are whole numbers; a fractional lead time is not modelled.
