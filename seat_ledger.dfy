/** The three handlers that move the seatsAvailable counter, run one after
    another in any order: for every shuttle, counter + active reservations
    never changes. */
module SeatLedger {
  import opened Common
  import opened Schema
  import opened Db
  import opened ReservationController
  import opened ShuttleController

  datatype Request =
    | CreateRequest(shuttleId: Option<ObjectId>, destination: string, userId: Option<ObjectId>, now: int)
    | CancelRequest(reservationId: Option<ObjectId>, userId: Option<ObjectId>, now: int)
    | ReserveRequest(target: ObjectId, userId: Option<ObjectId>, now: int)

  function Apply(st: Snapshot, req: Request): (st': Snapshot)
    requires WellFormed(st)
    ensures WellFormed(st')
    ensures st'.shuttles.Keys == st.shuttles.Keys
  {
    match req
    case CreateRequest(sid, dest, user, now) => Create(st, sid, dest, user, now).0
    case CancelRequest(rid, user, now) => Cancel(st, rid, user, now).0
    case ReserveRequest(sid, user, now) => Reserve(st, sid, user, now).0
  }

  function Run(st: Snapshot, reqs: seq<Request>): (st': Snapshot)
    requires WellFormed(st)
    ensures WellFormed(st')
    decreases |reqs|
  {
    if reqs == [] then st else Run(Apply(st, reqs[0]), reqs[1..])
  }

  /** No shuttle is ever created or removed by these handlers. */
  lemma {:induction false} RunKeepsShuttles(st: Snapshot, reqs: seq<Request>)
    requires WellFormed(st)
    ensures Run(st, reqs).shuttles.Keys == st.shuttles.Keys
    decreases |reqs|
  {
    if reqs != [] {
      RunKeepsShuttles(Apply(st, reqs[0]), reqs[1..]);
    }
  }

  /** Counter + active reservations is invariant over any request sequence. */
  lemma {:induction false} RunKeepsLedger(st: Snapshot, reqs: seq<Request>, s: ObjectId)
    requires WellFormed(st) && s in st.shuttles
    ensures s in Run(st, reqs).shuttles
    ensures Ledger(Run(st, reqs), s) == Ledger(st, s)
    decreases |reqs|
  {
    if reqs != [] {
      var st1 := Apply(st, reqs[0]);
      match reqs[0] {
        case CreateRequest(sid, dest, user, now) => CreateKeepsLedger(st, sid, dest, user, now, s);
        case CancelRequest(rid, user, now) => CancelKeepsLedger(st, rid, user, now, s);
        case ReserveRequest(sid, user, now) => ReserveKeepsLedger(st, sid, user, now, s);
      }
      RunKeepsLedger(st1, reqs[1..], s);
    }
  }

  /** A handler never drives a non-negative counter below zero: bookings
      are refused at zero. */
  lemma ApplyKeepsCounterNonNegative(st: Snapshot, req: Request, s: ObjectId)
    requires WellFormed(st) && s in st.shuttles && st.shuttles[s].seatsAvailable >= 0
    ensures s in Apply(st, req).shuttles && Apply(st, req).shuttles[s].seatsAvailable >= 0
  {
  }

  lemma {:induction false} RunKeepsCounterNonNegative(st: Snapshot, reqs: seq<Request>, s: ObjectId)
    requires WellFormed(st) && s in st.shuttles && st.shuttles[s].seatsAvailable >= 0
    ensures s in Run(st, reqs).shuttles && Run(st, reqs).shuttles[s].seatsAvailable >= 0
    decreases |reqs|
  {
    if reqs != [] {
      ApplyKeepsCounterNonNegative(st, reqs[0], s);
      RunKeepsCounterNonNegative(Apply(st, reqs[0]), reqs[1..], s);
    }
  }

  /** A shuttle that starts with counter c >= 0 and no active reservations
      never has more than c active reservations, and its counter stays
      between 0 and c. */
  lemma ActiveNeverExceedsStart(st: Snapshot, reqs: seq<Request>, s: ObjectId)
    requires WellFormed(st) && s in st.shuttles && st.shuttles[s].seatsAvailable >= 0
    requires ActiveOn(st.reservations, s) == {}
    ensures s in Run(st, reqs).shuttles
    ensures |ActiveOn(Run(st, reqs).reservations, s)| <= st.shuttles[s].seatsAvailable
    ensures 0 <= Run(st, reqs).shuttles[s].seatsAvailable <= st.shuttles[s].seatsAvailable
  {
    RunKeepsLedger(st, reqs, s);
    RunKeepsCounterNonNegative(st, reqs, s);
  }
}
