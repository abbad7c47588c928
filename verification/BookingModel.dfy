/** The seat and booking tables, the four guarded transitions over them, and each use case as one
    atomic operation. The interleaved protocol (BookingProtocol) is proved to refine runs of these. */
module BookingModel {
  import opened Wrappers

  datatype SeatStatus = Available | Held | Booked
  datatype Seat = Seat(status: SeatStatus, version: int)

  datatype BookingStatus = Pending | Confirmed | Cancelled | Expired
  datatype Booking = Booking(seatId: nat, userId: nat, status: BookingStatus, holdExpiresAt: int)

  datatype Db = Db(seats: map<nat, Seat>, bookings: map<nat, Booking>)

  datatype Call =
    | Reserve(seatId: nat, userId: nat, holdExpiresAt: int)
    | Confirm(bookingId: nat, userId: nat)
    | Cancel(bookingId: nat, userId: nat)
    | Expire(bookingId: nat)

  datatype Outcome =
    | SeatNotFound
    | SeatUnavailable
    | Reserved(bookingId: nat)
    | BookingNotFound
    | NotConfirmable(found: Option<BookingStatus>)
    | ConfirmDone
    | NotCancellable(found: Option<BookingStatus>)
    | CancelDone
    | NothingToExpire
    | ExpireDone(seatReleased: bool)
    | StateDrift

  // ----- the WHERE and SET clauses of the UPDATE statements -----

  /** The booking statuses that the WHERE clause of this call's booking UPDATE accepts. */
  function BookingFrom(call: Call): set<BookingStatus>
    requires !call.Reserve?
  {
    if call.Cancel? then {Pending, Confirmed} else {Pending}
  }

  function BookingTo(call: Call): BookingStatus
    requires !call.Reserve?
  {
    match call
    case Confirm(_, _) => Confirmed
    case Cancel(_, _) => Cancelled
    case Expire(_) => Expired
  }

  /** The seat statuses that the WHERE clause of this call's seat UPDATE accepts. */
  function SeatFrom(call: Call): set<SeatStatus> {
    match call
    case Reserve(_, _, _) => {Available}
    case Confirm(_, _) => {Held}
    case Cancel(_, _) => {Held, Booked}
    case Expire(_) => {Held}
  }

  function SeatTo(call: Call): SeatStatus {
    match call
    case Reserve(_, _, _) => Held
    case Confirm(_, _) => Booked
    case Cancel(_, _) => Available
    case Expire(_) => Available
  }

  predicate SeatMatches(db: Db, seatId: nat, from: set<SeatStatus>) {
    seatId in db.seats && db.seats[seatId].status in from
  }

  predicate BookingMatches(db: Db, bookingId: nat, from: set<BookingStatus>) {
    bookingId in db.bookings && db.bookings[bookingId].status in from
  }

  /** The row a matching seat UPDATE writes: the new status, and the version bumped by one. */
  function MovedSeat(seat: Seat, to: SeatStatus): Seat {
    Seat(to, seat.version + 1)
  }

  /** The read made before the transaction: the seat exists, or the booking exists and is the caller's.
      The expiry job reads nothing beforehand. */
  predicate Admissible(db: Db, call: Call) {
    match call
    case Reserve(seatId, _, _) => seatId in db.seats
    case Confirm(b, u) => b in db.bookings && db.bookings[b].userId == u
    case Cancel(b, u) => b in db.bookings && db.bookings[b].userId == u
    case Expire(_) => true
  }

  function NotAdmitted(call: Call): Outcome {
    if call.Reserve? then SeatNotFound else BookingNotFound
  }

  /** What the caller is told when the booking UPDATE matched no row and `found` is the status re-read. */
  function LostOutcome(call: Call, found: Option<BookingStatus>): Outcome
    requires !call.Reserve?
  {
    match call
    case Confirm(_, _) => NotConfirmable(found)
    case Cancel(_, _) => NotCancellable(found)
    case Expire(_) => NothingToExpire
  }

  function WonOutcome(call: Call, newId: nat, seatMoved: bool): Outcome {
    match call
    case Reserve(_, _, _) => Reserved(newId)
    case Confirm(_, _) => ConfirmDone
    case Cancel(_, _) => CancelDone
    case Expire(_) => ExpireDone(seatMoved)
  }

  function StatusOf(db: Db, bookingId: nat): Option<BookingStatus> {
    if bookingId in db.bookings then Some(db.bookings[bookingId].status) else None
  }

  /** One use case run alone, from its first read to its last; `newId` is the id the sequence hands out. */
  function Apply(db: Db, call: Call, newId: nat): (Db, Outcome) {
    if !Admissible(db, call) then (db, NotAdmitted(call))
    else if call.Reserve? then
      if SeatMatches(db, call.seatId, SeatFrom(call)) then
        (Db(db.seats[call.seatId := MovedSeat(db.seats[call.seatId], SeatTo(call))],
            db.bookings[newId := Booking(call.seatId, call.userId, Pending, call.holdExpiresAt)]),
         Reserved(newId))
      else (db, SeatUnavailable)
    else if !BookingMatches(db, call.bookingId, BookingFrom(call)) then
      (db, LostOutcome(call, StatusOf(db, call.bookingId)))
    else
      var row := db.bookings[call.bookingId];
      var bookings := db.bookings[call.bookingId := row.(status := BookingTo(call))];
      if SeatMatches(db, row.seatId, SeatFrom(call)) then
        (Db(db.seats[row.seatId := MovedSeat(db.seats[row.seatId], SeatTo(call))], bookings),
         WonOutcome(call, newId, true))
      else if call.Expire? then (Db(db.seats, bookings), ExpireDone(false))
      else (db, StateDrift)
  }

  // ----- what the two tables mean together -----

  predicate IsActive(status: BookingStatus) {
    status == Pending || status == Confirmed
  }

  predicate Occupies(db: Db, bookingId: nat, seatId: nat) {
    bookingId in db.bookings && db.bookings[bookingId].seatId == seatId && IsActive(db.bookings[bookingId].status)
  }

  function SeatStatusFor(status: BookingStatus): SeatStatus {
    match status
    case Pending => Held
    case Confirmed => Booked
    case Cancelled => Available
    case Expired => Available
  }

  /** The correspondence: every active booking's seat shows that booking's state, no seat has two active
      bookings, and a seat that is not available has one. */
  ghost predicate Consistent(db: Db) {
    && (forall b, x {:trigger Occupies(db, b, x)} :: Occupies(db, b, x) ==>
          x in db.seats && db.seats[x].status == SeatStatusFor(db.bookings[b].status))
    && (forall b, c, x {:trigger Occupies(db, b, x), Occupies(db, c, x)} ::
          Occupies(db, b, x) && Occupies(db, c, x) ==> b == c)
    && (forall x {:trigger Taken(db, x)} :: Taken(db, x) ==> exists b :: Occupies(db, b, x))
  }

  predicate Taken(db: Db, seatId: nat) {
    seatId in db.seats && db.seats[seatId].status != Available
  }

  ghost predicate HasStatusOn(db: Db, b: nat, x: nat, status: BookingStatus) {
    b in db.bookings && db.bookings[b].seatId == x && db.bookings[b].status == status
  }

  ghost predicate ExactlyOne(db: Db, x: nat, status: BookingStatus) {
    exists b :: HasStatusOn(db, b, x, status) && forall c :: HasStatusOn(db, c, x, status) ==> c == b
  }

  ghost predicate NoneWith(db: Db, x: nat, status: BookingStatus) {
    forall b :: !HasStatusOn(db, b, x, status)
  }

  /** Held, booked and available, each characterised by the seat's bookings: no seat is ever sold twice. */
  lemma SeatStatusMeaning(db: Db, x: nat)
    requires Consistent(db) && x in db.seats
    ensures db.seats[x].status == Held <==> ExactlyOne(db, x, Pending) && NoneWith(db, x, Confirmed)
    ensures db.seats[x].status == Booked <==> ExactlyOne(db, x, Confirmed) && NoneWith(db, x, Pending)
    ensures db.seats[x].status == Available <==> NoneWith(db, x, Pending) && NoneWith(db, x, Confirmed)
  {
    forall b, status | HasStatusOn(db, b, x, status) && IsActive(status)
      ensures Occupies(db, b, x) && db.seats[x].status == SeatStatusFor(status)
    {
      assert Occupies(db, b, x);
    }
    if Taken(db, x) {
      var b :| Occupies(db, b, x);
      assert HasStatusOn(db, b, x, db.bookings[b].status);
      assert db.bookings[b].status == if db.seats[x].status == Held then Pending else Confirmed;
      forall c | HasStatusOn(db, c, x, db.bookings[b].status) ensures c == b {
        assert Occupies(db, c, x);
      }
    }
  }

  // ----- one operation at a time -----

  predicate AllowedMove(from: BookingStatus, to: BookingStatus) {
    (from == Pending && to != Pending) || (from == Confirmed && to == Cancelled)
  }

  /** Bookings are never deleted, never change seat or owner, and their status only moves forward. */
  ghost predicate Advances(db: Db, db': Db) {
    && db'.seats.Keys == db.seats.Keys
    && forall b {:trigger b in db'.bookings} {:trigger db'.bookings[b]} :: b in db.bookings ==>
         && b in db'.bookings
         && db'.bookings[b].seatId == db.bookings[b].seatId
         && db'.bookings[b].userId == db.bookings[b].userId
         && db'.bookings[b].holdExpiresAt == db.bookings[b].holdExpiresAt
         && (db'.bookings[b].status == db.bookings[b].status ||
             AllowedMove(db.bookings[b].status, db'.bookings[b].status))
  }

  /** An id that the sequence has not handed out before; calls that insert nothing do not use it. */
  predicate FreshFor(db: Db, call: Call, newId: nat) {
    Apply(db, call, newId).1.Reserved? ==> newId !in db.bookings
  }

  lemma ApplyAdvances(db: Db, call: Call, newId: nat)
    requires FreshFor(db, call, newId)
    ensures Advances(db, Apply(db, call, newId).0)
  {
  }

  /** Every use case keeps the correspondence, never reports drift and never expires a booking without
      releasing its seat. */
  lemma ApplyKeepsConsistent(db: Db, call: Call, newId: nat)
    requires Consistent(db) && FreshFor(db, call, newId)
    ensures Consistent(Apply(db, call, newId).0)
    ensures Apply(db, call, newId).1 != StateDrift && Apply(db, call, newId).1 != ExpireDone(false)
  {
    var (db', outcome) := Apply(db, call, newId);
    if db' == db {
      if !call.Reserve? && Admissible(db, call) && BookingMatches(db, call.bookingId, BookingFrom(call)) {
        assert Occupies(db, call.bookingId, db.bookings[call.bookingId].seatId);
      }
    } else if call.Reserve? {
      ReserveKeepsConsistent(db, call, newId);
    } else {
      SettleKeepsConsistent(db, call, newId);
    }
  }

  lemma ReserveKeepsConsistent(db: Db, call: Call, newId: nat)
    requires Consistent(db) && FreshFor(db, call, newId)
    requires call.Reserve? && Apply(db, call, newId).1.Reserved?
    ensures Consistent(Apply(db, call, newId).0)
  {
    var db' := Apply(db, call, newId).0;
    forall b, x | Occupies(db', b, x) && b != newId ensures Occupies(db, b, x) && x != call.seatId {
      assert Occupies(db, b, x);
    }
    forall x | Taken(db', x) ensures exists b :: Occupies(db', b, x) {
      if x == call.seatId {
        assert Occupies(db', newId, x);
      } else {
        assert Taken(db, x);
        var b :| Occupies(db, b, x);
        assert Occupies(db', b, x);
      }
    }
  }

  lemma SettleKeepsConsistent(db: Db, call: Call, newId: nat)
    requires Consistent(db) && FreshFor(db, call, newId)
    requires !call.Reserve? && Admissible(db, call) && BookingMatches(db, call.bookingId, BookingFrom(call))
    ensures Consistent(Apply(db, call, newId).0)
    ensures Apply(db, call, newId).1 == WonOutcome(call, newId, true)
  {
    var id := call.bookingId;
    var seatId := db.bookings[id].seatId;
    assert Occupies(db, id, seatId);
    var db' := Apply(db, call, newId).0;
    forall b, x | Occupies(db', b, x) && b != id ensures Occupies(db, b, x) && x != seatId {
      assert Occupies(db, b, x);
    }
    forall x | Taken(db', x) ensures exists b :: Occupies(db', b, x) {
      if x == seatId {
        assert Occupies(db', id, x);
      } else {
        assert Taken(db, x);
        var b :| Occupies(db, b, x);
        assert Occupies(db', b, x);
      }
    }
  }

  /** On any tables, also ones that have drifted apart: a confirm whose booking is pending succeeds iff the seat is
      held, and a cancel of an active booking iff it is held or booked; otherwise they report drift and change
      nothing. An expiry expires a pending booking all the same, and leaves a seat that is not held alone. */
  lemma DriftIsReported(db: Db, call: Call, newId: nat)
    requires (call.Confirm? || call.Cancel? || call.Expire?) && call.bookingId in db.bookings
    requires !call.Expire? ==> db.bookings[call.bookingId].userId == call.userId
    ensures
      var (db', outcome) := Apply(db, call, newId);
      var b, row := call.bookingId, db.bookings[call.bookingId];
      var seat := if row.seatId in db.seats then Some(db.seats[row.seatId].status) else None;
      match call
      case Confirm(_, _) =>
        row.status == Pending ==>
          (outcome == if seat == Some(Held) then ConfirmDone else StateDrift) && (outcome == StateDrift ==> db' == db)
      case Cancel(_, _) =>
        row.status == Pending || row.status == Confirmed ==>
          && (outcome == if seat == Some(Held) || seat == Some(Booked) then CancelDone else StateDrift)
          && (outcome == StateDrift ==> db' == db)
      case Expire(_) =>
        row.status == Pending ==>
          && outcome == ExpireDone(seat == Some(Held)) && db'.bookings[b].status == Expired
          && (seat != Some(Held) ==> db'.seats == db.seats)
  {
  }

  /** A caller who lost the race is told a status the operation could not have started from: a lost confirm
      never reports pending, a lost cancel reports only cancelled or expired, and never "unknown". */
  lemma LostReportsARealStatus(db: Db, call: Call, newId: nat)
    ensures forall found :: Apply(db, call, newId).1 == NotConfirmable(found) ==> found.Some? && found.value != Pending
    ensures forall found :: Apply(db, call, newId).1 == NotCancellable(found) ==>
              found == Some(Cancelled) || found == Some(Expired)
  {
    if Apply(db, call, newId).1.NotCancellable? {
      var status := db.bookings[call.bookingId].status;
      assert status !in {Pending, Confirmed};
      assert status == Cancelled || status == Expired;
    }
  }
}
