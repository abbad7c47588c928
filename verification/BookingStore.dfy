/** The two tables as the application sees them through one connection: the guarded row UPDATEs and the
    four use cases, statement by statement, with rollback where the source throws inside a transaction. */
module BookingStore {
  import opened Wrappers
  import opened BookingModel

  /** UPDATE seats SET status = to, version = version + 1 WHERE id = seatId AND status IN from RETURNING *. */
  function SeatUpdate(seats: map<nat, Seat>, seatId: nat, from: set<SeatStatus>, to: SeatStatus)
    : (r: (map<nat, Seat>, Option<Seat>))
    ensures r.1.Some? <==> seatId in seats && seats[seatId].status in from
    ensures r.0 - {seatId} == seats - {seatId} && r.0.Keys == seats.Keys
    ensures r.1.Some? ==> r.0[seatId] == r.1.value && r.1.value.version == seats[seatId].version + 1
    ensures r.1.None? ==> r.0 == seats
  {
    if seatId in seats && seats[seatId].status in from then
      (seats[seatId := MovedSeat(seats[seatId], to)], Some(MovedSeat(seats[seatId], to)))
    else (seats, None)
  }

  class Store {
    var seats: map<nat, Seat>
    var bookings: map<nat, Booking>
    var nextBookingId: nat

    constructor (seats: map<nat, Seat>, bookings: map<nat, Booking>, nextBookingId: nat)
      ensures Contents() == Db(seats, bookings) && this.nextBookingId == nextBookingId
    {
      this.seats, this.bookings, this.nextBookingId := seats, bookings, nextBookingId;
    }

    function Contents(): Db
      reads this`seats, this`bookings
    {
      Db(seats, bookings)
    }

    method ReserveSeatRow(seatId: nat) returns (row: Option<Seat>)
      modifies this`seats
      ensures (seats, row) == SeatUpdate(old(seats), seatId, {Available}, Held)
    {
      row := UpdateSeatRow(seatId, {Available}, Held);
    }

    method ReleaseSeatRow(seatId: nat) returns (row: Option<Seat>)
      modifies this`seats
      ensures (seats, row) == SeatUpdate(old(seats), seatId, {Held}, Available)
    {
      row := UpdateSeatRow(seatId, {Held}, Available);
    }

    method ConfirmSeatRow(seatId: nat) returns (row: Option<Seat>)
      modifies this`seats
      ensures (seats, row) == SeatUpdate(old(seats), seatId, {Held}, Booked)
    {
      row := UpdateSeatRow(seatId, {Held}, Booked);
    }

    method ReleaseHeldOrBookedSeatRow(seatId: nat) returns (row: Option<Seat>)
      modifies this`seats
      ensures (seats, row) == SeatUpdate(old(seats), seatId, {Held, Booked}, Available)
    {
      row := UpdateSeatRow(seatId, {Held, Booked}, Available);
    }

    method UpdateSeatRow(seatId: nat, from: set<SeatStatus>, to: SeatStatus) returns (row: Option<Seat>)
      modifies this`seats
      ensures (seats, row) == SeatUpdate(old(seats), seatId, from, to)
    {
      row := None;
      if seatId in seats && seats[seatId].status in from {
        seats := seats[seatId := Seat(to, seats[seatId].version + 1)];
        row := Some(seats[seatId]);
      }
    }

    method UpdateBookingRow(bookingId: nat, from: set<BookingStatus>, to: BookingStatus)
      returns (row: Option<Booking>)
      modifies this`bookings
      ensures row.Some? <==> bookingId in old(bookings) && old(bookings)[bookingId].status in from
      ensures row.None? ==> bookings == old(bookings)
      ensures row.Some? ==> row.value == old(bookings)[bookingId].(status := to)
      ensures row.Some? ==> bookings == old(bookings)[bookingId := row.value]
    {
      row := None;
      if bookingId in bookings && bookings[bookingId].status in from {
        bookings := bookings[bookingId := bookings[bookingId].(status := to)];
        row := Some(bookings[bookingId]);
      }
    }

    method ReserveSeat(seatId: nat, userId: nat, holdExpiresAt: int) returns (outcome: Outcome)
      modifies this
      ensures (Contents(), outcome) ==
              Apply(old(Contents()), Reserve(seatId, userId, holdExpiresAt), old(nextBookingId))
      ensures nextBookingId == old(nextBookingId) + if outcome.Reserved? then 1 else 0
    {
      if seatId !in seats {
        return SeatNotFound;
      }
      var seat := ReserveSeatRow(seatId);
      if seat.None? {
        return SeatUnavailable;
      }
      var id := nextBookingId;
      nextBookingId := nextBookingId + 1;
      bookings := bookings[id := Booking(seatId, userId, Pending, holdExpiresAt)];
      return Reserved(id);
    }

    method ConfirmBooking(bookingId: nat, userId: nat) returns (outcome: Outcome)
      modifies this`seats, this`bookings
      ensures (Contents(), outcome) == Apply(old(Contents()), Confirm(bookingId, userId), 0)
    {
      if bookingId !in bookings || bookings[bookingId].userId != userId {
        return BookingNotFound;
      }
      var before := bookings;
      var updated := UpdateBookingRow(bookingId, {Pending}, Confirmed);
      if updated.None? {
        return NotConfirmable(if bookingId in bookings then Some(bookings[bookingId].status) else None);
      }
      var seat := ConfirmSeatRow(updated.value.seatId);
      if seat.None? {
        bookings := before; // the throw rolls the transaction back
        return StateDrift;
      }
      return ConfirmDone;
    }

    method CancelBooking(bookingId: nat, userId: nat) returns (outcome: Outcome)
      modifies this`seats, this`bookings
      ensures (Contents(), outcome) == Apply(old(Contents()), Cancel(bookingId, userId), 0)
    {
      if bookingId !in bookings || bookings[bookingId].userId != userId {
        return BookingNotFound;
      }
      var before := bookings;
      var updated := UpdateBookingRow(bookingId, {Pending, Confirmed}, Cancelled);
      if updated.None? {
        return NotCancellable(if bookingId in bookings then Some(bookings[bookingId].status) else None);
      }
      var seat := ReleaseHeldOrBookedSeatRow(updated.value.seatId);
      if seat.None? {
        bookings := before; // the throw rolls the transaction back
        return StateDrift;
      }
      return CancelDone;
    }

    method ExpireHold(bookingId: nat) returns (outcome: Outcome)
      modifies this`seats, this`bookings
      ensures (Contents(), outcome) == Apply(old(Contents()), Expire(bookingId), 0)
    {
      var expired := UpdateBookingRow(bookingId, {Pending}, Expired);
      if expired.None? {
        return NothingToExpire;
      }
      var seat := ReleaseSeatRow(expired.value.seatId);
      return ExpireDone(seat.Some?);
    }
  }
}
