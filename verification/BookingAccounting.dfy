/** What a seat's version counter counts: the moves its bookings have made. */
module BookingAccounting {
  import opened BookingModel
  import opened BookingProtocol
  import opened BookingRefinement

  /** The entry changed the tables. */
  predicate Moves(e: Entry) {
    e.outcome.Reserved? || e.outcome.ConfirmDone? || e.outcome.CancelDone? || e.outcome.ExpireDone?
  }

  function BookingOf(e: Entry): nat {
    if e.call.Reserve? then e.newId else e.call.bookingId
  }

  predicate MovesBooking(e: Entry, b: nat) {
    Moves(e) && BookingOf(e) == b
  }

  function MovesOn(h: seq<Entry>, b: nat): nat
    decreases |h|
  {
    if h == [] then 0
    else MovesOn(h[..|h| - 1], b) + if MovesBooking(h[|h| - 1], b) then 1 else 0
  }

  predicate ConfirmedIn(h: seq<Entry>, b: nat)
    decreases |h|
  {
    h != [] && (ConfirmedIn(h[..|h| - 1], b) || (MovesBooking(h[|h| - 1], b) && h[|h| - 1].outcome.ConfirmDone?))
  }

  /** Moves made so far by the bookings of seat `x` with an id below `n`. */
  function MovesOnSeat(db: Db, h: seq<Entry>, x: nat, n: nat): nat {
    if n == 0 then 0
    else MovesOnSeat(db, h, x, n - 1) +
         if n - 1 in db.bookings && db.bookings[n - 1].seatId == x then MovesOn(h, n - 1) else 0
  }

  /** An entry either changes nothing or moves one booking and bumps the version of that booking's seat. */
  lemma EntryEffect(db: Db, e: Entry)
    requires Consistent(db) && Agrees(db, e)
    ensures !Moves(e) ==> Apply(db, e.call, e.newId).0 == db
    ensures Moves(e) ==>
      var db', b := Apply(db, e.call, e.newId).0, BookingOf(e);
      && b in db'.bookings && db'.bookings[b].seatId in db.seats
      && db'.bookings == db.bookings[b := db'.bookings[b]]
      && (b in db.bookings ==> db'.bookings[b].seatId == db.bookings[b].seatId)
      && db'.seats.Keys == db.seats.Keys
      && forall x :: x in db.seats ==>
           db'.seats[x].version == db.seats[x].version + (if x == db'.bookings[b].seatId then 1 else 0)
  {
    ApplyKeepsConsistent(db, e.call, e.newId);
  }

  lemma {:induction false} UnknownBookingsNeverMoved(db: Db, h: seq<Entry>, b: nat)
    requires Consistent(db) && Serial(db, h) && b !in Replay(db, h).bookings
    ensures MovesOn(h, b) == 0
    decreases |h|
  {
    if h != [] {
      var n := |h| - 1;
      SerialPrefix(db, h, n);
      SerialRunStaysConsistent(db, h, n);
      EntryEffect(Replay(db, h[..n]), h[n]);
      UnknownBookingsNeverMoved(db, h[..n], b);
    }
  }

  lemma {:induction false} SumExtends(db: Db, db': Db, h: seq<Entry>, e: Entry, x: nat, n: nat)
    requires Moves(e) && BookingOf(e) in db'.bookings
    requires db'.bookings == db.bookings[BookingOf(e) := db'.bookings[BookingOf(e)]]
    requires BookingOf(e) in db.bookings ==> db'.bookings[BookingOf(e)].seatId == db.bookings[BookingOf(e)].seatId
    requires BookingOf(e) !in db.bookings ==> MovesOn(h, BookingOf(e)) == 0
    ensures MovesOnSeat(db', h + [e], x, n) ==
            MovesOnSeat(db, h, x, n) + if BookingOf(e) < n && db'.bookings[BookingOf(e)].seatId == x then 1 else 0
  {
    if n > 0 {
      SumExtends(db, db', h, e, x, n - 1);
      assert (h + [e])[..|h|] == h;
    }
  }

  lemma {:induction false} SumIgnores(db: Db, h: seq<Entry>, e: Entry, x: nat, n: nat)
    requires !Moves(e)
    ensures MovesOnSeat(db, h + [e], x, n) == MovesOnSeat(db, h, x, n)
  {
    if n > 0 {
      SumIgnores(db, h, e, x, n - 1);
      assert (h + [e])[..|h|] == h;
    }
  }

  lemma VersionStep(db: Db, h: seq<Entry>, e: Entry, x: nat, n: nat)
    requires Consistent(db) && Agrees(db, e) && x in db.seats
    requires BookingOf(e) !in db.bookings ==> MovesOn(h, BookingOf(e)) == 0
    requires Moves(e) ==> BookingOf(e) < n
    ensures
      var db' := Apply(db, e.call, e.newId).0;
      && x in db'.seats
      && MovesOnSeat(db', h + [e], x, n) - MovesOnSeat(db, h, x, n) == db'.seats[x].version - db.seats[x].version
  {
    EntryEffect(db, e);
    if Moves(e) {
      SumExtends(db, Apply(db, e.call, e.newId).0, h, e, x, n);
    } else {
      SumIgnores(db, h, e, x, n);
    }
  }

  /** Over a serial run the version of a seat grows by the number of moves its bookings made. */
  lemma {:induction false} VersionCountsMoves(db: Db, h: seq<Entry>, x: nat, n: nat)
    requires Consistent(db) && Serial(db, h) && x in db.seats
    requires IdsBelow(Replay(db, h), n)
    ensures x in Replay(db, h).seats
    ensures Replay(db, h).seats[x].version - db.seats[x].version == MovesOnSeat(Replay(db, h), h, x, n)
    decreases |h|
  {
    if h == [] {
      NoMovesYet(db, x, n);
    } else {
      var m := |h| - 1;
      var before, e := Replay(db, h[..m]), h[m];
      SerialPrefix(db, h, m);
      SerialRunStaysConsistent(db, h, m);
      IdsWereBelow(before, e, n);
      VersionCountsMoves(db, h[..m], x, n);
      assert h[..m] + [e] == h;
      if BookingOf(e) !in before.bookings {
        UnknownBookingsNeverMoved(db, h[..m], BookingOf(e));
      }
      VersionStep(before, h[..m], e, x, n);
    }
  }

  ghost predicate IdsBelow(db: Db, n: nat) {
    forall b: nat {:trigger b in db.bookings} :: b in db.bookings ==> b < n
  }

  lemma IdsWereBelow(db: Db, e: Entry, n: nat)
    requires Consistent(db) && Agrees(db, e) && IdsBelow(Apply(db, e.call, e.newId).0, n)
    ensures IdsBelow(db, n) && (Moves(e) ==> BookingOf(e) < n)
  {
    EntryEffect(db, e);
    var db' := Apply(db, e.call, e.newId).0;
    forall b: nat | b in db.bookings ensures b < n {
      assert b in db'.bookings;
    }
  }

  lemma {:induction false} NoMovesYet(db: Db, x: nat, n: nat)
    ensures MovesOnSeat(db, [], x, n) == 0
  {
    if n > 0 {
      NoMovesYet(db, x, n - 1);
    }
  }

  /** The moves a booking has behind it, by its status: pending one, confirmed or expired two, cancelled
      two, or three if it was confirmed first. */
  predicate MovesFit(status: BookingStatus, moves: nat, confirmed: bool) {
    match status
    case Pending => moves == 1 && !confirmed
    case Confirmed => moves == 2 && confirmed
    case Expired => moves == 2 && !confirmed
    case Cancelled => moves == if confirmed then 3 else 2
  }

  /** One more entry keeps the fit, whether it creates the booking, moves it or leaves it alone. */
  lemma EntryKeepsFit(db: Db, e: Entry, b: nat, moves: nat, confirmed: bool)
    requires Consistent(db) && Agrees(db, e)
    requires if b in db.bookings then MovesFit(db.bookings[b].status, moves, confirmed) else moves == 0 && !confirmed
    requires b in Apply(db, e.call, e.newId).0.bookings
    ensures MovesFit(Apply(db, e.call, e.newId).0.bookings[b].status,
                     moves + if MovesBooking(e, b) then 1 else 0,
                     confirmed || (MovesBooking(e, b) && e.outcome.ConfirmDone?))
  {
    ApplyKeepsConsistent(db, e.call, e.newId);
    if b in db.bookings {
      assert db.bookings[b].status in {Pending, Confirmed} ==> db.bookings[b].status != Cancelled;
    }
  }

  /** Every booking made in a serial run has made exactly the moves its status tells. */
  lemma {:induction false} MovesByStatus(db: Db, h: seq<Entry>, b: nat)
    requires Consistent(db) && Serial(db, h) && b !in db.bookings && b in Replay(db, h).bookings
    ensures MovesFit(Replay(db, h).bookings[b].status, MovesOn(h, b), ConfirmedIn(h, b))
    decreases |h|
  {
    if h != [] {
      var n := |h| - 1;
      SerialPrefix(db, h, n);
      SerialRunStaysConsistent(db, h, n);
      if b in Replay(db, h[..n]).bookings {
        MovesByStatus(db, h[..n], b);
      } else {
        UnknownBookingsNeverMoved(db, h[..n], b);
        NeverConfirmed(h[..n], b);
      }
      EntryKeepsFit(Replay(db, h[..n]), h[n], b, MovesOn(h[..n], b), ConfirmedIn(h[..n], b));
    }
  }

  lemma {:induction false} NeverConfirmed(h: seq<Entry>, b: nat)
    requires MovesOn(h, b) == 0
    ensures !ConfirmedIn(h, b)
    decreases |h|
  {
    if h != [] {
      NeverConfirmed(h[..|h| - 1], b);
    }
  }

  /** In any interleaved run, a seat's version minus its initial value is the sum, over its bookings, of the
      moves each has made; and a booking made in the run has made one move if it is pending, two if it is
      confirmed or expired, and two or three if it is cancelled, three if it had been confirmed. */
  lemma VersionAccounting(s: State, run: seq<Action>, x: nat)
    requires Init(s) && Legal(s, run) && x in s.db.seats
    ensures
      var t := After(s, run);
      && x in t.db.seats
      && t.db.seats[x].version - s.db.seats[x].version == MovesOnSeat(t.db, History(s, run), x, t.nextId)
    ensures
      var db, h := After(s, run).db, History(s, run);
      forall b: nat {:trigger db.bookings[b]} :: b in db.bookings && b !in s.db.bookings ==>
        MovesFit(db.bookings[b].status, MovesOn(h, b), ConfirmedIn(h, b))
  {
    RunRefinesSerialRun(s, run);
    InvAlways(s, run);
    var t := After(s, run);
    forall b: nat | b in t.db.bookings ensures b < t.nextId {
      assert IdUsed(t, b);
    }
    assert IdsBelow(t.db, t.nextId);
    VersionCountsMoves(s.db, History(s, run), x, t.nextId);
    forall b: nat {:trigger t.db.bookings[b]} | b in t.db.bookings && b !in s.db.bookings
      ensures MovesFit(t.db.bookings[b].status, MovesOn(History(s, run), b), ConfirmedIn(History(s, run), b))
    {
      MovesByStatus(s.db, History(s, run), b);
    }
  }
}
