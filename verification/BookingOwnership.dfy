/** Who may do what: over all interleaved runs, only its owner confirms or cancels a booking, a stranger is told
    that it does not exist, and a reservation belongs to the caller who made it. */
module BookingOwnership {
  import opened Wrappers
  import opened BookingModel
  import opened BookingProtocol
  import opened BookingRefinement

  /** The user on whose behalf a confirm or cancel is made. */
  function CallerOf(call: Call): nat
    requires call.Confirm? || call.Cancel?
  {
    call.userId
  }

  // ----- confirm and cancel -----

  /** A caller that has not started, crashed, or was told there is no such booking; it holds no unpublished write. */
  predicate TurnedAway(p: Proc) {
    && (p.pc.Start? || p.pc.Failed? || p.pc == Done(BookingNotFound))
    && p.bookingWrites == map[] && p.seatWrites == map[]
  }

  /** Booking `b` is in the tables and belongs to `owner`. */
  predicate BelongsTo(db: Db, b: nat, owner: nat) {
    b in db.bookings && db.bookings[b].userId == owner
  }

  /** One step of a stranger: it is turned away, and its entry in the serial run, if any, says so. */
  lemma StrangerStep(s: State, a: Action, i: nat, owner: nat)
    requires Inv(s) && Enabled(s, a) && i < |s.procs| && (s.procs[i].call.Confirm? || s.procs[i].call.Cancel?)
    requires BelongsTo(s.db, s.procs[i].call.bookingId, owner) && owner != CallerOf(s.procs[i].call)
    requires TurnedAway(s.procs[i])
    ensures TurnedAway(Next(s, a).procs[i])
    ensures a.pid == i ==> Next(s, a).db == s.db
    ensures forall e :: Emitted(s, a) == [e] && e.pid == i ==> e.outcome == BookingNotFound
  {
    StepShape(s, a);
    if a.pid != i {
      assert Next(s, a).procs[i] == s.procs[i];
    }
  }

  lemma OwnerStep(s: State, a: Action, i: nat)
    requires Inv(s) && Enabled(s, a) && i < |s.procs| && (s.procs[i].call.Confirm? || s.procs[i].call.Cancel?)
    requires BelongsTo(s.db, s.procs[i].call.bookingId, CallerOf(s.procs[i].call))
    requires s.procs[i].pc != Done(BookingNotFound)
    ensures Next(s, a).procs[i].pc != Done(BookingNotFound)
  {
    StepShape(s, a);
    assert ProcOk(s, i);
    if a.pid != i {
      assert Next(s, a).procs[i] == s.procs[i];
    } else if a.Advance? && s.procs[i].pc.Committing? {
      assert CommitOutcome(s.procs[i]) != BookingNotFound;
    }
  }

  ghost predicate EntriesNotFound(h: seq<Entry>, i: nat) {
    forall k {:trigger h[k]} :: 0 <= k < |h| && h[k].pid == i ==> h[k].outcome == BookingNotFound
  }

  /** A confirm or cancel of a booking that belongs to somebody else, in any interleaved run: from the moment the
      booking is in the tables and the caller has not read it yet, the caller never gets further than being told
      that there is no such booking, and writes nothing. */
  lemma {:induction false} StrangersAreTurnedAway(s: State, run: seq<Action>, m: nat, i: nat, owner: nat)
    requires Init(s) && Legal(s, run) && m <= |run| && Legal(s, run[..m]) && i < |s.procs|
    requires s.procs[i].call.Confirm? || s.procs[i].call.Cancel?
    requires BelongsTo(After(s, run[..m]).db, s.procs[i].call.bookingId, owner) && owner != CallerOf(s.procs[i].call)
    requires NotStarted(After(s, run[..m]), i)
    ensures |After(s, run).procs| == |s.procs| && TurnedAway(After(s, run).procs[i])
    ensures EntriesNotFound(History(s, run), i)
    decreases |run|
  {
    hide Inv, Next, Init;
    InvAlways(s, run);
    if m == |run| {
      assert run[..m] == run;
      NotStartedHasNothing(s, run, i);
    } else {
      var n := |run| - 1;
      var init := run[..n];
      assert init[..m] == run[..m];
      StrangersAreTurnedAway(s, init, m, i, owner);
      InvAlways(s, init);
      CallsAreKept(s, init, i);
      OwnerIsKept(s, init, m, s.procs[i].call.bookingId, owner);
      StrangerStep(After(s, init), run[n], i, owner);
      StepShape(After(s, init), run[n]);
      EntriesExtend(History(s, init), Emitted(After(s, init), run[n]), i);
    }
  }

  lemma EntriesExtend(h: seq<Entry>, e: seq<Entry>, i: nat)
    requires EntriesNotFound(h, i) && |e| <= 1
    requires forall x :: e == [x] && x.pid == i ==> x.outcome == BookingNotFound
    ensures EntriesNotFound(h + e, i)
  {
    if e != [] {
      assert e == [e[0]];
    }
  }

  lemma NotStartedHasNothing(s: State, run: seq<Action>, i: nat)
    requires Init(s) && Legal(s, run) && NotStarted(After(s, run), i)
    ensures TurnedAway(After(s, run).procs[i]) && EntriesNotFound(History(s, run), i)
  {
    InvAlways(s, run);
    AnswersComeFromSerialRun(s, run);
    assert ProcOk(After(s, run), i);
  }

  lemma CallsAreKept(s: State, run: seq<Action>, i: nat)
    requires Init(s) && Legal(s, run) && i < |s.procs|
    ensures i < |After(s, run).procs| && After(s, run).procs[i].call == s.procs[i].call
  {
    AnswersComeFromSerialRun(s, run);
  }

  lemma OwnerIsKept(s: State, run: seq<Action>, m: nat, b: nat, owner: nat)
    requires Init(s) && Legal(s, run) && m <= |run| && Legal(s, run[..m])
    requires BelongsTo(After(s, run[..m]).db, b, owner)
    ensures BelongsTo(After(s, run).db, b, owner)
  {
    StatusesOnlyAdvance(s, run, m);
  }

  /** The owner is never told so. */
  lemma {:induction false} OwnersAreFound(s: State, run: seq<Action>, m: nat, i: nat)
    requires Init(s) && Legal(s, run) && m <= |run| && Legal(s, run[..m]) && i < |s.procs|
    requires s.procs[i].call.Confirm? || s.procs[i].call.Cancel?
    requires BelongsTo(After(s, run[..m]).db, s.procs[i].call.bookingId, CallerOf(s.procs[i].call))
    requires NotStarted(After(s, run[..m]), i)
    ensures |After(s, run).procs| == |s.procs| && After(s, run).procs[i].pc != Done(BookingNotFound)
    decreases |run|
  {
    hide Inv, Next, Init;
    InvAlways(s, run);
    if m == |run| {
      assert run[..m] == run;
    } else {
      var n := |run| - 1;
      var init := run[..n];
      assert init[..m] == run[..m];
      OwnersAreFound(s, init, m, i);
      InvAlways(s, init);
      CallsAreKept(s, init, i);
      OwnerIsKept(s, init, m, s.procs[i].call.bookingId, CallerOf(s.procs[i].call));
      OwnerStep(After(s, init), run[n], i);
    }
  }

  // ----- whose call changed a booking -----

  predicate HasStatus(db: Db, b: nat, status: BookingStatus) {
    b in db.bookings && db.bookings[b].status == status
  }

  /** An entry by which booking `b` was confirmed for its owner. */
  predicate ConfirmsFor(e: Entry, b: nat, owner: nat) {
    e.call == Confirm(b, owner) && e.outcome == ConfirmDone
  }

  predicate CancelsFor(e: Entry, b: nat, owner: nat) {
    e.call == Cancel(b, owner) && e.outcome == CancelDone
  }

  ghost predicate ConfirmedByOwner(h: seq<Entry>, b: nat, owner: nat) {
    exists k :: 0 <= k < |h| && ConfirmsFor(h[k], b, owner)
  }

  ghost predicate CancelledByOwner(h: seq<Entry>, b: nat, owner: nat) {
    exists k :: 0 <= k < |h| && CancelsFor(h[k], b, owner)
  }

  lemma EntryIsByOwner(db: Db, e: Entry, b: nat)
    requires Consistent(db) && Agrees(db, e) && b in Apply(db, e.call, e.newId).0.bookings
    ensures
      var db' := Apply(db, e.call, e.newId).0;
      var owner := db'.bookings[b].userId;
      && (HasStatus(db', b, Confirmed) && !HasStatus(db, b, Confirmed) ==> ConfirmsFor(e, b, owner))
      && (HasStatus(db', b, Cancelled) && !HasStatus(db, b, Cancelled) ==> CancelsFor(e, b, owner))
  {
    ApplyKeepsConsistent(db, e.call, e.newId);
  }

  lemma {:induction false} SerialRunIsByOwners(db: Db, h: seq<Entry>, b: nat)
    requires Consistent(db) && Serial(db, h) && b in Replay(db, h).bookings
    ensures
      var owner := Replay(db, h).bookings[b].userId;
      && (HasStatus(Replay(db, h), b, Confirmed) && !HasStatus(db, b, Confirmed) ==> ConfirmedByOwner(h, b, owner))
      && (HasStatus(Replay(db, h), b, Cancelled) && !HasStatus(db, b, Cancelled) ==> CancelledByOwner(h, b, owner))
    decreases |h|
  {
    if h != [] {
      var n := |h| - 1;
      var init, before, e := h[..n], Replay(db, h[..n]), h[n];
      SerialPrefix(db, h, n);
      SerialRunStaysConsistent(db, h, n);
      assert Agrees(before, e);
      EntryIsByOwner(before, e, b);
      ApplyAdvances(before, e.call, e.newId);
      hide Serial, Consistent, Apply;
      var owner := Replay(db, h).bookings[b].userId;
      if b in before.bookings {
        SerialRunIsByOwners(db, init, b);
        ByOwnerExtends(init, e, b, owner);
      }
      assert h == init + [e];
    }
  }

  lemma ByOwnerExtends(h: seq<Entry>, e: Entry, b: nat, owner: nat)
    ensures ConfirmedByOwner(h, b, owner) || ConfirmsFor(e, b, owner) ==> ConfirmedByOwner(h + [e], b, owner)
    ensures CancelledByOwner(h, b, owner) || CancelsFor(e, b, owner) ==> CancelledByOwner(h + [e], b, owner)
  {
    var h' := h + [e];
    assert h'[|h|] == e;
    if ConfirmedByOwner(h, b, owner) {
      var k :| 0 <= k < |h| && ConfirmsFor(h[k], b, owner);
      assert ConfirmsFor(h'[k], b, owner);
    }
    if CancelledByOwner(h, b, owner) {
      var k :| 0 <= k < |h| && CancelsFor(h[k], b, owner);
      assert CancelsFor(h'[k], b, owner);
    }
  }

  /** In any interleaved run, a booking that became confirmed was confirmed by a call of its own user, and one that
      became cancelled was cancelled by a call of its own user. */
  lemma OnlyOwnersConfirmAndCancel(s: State, run: seq<Action>, b: nat)
    requires Init(s) && Legal(s, run) && b in After(s, run).db.bookings
    ensures
      var db, h := After(s, run).db, History(s, run);
      var owner := db.bookings[b].userId;
      && (HasStatus(db, b, Confirmed) && !HasStatus(s.db, b, Confirmed) ==> ConfirmedByOwner(h, b, owner))
      && (HasStatus(db, b, Cancelled) && !HasStatus(s.db, b, Cancelled) ==> CancelledByOwner(h, b, owner))
  {
    RunRefinesSerialRun(s, run);
    SerialRunIsByOwners(s.db, History(s, run), b);
  }

  // ----- reserve -----

  /** Booking `b` is what this reserve asked for. */
  predicate IsReservationOf(db: Db, b: nat, call: Call)
    requires call.Reserve?
  {
    && b in db.bookings && db.bookings[b].userId == call.userId && db.bookings[b].seatId == call.seatId
    && db.bookings[b].holdExpiresAt == call.holdExpiresAt
  }

  predicate ReserveOk(db: Db, p: Proc) {
    p.call.Reserve? && p.pc.Done? ==>
      && (p.pc.outcome.Reserved? ==> IsReservationOf(db, p.pc.outcome.bookingId, p.call))
      && (p.pc.outcome == SeatNotFound <==> p.call.seatId !in db.seats)
      && (p.pc.outcome.Reserved? || p.pc.outcome == SeatNotFound || p.pc.outcome == SeatUnavailable)
  }

  lemma ReserveStep(s: State, a: Action)
    requires Inv(s) && Enabled(s, a)
    ensures ReserveOk(Next(s, a).db, Next(s, a).procs[a.pid])
  {
    assert ProcOk(s, a.pid);
    StepShape(s, a);
    StepRefines(s, a);
    var p := Next(s, a).procs[a.pid];
    if p.call.Reserve? && p.pc.Done? {
      var e := Emitted(s, a)[0];
      assert Emitted(s, a) == [e];
      assert Agrees(s.db, e);
    }
  }

  lemma ReserveStaysOk(db: Db, db': Db, p: Proc)
    requires ReserveOk(db, p) && Advances(db, db')
    ensures ReserveOk(db', p)
  {
  }

  /** In any interleaved run a reserve that got a seat has a booking for its own user and seat with its own
      deadline, and a reserve is told that there is no such seat if and only if there is none. */
  lemma {:induction false} ReservationsAreTheCallers(s: State, run: seq<Action>, i: nat)
    requires Init(s) && Legal(s, run) && i < |s.procs|
    ensures |After(s, run).procs| == |s.procs| && ReserveOk(After(s, run).db, After(s, run).procs[i])
    decreases |run|
  {
    InvAlways(s, run);
    if run == [] {
      assert s.procs[i] == NewProc(s.procs[i].call);
    } else {
      var n := |run| - 1;
      InvAlways(s, run[..n]);
      ReservationsAreTheCallers(s, run[..n], i);
      var before := After(s, run[..n]);
      StepShape(before, run[n]);
      if i == run[n].pid {
        ReserveStep(before, run[n]);
      } else {
        StepAdvances(before, run[n]);
        ReserveStaysOk(before.db, After(s, run).db, before.procs[i]);
      }
    }
  }

  // ----- rows that are locked but do not match -----

  /** An UPDATE that matches no row in its snapshot does not wait for a row that somebody has locked. */
  lemma LockedRowsThatDoNotMatchAreSkipped(s: State, i: nat)
    requires i < |s.procs| && s.procs[i].pc.Opened? && s.procs[i].call.Reserve?
    requires s.procs[i].call.seatId in s.db.seats && s.db.seats[s.procs[i].call.seatId].status != Available
    ensures Enabled(s, Advance(i)) && Next(s, Advance(i)).procs[i].pc == Done(SeatUnavailable)
  {
  }
}
