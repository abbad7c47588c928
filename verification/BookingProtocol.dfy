/** Reserve, confirm, cancel and expire running concurrently: a state machine over the committed tables, the
    row locks and, for each caller, a program counter and the writes its open transaction has not published.

    An UPDATE takes two steps. Its statement snapshot decides which row it wants; a row that does not match
    there is skipped without waiting. A wanted row is locked, which blocks while another transaction holds
    it, and the WHERE clause is then checked again on the newest committed row (READ COMMITTED). */
module BookingProtocol {
  import opened Wrappers
  import opened BookingModel

  datatype Pc =
    | Start                  // before the read made outside the transaction
    | Opened                 // transaction open, its first UPDATE not yet started
    | WantsFirst             // the first UPDATE's snapshot matched; its row is not locked yet
    | WonBooking             // confirm, cancel, expire: booking row locked and written
    | WantsSeat              // the seat UPDATE's snapshot matched; its row is not locked yet
    | SeatTaken              // reserve: seat row locked and written, INSERT next
    | Committing             // every statement done, COMMIT next
    | Lost                   // confirm, cancel: the booking UPDATE matched no row; COMMIT of nothing next
    | Reread                 // transaction over; the status is read again for the error
    | Done(outcome: Outcome)
    | Failed                 // crashed, aborted, or never heard the reply to its COMMIT

  /** `target` is the seat row the transaction's seat UPDATE names: the argument of a reserve, otherwise
      the seat of the booking row that the booking UPDATE returned. */
  datatype Proc = Proc(call: Call, pc: Pc, target: nat, newId: nat,
                       bookingWrites: map<nat, Booking>, seatWrites: map<nat, Seat>)

  datatype State = State(db: Db, seatLock: map<nat, nat>, bookingLock: map<nat, nat>, nextId: nat,
                         procs: seq<Proc>)

  datatype Action =
    | Advance(pid: nat)        // the caller's next statement
    | Abort(pid: nat)          // crash, lost connection or constraint violation: rollback
    | CommitUnheard(pid: nat)  // COMMIT takes effect but its reply is lost

  predicate Finished(p: Proc) {
    p.pc.Done? || p.pc.Failed?
  }

  /** The row this caller wants is locked by a transaction. */
  predicate Blocked(s: State, i: nat)
    requires i < |s.procs|
  {
    var p := s.procs[i];
    || (p.pc.WantsFirst? && p.call.Reserve? && p.call.seatId in s.seatLock)
    || (p.pc.WantsFirst? && !p.call.Reserve? && p.call.bookingId in s.bookingLock)
    || (p.pc.WantsSeat? && p.target in s.seatLock)
  }

  predicate Enabled(s: State, a: Action) {
    && a.pid < |s.procs|
    && !Finished(s.procs[a.pid])
    && (a.Advance? ==> !Blocked(s, a.pid))
    && (a.CommitUnheard? ==> s.procs[a.pid].pc.Committing?)
  }

  function Released(locks: map<nat, nat>, i: nat): map<nat, nat> {
    map k | k in locks && locks[k] != i :: locks[k]
  }

  function Put(s: State, i: nat, p: Proc): State
    requires i < |s.procs|
  {
    s.(procs := s.procs[i := p])
  }

  /** The transaction of caller `i` is over: its locks and unpublished writes are gone. */
  function End(s: State, i: nat, pc: Pc): State
    requires i < |s.procs|
  {
    State(s.db, Released(s.seatLock, i), Released(s.bookingLock, i), s.nextId,
          s.procs[i := s.procs[i].(pc := pc, bookingWrites := map[], seatWrites := map[])])
  }

  function Commit(s: State, i: nat, pc: Pc): State
    requires i < |s.procs|
  {
    var p := s.procs[i];
    End(s.(db := Db(s.db.seats + p.seatWrites, s.db.bookings + p.bookingWrites)), i, pc)
  }

  predicate FirstMatches(db: Db, call: Call) {
    if call.Reserve? then SeatMatches(db, call.seatId, SeatFrom(call))
    else BookingMatches(db, call.bookingId, BookingFrom(call))
  }

  /** The first UPDATE matched no row: reserve throws, expire returns null, confirm and cancel commit an
      empty transaction and then read the status again. A transaction that wrote nothing and locked nothing
      ends in the same step; one whose empty COMMIT fails is an Abort taken just before. */
  function FirstMissed(s: State, i: nat): State
    requires i < |s.procs|
  {
    match s.procs[i].call
    case Reserve(_, _, _) => End(s, i, Done(SeatUnavailable))
    case Expire(_) => End(s, i, Done(NothingToExpire))
    case _ => Put(s, i, s.procs[i].(pc := Lost))
  }

  /** The seat UPDATE matched no row: confirm and cancel throw, expire goes on to commit. */
  function SeatMissed(s: State, i: nat): State
    requires i < |s.procs|
  {
    if s.procs[i].call.Expire? then Put(s, i, s.procs[i].(pc := Committing)) else End(s, i, Done(StateDrift))
  }

  function WriteSeat(s: State, i: nat, x: nat, pc: Pc): State
    requires i < |s.procs| && x in s.db.seats
  {
    var p := s.procs[i];
    Put(s.(seatLock := s.seatLock[x := i]), i,
        p.(pc := pc, target := x, seatWrites := p.seatWrites[x := MovedSeat(s.db.seats[x], SeatTo(p.call))]))
  }

  function WriteBooking(s: State, i: nat): State
    requires i < |s.procs| && !s.procs[i].call.Reserve? && s.procs[i].call.bookingId in s.db.bookings
  {
    var p := s.procs[i];
    var b := p.call.bookingId;
    var row := s.db.bookings[b];
    Put(s.(bookingLock := s.bookingLock[b := i]), i,
        p.(pc := WonBooking, target := row.seatId,
           bookingWrites := p.bookingWrites[b := row.(status := BookingTo(p.call))]))
  }

  /** The INSERT. Ids come from a sequence, which a rollback does not rewind. */
  function InsertBooking(s: State, i: nat): State
    requires i < |s.procs| && s.procs[i].call.Reserve?
  {
    var p := s.procs[i];
    var row := Booking(p.call.seatId, p.call.userId, Pending, p.call.holdExpiresAt);
    Put(s.(nextId := s.nextId + 1), i,
        p.(pc := Committing, newId := s.nextId, bookingWrites := p.bookingWrites[s.nextId := row]))
  }

  function CommitOutcome(p: Proc): Outcome {
    WonOutcome(p.call, p.newId, p.seatWrites != map[])
  }

  function Step(s: State, i: nat): State
    requires i < |s.procs|
  {
    var p := s.procs[i];
    match p.pc
    case Start =>
      if Admissible(s.db, p.call) then Put(s, i, p.(pc := Opened)) else End(s, i, Done(NotAdmitted(p.call)))
    case Opened =>
      if FirstMatches(s.db, p.call) then Put(s, i, p.(pc := WantsFirst)) else FirstMissed(s, i)
    case WantsFirst =>
      if !FirstMatches(s.db, p.call) then FirstMissed(s, i)
      else if p.call.Reserve? then WriteSeat(s, i, p.call.seatId, SeatTaken)
      else WriteBooking(s, i)
    case WonBooking =>
      if SeatMatches(s.db, p.target, SeatFrom(p.call)) then Put(s, i, p.(pc := WantsSeat)) else SeatMissed(s, i)
    case WantsSeat =>
      if SeatMatches(s.db, p.target, SeatFrom(p.call)) then WriteSeat(s, i, p.target, Committing)
      else SeatMissed(s, i)
    case SeatTaken =>
      if p.call.Reserve? then InsertBooking(s, i) else s
    case Committing =>
      Commit(s, i, Done(CommitOutcome(p)))
    case Lost =>
      End(s, i, Reread)
    case Reread =>
      if p.call.Reserve? then s
      else End(s, i, Done(LostOutcome(p.call, StatusOf(s.db, p.call.bookingId))))
    case Done(_) => s
    case Failed => s
  }

  function Next(s: State, a: Action): State
    requires Enabled(s, a)
  {
    match a
    case Advance(i) => Step(s, i)
    case Abort(i) => End(s, i, Failed)
    case CommitUnheard(i) => Commit(s, i, Failed)
  }

  // ----- runs -----

  function NewProc(call: Call): Proc {
    Proc(call, Start, 0, 0, map[], map[])
  }

  /** Any consistent tables, any number of callers, none of which has started. */
  ghost predicate Init(s: State) {
    && Consistent(s.db)
    && (forall b: nat {:trigger IdUsed(s, b)} :: IdUsed(s, b) ==> b < s.nextId)
    && s.seatLock == map[] && s.bookingLock == map[]
    && forall i {:trigger s.procs[i]} :: 0 <= i < |s.procs| ==> s.procs[i] == NewProc(s.procs[i].call)
  }

  predicate Legal(s: State, run: seq<Action>)
    decreases |run|, 0
  {
    run == [] || (var n := |run| - 1; Legal(s, run[..n]) && Enabled(After(s, run[..n]), run[n]))
  }

  function After(s: State, run: seq<Action>): State
    requires Legal(s, run)
    decreases |run|, 1
  {
    if run == [] then s else Next(After(s, run[..|run| - 1]), run[|run| - 1])
  }

  // ----- the invariant -----

  ghost predicate HoldsBookingRow(s: State, i: nat)
    requires i < |s.procs|
  {
    var p := s.procs[i];
    && !p.call.Reserve?
    && p.call.bookingId in s.bookingLock && s.bookingLock[p.call.bookingId] == i
    && BookingMatches(s.db, p.call.bookingId, BookingFrom(p.call))
    && p.target == s.db.bookings[p.call.bookingId].seatId
    && p.bookingWrites == map[p.call.bookingId := s.db.bookings[p.call.bookingId].(status := BookingTo(p.call))]
  }

  ghost predicate HoldsSeatRow(s: State, i: nat)
    requires i < |s.procs|
  {
    var p := s.procs[i];
    && p.target in s.seatLock && s.seatLock[p.target] == i
    && SeatMatches(s.db, p.target, SeatFrom(p.call))
    && p.seatWrites == map[p.target := MovedSeat(s.db.seats[p.target], SeatTo(p.call))]
    && (p.call.Reserve? ==> p.target == p.call.seatId)
  }

  ghost predicate HoldsNewRow(s: State, i: nat)
    requires i < |s.procs|
  {
    var p := s.procs[i];
    && p.call.Reserve? && p.newId < s.nextId && p.newId !in s.db.bookings
    && p.bookingWrites == map[p.newId := Booking(p.call.seatId, p.call.userId, Pending, p.call.holdExpiresAt)]
  }

  ghost predicate ProcOk(s: State, i: nat)
    requires i < |s.procs|
  {
    var p := s.procs[i];
    && (!p.pc.Start? && !Finished(p) ==> Admissible(s.db, p.call))
    && match p.pc
       case Start => p.bookingWrites == map[] && p.seatWrites == map[]
       case Opened => p.bookingWrites == map[] && p.seatWrites == map[]
       case WantsFirst => p.bookingWrites == map[] && p.seatWrites == map[]
       case WonBooking => HoldsBookingRow(s, i) && p.seatWrites == map[]
       case WantsSeat => HoldsBookingRow(s, i) && p.seatWrites == map[]
       case SeatTaken => p.call.Reserve? && HoldsSeatRow(s, i) && p.bookingWrites == map[]
       case Committing => HoldsSeatRow(s, i) && (HoldsBookingRow(s, i) || HoldsNewRow(s, i))
       case Lost => !p.call.Reserve? && !p.call.Expire? && !FirstMatches(s.db, p.call)
       case Reread => !p.call.Reserve? && !p.call.Expire? && !FirstMatches(s.db, p.call)
       case Done(_) => true
       case Failed => true
  }

  /** A lock on seat `x` belongs to a transaction that has written the seat. */
  predicate SeatLockOk(s: State, x: nat) {
    x in s.seatLock ==>
      && s.seatLock[x] < |s.procs|
      && var p := s.procs[s.seatLock[x]]; (p.pc.SeatTaken? || p.pc.Committing?) && p.target == x
  }

  predicate LocksBooking(p: Proc, b: nat) {
    (p.pc.WonBooking? || p.pc.WantsSeat? || p.pc.Committing?) && !p.call.Reserve? && p.call.bookingId == b
  }

  predicate BookingLockOk(s: State, b: nat) {
    b in s.bookingLock ==> s.bookingLock[b] < |s.procs| && LocksBooking(s.procs[s.bookingLock[b]], b)
  }

  predicate Inserting(s: State, i: nat) {
    i < |s.procs| && s.procs[i].pc.Committing? && s.procs[i].call.Reserve?
  }

  predicate IdUsed(s: State, b: nat) {
    b in s.db.bookings
  }

  ghost predicate Inv(s: State) {
    && Consistent(s.db)
    && (forall x {:trigger SeatLockOk(s, x)} :: SeatLockOk(s, x))
    && (forall b {:trigger BookingLockOk(s, b)} :: BookingLockOk(s, b))
    && (forall b: nat {:trigger IdUsed(s, b)} :: IdUsed(s, b) ==> b < s.nextId)
    && (forall i: nat, j: nat {:trigger Inserting(s, i), Inserting(s, j)} ::
          Inserting(s, i) && Inserting(s, j) && i != j ==> s.procs[i].newId != s.procs[j].newId)
    && (forall i: nat {:trigger ProcOk(s, i)} :: i < |s.procs| ==> ProcOk(s, i))
  }

  /** Once a transaction has won its booking row, the seat row is in the expected status and no other
      transaction holds it: the "state drift" throws cannot be reached and the seat UPDATE never waits. */
  lemma WonBookingMeansFreeSeat(s: State, i: nat)
    requires Inv(s) && i < |s.procs| && (s.procs[i].pc.WonBooking? || s.procs[i].pc.WantsSeat?)
    ensures SeatMatches(s.db, s.procs[i].target, SeatFrom(s.procs[i].call))
    ensures s.procs[i].target !in s.seatLock
  {
    var p := s.procs[i];
    assert ProcOk(s, i);
    assert Occupies(s.db, p.call.bookingId, p.target);
    if p.target in s.seatLock {
      assert SeatLockOk(s, p.target);
      var j := s.seatLock[p.target];
      assert ProcOk(s, j);
      if !s.procs[j].call.Reserve? {
        assert Occupies(s.db, s.procs[j].call.bookingId, p.target);
        assert false;
      }
    }
  }

  /** The committed tables change only when a transaction commits, and then exactly as the atomic operation
      would have changed them at that moment. */
  lemma CommitIsAtomic(s: State, i: nat, pc: Pc)
    requires Inv(s) && i < |s.procs| && s.procs[i].pc.Committing?
    ensures (Commit(s, i, pc).db, CommitOutcome(s.procs[i])) == Apply(s.db, s.procs[i].call, s.procs[i].newId)
    ensures s.procs[i].call.Reserve? ==> s.procs[i].newId !in s.db.bookings
  {
    var p := s.procs[i];
    assert ProcOk(s, i);
    assert p.target in p.seatWrites;
    assert s.db.seats + p.seatWrites == s.db.seats[p.target := p.seatWrites[p.target]];
    if p.call.Reserve? {
      assert s.db.bookings + p.bookingWrites == s.db.bookings[p.newId := p.bookingWrites[p.newId]];
    } else {
      var b := p.call.bookingId;
      assert s.db.bookings + p.bookingWrites == s.db.bookings[b := p.bookingWrites[b]];
    }
  }

  // ----- every step keeps the invariant -----

  /** Only caller `i` moved from `s` to `s'`, and no lock was taken but by it. */
  ghost predicate OnlyMoves(s: State, s': State, i: nat) {
    && i < |s.procs| == |s'.procs|
    && (forall j: nat {:trigger s'.procs[j]} :: j < |s.procs| && j != i ==> s'.procs[j] == s.procs[j])
    && s.nextId <= s'.nextId
    && (forall x {:trigger x in s'.seatLock} :: x in s'.seatLock && s'.seatLock[x] != i ==>
          x in s.seatLock && s.seatLock[x] == s'.seatLock[x])
    && (forall x {:trigger x in s.seatLock} :: x in s.seatLock && s.seatLock[x] != i ==>
          x in s'.seatLock && s.seatLock[x] == s'.seatLock[x])
    && (forall b {:trigger b in s'.bookingLock} :: b in s'.bookingLock && s'.bookingLock[b] != i ==>
          b in s.bookingLock && s.bookingLock[b] == s'.bookingLock[b])
    && (forall b {:trigger b in s.bookingLock} :: b in s.bookingLock && s.bookingLock[b] != i ==>
          b in s'.bookingLock && s.bookingLock[b] == s'.bookingLock[b])
  }

  lemma Reassemble(s: State, s': State, i: nat)
    requires Inv(s) && OnlyMoves(s, s', i) && Consistent(s'.db)
    requires forall x {:trigger SeatLockOk(s', x)} ::
               SeatLockOk(s, x) && x in s'.seatLock && s'.seatLock[x] == i ==> SeatLockOk(s', x)
    requires forall b {:trigger BookingLockOk(s', b)} ::
               BookingLockOk(s, b) && b in s'.bookingLock && s'.bookingLock[b] == i ==> BookingLockOk(s', b)
    requires forall b: nat {:trigger IdUsed(s', b)} :: IdUsed(s', b) ==> b < s'.nextId
    requires Inserting(s', i) ==> s'.procs[i].newId >= s.nextId
    requires ProcOk(s', i)
    requires forall j: nat {:trigger ProcOk(s', j)} :: j < |s.procs| && j != i ==> ProcOk(s', j)
    ensures Inv(s')
  {
    forall x ensures SeatLockOk(s', x) {
      assert SeatLockOk(s, x);
    }
    forall b ensures BookingLockOk(s', b) {
      assert BookingLockOk(s, b);
    }
    forall j: nat, k: nat | Inserting(s', j) && Inserting(s', k) && j != k
      ensures s'.procs[j].newId != s'.procs[k].newId
    {
      if j == i {
        assert ProcOk(s, k);
      } else if k == i {
        assert ProcOk(s, j);
      } else {
        assert Inserting(s, j) && Inserting(s, k);
      }
    }
  }

  /** While the tables stay as they are, nothing another caller relies on changes. */
  lemma OthersUndisturbed(s: State, s': State, i: nat)
    requires Inv(s) && OnlyMoves(s, s', i) && s'.db == s.db
    ensures forall j: nat {:trigger ProcOk(s', j)} :: j < |s.procs| && j != i ==> ProcOk(s', j)
    ensures forall b: nat {:trigger IdUsed(s', b)} :: IdUsed(s', b) ==> b < s'.nextId
  {
    forall j: nat | j < |s.procs| && j != i ensures ProcOk(s', j) {
      assert ProcOk(s, j);
      assert s'.procs[j] == s.procs[j];
    }
    forall b: nat | IdUsed(s', b) ensures b < s'.nextId {
      assert IdUsed(s, b);
    }
  }

  /** What another caller relies on survives a commit. */
  lemma CommitLeavesOthers(s: State, i: nat, pc: Pc, j: nat)
    requires Inv(s) && i < |s.procs| && j < |s.procs| && i != j && s.procs[i].pc.Committing?
    requires pc.Done? || pc.Failed?
    ensures ProcOk(Commit(s, i, pc), j)
  {
    var p, q := s.procs[i], s.procs[j];
    var s' := Commit(s, i, pc);
    assert ProcOk(s, i) && ProcOk(s, j);
    CommitIsAtomic(s, i, pc);
    assert s'.procs[j] == q;
    if q.pc.SeatTaken? || q.pc.Committing? {
      assert HoldsSeatRow(s', j);
    }
    if Inserting(s, j) {
      if p.call.Reserve? {
        assert Inserting(s, i);
      }
      assert HoldsNewRow(s', j);
    }
    if !q.call.Reserve? && (q.pc.WonBooking? || q.pc.WantsSeat? || q.pc.Committing?) {
      assert HoldsBookingRow(s', j);
    }
  }

  lemma CommitKeepsInv(s: State, i: nat, pc: Pc)
    requires Inv(s) && i < |s.procs| && s.procs[i].pc.Committing?
    requires pc.Done? || pc.Failed?
    ensures Inv(Commit(s, i, pc))
  {
    var p := s.procs[i];
    var s' := Commit(s, i, pc);
    assert ProcOk(s, i);
    CommitIsAtomic(s, i, pc);
    ApplyKeepsConsistent(s.db, p.call, p.newId);
    forall b: nat | IdUsed(s', b) ensures b < s'.nextId {
      assert IdUsed(s, b) || (p.call.Reserve? && b == p.newId);
    }
    forall j: nat | j < |s'.procs| && j != i ensures ProcOk(s', j) {
      CommitLeavesOthers(s, i, pc, j);
    }
    Reassemble(s, s', i);
  }

  lemma EndKeepsInv(s: State, i: nat, pc: Pc)
    requires Inv(s) && i < |s.procs|
    requires pc.Done? || pc.Failed? || (pc.Reread? && s.procs[i].pc.Lost?)
    ensures Inv(End(s, i, pc))
  {
    assert ProcOk(s, i);
    OthersUndisturbed(s, End(s, i, pc), i);
    Reassemble(s, End(s, i, pc), i);
  }

  /** A step that only moves the program counter on to the next statement. */
  lemma MoveOnKeepsInv(s: State, i: nat)
    requires Inv(s) && Enabled(s, Advance(i))
    requires var pc := s.procs[i].pc; pc.Start? || pc.Opened? || pc.WonBooking?
    requires !Step(s, i).procs[i].pc.Done?
    ensures Inv(Step(s, i))
  {
    var s' := Step(s, i);
    assert ProcOk(s, i);
    if s.procs[i].pc.WonBooking? {
      WonBookingMeansFreeSeat(s, i);
    }
    OthersUndisturbed(s, s', i);
    Reassemble(s, s', i);
  }

  /** A step that ends by locking and writing a row, inserting one, or finding that it lost the race. */
  lemma WriteKeepsInv(s: State, i: nat)
    requires Inv(s) && Enabled(s, Advance(i))
    requires var pc := s.procs[i].pc; pc.WantsFirst? || pc.WantsSeat? || pc.SeatTaken?
    requires !Step(s, i).procs[i].pc.Done?
    ensures Inv(Step(s, i))
  {
    var s' := Step(s, i);
    assert ProcOk(s, i);
    if s.procs[i].pc.WantsSeat? {
      WonBookingMeansFreeSeat(s, i);
    }
    assert !IdUsed(s, s.nextId);
    OthersUndisturbed(s, s', i);
    Reassemble(s, s', i);
  }

  lemma NextKeepsInv(s: State, a: Action)
    requires Inv(s) && Enabled(s, a)
    ensures Inv(Next(s, a)) && |Next(s, a).procs| == |s.procs|
  {
    var i := a.pid;
    assert ProcOk(s, i);
    match a
    case Abort(_) => EndKeepsInv(s, i, Failed);
    case CommitUnheard(_) => CommitKeepsInv(s, i, Failed);
    case Advance(_) =>
      var pc' := Step(s, i).procs[i].pc;
      if s.procs[i].pc.Committing? {
        CommitKeepsInv(s, i, pc');
      } else if pc'.Done? || pc'.Reread? {
        if s.procs[i].pc.WonBooking? || s.procs[i].pc.WantsSeat? {
          WonBookingMeansFreeSeat(s, i);
        }
        EndKeepsInv(s, i, pc');
      } else if s.procs[i].pc.Start? || s.procs[i].pc.Opened? || s.procs[i].pc.WonBooking? {
        MoveOnKeepsInv(s, i);
      } else {
        WriteKeepsInv(s, i);
      }
  }

  lemma InvAtStart(s: State)
    requires Init(s)
    ensures Inv(s)
  {
    forall i: nat | i < |s.procs| ensures ProcOk(s, i) {
      assert s.procs[i] == NewProc(s.procs[i].call);
    }
    assert forall i: nat :: !Inserting(s, i);
  }

  lemma {:induction false} InvAlways(s: State, run: seq<Action>)
    requires Init(s) && Legal(s, run)
    ensures Inv(After(s, run))
    ensures |After(s, run).procs| == |s.procs|
    decreases |run|
  {
    if run == [] {
      InvAtStart(s);
    } else {
      var n := |run| - 1;
      InvAlways(s, run[..n]);
      NextKeepsInv(After(s, run[..n]), run[n]);
    }
  }
}
