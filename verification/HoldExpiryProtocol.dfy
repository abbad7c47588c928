/** The expiry queue beside the interleaved protocol: every attempt of a job is a caller of the protocol, whose
    steps mix with those of all other transactions. No hold is ended early there either, and a job is forgotten
    under exactly the same condition. */
module HoldExpiryProtocol {
  import opened Wrappers
  import opened BookingModel
  import P = BookingProtocol
  import R = BookingRefinement
  import Q = HoldExpiry
  import opened FailureRecords
  import HoldExpiryRetries

  /** `launched` holds the callers that are attempts of a job which has been started, `scheduled` the bookings
      whose job was added. */
  datatype World = World(now: int, state: P.State, queue: Q.Queue, launched: set<nat>, scheduled: set<nat>)

  datatype Action =
    | Tick(ms: nat)
    | Step(a: P.Action)
    | AddJob(pid: nat, lag: nat)      // after the reserve that caller `pid` made; scheduling may also never happen
    | StartJob(b: nat, pid: nat)      // caller `pid` becomes the next attempt of the job of booking `b`
    | Complete(b: nat, pid: nat)
    | FailJob(b: nat)
    | Remove(pid: nat)                // after the cancel that caller `pid` made

  /** An expiry only runs as the attempt of a job. */
  predicate Enabled(w: World, a: Action) {
    var procs := w.state.procs;
    match a
    case Tick(_) => true
    case Step(a) => P.Enabled(w.state, a) && (procs[a.pid].call.Expire? ==> a.pid in w.launched)
    case AddJob(pid, _) =>
      && pid < |procs| && procs[pid].call.Reserve? && procs[pid].pc.Done? && procs[pid].pc.outcome.Reserved?
      && procs[pid].pc.outcome.bookingId !in w.scheduled
    case StartJob(b, pid) =>
      && b in w.queue.jobs && w.queue.jobs[b].Waiting? && w.queue.jobs[b].fireAt <= w.now
      && pid < |procs| && procs[pid].call == Expire(b) && procs[pid].pc.Start? && pid !in w.launched
    case Complete(b, pid) =>
      && b in w.queue.jobs && w.queue.jobs[b].Running?
      && pid < |procs| && pid in w.launched && procs[pid].call == Expire(b) && procs[pid].pc.Done?
    case FailJob(b) => b in w.queue.jobs && w.queue.jobs[b].Running?
    case Remove(pid) => pid < |procs| && procs[pid].call.Cancel? && procs[pid].pc == P.Done(CancelDone)
  }

  function Next(w: World, a: Action): World
    requires Enabled(w, a)
  {
    match a
    case Tick(ms) => w.(now := w.now + ms)
    case Step(a) => w.(state := P.Next(w.state, a))
    case AddJob(pid, lag) =>
      var p := w.state.procs[pid];
      w.(queue := Q.Schedule(w.queue, p.pc.outcome.bookingId, Q.DueAt(w.now, lag, p.call.holdExpiresAt)),
         scheduled := w.scheduled + {p.pc.outcome.bookingId})
    case StartJob(b, pid) =>
      w.(queue := w.queue.(jobs := w.queue.jobs[b := Q.Running(w.queue.jobs[b].attemptsMade, false)]),
         launched := w.launched + {pid})
    case Complete(b, _) => w.(queue := w.queue.(jobs := w.queue.jobs - {b}))
    case FailJob(b) => w.(queue := Q.FailAttempt(w.queue, b, w.now))
    case Remove(pid) => w.(queue := Q.RemoveJob(w.queue, w.state.procs[pid].call.bookingId))
  }

  ghost predicate Init(w: World) {
    P.Init(w.state) && w.queue == Q.Queue(map[], [], []) && w.launched == {} && w.scheduled == {}
  }

  predicate Legal(w: World, run: seq<Action>)
    decreases |run|, 0
  {
    run == [] || (var n := |run| - 1; Legal(w, run[..n]) && Enabled(After(w, run[..n]), run[n]))
  }

  function After(w: World, run: seq<Action>): World
    requires Legal(w, run)
    decreases |run|, 1
  {
    if run == [] then w else Next(After(w, run[..|run| - 1]), run[|run| - 1])
  }

  // ----- the invariant -----

  /** The hold of booking `b` is over at `time`. */
  predicate HoldOver(db: Db, b: nat, time: int) {
    b in db.bookings && db.bookings[b].holdExpiresAt <= time
  }

  predicate JobOk(w: World, b: nat) {
    b in w.queue.jobs ==>
      match w.queue.jobs[b]
      case Waiting(fireAt, _) => HoldOver(w.state.db, b, fireAt)
      case Running(_, _) => HoldOver(w.state.db, b, w.now)
  }

  predicate CallerOk(w: World, i: nat)
    requires i < |w.state.procs|
  {
    var p := w.state.procs[i];
    && (p.call.Expire? ==> if i in w.launched then HoldOver(w.state.db, p.call.bookingId, w.now) else p.pc.Start?)
    && (p.call.Reserve? && p.pc.Done? && p.pc.outcome.Reserved? ==>
          HoldOver(w.state.db, p.pc.outcome.bookingId, p.call.holdExpiresAt))
    && (p.pc.Done? && (p.call.Expire? || (p.call.Cancel? && p.pc.outcome == CancelDone)) ==>
          IsSettled(w.state.db, p.call.bookingId))
  }

  /** A job is added once; a pending booking whose job was added has it in the queue, or it failed for good. */
  predicate BookingOk(w: World, b: nat) {
    && (b in w.queue.jobs ==> b in w.scheduled && b !in w.queue.log)
    && (b in w.queue.log ==> b in w.scheduled)
    && (b in w.scheduled ==>
          b in w.state.db.bookings && (IsSettled(w.state.db, b) || b in w.queue.jobs || b in w.queue.log))
  }

  predicate IsExpired(db: Db, b: nat) {
    StatusOf(db, b) == Some(Expired)
  }

  predicate ExpiredOk(start: Db, w: World, b: nat) {
    IsExpired(w.state.db, b) && !IsExpired(start, b) ==> HoldOver(w.state.db, b, w.now)
  }

  ghost predicate Inv(start: Db, w: World) {
    && P.Inv(w.state)
    && (forall b: nat {:trigger JobOk(w, b)} :: JobOk(w, b))
    && (forall i: nat {:trigger CallerOk(w, i)} :: i < |w.state.procs| ==> CallerOk(w, i))
    && (forall b: nat {:trigger ExpiredOk(start, w, b)} :: ExpiredOk(start, w, b))
    && (forall b: nat {:trigger BookingOk(w, b)} :: BookingOk(w, b))
    && NoRepeats(w.queue.log)
  }

  // ----- every step keeps it -----

  /** Only an expiry of the booking itself makes it expired. */
  lemma ApplyExpires(db: Db, call: Call, newId: nat, b: nat)
    requires IsExpired(Apply(db, call, newId).0, b) && !IsExpired(db, b)
    ensures call == Expire(b)
  {
  }

  /** A reserve that succeeds stores the deadline it was given. */
  lemma ReserveStoresDeadline(db: Db, call: Call, newId: nat)
    requires Apply(db, call, newId).1.Reserved?
    ensures call.Reserve? && Apply(db, call, newId).1.bookingId == newId
    ensures HoldOver(Apply(db, call, newId).0, newId, call.holdExpiresAt)
  {
  }

  lemma StepExpires(s: P.State, a: P.Action, b: nat)
    requires P.Inv(s) && P.Enabled(s, a) && IsExpired(P.Next(s, a).db, b) && !IsExpired(s.db, b)
    ensures s.procs[a.pid].call == Expire(b)
  {
    hide P.Next, P.Inv;
    R.StepRefines(s, a);
    R.StepShape(s, a);
    var e := R.Emitted(s, a)[0];
    assert R.Emitted(s, a) == [e];
    ApplyExpires(s.db, e.call, e.newId, b);
  }

  lemma StepReserves(s: P.State, a: P.Action)
    requires P.Inv(s) && P.Enabled(s, a) && P.Next(s, a).procs[a.pid].pc.Done?
    requires P.Next(s, a).procs[a.pid].pc.outcome.Reserved?
    ensures
      var p := P.Next(s, a).procs[a.pid];
      p.call.Reserve? && HoldOver(P.Next(s, a).db, p.pc.outcome.bookingId, p.call.holdExpiresAt)
  {
    hide P.Next, P.Inv;
    R.StepRefines(s, a);
    R.StepShape(s, a);
    var e := R.Emitted(s, a)[0];
    assert R.Emitted(s, a) == [e];
    ReserveStoresDeadline(s.db, e.call, e.newId);
  }

  /** An expiry or a cancel that has run leaves its booking settled. */
  lemma ApplySettles(db: Db, call: Call, newId: nat)
    requires call.Expire? || (call.Cancel? && Apply(db, call, newId).1 == CancelDone)
    requires call.Expire? ==> call.bookingId in db.bookings
    ensures IsSettled(Apply(db, call, newId).0, call.bookingId)
  {
  }

  lemma StepSettles(s: P.State, a: P.Action)
    requires P.Inv(s) && P.Enabled(s, a) && P.Next(s, a).procs[a.pid].pc.Done?
    requires
      var p := P.Next(s, a).procs[a.pid];
      && (p.call.Expire? || (p.call.Cancel? && p.pc.outcome == CancelDone))
      && (p.call.Expire? ==> p.call.bookingId in s.db.bookings)
    ensures IsSettled(P.Next(s, a).db, P.Next(s, a).procs[a.pid].call.bookingId)
  {
    hide P.Next, P.Inv;
    R.StepRefines(s, a);
    R.StepShape(s, a);
    var e := R.Emitted(s, a)[0];
    assert R.Emitted(s, a) == [e];
    ApplySettles(s.db, e.call, e.newId);
  }

  lemma StepKeepsInv(start: Db, w: World, a: P.Action)
    requires Inv(start, w) && Enabled(w, Step(a))
    ensures Inv(start, Next(w, Step(a)))
  {
    hide P.Next, P.Inv, R.Emitted;
    var s, w' := w.state, Next(w, Step(a));
    P.NextKeepsInv(s, a);
    R.StepAdvances(s, a);
    R.StepShape(s, a);
    forall b: nat ensures JobOk(w', b) {
      assert JobOk(w, b);
    }
    forall i: nat | i < |w'.state.procs| ensures CallerOk(w', i) {
      assert CallerOk(w, i);
      var p := w'.state.procs[i];
      if i == a.pid && p.pc.Done? && p.pc.outcome.Reserved? {
        StepReserves(s, a);
      }
      if i == a.pid && p.pc.Done? && (p.call.Expire? || (p.call.Cancel? && p.pc.outcome == CancelDone)) {
        StepSettles(s, a);
      }
    }
    forall b: nat ensures BookingOk(w', b) {
      assert BookingOk(w, b);
    }
    forall b: nat ensures ExpiredOk(start, w', b) {
      assert ExpiredOk(start, w, b) && CallerOk(w, a.pid);
      if IsExpired(w'.state.db, b) && !IsExpired(s.db, b) {
        StepExpires(s, a, b);
      }
    }
  }

  lemma QueueStepKeepsInv(start: Db, w: World, a: Action)
    requires Inv(start, w) && Enabled(w, a) && !a.Step?
    ensures Inv(start, Next(w, a))
  {
    hide P.Inv;
    var w' := Next(w, a);
    forall b: nat ensures JobOk(w', b) {
      assert JobOk(w, b);
      if a.AddJob? {
        assert CallerOk(w, a.pid);
      }
    }
    forall i: nat | i < |w'.state.procs| ensures CallerOk(w', i) {
      assert CallerOk(w, i);
      if a.StartJob? {
        assert JobOk(w, a.b);
      }
    }
    forall b: nat ensures ExpiredOk(start, w', b) {
      assert ExpiredOk(start, w, b);
    }
    forall b: nat ensures BookingOk(w', b) {
      QueueStepKeepsBooking(start, w, a, b);
    }
    if a.FailJob? {
      assert BookingOk(w, a.b);
    }
  }

  lemma QueueStepKeepsBooking(start: Db, w: World, a: Action, b: nat)
    requires Inv(start, w) && Enabled(w, a) && !a.Step?
    ensures BookingOk(Next(w, a), b)
  {
    hide P.Inv;
    assert BookingOk(w, b);
    match a
    case AddJob(pid, _) => assert CallerOk(w, pid);
    case Complete(c, pid) => assert CallerOk(w, pid);
    case Remove(pid) => assert CallerOk(w, pid);
    case FailJob(c) => assert BookingOk(w, c);
    case StartJob(c, _) => assert BookingOk(w, c);
    case _ =>
  }

  lemma {:induction false} InvAlways(w: World, run: seq<Action>)
    requires Init(w) && Legal(w, run)
    ensures Inv(w.state.db, After(w, run))
    decreases |run|
  {
    if run == [] {
      P.InvAtStart(w.state);
      forall i: nat | i < |w.state.procs| ensures CallerOk(w, i) {
        assert w.state.procs[i] == P.NewProc(w.state.procs[i].call);
      }
      assert forall b: nat :: JobOk(w, b);
      assert forall b: nat :: ExpiredOk(w.state.db, w, b);
      assert forall b: nat :: BookingOk(w, b);
    } else {
      var n := |run| - 1;
      InvAlways(w, run[..n]);
      var before := After(w, run[..n]);
      if run[n].Step? {
        StepKeepsInv(w.state.db, before, run[n].a);
      } else {
        QueueStepKeepsInv(w.state.db, before, run[n]);
      }
    }
  }

  /** In every interleaved run, with any aborts, crashes and retries, a booking that has become expired is past
      its holdExpiresAt. */
  lemma NeverExpiresEarly(w: World, run: seq<Action>, b: nat)
    requires Init(w) && Legal(w, run)
    requires b in After(w, run).state.db.bookings && After(w, run).state.db.bookings[b].status == Expired
    requires !(b in w.state.db.bookings && w.state.db.bookings[b].status == Expired)
    ensures After(w, run).state.db.bookings[b].holdExpiresAt <= After(w, run).now
  {
    InvAlways(w, run);
    assert ExpiredOk(w.state.db, After(w, run), b);
  }

  // ----- how long a failure is remembered -----

  function StepEvents(w: World, a: Action): seq<Event>
    requires Enabled(w, a)
  {
    match a
    case FailJob(b) => FailEvents(w.queue, b)
    case Remove(pid) => RemoveEvents(w.queue, w.state.procs[pid].call.bookingId)
    case _ => []
  }

  function EventsOf(w: World, run: seq<Action>): seq<Event>
    requires Legal(w, run)
    decreases |run|
  {
    if run == [] then []
    else EventsOf(w, run[..|run| - 1]) + StepEvents(After(w, run[..|run| - 1]), run[|run| - 1])
  }

  lemma NextAdvances(start: Db, w: World, a: Action)
    requires Inv(start, w) && Enabled(w, a)
    ensures Advances(w.state.db, Next(w, a).state.db)
  {
    hide P.Next, P.Inv;
    if a.Step? {
      R.StepAdvances(w.state, a.a);
    }
  }

  lemma {:induction false} EventsRecorded(w: World, run: seq<Action>)
    requires Init(w) && Legal(w, run)
    ensures Recorded(After(w, run).queue, EventsOf(w, run))
    ensures RemovalsOk(EventsOf(w, run), After(w, run).state.db)
    decreases |run|
  {
    if run != [] {
      var n := |run| - 1;
      var t, a, es := After(w, run[..n]), run[n], EventsOf(w, run[..n]);
      EventsRecorded(w, run[..n]);
      InvAlways(w, run[..n]);
      NextAdvances(w.state.db, t, a);
      RemovalsStayOk(es, t.state.db, Next(t, a).state.db);
      match a
      case FailJob(b) => FailIsRecorded(t.queue, es, b, t.now);
      case Remove(pid) =>
        assert CallerOk(t, pid);
        RemoveIsRecorded(t.queue, es, t.state.procs[pid].call.bookingId);
      case _ => assert es + [] == es;
    }
  }

  /** In every interleaved run: a pending booking whose job was added has it waiting, running or kept as failed if
      and only if no moment had 200 later failures on record with its own. */
  lemma PendingBookingsKeepTheirJob(w: World, run: seq<Action>, b: nat)
    requires Init(w) && Legal(w, run) && b in After(w, run).scheduled
    requires StatusOf(After(w, run).state.db, b) == Some(Pending)
    ensures
      var q, es := After(w, run).queue, EventsOf(w, run);
      && (b in q.jobs || b in q.kept <==> !EverPushedOut(es, b))
      && (EverPushedOut(es, b) ==> PushedOut(q.log, b))
      && (|q.log| <= 200 ==> b in q.jobs || b in q.kept)
  {
    InvAlways(w, run);
    EventsRecorded(w, run);
    var t, es := After(w, run), EventsOf(w, run);
    assert BookingOk(t, b);
    KeptIff(es, b);
    if b in t.queue.log {
      NotRemoved(es, b);
    }
  }

  // ----- how long a retry waits -----

  function FailureTimes(w: World, run: seq<Action>, b: nat): seq<int>
    requires Legal(w, run)
    decreases |run|
  {
    if run == [] then []
    else
      var n := |run| - 1;
      FailureTimes(w, run[..n], b) + if run[n] == FailJob(b) then [After(w, run[..n]).now] else []
  }

  lemma {:induction false} FailuresAlwaysOk(w: World, run: seq<Action>, b: nat)
    requires Init(w) && Legal(w, run)
    ensures
      var t, ts := After(w, run), FailureTimes(w, run, b);
      HoldExpiryRetries.FailuresOk(t.queue, b, ts, t.now) && (b !in t.scheduled ==> ts == [])
    decreases |run|
  {
    if run != [] {
      var n := |run| - 1;
      var t, a := After(w, run[..n]), run[n];
      FailuresAlwaysOk(w, run[..n], b);
      InvAlways(w, run[..n]);
      StepKeepsFailures(w.state.db, t, a, b, FailureTimes(w, run[..n], b));
    }
  }

  lemma StepKeepsFailures(start: Db, t: World, a: Action, b: nat, ts: seq<int>)
    requires Inv(start, t) && Enabled(t, a) && HoldExpiryRetries.FailuresOk(t.queue, b, ts, t.now)
    requires b !in t.scheduled ==> ts == []
    ensures
      var ts' := ts + if a == FailJob(b) then [t.now] else [];
      && HoldExpiryRetries.FailuresOk(Next(t, a).queue, b, ts', Next(t, a).now)
      && (b !in Next(t, a).scheduled ==> ts' == [])
  {
    assert BookingOk(t, b);
    hide HoldExpiryRetries.FailuresOk, Inv, BookingOk, P.Next, P.Inv;
    if a == FailJob(b) {
      HoldExpiryRetries.FailureIsSpaced(t.queue, b, ts, t.now);
    } else if a.FailJob? {
      HoldExpiryRetries.OthersFailure(t.queue, b, ts, t.now, a.b);
      assert ts + [] == ts;
    } else {
      NextMovesJobOn(start, t, a, b);
      HoldExpiryRetries.OtherStep(t.queue, b, ts, t.now, b !in t.scheduled, Next(t, a).queue, Next(t, a).now);
      assert ts + [] == ts;
    }
  }

  lemma NextMovesJobOn(start: Db, t: World, a: Action, b: nat)
    requires Inv(start, t) && Enabled(t, a) && !a.FailJob?
    ensures HoldExpiryRetries.JobMovesOn(t.queue, b, t.now, b !in t.scheduled, Next(t, a).queue)
    ensures t.now <= Next(t, a).now && t.scheduled <= Next(t, a).scheduled
  {
    hide P.Next, P.Inv;
    assert BookingOk(t, b);
  }

  /** In every interleaved run: an attempt starts at least 5000 ms after the first failure and 10000 ms after the
      second, and a job that has failed for good failed three times over at least 15 seconds. */
  lemma RetriesWait(w: World, run: seq<Action>, b: nat, pid: nat)
    requires Init(w) && Legal(w, run)
    ensures
      var t, ts := After(w, run), FailureTimes(w, run, b);
      && (Enabled(t, StartJob(b, pid)) && |ts| == 1 ==> t.now >= ts[0] + 5000)
      && (Enabled(t, StartJob(b, pid)) && |ts| == 2 ==> t.now >= ts[1] + 10000)
      && (b in t.queue.log ==> |ts| == 3 && ts[2] >= ts[0] + 15000)
  {
    FailuresAlwaysOk(w, run, b);
  }
}
