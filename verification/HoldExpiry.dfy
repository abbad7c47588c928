/** The delayed job that reclaims an abandoned hold: scheduled after the reservation commits, run at most
    three times, kept as failed (at most 200 of them) when every attempt failed, removed on cancel. */
module HoldExpiry {
  import opened Wrappers
  import opened BookingModel

  const MAX_ATTEMPTS: nat := 3
  const BACKOFF_MS: nat := 5000
  const KEPT_FAILURES: nat := 200

  /** `ranExpire` says that this attempt's expiry transaction has committed. */
  datatype Job = Waiting(fireAt: int, attemptsMade: nat) | Running(attemptsMade: nat, ranExpire: bool)

  /** `jobs` by booking (the job id is derived from it), `kept` the failed jobs still in Redis, oldest first,
      `log` every booking whose job ever failed for good, in order. */
  datatype Queue = Queue(jobs: map<nat, Job>, kept: seq<nat>, log: seq<nat>)

  function Max(a: int, b: int): int {
    if a < b then b else a
  }

  /** When a job added at `now` for this deadline becomes due; BullMQ stamps it `lag` later than `now`. */
  function DueAt(now: int, lag: nat, holdExpiresAt: int): int {
    now + lag + Max(0, holdExpiresAt - now)
  }

  /** An id that is already queued is left as it is. */
  function Schedule(q: Queue, b: nat, fireAt: int): Queue {
    if b in q.jobs then q else q.(jobs := q.jobs[b := Waiting(fireAt, 0)])
  }

  function KeepNewest(kept: seq<nat>, b: nat): seq<nat> {
    if |kept| < KEPT_FAILURES then kept + [b] else kept[|kept| - KEPT_FAILURES + 1..] + [b]
  }

  lemma TrimmedIsNewest(kept: seq<nat>, b: nat)
    ensures KeepNewest(kept, b) ==
            if |kept| + 1 > KEPT_FAILURES then (kept + [b])[|kept| + 1 - KEPT_FAILURES..] else kept + [b]
  {
  }

  /** 5 s after the first failed attempt, 10 s after the second. */
  function Backoff(attemptsMade: nat): nat {
    if attemptsMade <= 1 then BACKOFF_MS else 2 * Backoff(attemptsMade - 1)
  }

  predicate IsTerminal(attemptsMade: nat) {
    attemptsMade >= MAX_ATTEMPTS
  }

  function FailAttempt(q: Queue, b: nat, now: int): Queue
    requires b in q.jobs
  {
    var made := q.jobs[b].attemptsMade + 1;
    if IsTerminal(made) then Queue(q.jobs - {b}, KeepNewest(q.kept, b), q.log + [b])
    else q.(jobs := q.jobs[b := Waiting(now + Backoff(made), made)])
  }

  function Without(s: seq<nat>, b: nat): seq<nat> {
    if s == [] then [] else (if s[0] == b then [] else [s[0]]) + Without(s[1..], b)
  }

  /** Removal after a cancel. A running job is locked: removing it throws, and the error is swallowed. */
  function RemoveJob(q: Queue, b: nat): Queue {
    if b in q.jobs then (if q.jobs[b].Running? then q else q.(jobs := q.jobs - {b}))
    else q.(kept := Without(q.kept, b))
  }

  /** The queue and worker as the source drives them; every method is one of the functions above. */
  class HoldExpiryQueue {
    var jobs: map<nat, Job>
    var kept: seq<nat>
    ghost var log: seq<nat>
    var failedTotal: nat // holdExpiryJobsTotal{outcome="failed"}

    constructor ()
      ensures View() == Queue(map[], [], []) && Valid()
    {
      jobs, kept, log, failedTotal := map[], [], [], 0;
    }

    ghost function View(): Queue
      reads this
    {
      Queue(jobs, kept, log)
    }

    /** The failure counter counts jobs given up on, not failed attempts. */
    ghost predicate Valid()
      reads this
    {
      failedTotal == |log|
    }

    method ScheduleHoldExpiry(bookingId: nat, holdExpiresAt: int, now: int, lag: nat)
      requires Valid()
      modifies this
      ensures Valid() && View() == Schedule(old(View()), bookingId, DueAt(now, lag, holdExpiresAt))
    {
      var delay := if holdExpiresAt > now then holdExpiresAt - now else 0;
      if bookingId !in jobs {
        jobs := jobs[bookingId := Waiting(now + lag + delay, 0)];
      }
    }

    /** The clean-up after a cancel: the job if it is waiting, else the record of its failure. */
    method Remove(bookingId: nat)
      requires Valid()
      modifies this
      ensures Valid() && View() == RemoveJob(old(View()), bookingId)
    {
      if bookingId in jobs {
        if !jobs[bookingId].Running? {
          jobs := jobs - {bookingId};
        }
      } else {
        kept := Without(kept, bookingId);
      }
    }

    method OnFailed(bookingId: nat, now: int)
      requires Valid() && bookingId in jobs
      modifies this
      ensures Valid() && View() == FailAttempt(old(View()), bookingId, now)
    {
      hide Backoff, KeepNewest;
      var attemptsMade := jobs[bookingId].attemptsMade + 1;
      if attemptsMade >= MAX_ATTEMPTS {
        failedTotal := failedTotal + 1;
        jobs := jobs - {bookingId};
        kept := kept + [bookingId];
        TrimmedIsNewest(old(kept), bookingId);
        if |kept| > KEPT_FAILURES {
          kept := kept[|kept| - KEPT_FAILURES..];
        }
        log := log + [bookingId];
      } else {
        jobs := jobs[bookingId := Waiting(now + Backoff(attemptsMade), attemptsMade)];
      }
    }
  }

  // ----- the queue beside the tables and the clock -----

  datatype World = World(
    now: int,
    db: Db,
    firstId: nat,                // ids from here on are of bookings made in this run
    nextId: nat,
    queue: Queue,
    unscheduled: map<nat, int>,  // reservations committed, their job not yet added, with the deadline
    scheduled: set<nat>,         // reservations whose job was added
    cancelled: set<nat>)         // cancels committed, the job not yet removed

  datatype Action =
    | Tick(ms: nat)
    | Use(call: Call)                 // a reserve, confirm or cancel, as one atomic operation
    | AddJob(b: nat, lag: nat)
    | LoseJob(b: nat)                 // scheduling failed; logged and swallowed
    | StartJob(b: nat)
    | RunExpire(b: nat)               // the attempt's expiry transaction commits
    | Complete(b: nat)                // the attempt succeeded; the job is removed
    | FailJob(b: nat)                 // the attempt failed, before or after its commit
    | Remove(b: nat)

  predicate Enabled(w: World, a: Action) {
    match a
    case Tick(_) => true
    case Use(call) => !call.Expire?
    case AddJob(b, _) => b in w.unscheduled
    case LoseJob(b) => b in w.unscheduled
    case StartJob(b) => b in w.queue.jobs && w.queue.jobs[b].Waiting? && w.queue.jobs[b].fireAt <= w.now
    case RunExpire(b) => b in w.queue.jobs && w.queue.jobs[b].Running?
    case Complete(b) => b in w.queue.jobs && w.queue.jobs[b].Running? && w.queue.jobs[b].ranExpire
    case FailJob(b) => b in w.queue.jobs && w.queue.jobs[b].Running?
    case Remove(b) => b in w.cancelled
  }

  function SetJob(w: World, b: nat, job: Job): World {
    w.(queue := w.queue.(jobs := w.queue.jobs[b := job]))
  }

  function Next(w: World, a: Action): World
    requires Enabled(w, a)
  {
    match a
    case Tick(ms) => w.(now := w.now + ms)
    case Use(call) =>
      var (db, outcome) := Apply(w.db, call, w.nextId);
      w.(db := db, nextId := w.nextId + 1,
         unscheduled := if outcome.Reserved? then w.unscheduled[w.nextId := call.holdExpiresAt] else w.unscheduled,
         cancelled := if outcome.CancelDone? then w.cancelled + {call.bookingId} else w.cancelled)
    case AddJob(b, lag) =>
      w.(queue := Schedule(w.queue, b, DueAt(w.now, lag, w.unscheduled[b])),
         unscheduled := w.unscheduled - {b}, scheduled := w.scheduled + {b})
    case LoseJob(b) => w.(unscheduled := w.unscheduled - {b})
    case StartJob(b) => SetJob(w, b, Running(w.queue.jobs[b].attemptsMade, false))
    case RunExpire(b) =>
      SetJob(w.(db := Apply(w.db, Expire(b), w.nextId).0), b, Running(w.queue.jobs[b].attemptsMade, true))
    case Complete(b) => w.(queue := w.queue.(jobs := w.queue.jobs - {b}))
    case FailJob(b) => w.(queue := FailAttempt(w.queue, b, w.now))
    case Remove(b) => w.(queue := RemoveJob(w.queue, b), cancelled := w.cancelled - {b})
  }

  /** Any tables, no job yet, nothing in flight. */
  ghost predicate Init(w: World) {
    && w.firstId == w.nextId && (forall b {:trigger b in w.db.bookings} :: b in w.db.bookings ==> b < w.nextId)
    && w.queue == Queue(map[], [], []) && w.unscheduled == map[] && w.scheduled == {} && w.cancelled == {}
  }

  predicate Legal(w: World, run: seq<Action>)
    decreases |run|, 0
  {
    run == [] || (var n := |run| - 1; Legal(w, run[..n]) && Enabled(After(w, run[..n]), run[n]))
  }

  function After(w: World, run: seq<Action>): World
    requires Legal(w, run)
    decreases |run|, 1
  {
    if run == [] then w else Next(After(w, run[..|run| - 1]), run[|run| - 1])
  }

  // ----- the invariant -----

  predicate IsPending(db: Db, b: nat) {
    StatusOf(db, b) == Some(Pending)
  }

  /** The job at log position `k` is not followed by 200 later failures. */
  predicate Recent(q: Queue, k: int) {
    0 <= k < |q.log| <= k + KEPT_FAILURES
  }

  /** `kept` is a thinned-out tail of the log: its `j`-th entry failed no later than it would have in a full
      tail of the same length. */
  ghost predicate KeptIn(q: Queue, j: int) {
    0 <= j < |q.kept| ==> exists k :: 0 <= k <= |q.log| - |q.kept| + j && k < |q.log| && q.log[k] == q.kept[j]
  }

  /** Every recent failure whose booking is still pending is kept. */
  ghost predicate FailureOk(q: Queue, db: Db, k: int) {
    Recent(q, k) && IsPending(db, q.log[k]) ==> q.log[k] in q.kept
  }

  ghost predicate QueueOk(q: Queue, db: Db) {
    && |q.kept| <= KEPT_FAILURES
    && (forall k, l {:trigger q.log[k], q.log[l]} :: 0 <= k < l < |q.log| ==> q.log[k] != q.log[l])
    && (forall j {:trigger KeptIn(q, j)} :: KeptIn(q, j))
    && (forall k {:trigger FailureOk(q, db, k)} :: FailureOk(q, db, k))
  }

  /** A queued job belongs to a booking made in this run and is not due before its hold ends. */
  predicate JobOk(w: World, b: nat) {
    b in w.queue.jobs ==>
      && w.firstId <= b && b in w.db.bookings && b in w.scheduled && b !in w.queue.log
      && match w.queue.jobs[b]
         case Waiting(fireAt, made) => made < MAX_ATTEMPTS && w.db.bookings[b].holdExpiresAt <= fireAt
         case Running(made, ranExpire) =>
           && made < MAX_ATTEMPTS && w.db.bookings[b].holdExpiresAt <= w.now
           && (ranExpire ==> !IsPending(w.db, b))
  }

  predicate BookingOk(w: World, b: nat) {
    b in w.db.bookings ==>
      && b < w.nextId
      && (w.firstId <= b && w.db.bookings[b].status == Expired ==> w.db.bookings[b].holdExpiresAt <= w.now)
  }

  /** A booking whose job was added is queued, failed for good, or no longer pending. */
  predicate ScheduledOk(w: World, b: nat) {
    (b in w.queue.log ==> b in w.scheduled) &&
    (b in w.scheduled ==>
       b in w.db.bookings && (IsPending(w.db, b) ==> b in w.queue.jobs || b in w.queue.log))
  }

  predicate UnscheduledOk(w: World, b: nat) {
    b in w.unscheduled ==>
      && w.firstId <= b && b !in w.scheduled
      && b in w.db.bookings && w.db.bookings[b].holdExpiresAt == w.unscheduled[b]
  }

  predicate CancelledOk(w: World, b: nat) {
    b in w.cancelled ==> StatusOf(w.db, b) == Some(Cancelled)
  }

  predicate AllOk(w: World, b: nat) {
    JobOk(w, b) && BookingOk(w, b) && ScheduledOk(w, b) && UnscheduledOk(w, b) && CancelledOk(w, b)
  }

  ghost predicate Inv(w: World) {
    && w.firstId <= w.nextId
    && QueueOk(w.queue, w.db)
    && forall b: nat {:trigger AllOk(w, b)} :: AllOk(w, b)
  }

  // ----- the queue alone -----

  lemma {:induction false} WithoutThins(s: seq<nat>, b: nat, j: nat)
    requires j < |Without(s, b)|
    ensures exists i :: j <= i <= j + |s| - |Without(s, b)| && i < |s| && Without(s, b)[j] == s[i]
  {
    if s[0] == b {
      WithoutThins(s[1..], b, j);
      var i :| j <= i <= j + |s[1..]| - |Without(s[1..], b)| && i < |s[1..]| && Without(s[1..], b)[j] == s[1..][i];
      assert s[i + 1] == s[1..][i];
    } else if j == 0 {
      WithoutIsShorter(s[1..], b);
      assert Without(s, b)[0] == s[0];
    } else {
      WithoutThins(s[1..], b, j - 1);
      var i :| j - 1 <= i <= j - 1 + |s[1..]| - |Without(s[1..], b)| && i < |s[1..]| &&
               Without(s[1..], b)[j - 1] == s[1..][i];
      assert s[i + 1] == s[1..][i];
    }
  }

  lemma {:induction false} WithoutIsShorter(s: seq<nat>, b: nat)
    ensures |Without(s, b)| <= |s|
    ensures forall x :: x in s && x != b ==> x in Without(s, b)
  {
    if s != [] {
      WithoutIsShorter(s[1..], b);
    }
  }

  lemma FailKeepsQueueOk(q: Queue, b: nat, now: int, db: Db)
    requires QueueOk(q, db) && b in q.jobs && b !in q.log
    ensures QueueOk(FailAttempt(q, b, now), db)
  {
    var q' := FailAttempt(q, b, now);
    if q'.log == q.log {
      forall j ensures KeptIn(q', j) { assert KeptIn(q, j); }
      forall k ensures FailureOk(q', db, k) { assert FailureOk(q, db, k); }
    } else {
      var dropped := |q.kept| + 1 - |q'.kept|;
      forall j | 0 <= j < |q'.kept| ensures KeptIn(q', j) {
        assert KeptIn(q, j + dropped);
        if j == |q'.kept| - 1 {
          assert q'.log[|q.log|] == b;
        } else {
          var k :| 0 <= k <= |q.log| - |q.kept| + j + dropped && k < |q.log| && q.log[k] == q.kept[j + dropped];
          assert q'.log[k] == q'.kept[j];
        }
      }
      forall k | Recent(q', k) && IsPending(db, q'.log[k]) ensures q'.log[k] in q'.kept {
        if k < |q.log| {
          assert q'.log[k] == q.log[k];
          assert FailureOk(q, db, k);
          var i :| 0 <= i < |q.kept| && q.kept[i] == q.log[k];
          assert KeptIn(q, i);
          assert q'.kept[i - dropped] == q.kept[i];
        } else {
          assert q'.kept[|q'.kept| - 1] == b;
        }
      }
    }
  }

  lemma RemoveKeepsQueueOk(q: Queue, b: nat, db: Db)
    requires QueueOk(q, db) && !IsPending(db, b)
    ensures QueueOk(RemoveJob(q, b), db)
  {
    var q' := RemoveJob(q, b);
    WithoutIsShorter(q.kept, b);
    forall j | 0 <= j < |q'.kept| ensures KeptIn(q', j) {
      if q'.kept == q.kept {
        assert KeptIn(q, j);
      } else {
        WithoutThins(q.kept, b, j);
        var i :| j <= i <= j + |q.kept| - |q'.kept| && i < |q.kept| && q'.kept[j] == q.kept[i];
        assert KeptIn(q, i);
      }
    }
    forall k ensures FailureOk(q', db, k) {
      assert FailureOk(q, db, k);
    }
  }

  /** The kept list ignores the jobs, and a booking that stops being pending asks for less. */
  lemma QueueOkCarries(q: Queue, db: Db, q': Queue, db': Db)
    requires QueueOk(q, db) && q'.kept == q.kept && q'.log == q.log
    requires forall k {:trigger q.log[k]} :: 0 <= k < |q.log| && IsPending(db', q.log[k]) ==> IsPending(db, q.log[k])
    ensures QueueOk(q', db')
  {
    forall j ensures KeptIn(q', j) { assert KeptIn(q, j); }
    forall k ensures FailureOk(q', db', k) { assert FailureOk(q, db, k); }
  }

  // ----- every step keeps the invariant -----

  lemma UseKeepsInv(w: World, call: Call)
    requires Inv(w) && Enabled(w, Use(call))
    ensures Inv(Next(w, Use(call)))
  {
    var w' := Next(w, Use(call));
    assert AllOk(w, w.nextId);
    ApplyAdvances(w.db, call, w.nextId);
    forall b: nat ensures AllOk(w', b) {
      assert AllOk(w, b);
    }
    forall k | 0 <= k < |w.queue.log| && IsPending(w'.db, w.queue.log[k]) ensures IsPending(w.db, w.queue.log[k]) {
      assert AllOk(w, w.queue.log[k]);
    }
    QueueOkCarries(w.queue, w.db, w'.queue, w'.db);
  }

  lemma RunExpireKeepsInv(w: World, b: nat)
    requires Inv(w) && Enabled(w, RunExpire(b))
    ensures Inv(Next(w, RunExpire(b)))
  {
    var w' := Next(w, RunExpire(b));
    assert AllOk(w, b);
    ApplyAdvances(w.db, Expire(b), w.nextId);
    forall c: nat ensures AllOk(w', c) {
      assert AllOk(w, c);
    }
    QueueOkCarries(w.queue, w.db, w'.queue, w'.db);
  }

  lemma QueueStepKeepsInv(w: World, a: Action)
    requires Inv(w) && Enabled(w, a) && !a.Use? && !a.RunExpire?
    ensures Inv(Next(w, a))
  {
    var w' := Next(w, a);
    if a.FailJob? {
      assert AllOk(w, a.b);
      FailKeepsQueueOk(w.queue, a.b, w.now, w.db);
    } else if a.Remove? {
      assert AllOk(w, a.b);
      RemoveKeepsQueueOk(w.queue, a.b, w.db);
    } else {
      QueueOkCarries(w.queue, w.db, w'.queue, w'.db);
    }
    forall c: nat ensures AllOk(w', c) {
      assert AllOk(w, c);
      if !a.Tick? {
        assert AllOk(w, a.b);
      }
    }
  }

  lemma {:induction false} InvAlways(w: World, run: seq<Action>)
    requires Init(w) && Legal(w, run)
    ensures Inv(After(w, run))
    ensures After(w, run).firstId == w.firstId
    decreases |run|
  {
    if run == [] {
      forall b: nat ensures AllOk(w, b) {
        assert b in w.db.bookings ==> b < w.nextId;
      }
      assert forall j :: KeptIn(w.queue, j);
      assert forall k :: FailureOk(w.queue, w.db, k);
    } else {
      var n := |run| - 1;
      InvAlways(w, run[..n]);
      var before, a := After(w, run[..n]), run[n];
      if a.Use? {
        UseKeepsInv(before, a.call);
      } else if a.RunExpire? {
        RunExpireKeepsInv(before, a.b);
      } else {
        QueueStepKeepsInv(before, a);
      }
    }
  }

  // ----- what the source promises -----

  /** No booking made by reserveSeat expires before its holdExpiresAt, in any run. */
  lemma NeverExpiresEarly(w: World, run: seq<Action>, b: nat)
    requires Init(w) && Legal(w, run) && w.firstId <= b && b in After(w, run).db.bookings
    requires After(w, run).db.bookings[b].status == Expired
    ensures After(w, run).db.bookings[b].holdExpiresAt <= After(w, run).now
  {
    InvAlways(w, run);
    assert AllOk(After(w, run), b);
  }

  /** One more failure when the list is full drops the oldest, pending or not. */
  lemma FullListForgetsItsOldest(w: World, b: nat, c: nat)
    requires Inv(w) && |w.queue.kept| == KEPT_FAILURES && w.queue.kept[0] == b && IsPending(w.db, b)
    requires Enabled(w, FailJob(c)) && w.queue.jobs[c].attemptsMade == MAX_ATTEMPTS - 1
    requires forall j :: 0 < j < KEPT_FAILURES ==> w.queue.kept[j] != b
    ensures
      var w' := Next(w, FailJob(c));
      IsPending(w'.db, b) && b !in w'.queue.jobs && b !in w'.queue.kept
  {
    assert KeptIn(w.queue, 0);
    assert b in w.queue.log;
    assert AllOk(w, b) && AllOk(w, c);
    var kept' := Next(w, FailJob(c)).queue.kept;
    forall j | 0 <= j < |kept'| ensures kept'[j] != b {
      assert kept'[j] == if j < KEPT_FAILURES - 1 then w.queue.kept[j + 1] else c;
    }
  }

  /** A job that runs its expiry while the booking is pending reclaims the seat, and the job then completes. */
  lemma DueJobReclaimsTheSeat(w: World, b: nat)
    requires Inv(w) && Consistent(w.db) && IsPending(w.db, b) && Enabled(w, RunExpire(b))
    ensures
      var w' := Next(w, RunExpire(b));
      && StatusOf(w'.db, b) == Some(Expired)
      && SeatMatches(w'.db, w.db.bookings[b].seatId, {Available})
      && Enabled(w', Complete(b)) && b !in Next(w', Complete(b)).queue.jobs
  {
    assert Occupies(w.db, b, w.db.bookings[b].seatId);
  }
}
