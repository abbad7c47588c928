/** Exactly how long a failed expiry job is remembered. The list of failed jobs is bounded, so the record of a
    hold that was never reclaimed is lost as soon as 200 later failures are on record with it; and a run is
    constructed that loses one. */
module HoldExpiryRecords {
  import opened Wrappers
  import opened BookingModel
  import opened HoldExpiry
  import opened FailureRecords

  function StepEvents(w: World, a: Action): seq<Event>
    requires Enabled(w, a)
  {
    match a
    case FailJob(b) => FailEvents(w.queue, b)
    case Remove(b) => RemoveEvents(w.queue, b)
    case _ => []
  }

  /** What a run does to the list of failed jobs. */
  function EventsOf(w: World, run: seq<Action>): seq<Event>
    requires Legal(w, run)
    decreases |run|
  {
    if run == [] then []
    else EventsOf(w, run[..|run| - 1]) + StepEvents(After(w, run[..|run| - 1]), run[|run| - 1])
  }

  lemma StepAdvances(w: World, a: Action)
    requires Inv(w) && Enabled(w, a)
    ensures Advances(w.db, Next(w, a).db)
  {
    assert AllOk(w, w.nextId);
    if a.Use? {
      ApplyAdvances(w.db, a.call, w.nextId);
    } else if a.RunExpire? {
      ApplyAdvances(w.db, Expire(a.b), w.nextId);
    }
  }

  lemma {:induction false} EventsRecorded(w: World, run: seq<Action>)
    requires Init(w) && Legal(w, run)
    ensures Recorded(After(w, run).queue, EventsOf(w, run))
    ensures RemovalsOk(EventsOf(w, run), After(w, run).db)
    decreases |run|
  {
    if run != [] {
      var n := |run| - 1;
      var t, a, es := After(w, run[..n]), run[n], EventsOf(w, run[..n]);
      EventsRecorded(w, run[..n]);
      InvAlways(w, run[..n]);
      StepAdvances(t, a);
      RemovalsStayOk(es, t.db, Next(t, a).db);
      match a
      case FailJob(b) => FailIsRecorded(t.queue, es, b, t.now);
      case Remove(b) =>
        assert AllOk(t, b);
        RemoveIsRecorded(t.queue, es, b);
      case _ => assert es + [] == es;
    }
  }

  /** A pending booking whose job was added has it waiting, running or kept as failed if and only if there was
      never a moment at which 200 later failures were on record with its own; so certainly while no more than
      200 jobs have failed for good. */
  lemma PendingBookingsKeepTheirJob(w: World, run: seq<Action>, b: nat)
    requires Init(w) && Legal(w, run)
    requires b in After(w, run).scheduled && IsPending(After(w, run).db, b)
    ensures
      var q, es := After(w, run).queue, EventsOf(w, run);
      && (b in q.jobs || b in q.kept <==> !EverPushedOut(es, b))
      && (EverPushedOut(es, b) ==> PushedOut(q.log, b))
      && (|q.log| <= 200 ==> b in q.jobs || b in q.kept)
  {
    InvAlways(w, run);
    EventsRecorded(w, run);
    var t, es := After(w, run), EventsOf(w, run);
    assert AllOk(t, b);
    KeptIff(es, b);
    if b in t.queue.log {
      NotRemoved(es, b);
    }
  }

  /** So if no record was removed, it has its job or its record if and only if fewer than 200 jobs failed for
      good after its own. */
  lemma UntouchedPendingBookings(w: World, run: seq<Action>, b: nat)
    requires Init(w) && Legal(w, run) && RecordsUntouched(EventsOf(w, run))
    requires b in After(w, run).scheduled && IsPending(After(w, run).db, b)
    ensures var q := After(w, run).queue; b in q.jobs || b in q.kept <==> !PushedOut(q.log, b)
  {
    EventsRecorded(w, run);
    Untouched(EventsOf(w, run), b);
    PendingBookingsKeepTheirJob(w, run, b);
  }

  // ----- a run that forgets a hold it never reclaimed -----

  lemma OneMore(w: World, run: seq<Action>, a: Action)
    requires Legal(w, run) && Enabled(After(w, run), a)
    ensures Legal(w, run + [a]) && After(w, run + [a]) == Next(After(w, run), a)
  {
    assert (run + [a])[..|run|] == run;
  }

  /** Seat `x` reserved by user `u` for `d` ms, its job added, and started when the hold ends. */
  function Reserving(t: World, x: nat, u: nat, d: nat): World
    requires SeatMatches(t.db, x, {Available})
  {
    t.(now := t.now + d, db := Apply(t.db, Reserve(x, u, t.now + d), t.nextId).0, nextId := t.nextId + 1,
       queue := t.queue.(jobs := map[t.nextId := Running(0, false)]), scheduled := t.scheduled + {t.nextId})
  }

  lemma FirstAttempt(w: World, run: seq<Action>, x: nat, u: nat, d: nat) returns (run': seq<Action>)
    requires Legal(w, run)
    requires
      var t := After(w, run);
      t.queue.jobs == map[] && t.unscheduled == map[] && SeatMatches(t.db, x, {Available})
    ensures Legal(w, run') && After(w, run') == Reserving(After(w, run), x, u, d)
  {
    var t := After(w, run);
    var b := t.nextId;
    var reserve := Use(Reserve(x, u, t.now + d));
    OneMore(w, run, reserve);
    var run1 := run + [reserve];
    OneMore(w, run1, AddJob(b, 0));
    var run2 := run1 + [AddJob(b, 0)];
    assert After(w, run2).queue.jobs == map[b := Waiting(t.now + d, 0)];
    OneMore(w, run2, Tick(d));
    var run3 := run2 + [Tick(d)];
    OneMore(w, run3, StartJob(b));
    run' := run3 + [StartJob(b)];
    assert After(w, run').unscheduled == map[];
  }

  /** The attempt `made` failed, and the backoff later the next one is running. */
  lemma NextAttempt(w: World, run: seq<Action>, b: nat, made: nat) returns (run': seq<Action>)
    requires Legal(w, run) && made + 1 < MAX_ATTEMPTS
    requires After(w, run).queue.jobs == map[b := Running(made, false)]
    ensures Legal(w, run')
    ensures
      var t := After(w, run);
      After(w, run') == t.(now := t.now + Backoff(made + 1),
                           queue := t.queue.(jobs := map[b := Running(made + 1, false)]))
  {
    OneMore(w, run, FailJob(b));
    var run1 := run + [FailJob(b)];
    OneMore(w, run1, Tick(Backoff(made + 1)));
    var run2 := run1 + [Tick(Backoff(made + 1))];
    OneMore(w, run2, StartJob(b));
    run' := run2 + [StartJob(b)];
  }

  lemma LastAttempt(w: World, run: seq<Action>, x: nat, u: nat, d: nat) returns (run': seq<Action>)
    requires Legal(w, run)
    requires
      var t := After(w, run);
      t.queue.jobs == map[] && t.unscheduled == map[] && SeatMatches(t.db, x, {Available})
    ensures Legal(w, run')
    ensures
      var t := After(w, run);
      After(w, run') == Reserving(t, x, u, d).(now := t.now + d + Backoff(1) + Backoff(2),
                          queue := t.queue.(jobs := map[t.nextId := Running(2, false)]))
  {
    var b := After(w, run).nextId;
    var run1 := FirstAttempt(w, run, x, u, d);
    var run2 := NextAttempt(w, run1, b, 0);
    run' := NextAttempt(w, run2, b, 1);
  }

  predicate SeatFree(db: Db, x: nat) {
    SeatMatches(db, x, {Available})
  }

  /** The seats of `xs` from the `k`-th on are free. */
  ghost predicate SeatsFree(db: Db, xs: seq<nat>, k: nat) {
    forall i {:trigger xs[i]} :: k <= i < |xs| ==> SeatFree(db, xs[i])
  }

  predicate StillHeld(t: World, b: nat) {
    IsPending(t.db, b) && b in t.scheduled
  }

  ghost predicate AllStillHeld(t: World, from: nat, to: nat) {
    forall b: nat {:trigger StillHeld(t, b)} :: from <= b < to ==> StillHeld(t, b)
  }

  /** `k` bookings were made, on the first seats of `xs`; the jobs of all of them failed for good; all are
      pending. */
  ghost predicate Failing(w: World, t: World, xs: seq<nat>, k: nat) {
    && t.nextId == w.nextId + k && t.queue.jobs == map[] && t.unscheduled == map[]
    && t.queue.kept == t.queue.log && |t.queue.log| == k
    && (forall i {:trigger t.queue.log[i]} :: 0 <= i < k ==> t.queue.log[i] == w.nextId + i)
    && AllStillHeld(t, w.nextId, w.nextId + k) && SeatsFree(t.db, xs, k)
  }

  /** One more of them has its third attempt running. */
  ghost predicate LastRunning(w: World, t: World, t': World, xs: seq<nat>, k: nat) {
    && t'.queue == t.queue.(jobs := map[t.nextId := Running(2, false)]) && t'.unscheduled == map[]
    && t'.nextId == w.nextId + k + 1
    && AllStillHeld(t', w.nextId, w.nextId + k + 1) && SeatsFree(t'.db, xs, k + 1)
  }

  lemma ReserveOneMore(w: World, run: seq<Action>, xs: seq<nat>, u: nat, d: nat, k: nat) returns (run': seq<Action>)
    requires Legal(w, run) && Failing(w, After(w, run), xs, k) && k < |xs| && NoRepeats(xs)
    ensures Legal(w, run') && LastRunning(w, After(w, run), After(w, run'), xs, k)
  {
    var t := After(w, run);
    assert SeatFree(t.db, xs[k]);
    run' := LastAttempt(w, run, xs[k], u, d);
    var t' := After(w, run');
    forall b: nat | w.nextId <= b < w.nextId + k + 1 ensures StillHeld(t', b) {
      if b < w.nextId + k {
        assert StillHeld(t, b);
      }
    }
    forall i | k + 1 <= i < |xs| ensures SeatFree(t'.db, xs[i]) {
      assert SeatFree(t.db, xs[i]) && xs[i] != xs[k];
    }
  }

  lemma FailureRecorded(w: World, t: World, t': World, xs: seq<nat>, k: nat)
    requires Failing(w, t, xs, k) && LastRunning(w, t, t', xs, k) && k < KEPT_FAILURES
    ensures Enabled(t', FailJob(t.nextId)) && Failing(w, Next(t', FailJob(t.nextId)), xs, k + 1)
  {
    var after := Next(t', FailJob(t.nextId));
    assert after.queue.log == t.queue.log + [t.nextId];
    forall b: nat | w.nextId <= b < w.nextId + k + 1 ensures StillHeld(after, b) {
      assert StillHeld(t', b);
    }
  }

  lemma {:induction false} FailMany(w: World, xs: seq<nat>, u: nat, d: nat, k: nat) returns (run: seq<Action>)
    requires Init(w) && SeatsFree(w.db, xs, 0) && NoRepeats(xs) && k <= KEPT_FAILURES < |xs|
    ensures Legal(w, run) && Failing(w, After(w, run), xs, k)
    decreases k
  {
    hide Failing, LastRunning;
    if k == 0 {
      run := [];
      NoneFailed(w, xs);
    } else {
      var before := FailMany(w, xs, u, d, k - 1);
      var t := After(w, before);
      var ready := ReserveOneMore(w, before, xs, u, d, k - 1);
      FailureRecorded(w, t, After(w, ready), xs, k - 1);
      OneMore(w, ready, FailJob(t.nextId));
      run := ready + [FailJob(t.nextId)];
    }
  }

  lemma NoneFailed(w: World, xs: seq<nat>)
    requires Init(w) && SeatsFree(w.db, xs, 0)
    ensures Failing(w, w, xs, 0)
  {
  }

  /** From any tables, for any 201 free seats, any user and any length of hold: after 201 reservations whose jobs
      all fail three times, the first booking is still pending, its job was added, and there is neither a job
      for it nor a record that it failed. */
  lemma RecordsAreForgotten(w: World, xs: seq<nat>, u: nat, d: nat) returns (run: seq<Action>)
    requires Init(w) && |xs| == 201 && NoRepeats(xs) && SeatsFree(w.db, xs, 0)
    ensures Legal(w, run)
    ensures
      var t, b := After(w, run), w.nextId;
      b in t.scheduled && IsPending(t.db, b) && b !in t.queue.jobs && b !in t.queue.kept
  {
    var many := FailMany(w, xs, u, d, KEPT_FAILURES);
    var t := After(w, many);
    var ready := ReserveOneMore(w, many, xs, u, d, KEPT_FAILURES);
    var t' := After(w, ready);
    InvAlways(w, ready);
    assert StillHeld(t', w.nextId);
    assert t.queue.log[0] == w.nextId;
    forall j | 0 < j < KEPT_FAILURES ensures t'.queue.kept[j] != w.nextId {
      assert t.queue.log[j] == w.nextId + j;
    }
    FullListForgetsItsOldest(t', w.nextId, t.nextId);
    OneMore(w, ready, FailJob(t.nextId));
    run := ready + [FailJob(t.nextId)];
  }
}
