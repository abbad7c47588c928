/** How the retries of an expiry job are spaced: five seconds after its first failure and ten after its second. The
    facts about the queue alone come first; both machines over it use them. */
module HoldExpiryRetries {
  import opened Wrappers
  import opened BookingModel
  import opened HoldExpiry

  /** The wait in ms after the `k`-th failed attempt. */
  function RetryDelay(k: nat): int {
    if k == 1 then 5000 else 10000
  }

  /** The times at which attempts of one job failed. */
  predicate Spaced(ts: seq<int>) {
    && |ts| <= 3
    && (|ts| > 1 ==> ts[1] >= ts[0] + 5000)
    && (|ts| > 2 ==> ts[2] >= ts[1] + 10000)
  }

  /** `ts` are the failures of the job of `b` so far: a retry waits exactly its delay, has waited at least that once
      it runs, and the third failure is the last. */
  predicate FailuresOk(q: Queue, b: nat, ts: seq<int>, now: int) {
    && Spaced(ts) && (forall i :: 0 <= i < |ts| ==> ts[i] <= now)
    && (b in q.jobs ==>
          && |ts| == q.jobs[b].attemptsMade <= 2
          && (ts != [] ==>
                var last := ts[|ts| - 1];
                match q.jobs[b]
                case Waiting(fireAt, _) => fireAt == last + RetryDelay(|ts|)
                case Running(_, _) => now >= last + RetryDelay(|ts|)))
    && (b in q.log ==> |ts| == 3)
  }

  lemma FailureIsSpaced(q: Queue, b: nat, ts: seq<int>, now: int)
    requires FailuresOk(q, b, ts, now) && b in q.jobs && q.jobs[b].Running? && b !in q.log
    ensures FailuresOk(FailAttempt(q, b, now), b, ts + [now], now)
  {
    var made := q.jobs[b].attemptsMade + 1;
    assert Backoff(1) == 5000 && Backoff(2) == 10000;
  }

  lemma OthersFailure(q: Queue, b: nat, ts: seq<int>, now: int, c: nat)
    requires FailuresOk(q, b, ts, now) && c in q.jobs && c != b
    ensures FailuresOk(FailAttempt(q, c, now), b, ts, now)
  {
  }

  /** A step that leaves the job alone, starts it when it is due, takes it away, or adds it for the first time. */
  predicate JobMovesOn(q: Queue, b: nat, now: int, isNew: bool, q': Queue) {
    && q'.log == q.log
    && (b in q'.jobs ==>
          if b !in q.jobs then isNew && q'.jobs[b].attemptsMade == 0
          else
            && q'.jobs[b].attemptsMade == q.jobs[b].attemptsMade
            && (q'.jobs[b] == q.jobs[b] ||
                (q'.jobs[b].Running? && (q.jobs[b].Running? || q.jobs[b].fireAt <= now))))
  }

  lemma OtherStep(q: Queue, b: nat, ts: seq<int>, now: int, isNew: bool, q': Queue, now': int)
    requires FailuresOk(q, b, ts, now) && now <= now' && JobMovesOn(q, b, now, isNew, q') && (isNew ==> ts == [])
    ensures FailuresOk(q', b, ts, now')
  {
  }

  // ----- runs of the queue beside atomic use cases -----

  /** When the attempts of the job of `b` failed. */
  function FailureTimes(w: World, run: seq<Action>, b: nat): seq<int>
    requires Legal(w, run)
    decreases |run|
  {
    if run == [] then []
    else
      var n := |run| - 1;
      FailureTimes(w, run[..n], b) + if run[n] == FailJob(b) then [After(w, run[..n]).now] else []
  }

  lemma {:induction false} FailuresAlwaysOk(w: World, run: seq<Action>, b: nat)
    requires Init(w) && Legal(w, run)
    ensures
      var t, ts := After(w, run), FailureTimes(w, run, b);
      FailuresOk(t.queue, b, ts, t.now) && (b !in t.scheduled ==> ts == [])
    decreases |run|
  {
    if run != [] {
      var n := |run| - 1;
      var t, a := After(w, run[..n]), run[n];
      FailuresAlwaysOk(w, run[..n], b);
      InvAlways(w, run[..n]);
      StepKeepsFailures(t, a, b, FailureTimes(w, run[..n], b));
    }
  }

  lemma StepKeepsFailures(t: World, a: Action, b: nat, ts: seq<int>)
    requires Inv(t) && Enabled(t, a) && FailuresOk(t.queue, b, ts, t.now) && (b !in t.scheduled ==> ts == [])
    ensures
      var ts' := ts + if a == FailJob(b) then [t.now] else [];
      FailuresOk(Next(t, a).queue, b, ts', Next(t, a).now) && (b !in Next(t, a).scheduled ==> ts' == [])
  {
    assert AllOk(t, b);
    hide FailuresOk, Inv, AllOk;
    if a == FailJob(b) {
      FailureIsSpaced(t.queue, b, ts, t.now);
    } else if a.FailJob? {
      OthersFailure(t.queue, b, ts, t.now, a.b);
      assert ts + [] == ts;
    } else {
      NextMovesJobOn(t, a, b);
      OtherStep(t.queue, b, ts, t.now, b !in t.scheduled, Next(t, a).queue, Next(t, a).now);
      assert ts + [] == ts;
    }
  }

  lemma NextMovesJobOn(t: World, a: Action, b: nat)
    requires Inv(t) && Enabled(t, a) && !a.FailJob?
    ensures JobMovesOn(t.queue, b, t.now, b !in t.scheduled, Next(t, a).queue) && t.now <= Next(t, a).now
    ensures t.scheduled <= Next(t, a).scheduled
  {
    assert AllOk(t, b);
    if a.AddJob? {
      assert AllOk(t, a.b);
    }
  }

  /** The attempt after a job's first failure does not start before 5000 ms later, the one after its second not before
      10000 ms later; no attempt starts before the hold is over, and none after the third failure. */
  lemma RetriesWait(w: World, run: seq<Action>, b: nat)
    requires Init(w) && Legal(w, run) && Enabled(After(w, run), StartJob(b))
    ensures
      var t, ts := After(w, run), FailureTimes(w, run, b);
      && |ts| <= 2 && b in t.db.bookings && t.db.bookings[b].holdExpiresAt <= t.now
      && (|ts| == 1 ==> t.now >= ts[0] + 5000)
      && (|ts| == 2 ==> t.now >= ts[1] + 10000)
  {
    FailuresAlwaysOk(w, run, b);
    InvAlways(w, run);
    assert AllOk(After(w, run), b);
  }

  /** And it may start then: a waiting retry becomes due exactly at that time. */
  lemma RetryIsDue(w: World, run: seq<Action>, b: nat)
    requires Init(w) && Legal(w, run) && b in After(w, run).queue.jobs && After(w, run).queue.jobs[b].Waiting?
    requires FailureTimes(w, run, b) != []
    ensures
      var t, ts := After(w, run), FailureTimes(w, run, b);
      Enabled(t, StartJob(b)) <==> ts[|ts| - 1] + (if |ts| == 1 then 5000 else 10000) <= t.now
  {
    FailuresAlwaysOk(w, run, b);
  }

  /** A job that has failed for good failed three times over at least 15 seconds. */
  lemma GivingUpTakesFifteenSeconds(w: World, run: seq<Action>, b: nat)
    requires Init(w) && Legal(w, run) && b in After(w, run).queue.log
    ensures var ts := FailureTimes(w, run, b); |ts| == 3 && ts[2] >= ts[0] + 15000
  {
    FailuresAlwaysOk(w, run, b);
  }

  /** So an outage of less than 15 seconds cannot exhaust the attempts: if all failures of the job fall into it, the
      job has not been given up on. */
  lemma ShortOutagesAreSurvived(w: World, run: seq<Action>, b: nat, from: int, to: int)
    requires Init(w) && Legal(w, run) && to < from + 15000
    requires
      var ts := FailureTimes(w, run, b);
      forall i :: 0 <= i < |ts| ==> from <= ts[i] <= to
    ensures b !in After(w, run).queue.log
  {
    FailuresAlwaysOk(w, run, b);
  }

  // ----- when the first attempt is due -----

  /** Scheduling a booking again leaves its job as it is: waiting for the same time, or running. */
  lemma ReschedulingKeepsTheJob(q: Queue, b: nat, first: int, second: int)
    ensures Schedule(Schedule(q, b, first), b, second) == Schedule(q, b, first)
    ensures b in q.jobs ==> Schedule(q, b, first) == q
    ensures b !in q.jobs ==> Schedule(q, b, first).jobs[b] == Waiting(first, 0)
  {
  }

  /** With no lag, a job that was added is due exactly when the hold ends, or at once if that is over. */
  lemma FirstAttemptIsOnTime(w: World, run: seq<Action>, b: nat)
    requires Init(w) && Legal(w, run) && b in After(w, run).unscheduled
    ensures
      var t := After(w, run);
      var due := Next(t, AddJob(b, 0)).queue.jobs;
      b in t.db.bookings && b in due &&
      due[b] == Waiting(if t.db.bookings[b].holdExpiresAt > t.now then t.db.bookings[b].holdExpiresAt else t.now, 0)
  {
    InvAlways(w, run);
    assert AllOk(After(w, run), b);
  }

  // ----- jobs of bookings that are settled -----

  /** Removing the job after a cancel takes a waiting job away, and a record of its failure; a running job is left to
      finish. Other jobs and records stay. */
  lemma RemovalTakesTheJob(q: Queue, b: nat)
    ensures
      var q' := RemoveJob(q, b);
      && (b in q'.jobs <==> b in q.jobs && q.jobs[b].Running?)
      && (b !in q.jobs ==> b !in q'.kept)
      && (forall c :: c != b ==> (c in q'.jobs <==> c in q.jobs) && (c in q.jobs ==> q'.jobs[c] == q.jobs[c]))
      && (forall c {:trigger c in q'.kept} :: c != b ==> (c in q'.kept <==> c in q.kept))
  {
    WithoutIsShorter(q.kept, b);
    WithoutHas(q.kept, b);
  }

  lemma {:induction false} WithoutHas(s: seq<nat>, b: nat)
    ensures forall x {:trigger x in Without(s, b)} :: x in Without(s, b) ==> x in s && x != b
  {
    if s != [] {
      WithoutHas(s[1..], b);
    }
  }

  /** A job that still runs for a booking that is no longer pending changes nothing. */
  lemma LateJobIsHarmless(w: World, b: nat)
    requires Enabled(w, RunExpire(b)) && StatusOf(w.db, b) != Some(Pending)
    ensures Next(w, RunExpire(b)).db == w.db
  {
  }
}
