/** A backend's sliding windows of request and 5xx timestamps, pruned lazily from the front. */
module ServerHealth {
  function Prune(entries: seq<int>, now: int, window: nat): seq<int> {
    if entries == [] || now - entries[0] <= window then entries else Prune(entries[1..], now, window)
  }

  predicate IsRecent(t: int, now: int, window: nat) {
    now - t <= window
  }

  /** How many of these timestamps are at most `window` old. */
  function CountRecent(times: seq<int>, now: int, window: nat): nat {
    if times == [] then 0
    else CountRecent(times[..|times| - 1], now, window) + if IsRecent(times[|times| - 1], now, window) then 1 else 0
  }

  /** `entries` is `ever` without a prefix, and everything in that prefix is out of the window at `now`. */
  ghost predicate Retains(entries: seq<int>, ever: seq<int>, k: nat, now: int, window: nat) {
    k <= |ever| && entries == ever[k..] && forall i :: 0 <= i < k ==> !IsRecent(ever[i], now, window)
  }

  ghost predicate IsWindowOf(entries: seq<int>, ever: seq<int>, now: int, window: nat) {
    exists k: nat :: Retains(entries, ever, k, now, window)
  }

  /** Pruning at a later clock drops only what is out of the window, up to the first entry still in it. */
  lemma {:induction false} PruneRetains(entries: seq<int>, ever: seq<int>, k: nat, before: int, now: int, window: nat)
    returns (k': nat)
    requires Retains(entries, ever, k, before, window) && before <= now
    ensures Retains(Prune(entries, now, window), ever, k', now, window)
    ensures k' < |ever| ==> IsRecent(ever[k'], now, window)
    decreases |entries|
  {
    k' := k;
    if entries != [] && !IsRecent(entries[0], now, window) {
      assert entries[1..] == ever[k + 1..];
      assert Retains(entries[1..], ever, k + 1, now, window);
      k' := PruneRetains(entries[1..], ever, k + 1, now, now, window);
    }
  }

  lemma {:induction false} CountSplits(a: seq<int>, b: seq<int>, now: int, window: nat)
    ensures CountRecent(a + b, now, window) == CountRecent(a, now, window) + CountRecent(b, now, window)
    decreases |b|
  {
    if b == [] {
      assert a + b == a;
    } else {
      CountSplits(a, b[..|b| - 1], now, window);
      assert (a + b)[..|a + b| - 1] == a + b[..|b| - 1];
    }
  }

  lemma {:induction false} CountBounds(times: seq<int>, now: int, window: nat)
    ensures CountRecent(times, now, window) <= |times|
    ensures (forall i :: 0 <= i < |times| ==> !IsRecent(times[i], now, window)) ==> CountRecent(times, now, window) == 0
    ensures CountRecent(times, now, window) == |times| <==>
              forall i :: 0 <= i < |times| ==> IsRecent(times[i], now, window)
    decreases |times|
  {
    if times != [] {
      CountBounds(times[..|times| - 1], now, window);
      assert forall i :: 0 <= i < |times| - 1 ==> times[..|times| - 1][i] == times[i];
    }
  }

  ghost predicate Sorted(times: seq<int>) {
    forall i, j :: 0 <= i < j < |times| ==> times[i] <= times[j]
  }

  lemma DroppedDoNotCount(ever: seq<int>, k: nat, now: int, window: nat)
    requires k <= |ever| && Retains(ever[k..], ever, k, now, window)
    ensures CountRecent(ever, now, window) == CountRecent(ever[k..], now, window)
  {
    assert ever == ever[..k] + ever[k..];
    CountSplits(ever[..k], ever[k..], now, window);
    assert forall i :: 0 <= i < k ==> ever[..k][i] == ever[i];
    CountBounds(ever[..k], now, window);
  }

  ghost predicate AllRecent(times: seq<int>, now: int, window: nat) {
    forall i :: 0 <= i < |times| ==> IsRecent(times[i], now, window)
  }

  /** No timestamp that is out of the window comes after one that is in it: no expired record got the lock after
      a recent one. */
  ghost predicate RecentComeLast(times: seq<int>, now: int, window: nat) {
    forall i, j :: 0 <= i < j < |times| && IsRecent(times[i], now, window) ==> IsRecent(times[j], now, window)
  }

  /** What is left after pruning never undercounts, and counts exactly the recent timestamps if and only if no
      expired one was recorded after a recent one; recording in clock order guarantees that. */
  lemma PrunedCount(entries: seq<int>, ever: seq<int>, before: int, now: int, window: nat)
    requires IsWindowOf(entries, ever, before, window) && before <= now
    ensures IsWindowOf(Prune(entries, now, window), ever, now, window)
    ensures |Prune(entries, now, window)| >= CountRecent(ever, now, window)
    ensures |Prune(entries, now, window)| == CountRecent(ever, now, window) <==>
              AllRecent(Prune(entries, now, window), now, window)
    ensures |Prune(entries, now, window)| == CountRecent(ever, now, window) <==> RecentComeLast(ever, now, window)
    ensures Sorted(ever) ==> |Prune(entries, now, window)| == CountRecent(ever, now, window)
  {
    var k: nat :| Retains(entries, ever, k, before, window);
    var k' := PruneRetains(entries, ever, k, before, now, window);
    var rest := Prune(entries, now, window);
    DroppedDoNotCount(ever, k', now, window);
    CountBounds(rest, now, window);
    WindowIsRecentIff(rest, ever, k', now, window);
  }

  /** A window that begins with a recent timestamp has only recent ones if and only if the history does not go
      back to expired ones. */
  lemma WindowIsRecentIff(rest: seq<int>, ever: seq<int>, k: nat, now: int, window: nat)
    requires Retains(rest, ever, k, now, window) && (k < |ever| ==> IsRecent(ever[k], now, window))
    ensures AllRecent(rest, now, window) <==> RecentComeLast(ever, now, window)
    ensures Sorted(ever) ==> RecentComeLast(ever, now, window)
  {
    if RecentComeLast(ever, now, window) {
      forall i | 0 <= i < |rest| ensures IsRecent(rest[i], now, window) {
        assert rest[i] == ever[k + i];
      }
    }
    if AllRecent(rest, now, window) {
      forall i, j | 0 <= i < j < |ever| && IsRecent(ever[i], now, window) ensures IsRecent(ever[j], now, window) {
        assert ever[j] == rest[j - k];
      }
    }
  }

  // ----- any order of records and queries -----

  /** Under the deque's lock: a record brings a clock value read before it got the lock; a query reads the
      clock while holding it. */
  datatype Op = Push(at: int) | Query(now: int)

  function DequeAfter(ops: seq<Op>, window: nat): seq<int>
    decreases |ops|
  {
    if ops == [] then []
    else
      var d := DequeAfter(ops[..|ops| - 1], window);
      match ops[|ops| - 1]
      case Push(at) => Prune(d, at, window) + [at]
      case Query(now) => Prune(d, now, window)
  }

  /** Every timestamp ever recorded, in the order the records got the lock. */
  function Ever(ops: seq<Op>): seq<int>
    decreases |ops|
  {
    if ops == [] then []
    else Ever(ops[..|ops| - 1]) + if ops[|ops| - 1].Push? then [ops[|ops| - 1].at] else []
  }

  function ClockOf(op: Op): int {
    match op
    case Push(at) => at
    case Query(now) => now
  }

  lemma {:induction false} DequeIsAWindow(ops: seq<Op>, window: nat, latest: int)
    requires forall i :: 0 <= i < |ops| ==> ClockOf(ops[i]) <= latest
    ensures IsWindowOf(DequeAfter(ops, window), Ever(ops), latest, window)
    decreases |ops|
  {
    if ops == [] {
      assert Retains([], [], 0, latest, window);
    } else {
      var n := |ops| - 1;
      DequeIsAWindow(ops[..n], window, latest);
      var d, ever := DequeAfter(ops[..n], window), Ever(ops[..n]);
      var k: nat :| Retains(d, ever, k, latest, window);
      var k' := PruneEarlier(d, ever, k, ClockOf(ops[n]), latest, window);
      assert Ever(ops)[k'..] == ever[k'..] + Ever(ops)[|ever|..];
      assert Retains(DequeAfter(ops, window), Ever(ops), k', latest, window);
    }
  }

  /** Pruning at a clock value that is behind drops no more than pruning at the latest one may. */
  lemma {:induction false} PruneEarlier(entries: seq<int>, ever: seq<int>, k: nat, now: int, latest: int, window: nat)
    returns (k': nat)
    requires Retains(entries, ever, k, latest, window) && now <= latest
    ensures Retains(Prune(entries, now, window), ever, k', latest, window)
    decreases |entries|
  {
    k' := k;
    if entries != [] && !IsRecent(entries[0], now, window) {
      assert entries[1..] == ever[k + 1..];
      assert Retains(entries[1..], ever, k + 1, latest, window);
      k' := PruneEarlier(entries[1..], ever, k + 1, now, latest, window);
    }
  }

  /** However records and queries interleave, a query made at the latest clock value counts at least the
      recent timestamps, and exactly those if and only if no expired record got the lock after a recent one. */
  lemma QueryNeverUndercounts(ops: seq<Op>, now: int, window: nat)
    requires forall i :: 0 <= i < |ops| ==> ClockOf(ops[i]) <= now
    ensures |DequeAfter(ops + [Query(now)], window)| >= CountRecent(Ever(ops), now, window)
    ensures |DequeAfter(ops + [Query(now)], window)| == CountRecent(Ever(ops), now, window) <==>
              RecentComeLast(Ever(ops), now, window)
    ensures Sorted(Ever(ops)) ==> |DequeAfter(ops + [Query(now)], window)| == CountRecent(Ever(ops), now, window)
  {
    DequeIsAWindow(ops, window, now);
    PrunedCount(DequeAfter(ops, window), Ever(ops), now, now, window);
    assert (ops + [Query(now)])[..|ops|] == ops;
  }

  /** It can overcount: a record that read the clock at 0 gets the lock after one that read it at 5. */
  lemma OutOfOrderOvercounts()
    ensures var ops := [Push(5), Push(0)];
            |DequeAfter(ops + [Query(10)], 5)| == 2 && CountRecent(Ever(ops), 10, 5) == 1
  {
    TwoPushes(5, 0, 10, 5);
    assert [5, 0][..1] == [5] && [5][..0] == [];
  }

  lemma TwoPushes(a: int, b: int, now: int, window: nat)
    ensures Ever([Push(a), Push(b)]) == [a, b]
    ensures DequeAfter([Push(a), Push(b)] + [Query(now)], window) == Prune(Prune([a], b, window) + [b], now, window)
  {
    var one, two := [Push(a)], [Push(a), Push(b)];
    assert one[..0] == [] && two[..1] == one && (two + [Query(now)])[..2] == two;
    assert DequeAfter(one, window) == [a] && Ever(one) == [a];
  }

  lemma {:induction false} CountAntitone(times: seq<int>, now: int, later: int, window: nat)
    requires now <= later
    ensures CountRecent(times, later, window) <= CountRecent(times, now, window)
    decreases |times|
  {
    if times != [] {
      CountAntitone(times[..|times| - 1], now, later, window);
    }
  }

  lemma {:induction false} CountOfSome(part: seq<int>, whole: seq<int>, now: int, window: nat)
    requires multiset(part) <= multiset(whole)
    ensures CountRecent(part, now, window) <= CountRecent(whole, now, window)
    decreases |part|
  {
    if part != [] {
      var init, x := part[..|part| - 1], part[|part| - 1];
      assert part == init + [x];
      assert x in multiset(part);
      var without := TakeOut(whole, x, now, window);
      Cancel(multiset(init), multiset(without), x);
      CountOfSome(init, without, now, window);
      CountOneMore(init, x, now, window);
    }
  }

  lemma Cancel(a: multiset<int>, b: multiset<int>, x: int)
    requires a + multiset{x} <= b + multiset{x}
    ensures a <= b
  {
    forall y ensures a[y] <= b[y] {
      assert (a + multiset{x})[y] <= (b + multiset{x})[y];
    }
  }

  lemma TakeOut(times: seq<int>, x: int, now: int, window: nat) returns (rest: seq<int>)
    requires x in times
    ensures multiset(times) == multiset(rest) + multiset{x}
    ensures CountRecent(times, now, window) ==
            CountRecent(rest, now, window) + if IsRecent(x, now, window) then 1 else 0
  {
    var i :| 0 <= i < |times| && times[i] == x;
    var before, after := times[..i], times[i + 1..];
    rest := before + after;
    assert times == before + [x] + after;
    CountSplits(before + [x], after, now, window);
    CountSplits(before, after, now, window);
    CountOneMore(before, x, now, window);
  }

  /** With concurrent records the share of errors is at most one as long as every error counted was also counted
      as a request and no expired error got the lock after a recent one. */
  lemma ConcurrentErrorRate(allOps: seq<Op>, errorOps: seq<Op>, now: int, later: int, window: nat)
    requires now <= later && (forall i :: 0 <= i < |allOps| ==> ClockOf(allOps[i]) <= now)
    requires forall i :: 0 <= i < |errorOps| ==> ClockOf(errorOps[i]) <= later
    requires multiset(Ever(errorOps)) <= multiset(Ever(allOps)) && RecentComeLast(Ever(errorOps), later, window)
    ensures |DequeAfter(errorOps + [Query(later)], window)| <= |DequeAfter(allOps + [Query(now)], window)|
  {
    QueryNeverUndercounts(errorOps, later, window);
    QueryNeverUndercounts(allOps, now, window);
    CountAntitone(Ever(errorOps), now, later, window);
    CountOfSome(Ever(errorOps), Ever(allOps), now, window);
  }

  /** Otherwise it can exceed one: two failed requests, recorded at 0 and 5, push their errors in the other order
      than their requests, and a query at 10 finds one request and two errors. */
  lemma ErrorRateCanExceedOne()
    ensures
      var allOps, errorOps := [Push(0), Push(5)], [Push(5), Push(0)];
      && multiset(Ever(errorOps)) == multiset(Ever(allOps))
      && |DequeAfter(errorOps + [Query(10)], 5)| == 2 && |DequeAfter(allOps + [Query(10)], 5)| == 1
  {
    TwoPushes(0, 5, 10, 5);
    TwoPushes(5, 0, 10, 5);
    assert [0, 5][1..] == [5] && [0][1..] == [];
    assert multiset([5, 0]) == multiset([0, 5]);
  }

  // ----- one backend, records and queries one after another -----

  datatype Observation = Observation(at: int, serverError: bool)

  function AllTimes(history: seq<Observation>): seq<int> {
    if history == [] then [] else AllTimes(history[..|history| - 1]) + [history[|history| - 1].at]
  }

  function ErrorTimes(history: seq<Observation>): seq<int> {
    if history == [] then []
    else ErrorTimes(history[..|history| - 1]) +
         if history[|history| - 1].serverError then [history[|history| - 1].at] else []
  }

  lemma {:induction false} ErrorsAreRequests(history: seq<Observation>, now: int, later: int, window: nat)
    requires now <= later
    ensures CountRecent(ErrorTimes(history), later, window) <= CountRecent(AllTimes(history), now, window)
    decreases |history|
  {
    if history != [] {
      var init, last := history[..|history| - 1], history[|history| - 1];
      ErrorsAreRequests(init, now, later, window);
      CountOneMore(AllTimes(init), last.at, now, window);
      CountOneMore(ErrorTimes(init), last.at, later, window);
      assert !last.serverError ==> ErrorTimes(history) == ErrorTimes(init);
    }
  }

  lemma CountOneMore(times: seq<int>, t: int, now: int, window: nat)
    ensures CountRecent(times + [t], now, window) ==
            CountRecent(times, now, window) + if IsRecent(t, now, window) then 1 else 0
  {
    assert (times + [t])[..|times|] == times;
  }

  lemma HistoryOneMore(history: seq<Observation>, o: Observation)
    ensures AllTimes(history + [o]) == AllTimes(history) + [o.at]
    ensures ErrorTimes(history + [o]) == if o.serverError then ErrorTimes(history) + [o.at] else ErrorTimes(history)
  {
    assert (history + [o])[..|history|] == history;
  }

  lemma ShareIsAFraction(part: nat, whole: nat)
    requires part <= whole && whole > 0
    ensures 0.0 <= part as real / whole as real <= 1.0
  {
  }

  /** The deque is a window of a history that the clock has recorded in order. */
  ghost predicate Tracks(entries: seq<int>, ever: seq<int>, clock: int, window: nat) {
    && IsWindowOf(entries, ever, clock, window)
    && Sorted(ever)
    && forall i :: 0 <= i < |ever| ==> ever[i] <= clock
  }

  lemma TrackLater(entries: seq<int>, ever: seq<int>, clock: int, now: int, window: nat)
    requires Tracks(entries, ever, clock, window) && clock <= now
    ensures Tracks(entries, ever, now, window)
    ensures Tracks(Prune(entries, now, window), ever, now, window)
    ensures |Prune(entries, now, window)| == CountRecent(ever, now, window)
  {
    var k: nat :| Retains(entries, ever, k, clock, window);
    assert Retains(entries, ever, k, now, window);
    PrunedCount(entries, ever, clock, now, window);
  }

  lemma TrackPush(entries: seq<int>, ever: seq<int>, now: int, window: nat)
    requires Tracks(entries, ever, now, window)
    ensures Tracks(entries + [now], ever + [now], now, window)
  {
    var k: nat :| Retains(entries, ever, k, now, window);
    assert Retains(entries + [now], ever + [now], k, now, window);
  }

  lemma RecordTracks(all: seq<int>, errs: seq<int>, history: seq<Observation>, clock: int, o: Observation, window: nat)
    requires Tracks(all, AllTimes(history), clock, window) && Tracks(errs, ErrorTimes(history), clock, window)
    requires clock <= o.at
    ensures Tracks(Prune(all, o.at, window) + [o.at], AllTimes(history + [o]), o.at, window)
    ensures Tracks(if o.serverError then Prune(errs, o.at, window) + [o.at] else errs,
                   ErrorTimes(history + [o]), o.at, window)
  {
    HistoryOneMore(history, o);
    TrackLater(all, AllTimes(history), clock, o.at, window);
    TrackLater(errs, ErrorTimes(history), clock, o.at, window);
    TrackPush(Prune(all, o.at, window), AllTimes(history), o.at, window);
    if o.serverError {
      TrackPush(Prune(errs, o.at, window), ErrorTimes(history), o.at, window);
    }
  }

  class Health {
    var allRequests: seq<int>
    var fiveXx: seq<int>
    var totalRequests: nat
    const window: nat
    ghost var history: seq<Observation>
    ghost var clock: int

    /** The deques are windows of the plain history, which the clock has recorded in order. */
    ghost predicate Valid()
      reads this
    {
      && Tracks(allRequests, AllTimes(history), clock, window)
      && Tracks(fiveXx, ErrorTimes(history), clock, window)
      && totalRequests == |history|
    }

    constructor (window: nat, now: int)
      ensures Valid() && history == [] && this.window == window && clock == now
    {
      allRequests, fiveXx, totalRequests, history, clock := [], [], 0, [], now;
      this.window := window;
      new;
      assert Retains([], [], 0, now, window);
    }

    static method PruneDeque(entries: seq<int>, now: int, window: nat) returns (rest: seq<int>)
      ensures rest == Prune(entries, now, window)
    {
      rest := entries;
      while rest != []
        invariant Prune(entries, now, window) == Prune(rest, now, window)
      {
        if now - rest[0] <= window {
          break;
        }
        rest := rest[1..];
      }
    }

    method Record(serverError: bool, now: int)
      requires Valid() && clock <= now
      modifies this
      ensures Valid() && history == old(history) + [Observation(now, serverError)] && clock == now
    {
      ghost var o := Observation(now, serverError);
      RecordTracks(allRequests, fiveXx, history, clock, o, window);
      var all := PruneDeque(allRequests, now, window);
      allRequests := all + [now];
      if serverError {
        var errs := PruneDeque(fiveXx, now, window);
        fiveXx := errs + [now];
      }
      totalRequests := totalRequests + 1;
      history := history + [o];
      clock := now;
    }

    /** The count is the number of all 5xx ever recorded that are at most `window` old. */
    method FiveXxCount(now: int) returns (count: nat)
      requires Valid() && clock <= now
      modifies this
      ensures Valid() && history == old(history) && clock == now
      ensures count == CountRecent(ErrorTimes(history), now, window)
    {
      TrackLater(fiveXx, ErrorTimes(history), clock, now, window);
      TrackLater(allRequests, AllTimes(history), clock, now, window);
      fiveXx := PruneDeque(fiveXx, now, window);
      count := |fiveXx|;
      clock := now;
    }

    /** The share of recent requests that failed, with no record in between; the two deques are read one after the
        other. */
    method ErrorRate(now: int, later: int) returns (rate: real)
      requires Valid() && clock <= now <= later
      modifies this
      ensures Valid() && history == old(history)
      ensures 0.0 <= rate <= 1.0
      ensures var total := CountRecent(AllTimes(history), now, window);
              rate == if total == 0 then 0.0
                  else CountRecent(ErrorTimes(history), later, window) as real / total as real
    {
      hide Tracks, CountRecent;
      TrackLater(fiveXx, ErrorTimes(history), clock, now, window);
      TrackLater(allRequests, AllTimes(history), clock, now, window);
      ErrorsAreRequests(history, now, later, window);
      allRequests := PruneDeque(allRequests, now, window);
      clock := now;
      var total := |allRequests|;
      if total == 0 {
        return 0.0;
      }
      var errors := FiveXxCount(later);
      rate := errors as real / total as real;
      ShareIsAFraction(errors, total);
    }
  }
}
