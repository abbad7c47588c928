/** The bounded list of failed jobs, as the trace of what happened to it: failures that are appended, the oldest
    falling out when there are more than 200, and records removed by hand. */
module FailureRecords {
  import opened BookingModel
  import opened HoldExpiry

  datatype Event = Failure(b: nat) | Removal(b: nat)

  function LogAfter(es: seq<Event>): seq<nat>
    decreases |es|
  {
    if es == [] then []
    else LogAfter(es[..|es| - 1]) + if es[|es| - 1].Failure? then [es[|es| - 1].b] else []
  }

  function KeptAfter(es: seq<Event>): seq<nat>
    decreases |es|
  {
    if es == [] then []
    else
      match es[|es| - 1]
      case Failure(b) => KeepNewest(KeptAfter(es[..|es| - 1]), b)
      case Removal(b) => Without(KeptAfter(es[..|es| - 1]), b)
  }

  /** The failures whose record was not removed, oldest first: what would be kept if the list had no limit. */
  function OnRecord(es: seq<Event>): seq<nat>
    decreases |es|
  {
    if es == [] then []
    else
      match es[|es| - 1]
      case Failure(b) => OnRecord(es[..|es| - 1]) + [b]
      case Removal(b) => Without(OnRecord(es[..|es| - 1]), b)
  }

  /** At least 200 entries come after that of `b`. */
  ghost predicate PushedOut(u: seq<nat>, b: nat) {
    exists i :: 0 <= i && i + 200 < |u| && u[i] == b
  }

  /** At some moment 200 later failures were on record with `b`'s. */
  ghost predicate EverPushedOut(es: seq<Event>, b: nat)
    decreases |es|
  {
    es != [] && (EverPushedOut(es[..|es| - 1], b) || PushedOut(OnRecord(es), b))
  }

  // ----- the bounded list beside the unbounded one -----

  ghost predicate NoRepeats(u: seq<nat>) {
    forall i, j {:trigger u[i], u[j]} :: 0 <= i < j < |u| ==> u[i] != u[j]
  }

  ghost predicate IsSuffix(kept: seq<nat>, u: seq<nat>) {
    |kept| <= |u| && kept == u[|u| - |kept|..]
  }

  lemma {:induction false} WithoutMembers(s: seq<nat>, b: nat)
    ensures forall x {:trigger x in Without(s, b)} :: x in Without(s, b) <==> x in s && x != b
    decreases |s|
  {
    if s != [] {
      WithoutMembers(s[1..], b);
    }
  }

  lemma {:induction false} WithoutConcat(s: seq<nat>, t: seq<nat>, b: nat)
    ensures Without(s + t, b) == Without(s, b) + Without(t, b)
  {
    if s == [] {
      assert s + t == t;
    } else {
      WithoutConcat(s[1..], t, b);
      WithoutHead(s, t, b);
      Associate(if s[0] == b then [] else [s[0]], Without(s[1..], b), Without(t, b));
    }
  }

  lemma WithoutHead(s: seq<nat>, t: seq<nat>, b: nat)
    requires s != []
    ensures Without(s + t, b) == (if s[0] == b then [] else [s[0]]) + Without(s[1..] + t, b)
  {
    assert (s + t)[1..] == s[1..] + t;
  }

  lemma Associate(a: seq<nat>, b: seq<nat>, c: seq<nat>)
    ensures a + (b + c) == (a + b) + c
  {
  }

  lemma FirstIsNew(s: seq<nat>, rest: seq<nat>)
    requires s != [] && NoRepeats(s) && NoRepeats(rest)
    requires forall x: nat {:trigger x in rest} :: x in rest ==> x in s[1..]
    ensures NoRepeats([s[0]] + rest)
  {
    forall j | 0 <= j < |rest| ensures rest[j] != s[0] {
      assert rest[j] in rest;
      assert rest[j] in s[1..];
      var i :| 0 <= i < |s[1..]| && s[1..][i] == rest[j];
      assert s[i + 1] == rest[j];
    }
  }

  lemma {:induction false} WithoutKeepsNoRepeats(s: seq<nat>, b: nat)
    requires NoRepeats(s)
    ensures NoRepeats(Without(s, b))
  {
    if s != [] {
      assert NoRepeats(s[1..]);
      WithoutKeepsNoRepeats(s[1..], b);
      WithoutMembers(s[1..], b);
      if s[0] != b {
        FirstIsNew(s, Without(s[1..], b));
      }
    }
  }

  lemma WithoutKeepsSuffix(kept: seq<nat>, u: seq<nat>, b: nat)
    requires IsSuffix(kept, u)
    ensures IsSuffix(Without(kept, b), Without(u, b))
  {
    var n := |u| - |kept|;
    assert u == u[..n] + kept;
    WithoutConcat(u[..n], kept, b);
  }

  lemma KeepNewestIsSuffix(kept: seq<nat>, u: seq<nat>, b: nat)
    requires IsSuffix(kept, u) && |kept| <= KEPT_FAILURES
    ensures IsSuffix(KeepNewest(kept, b), u + [b]) && |KeepNewest(kept, b)| <= KEPT_FAILURES
  {
  }

  /** What is still in the list has not been pushed out. */
  lemma KeptIsNotPushedOut(kept: seq<nat>, u: seq<nat>, b: nat)
    requires IsSuffix(kept, u) && |kept| <= KEPT_FAILURES && NoRepeats(u) && b in kept
    ensures !PushedOut(u, b)
  {
    var j :| 0 <= j < |kept| && kept[j] == b;
    assert u[|u| - |kept| + j] == b;
  }

  /** A failure drops a record from the list only by pushing it out. */
  lemma DroppedIsPushedOut(kept: seq<nat>, u: seq<nat>, c: nat, b: nat)
    requires IsSuffix(kept, u) && |kept| <= KEPT_FAILURES && b in kept && b !in KeepNewest(kept, c)
    ensures PushedOut(u + [c], b)
  {
    var j :| 0 <= j < |kept| && kept[j] == b;
    forall k | 0 <= k < |kept| && (k > 0 || |kept| < KEPT_FAILURES) ensures kept[k] in KeepNewest(kept, c) {
      assert KeepNewest(kept, c)[if |kept| < KEPT_FAILURES then k else k - 1] == kept[k];
    }
    assert j == 0 && |kept| == KEPT_FAILURES;
    var i := |u| - |kept|;
    assert (u + [c])[i] == b;
  }

  lemma KeptAfterFailure(kept: seq<nat>, u: seq<nat>, c: nat, b: nat)
    requires IsSuffix(kept, u) && |kept| <= KEPT_FAILURES
    ensures c in KeepNewest(kept, c)
    ensures b in KeepNewest(kept, c) ==> b == c || b in kept
    ensures b in kept && b !in KeepNewest(kept, c) ==> PushedOut(u + [c], b)
  {
    if b in kept && b !in KeepNewest(kept, c) {
      DroppedIsPushedOut(kept, u, c, b);
    }
    assert KeepNewest(kept, c)[|KeepNewest(kept, c)| - 1] == c;
  }

  /** A record is in the list if and only if it is on record and never had 200 later ones beside it. */
  ghost predicate RecordOk(es: seq<Event>, b: nat) {
    && (b in KeptAfter(es) <==> b in OnRecord(es) && !EverPushedOut(es, b))
    && (EverPushedOut(es, b) ==> PushedOut(LogAfter(es), b))
  }

  /** The `i`-th record is that of an entry of the log with at least as many entries after it. */
  ghost predicate InLog(es: seq<Event>, i: int) {
    0 <= i < |OnRecord(es)| ==>
      exists k :: 0 <= k < |LogAfter(es)| && LogAfter(es)[k] == OnRecord(es)[i] &&
                  |LogAfter(es)| - k >= |OnRecord(es)| - i
  }

  ghost predicate RecordsOk(es: seq<Event>) {
    && IsSuffix(KeptAfter(es), OnRecord(es)) && |KeptAfter(es)| <= KEPT_FAILURES
    && NoRepeats(OnRecord(es))
    && (forall i {:trigger InLog(es, i)} :: InLog(es, i))
    && forall b: nat {:trigger RecordOk(es, b)} :: RecordOk(es, b)
  }

  lemma PushedOutInLog(es: seq<Event>, b: nat)
    requires (forall i {:trigger InLog(es, i)} :: InLog(es, i)) && PushedOut(OnRecord(es), b)
    ensures PushedOut(LogAfter(es), b)
  {
    var i :| 0 <= i && i + KEPT_FAILURES < |OnRecord(es)| && OnRecord(es)[i] == b;
    assert InLog(es, i);
  }

  lemma PushedOutStays(log: seq<nat>, more: seq<nat>, b: nat)
    requires PushedOut(log, b)
    ensures PushedOut(log + more, b)
  {
    var i :| 0 <= i && i + KEPT_FAILURES < |log| && log[i] == b;
    assert (log + more)[i] == b;
  }

  lemma FailureKeepsRecords(es: seq<Event>, c: nat)
    requires RecordsOk(es) && c !in LogAfter(es)
    ensures RecordsOk(es + [Failure(c)])
  {
    var es', kept, u := es + [Failure(c)], KeptAfter(es), OnRecord(es);
    assert es'[..|es|] == es;
    KeepNewestIsSuffix(kept, u, c);
    forall i | 0 <= i < |u| ensures u[i] in LogAfter(es) {
      assert InLog(es, i);
    }
    forall i ensures InLog(es', i) {
      assert InLog(es, i);
      if 0 <= i < |u| {
        var k :| 0 <= k < |LogAfter(es)| && LogAfter(es)[k] == u[i] && |LogAfter(es)| - k >= |u| - i;
        assert LogAfter(es')[k] == u[i];
      } else if i == |u| {
        assert LogAfter(es')[|LogAfter(es)|] == c;
      }
    }
    forall b: nat ensures RecordOk(es', b) {
      assert RecordOk(es, b);
      KeptAfterFailure(kept, u, c, b);
      RecordOkNext(es, Failure(c), b);
      if b in KeptAfter(es') {
        KeptIsNotPushedOut(KeptAfter(es'), u + [c], b);
      }
    }
  }

  lemma RecordOkNext(es: seq<Event>, e: Event, b: nat)
    requires RecordOk(es, b) && forall i {:trigger InLog(es + [e], i)} :: InLog(es + [e], i)
    ensures EverPushedOut(es + [e], b) <==> EverPushedOut(es, b) || PushedOut(OnRecord(es + [e]), b)
    ensures EverPushedOut(es + [e], b) ==> PushedOut(LogAfter(es + [e]), b)
    ensures PushedOut(LogAfter(es + [e]), b) ==> b in LogAfter(es + [e])
  {
    assert (es + [e])[..|es|] == es;
    if EverPushedOut(es, b) {
      PushedOutStays(LogAfter(es), if e.Failure? then [e.b] else [], b);
    } else if PushedOut(OnRecord(es + [e]), b) {
      PushedOutInLog(es + [e], b);
    }
  }

  lemma RemovalKeepsInLog(es: seq<Event>, c: nat, i: int)
    requires forall j {:trigger InLog(es, j)} :: InLog(es, j)
    ensures InLog(es + [Removal(c)], i)
  {
    var es', u := es + [Removal(c)], OnRecord(es);
    assert es'[..|es|] == es;
    if 0 <= i < |Without(u, c)| {
      WithoutThins(u, c, i);
      var j :| i <= j <= i + |u| - |Without(u, c)| && j < |u| && Without(u, c)[i] == u[j];
      assert InLog(es, j);
      var k :| 0 <= k < |LogAfter(es)| && LogAfter(es)[k] == u[j] && |LogAfter(es)| - k >= |u| - j;
      assert LogAfter(es') == LogAfter(es) + [] == LogAfter(es);
      assert LogAfter(es')[k] == OnRecord(es')[i];
    }
  }

  lemma RemovalKeepsRecords(es: seq<Event>, c: nat)
    requires RecordsOk(es)
    ensures RecordsOk(es + [Removal(c)])
  {
    hide InLog, PushedOut;
    var es', kept, u := es + [Removal(c)], KeptAfter(es), OnRecord(es);
    assert es'[..|es|] == es;
    WithoutKeepsSuffix(kept, u, c);
    WithoutKeepsNoRepeats(u, c);
    WithoutMembers(u, c);
    WithoutMembers(kept, c);
    WithoutIsShorter(kept, c);
    forall i ensures InLog(es', i) {
      RemovalKeepsInLog(es, c, i);
    }
    forall b: nat ensures RecordOk(es', b) {
      assert RecordOk(es, b);
      RecordOkNext(es, Removal(c), b);
      if b in KeptAfter(es') {
        KeptIsNotPushedOut(KeptAfter(es'), Without(u, c), b);
      }
    }
  }

  lemma {:induction false} RecordsAlwaysOk(es: seq<Event>)
    requires NoRepeats(LogAfter(es))
    ensures RecordsOk(es)
    decreases |es|
  {
    if es == [] {
      assert forall b: nat :: RecordOk(es, b);
      assert forall i :: InLog(es, i);
    } else {
      var n := |es| - 1;
      var log := LogAfter(es[..n]);
      assert LogAfter(es)[..|log|] == log;
      PrefixHasNoRepeats(LogAfter(es), |log|);
      RecordsAlwaysOk(es[..n]);
      assert es == es[..n] + [es[n]];
      if es[n].Failure? {
        assert LogAfter(es)[|log|] == es[n].b;
        FailureKeepsRecords(es[..n], es[n].b);
      } else {
        RemovalKeepsRecords(es[..n], es[n].b);
      }
    }
  }

  lemma PrefixHasNoRepeats(u: seq<nat>, n: nat)
    requires NoRepeats(u) && n <= |u|
    ensures NoRepeats(u[..n])
    ensures n < |u| ==> u[n] !in u[..n]
  {
  }

  /** Each job failing for good at most once, the list holds the record of `b` if and only if it was not removed
      and no moment had 200 later ones on record with it; and then at least 200 jobs failed after it. */
  lemma KeptIff(es: seq<Event>, b: nat)
    requires NoRepeats(LogAfter(es))
    ensures b in KeptAfter(es) <==> b in OnRecord(es) && !EverPushedOut(es, b)
    ensures EverPushedOut(es, b) ==> PushedOut(LogAfter(es), b)
  {
    RecordsAlwaysOk(es);
    assert RecordOk(es, b);
  }

  /** A failure that nobody removes stays on record. */
  lemma {:induction false} NotRemoved(es: seq<Event>, b: nat)
    requires b in LogAfter(es) && forall k {:trigger es[k]} :: 0 <= k < |es| ==> es[k] != Removal(b)
    ensures b in OnRecord(es)
    decreases |es|
  {
    var n := |es| - 1;
    if b in LogAfter(es[..n]) {
      forall k | 0 <= k < n ensures es[..n][k] != Removal(b) {
        assert es[..n][k] == es[k];
      }
      NotRemoved(es[..n], b);
      if es[n].Removal? {
        assert es[n] != Removal(b);
        WithoutMembers(OnRecord(es[..n]), es[n].b);
      }
    }
  }

  lemma {:induction false} WithoutNothing(s: seq<nat>, b: nat)
    requires b !in s
    ensures Without(s, b) == s
  {
    if s != [] {
      WithoutNothing(s[1..], b);
    }
  }

  ghost predicate RecordsUntouched(es: seq<Event>) {
    forall k {:trigger es[k]} :: 0 <= k < |es| && es[k].Removal? ==> es[k].b !in LogAfter(es)
  }

  /** If no record was removed, every failure stays on record, and a record has been pushed out if and only if 200
      others came after it in the log of all failures. */
  lemma {:induction false} Untouched(es: seq<Event>, b: nat)
    requires RecordsUntouched(es)
    ensures OnRecord(es) == LogAfter(es)
    ensures EverPushedOut(es, b) <==> PushedOut(LogAfter(es), b)
    decreases |es|
  {
    if es != [] {
      var n := |es| - 1;
      forall k | 0 <= k < n && es[..n][k].Removal? ensures es[..n][k].b !in LogAfter(es[..n]) {
        assert es[..n][k] == es[k];
      }
      Untouched(es[..n], b);
      if es[n].Removal? {
        WithoutNothing(OnRecord(es[..n]), es[n].b);
      } else if PushedOut(LogAfter(es[..n]), b) {
        PushedOutStays(LogAfter(es[..n]), [es[n].b], b);
      }
    }
  }

  // ----- what the queue's operations add to the trace -----

  function FailEvents(q: Queue, b: nat): seq<Event>
    requires b in q.jobs
  {
    if IsTerminal(q.jobs[b].attemptsMade + 1) then [Failure(b)] else []
  }

  function RemoveEvents(q: Queue, b: nat): seq<Event> {
    if b in q.jobs then [] else [Removal(b)]
  }

  predicate Recorded(q: Queue, es: seq<Event>) {
    q.kept == KeptAfter(es) && q.log == LogAfter(es)
  }

  lemma FailIsRecorded(q: Queue, es: seq<Event>, b: nat, now: int)
    requires Recorded(q, es) && b in q.jobs
    ensures Recorded(FailAttempt(q, b, now), es + FailEvents(q, b))
  {
    assert (es + [Failure(b)])[..|es|] == es;
    assert es + [] == es;
  }

  lemma RemoveIsRecorded(q: Queue, es: seq<Event>, b: nat)
    requires Recorded(q, es)
    ensures Recorded(RemoveJob(q, b), es + RemoveEvents(q, b))
  {
    assert (es + [Removal(b)])[..|es|] == es;
    assert es + [] == es;
  }

  predicate IsSettled(db: Db, b: nat) {
    b in db.bookings && db.bookings[b].status != Pending
  }

  /** Only records of bookings that are no longer pending were removed. */
  ghost predicate RemovalsOk(es: seq<Event>, db: Db) {
    forall k {:trigger es[k]} :: 0 <= k < |es| && es[k].Removal? ==> IsSettled(db, es[k].b)
  }

  lemma RemovalsStayOk(es: seq<Event>, db: Db, db': Db)
    requires RemovalsOk(es, db) && Advances(db, db')
    ensures RemovalsOk(es, db')
  {
  }
}
