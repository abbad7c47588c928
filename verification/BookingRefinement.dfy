/** Every interleaved run of the booking protocol is explained by running its calls one after another:
    the same committed tables, and for every caller the answer it got. */
module BookingRefinement {
  import opened Wrappers
  import opened BookingModel
  import opened BookingProtocol

  /** One call of the serial run: who made it, the id the sequence gave it, and its answer. */
  datatype Entry = Entry(pid: nat, call: Call, newId: nat, outcome: Outcome)

  /** A call takes its place in the serial run when it commits, when it is turned away, or, if it lost the
      race, when it reads the status it reports. A COMMIT whose reply is lost takes its place as well. */
  function Emitted(s: State, a: Action): seq<Entry>
    requires Enabled(s, a)
  {
    var p := s.procs[a.pid];
    match a
    case Abort(_) => []
    case CommitUnheard(i) => [Entry(i, p.call, p.newId, CommitOutcome(p))]
    case Advance(i) =>
      var pc := Step(s, i).procs[i].pc;
      if pc.Done? then [Entry(i, p.call, p.newId, pc.outcome)] else []
  }

  function History(s: State, run: seq<Action>): seq<Entry>
    requires Legal(s, run)
    decreases |run|
  {
    if run == [] then []
    else
      var n := |run| - 1;
      History(s, run[..n]) + Emitted(After(s, run[..n]), run[n])
  }

  function Replay(db: Db, h: seq<Entry>): Db
    decreases |h|
  {
    if h == [] then db
    else
      var n := |h| - 1;
      Apply(Replay(db, h[..n]), h[n].call, h[n].newId).0
  }

  /** Run alone on these tables, the call answers what the entry says; a reserve inserts a new id. */
  predicate Agrees(db: Db, e: Entry) {
    Apply(db, e.call, e.newId).1 == e.outcome && FreshFor(db, e.call, e.newId)
  }

  ghost predicate Serial(db: Db, h: seq<Entry>) {
    forall k {:trigger h[k]} :: 0 <= k < |h| ==> Agrees(Replay(db, h[..k]), h[k])
  }

  /** One step of the protocol is one atomic operation, or no change to the tables at all. */
  lemma StepRefines(s: State, a: Action)
    requires Inv(s) && Enabled(s, a)
    ensures Emitted(s, a) == [] ==> Next(s, a).db == s.db
    ensures forall e :: Emitted(s, a) == [e] ==> Agrees(s.db, e) && Next(s, a).db == Apply(s.db, e.call, e.newId).0
    ensures |Emitted(s, a)| <= 1
  {
    var i := a.pid;
    var p := s.procs[i];
    assert ProcOk(s, i);
    if p.pc.Committing? {
      CommitIsAtomic(s, i, Failed);
      CommitIsAtomic(s, i, Done(CommitOutcome(p)));
    } else if p.pc.WonBooking? || p.pc.WantsSeat? {
      WonBookingMeansFreeSeat(s, i);
    }
  }

  lemma SerialPrefix(db: Db, h: seq<Entry>, n: nat)
    requires Serial(db, h) && n <= |h|
    ensures Serial(db, h[..n])
  {
    forall k | 0 <= k < n ensures Agrees(Replay(db, h[..n][..k]), h[..n][k]) {
      assert h[..n][..k] == h[..k];
      assert h[..n][k] == h[k];
    }
  }

  lemma SerialExtends(db: Db, h: seq<Entry>, e: Entry)
    requires Serial(db, h) && Agrees(Replay(db, h), e)
    ensures Serial(db, h + [e])
    ensures Replay(db, h + [e]) == Apply(Replay(db, h), e.call, e.newId).0
  {
    var g := h + [e];
    assert g[..|h|] == h;
    forall k | 0 <= k < |g| ensures Agrees(Replay(db, g[..k]), g[k]) {
      if k < |h| {
        assert g[..k] == h[..k];
        assert g[k] == h[k];
      }
    }
  }

  /** The committed tables of any run are those of the serial run, and every answer in it is the answer of
      the atomic operation at its place. */
  lemma {:induction false} RunRefinesSerialRun(s: State, run: seq<Action>)
    requires Init(s) && Legal(s, run)
    ensures Serial(s.db, History(s, run))
    ensures After(s, run).db == Replay(s.db, History(s, run))
    decreases |run|
  {
    if run != [] {
      var n := |run| - 1;
      RunRefinesSerialRun(s, run[..n]);
      InvAlways(s, run[..n]);
      var before := After(s, run[..n]);
      StepRefines(before, run[n]);
      if Emitted(before, run[n]) != [] {
        SerialExtends(s.db, History(s, run[..n]), Emitted(before, run[n])[0]);
        assert Emitted(before, run[n]) == [Emitted(before, run[n])[0]];
      } else {
        assert History(s, run) == History(s, run[..n]);
      }
    }
  }

  /** Entry `k` says that caller `i` made this call and was told this. */
  predicate Tells(h: seq<Entry>, k: nat, i: nat, call: Call, outcome: Outcome) {
    k < |h| && h[k].pid == i && h[k].call == call && h[k].outcome == outcome
  }

  ghost predicate Told(h: seq<Entry>, i: nat, call: Call, outcome: Outcome) {
    exists k: nat :: Tells(h, k, i, call, outcome)
  }

  /** Callers keep their calls. Every caller that got an answer has an entry with that answer, no caller
      has two, and a caller that has one is finished. */
  ghost predicate Accounted(s: State, t: State, h: seq<Entry>) {
    && |t.procs| == |s.procs|
    && (forall i: nat {:trigger t.procs[i]} :: i < |s.procs| ==>
          && t.procs[i].call == s.procs[i].call
          && (t.procs[i].pc.Done? ==> Told(h, i, s.procs[i].call, t.procs[i].pc.outcome)))
    && (forall k {:trigger h[k]} :: 0 <= k < |h| ==>
          && h[k].pid < |s.procs| && h[k].call == s.procs[h[k].pid].call
          && Finished(t.procs[h[k].pid]))
    && (forall k, l {:trigger h[k], h[l]} :: 0 <= k < l < |h| ==> h[k].pid != h[l].pid)
  }

  /** Only the acting caller changes; it keeps its call, and an entry is made when, and only when, it gets
      its answer or its COMMIT goes unheard. */
  lemma StepShape(s: State, a: Action)
    requires Enabled(s, a)
    ensures var p := Next(s, a).procs[a.pid];
            && Next(s, a).procs == s.procs[a.pid := p] && p.call == s.procs[a.pid].call
            && (p.pc.Done? ==> |Emitted(s, a)| == 1 && Emitted(s, a)[0].outcome == p.pc.outcome)
            && (Emitted(s, a) != [] ==> Finished(p))
    ensures |Emitted(s, a)| <= 1
    ensures Emitted(s, a) != [] ==> Emitted(s, a)[0].pid == a.pid && Emitted(s, a)[0].call == s.procs[a.pid].call
  {
    if a.Advance? {
      StepMovesOne(s, a.pid);
    }
  }

  lemma StepMovesOne(s: State, i: nat)
    requires i < |s.procs|
    ensures Step(s, i).procs == s.procs[i := Step(s, i).procs[i]]
    ensures Step(s, i).procs[i].call == s.procs[i].call
  {
    match s.procs[i].pc
    case Start =>
    case Opened =>
    case WantsFirst =>
    case WonBooking =>
    case WantsSeat =>
    case SeatTaken =>
    case Committing =>
    case Lost =>
    case Reread =>
    case Done(_) =>
    case Failed =>
  }

  lemma AccountsExtend(s: State, t: State, t': State, h: seq<Entry>, e: seq<Entry>, pid: nat)
    requires Accounted(s, t, h) && pid < |t.procs| && !Finished(t.procs[pid])
    requires |t'.procs| == |t.procs| && t'.procs == t.procs[pid := t'.procs[pid]]
    requires t'.procs[pid].call == t.procs[pid].call
    requires t'.procs[pid].pc.Done? ==> |e| == 1 && e[0].outcome == t'.procs[pid].pc.outcome
    requires e != [] ==> Finished(t'.procs[pid]) && e[0].pid == pid && e[0].call == t.procs[pid].call
    requires |e| <= 1
    ensures Accounted(s, t', h + e)
  {
    var h' := h + e;
    forall i: nat | i < |s.procs| && t'.procs[i].pc.Done?
      ensures Told(h', i, s.procs[i].call, t'.procs[i].pc.outcome)
    {
      if i == pid {
        assert Tells(h', |h|, i, s.procs[i].call, t'.procs[i].pc.outcome);
      } else {
        assert t'.procs[i] == t.procs[i];
        var k: nat :| Tells(h, k, i, s.procs[i].call, t.procs[i].pc.outcome);
        assert Tells(h', k, i, s.procs[i].call, t.procs[i].pc.outcome);
      }
    }
    forall k | 0 <= k < |h'|
      ensures && h'[k].pid < |s.procs| && h'[k].call == s.procs[h'[k].pid].call
              && Finished(t'.procs[h'[k].pid])
    {
      if k < |h| {
        assert h'[k] == h[k];
      }
    }
  }

  /** The answer every caller hears is its own entry in the serial run. */
  lemma {:induction false} AnswersComeFromSerialRun(s: State, run: seq<Action>)
    requires Init(s) && Legal(s, run)
    ensures Accounted(s, After(s, run), History(s, run))
    decreases |run|
  {
    if run != [] {
      var n := |run| - 1;
      AnswersComeFromSerialRun(s, run[..n]);
      var before := After(s, run[..n]);
      StepShape(before, run[n]);
      AccountsExtend(s, before, Next(before, run[n]), History(s, run[..n]), Emitted(before, run[n]), run[n].pid);
    }
  }

  lemma {:induction false} LegalPrefix(s: State, run: seq<Action>, m: nat)
    requires Legal(s, run) && m <= |run|
    ensures Legal(s, run[..m])
    ensures History(s, run[..m]) <= History(s, run)
    decreases |run|
  {
    if m == |run| {
      assert run[..m] == run;
    } else {
      var n := |run| - 1;
      LegalPrefix(s, run[..n], m);
      assert run[..n][..m] == run[..m];
    }
  }

  /** The serial order respects real time: a caller that had its answer before another one started comes
      first. */
  lemma SerialOrderIsRealTime(s: State, run: seq<Action>, m: nat, k: nat, l: nat)
    requires Init(s) && Legal(s, run) && m <= |run| && Legal(s, run[..m])
    requires k < |History(s, run)| && l < |History(s, run)|
    requires Answered(After(s, run[..m]), History(s, run)[k].pid)
    requires NotStarted(After(s, run[..m]), History(s, run)[l].pid)
    ensures k < l
  {
    LegalPrefix(s, run, m);
    AnswersComeFromSerialRun(s, run);
    AnswersComeFromSerialRun(s, run[..m]);
    EarlierEntryFirst(s, After(s, run[..m]), After(s, run), History(s, run[..m]), History(s, run), k, l);
  }

  predicate Answered(s: State, i: nat) {
    i < |s.procs| && s.procs[i].pc.Done?
  }

  predicate NotStarted(s: State, i: nat) {
    i < |s.procs| && s.procs[i].pc.Start?
  }

  lemma EarlierEntryFirst(s: State, mid: State, t: State, g: seq<Entry>, h: seq<Entry>, k: nat, l: nat)
    requires Accounted(s, mid, g) && Accounted(s, t, h) && g <= h && k < |h| && l < |h|
    requires Answered(mid, h[k].pid) && NotStarted(mid, h[l].pid)
    ensures k < l
  {
    var i := h[k].pid;
    var k': nat :| Tells(g, k', i, s.procs[i].call, mid.procs[i].pc.outcome);
    assert h[k'].pid == i;
    assert forall n {:trigger g[n]} :: 0 <= n < |g| ==> g[n] == h[n];
  }

  // ----- safety of every run -----

  /** In every reachable committed state: held iff exactly one pending and no confirmed booking, booked iff
      exactly one confirmed and no pending one, available iff neither. */
  lemma NoSeatIsSoldTwice(s: State, run: seq<Action>, x: nat)
    requires Init(s) && Legal(s, run) && x in After(s, run).db.seats
    ensures
      var db := After(s, run).db;
      && (db.seats[x].status == Held <==> ExactlyOne(db, x, Pending) && NoneWith(db, x, Confirmed))
      && (db.seats[x].status == Booked <==> ExactlyOne(db, x, Confirmed) && NoneWith(db, x, Pending))
      && (db.seats[x].status == Available <==> NoneWith(db, x, Pending) && NoneWith(db, x, Confirmed))
  {
    InvAlways(s, run);
    SeatStatusMeaning(After(s, run).db, x);
  }

  /** No call of any run answers "state drift", and no expiry commits without releasing its seat. */
  lemma DriftIsUnreachable(s: State, run: seq<Action>, i: nat)
    requires Init(s) && Legal(s, run) && i < |s.procs|
    ensures |After(s, run).procs| == |s.procs|
    ensures After(s, run).procs[i].pc != Done(StateDrift)
    ensures After(s, run).procs[i].pc != Done(ExpireDone(false))
  {
    RunRefinesSerialRun(s, run);
    AnswersComeFromSerialRun(s, run);
    var h := History(s, run);
    var t := After(s, run);
    if t.procs[i].pc.Done? {
      var k: nat :| Tells(h, k, i, s.procs[i].call, t.procs[i].pc.outcome);
      SerialRunStaysConsistent(s.db, h, k);
      var db := Replay(s.db, h[..k]);
      assert Agrees(db, h[k]);
      ApplyKeepsConsistent(db, h[k].call, h[k].newId);
    }
  }

  lemma {:induction false} SerialRunStaysConsistent(db: Db, h: seq<Entry>, k: nat)
    requires Consistent(db) && Serial(db, h) && k <= |h|
    ensures Consistent(Replay(db, h[..k]))
    ensures Advances(db, Replay(db, h[..k]))
    decreases k
  {
    if k > 0 {
      SerialRunStaysConsistent(db, h, k - 1);
      assert h[..k][..k - 1] == h[..k - 1];
      var mid := Replay(db, h[..k - 1]);
      var e := h[k - 1];
      assert Agrees(mid, e);
      ApplyKeepsConsistent(mid, e.call, e.newId);
      ApplyAdvances(mid, e.call, e.newId);
    }
  }

  lemma StepAdvances(s: State, a: Action)
    requires Inv(s) && Enabled(s, a)
    ensures Advances(s.db, Next(s, a).db)
  {
    StepRefines(s, a);
    if Emitted(s, a) != [] {
      var e := Emitted(s, a)[0];
      assert Emitted(s, a) == [e];
      ApplyAdvances(s.db, e.call, e.newId);
    }
  }

  lemma AdvancesTransitive(a: Db, b: Db, c: Db)
    requires Advances(a, b) && Advances(b, c)
    ensures Advances(a, c)
  {
    forall id | id in a.bookings ensures id in b.bookings && id in c.bookings {
      assert id in b.bookings;
    }
  }

  /** Over any run bookings keep their seat, owner and hold deadline, and their status moves only from
      pending to confirmed, cancelled or expired and from confirmed to cancelled. */
  lemma {:induction false} StatusesOnlyAdvance(s: State, run: seq<Action>, m: nat)
    requires Init(s) && Legal(s, run) && m <= |run| && Legal(s, run[..m])
    ensures Advances(After(s, run[..m]).db, After(s, run).db)
    decreases |run|
  {
    if m == |run| {
      assert run[..m] == run;
    } else {
      var n := |run| - 1;
      assert run[..n][..m] == run[..m];
      StatusesOnlyAdvance(s, run[..n], m);
      InvAlways(s, run[..n]);
      StepAdvances(After(s, run[..n]), run[n]);
      AdvancesTransitive(After(s, run[..m]).db, After(s, run[..n]).db, After(s, run).db);
    }
  }

  /** What a caller that lost the race is told, in any run. */
  lemma LostCallersHearTheTruth(s: State, run: seq<Action>, i: nat)
    requires Init(s) && Legal(s, run) && i < |s.procs|
    ensures |After(s, run).procs| == |s.procs|
    ensures
      var pc := After(s, run).procs[i].pc;
      && (forall found :: pc == Done(NotConfirmable(found)) ==> found.Some? && found.value != Pending)
      && (forall found :: pc == Done(NotCancellable(found)) ==> found == Some(Cancelled) || found == Some(Expired))
  {
    RunRefinesSerialRun(s, run);
    AnswersComeFromSerialRun(s, run);
    var h := History(s, run);
    var t := After(s, run);
    if t.procs[i].pc.Done? {
      var k: nat :| Tells(h, k, i, s.procs[i].call, t.procs[i].pc.outcome);
      assert Agrees(Replay(s.db, h[..k]), h[k]);
      LostReportsARealStatus(Replay(s.db, h[..k]), h[k].call, h[k].newId);
    }
  }

  // ----- progress -----

  /** While some caller is unfinished, some caller can take its next statement: row locks never deadlock. */
  lemma NeverDeadlocked(s: State, i: nat)
    requires Inv(s) && i < |s.procs| && !Finished(s.procs[i])
    ensures exists j :: Enabled(s, Advance(j))
  {
    assert ProcOk(s, i);
    if s.procs[i].pc.WantsSeat? {
      WonBookingMeansFreeSeat(s, i);
    }
    if !Blocked(s, i) {
      assert Enabled(s, Advance(i));
    } else if s.procs[i].call.Reserve? {
      var x := s.procs[i].call.seatId;
      assert SeatLockOk(s, x);
      assert Enabled(s, Advance(s.seatLock[x]));
    } else {
      var b := s.procs[i].call.bookingId;
      assert BookingLockOk(s, b);
      var j := s.bookingLock[b];
      if s.procs[j].pc.WantsSeat? {
        WonBookingMeansFreeSeat(s, j);
      }
      assert Enabled(s, Advance(j));
    }
  }

  /** How many statements a caller can still take. */
  function StepsLeft(pc: Pc): nat {
    match pc
    case Start => 7
    case Opened => 6
    case WantsFirst => 5
    case WonBooking => 3
    case WantsSeat => 2
    case SeatTaken => 2
    case Committing => 1
    case Lost => 2
    case Reread => 1
    case Done(_) => 0
    case Failed => 0
  }

  function TotalLeft(procs: seq<Proc>): nat {
    if procs == [] then 0 else StepsLeft(procs[0].pc) + TotalLeft(procs[1..])
  }

  lemma {:induction false} TotalLeftUpdate(procs: seq<Proc>, i: nat, p: Proc)
    requires i < |procs|
    ensures TotalLeft(procs[i := p]) == TotalLeft(procs) - StepsLeft(procs[i].pc) + StepsLeft(p.pc)
  {
    if i > 0 {
      TotalLeftUpdate(procs[1..], i - 1, p);
      assert procs[i := p][1..] == procs[1..][i - 1 := p];
    } else {
      assert procs[0 := p][1..] == procs[1..];
    }
  }

  lemma {:induction false} TotalLeftBound(procs: seq<Proc>)
    ensures TotalLeft(procs) <= 7 * |procs|
  {
    if procs != [] {
      TotalLeftBound(procs[1..]);
    }
  }

  lemma EveryStepCounts(s: State, a: Action)
    requires Inv(s) && Enabled(s, a)
    ensures TotalLeft(Next(s, a).procs) < TotalLeft(s.procs)
  {
    StepShape(s, a);
    OneStepCounts(s, a);
    TotalLeftUpdate(s.procs, a.pid, Next(s, a).procs[a.pid]);
  }

  lemma OneStepCounts(s: State, a: Action)
    requires Inv(s) && Enabled(s, a)
    ensures StepsLeft(Next(s, a).procs[a.pid].pc) < StepsLeft(s.procs[a.pid].pc)
  {
    assert ProcOk(s, a.pid);
    if s.procs[a.pid].pc.WonBooking? || s.procs[a.pid].pc.WantsSeat? {
      WonBookingMeansFreeSeat(s, a.pid);
    }
  }

  /** Every run ends: `n` callers take at most `7 n` steps between them, whatever the interleaving. */
  lemma {:induction false} RunsAreBounded(s: State, run: seq<Action>)
    requires Init(s) && Legal(s, run)
    ensures |run| + TotalLeft(After(s, run).procs) <= TotalLeft(s.procs) <= 7 * |s.procs|
    decreases |run|
  {
    TotalLeftBound(s.procs);
    if run != [] {
      var n := |run| - 1;
      RunsAreBounded(s, run[..n]);
      InvAlways(s, run[..n]);
      EveryStepCounts(After(s, run[..n]), run[n]);
    }
  }

  /** A run that cannot be continued leaves no caller waiting. */
  lemma MaximalRunsFinishEveryCaller(s: State, run: seq<Action>, i: nat)
    requires Init(s) && Legal(s, run) && i < |s.procs|
    requires forall j {:trigger Advance(j)} :: !Enabled(After(s, run), Advance(j))
    ensures |After(s, run).procs| == |s.procs| && Finished(After(s, run).procs[i])
  {
    InvAlways(s, run);
    if !Finished(After(s, run).procs[i]) {
      NeverDeadlocked(After(s, run), i);
    }
  }

  // ----- the flash sale -----

  ghost predicate AllReserve(s: State, x: nat) {
    forall i: nat {:trigger s.procs[i]} :: i < |s.procs| ==> s.procs[i].call.Reserve? && s.procs[i].call.seatId == x
  }

  lemma {:induction false} FirstReserveWins(db: Db, h: seq<Entry>, x: nat, k: nat)
    requires Serial(db, h) && x in db.seats && db.seats[x].status == Available && k < |h|
    requires forall l {:trigger h[l]} :: 0 <= l < |h| ==> h[l].call.Reserve? && h[l].call.seatId == x
    ensures h[k].outcome == if k == 0 then Reserved(h[k].newId) else SeatUnavailable
    ensures x in Replay(db, h[..k + 1]).seats && Replay(db, h[..k + 1]).seats[x].status == Held
  {
    var mid := Replay(db, h[..k]);
    assert h[..k + 1][..k] == h[..k];
    if k > 0 {
      FirstReserveWins(db, h, x, k - 1);
    }
    assert Agrees(mid, h[k]);
  }

  lemma AdvancingDoesNotFail(s: State, i: nat, j: nat)
    requires i < |s.procs| && j < |s.procs| && !s.procs[j].pc.Failed?
    ensures |Step(s, i).procs| == |s.procs| && !Step(s, i).procs[j].pc.Failed?
  {
    StepMovesOne(s, i);
  }

  /** A run in which nobody crashes leaves nobody failed. */
  lemma {:induction false} NobodyFails(s: State, run: seq<Action>, i: nat)
    requires Init(s) && Legal(s, run) && i < |s.procs|
    requires forall k {:trigger run[k]} :: 0 <= k < |run| ==> run[k].Advance?
    ensures |After(s, run).procs| == |s.procs| && !After(s, run).procs[i].pc.Failed?
    decreases |run|
  {
    if run == [] {
      assert s.procs[i] == NewProc(s.procs[i].call);
    } else {
      var n := |run| - 1;
      NobodyFails(s, run[..n], i);
      AdvancingDoesNotFail(After(s, run[..n]), run[n].pid, i);
    }
  }

  ghost predicate WinsAlone(t: State, w: nat)
    requires w < |t.procs|
  {
    && t.procs[w].pc.Done? && t.procs[w].pc.outcome.Reserved?
    && forall i: nat {:trigger t.procs[i]} :: i < |t.procs| && i != w ==> t.procs[i].pc == Done(SeatUnavailable)
  }

  /** Any number of callers race for one available seat, no crash, every call run to its end: exactly one
      gets the seat and all the others are told it is unavailable. */
  lemma OneWinnerPerSeat(s: State, run: seq<Action>, x: nat)
    requires Init(s) && Legal(s, run) && AllReserve(s, x) && |s.procs| > 0
    requires x in s.db.seats && s.db.seats[x].status == Available
    requires forall k {:trigger run[k]} :: 0 <= k < |run| ==> run[k].Advance?
    requires forall j {:trigger Advance(j)} :: !Enabled(After(s, run), Advance(j))
    ensures |After(s, run).procs| == |s.procs|
    ensures exists w: nat :: w < |After(s, run).procs| && WinsAlone(After(s, run), w)
  {
    var t, h := After(s, run), History(s, run);
    AnswersComeFromSerialRun(s, run);
    RunRefinesSerialRun(s, run);
    forall i: nat | i < |s.procs| ensures t.procs[i].pc.Done? {
      MaximalRunsFinishEveryCaller(s, run, i);
      NobodyFails(s, run, i);
    }
    WinnerOf(s, t, h, x);
  }

  lemma WinnerOf(s: State, t: State, h: seq<Entry>, x: nat)
    requires Accounted(s, t, h) && Serial(s.db, h) && AllReserve(s, x) && |s.procs| > 0
    requires x in s.db.seats && s.db.seats[x].status == Available
    requires forall i: nat {:trigger t.procs[i]} :: i < |s.procs| ==> t.procs[i].pc.Done?
    ensures exists w: nat :: w < |t.procs| && WinsAlone(t, w)
  {
    assert Told(h, 0, s.procs[0].call, t.procs[0].pc.outcome);
    var first: nat :| Tells(h, first, 0, s.procs[0].call, t.procs[0].pc.outcome);
    forall l | 0 <= l < |h| ensures h[l].call.Reserve? && h[l].call.seatId == x {
      assert h[l].call == s.procs[h[l].pid].call;
    }
    var w := h[0].pid;
    var kw: nat :| Tells(h, kw, w, s.procs[w].call, t.procs[w].pc.outcome);
    FirstReserveWins(s.db, h, x, 0);
    assert kw == 0;
    forall i: nat | i < |t.procs| && i != w ensures t.procs[i].pc == Done(SeatUnavailable) {
      var k: nat :| Tells(h, k, i, s.procs[i].call, t.procs[i].pc.outcome);
      FirstReserveWins(s.db, h, x, k);
    }
    assert WinsAlone(t, w);
  }
}
