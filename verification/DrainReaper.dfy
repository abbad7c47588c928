/** Draining the HTTP server: keep-alive connections, the one reap Node makes when the server stops
    accepting, and the reaper that closes idle connections again each time a response finishes. */
module DrainReaper {
  /** Unfinished responses on a connection: those whose request event fired after the reaper's listener was
      attached, and those whose event fired before, which it will never hear of. */
  datatype Conn = Conn(tracked: nat, untracked: nat)

  datatype Server = Server(conns: map<nat, Conn>, listening: bool, draining: bool, attached: bool)

  datatype Action =
    | Accept(id: nat)
    | Request(id: nat)
    | Finish(id: nat, tracked: bool)
    | ClientClose(id: nat)
    | Attach
    | BeginDrain       // closeServer: raise the flag, start close(), reap what is idle now
    | StopAccepting    // close() reaches the http server: no more accepts, and Node's own single reap

  predicate Busy(c: Conn) {
    c.tracked + c.untracked > 0
  }

  /** closeIdleConnections. */
  function Reap(conns: map<nat, Conn>): map<nat, Conn> {
    map id | id in conns && Busy(conns[id]) :: conns[id]
  }

  predicate Enabled(s: Server, a: Action) {
    match a
    case Accept(id) => s.listening && id !in s.conns
    case Request(id) => id in s.conns
    case Finish(id, tracked) =>
      id in s.conns && (if tracked then s.conns[id].tracked > 0 else s.conns[id].untracked > 0)
    case ClientClose(id) => id in s.conns
    case Attach => true
    case BeginDrain => true
    case StopAccepting => s.draining
  }

  function Next(s: Server, a: Action): Server
    requires Enabled(s, a)
  {
    match a
    case Accept(id) => s.(conns := s.conns[id := Conn(0, 0)])
    case Request(id) =>
      var c := s.conns[id];
      s.(conns := s.conns[id := if s.attached then Conn(c.tracked + 1, c.untracked)
                                else Conn(c.tracked, c.untracked + 1)])
    case Finish(id, tracked) =>
      var c := s.conns[id];
      var conns := s.conns[id := if tracked then Conn(c.tracked - 1, c.untracked)
                                 else Conn(c.tracked, c.untracked - 1)];
      s.(conns := if tracked && s.draining then Reap(conns) else conns)
    case ClientClose(id) => s.(conns := s.conns - {id})
    case Attach => s.(attached := true)
    case BeginDrain => s.(draining := true, conns := Reap(s.conns))
    case StopAccepting => s.(listening := false, conns := Reap(s.conns))
  }

  /** The server and its reaper as event handlers over mutable state. */
  class DrainingServer {
    var conns: map<nat, Conn>
    var listening: bool
    var draining: bool
    var attached: bool

    constructor ()
      ensures View() == Server(map[], true, false, false)
    {
      conns, listening, draining, attached := map[], true, false, false;
    }

    function View(): Server
      reads this
    {
      Server(conns, listening, draining, attached)
    }

    /** Attaching twice installs one listener. */
    method DrainReaperFor()
      modifies this`attached
      ensures View() == Next(old(View()), Attach)
    {
      if !attached {
        attached := true;
      }
    }

    method CloseIdleConnections()
      modifies this`conns
      ensures conns == Reap(old(conns))
    {
      var ids := conns.Keys;
      while ids != {}
        invariant ids <= old(conns).Keys
        invariant forall id :: id in conns <==> id in old(conns) && (id in ids || Busy(old(conns)[id]))
        invariant forall id :: id in conns ==> conns[id] == old(conns)[id]
        decreases |ids|
      {
        var id :| id in ids;
        ids := ids - {id};
        if !Busy(conns[id]) {
          conns := conns - {id};
        }
      }
    }

    method OnRequest(id: nat)
      requires id in conns
      modifies this`conns
      ensures View() == Next(old(View()), Request(id))
    {
      var c := conns[id];
      conns := conns[id := if attached then c.(tracked := c.tracked + 1) else c.(untracked := c.untracked + 1)];
    }

    method OnFinish(id: nat, tracked: bool)
      requires Enabled(View(), Finish(id, tracked))
      modifies this`conns
      ensures View() == Next(old(View()), Finish(id, tracked))
    {
      var c := conns[id];
      conns := conns[id := if tracked then c.(tracked := c.tracked - 1) else c.(untracked := c.untracked - 1)];
      if tracked && draining {
        CloseIdleConnections();
      }
    }

    method CloseServer()
      modifies this`conns, this`draining
      ensures View() == Next(old(View()), BeginDrain)
    {
      draining := true;
      CloseIdleConnections();
    }
  }

  // ----- runs -----

  predicate Legal(s: Server, run: seq<Action>)
    decreases |run|, 0
  {
    run == [] || (var n := |run| - 1; Legal(s, run[..n]) && Enabled(After(s, run[..n]), run[n]))
  }

  function After(s: Server, run: seq<Action>): Server
    requires Legal(s, run)
    decreases |run|, 1
  {
    if run == [] then s else Next(After(s, run[..|run| - 1]), run[|run| - 1])
  }

  /** The reaper is attached at start-up, before any connection. */
  predicate Init(s: Server) {
    s.conns == map[] && s.listening && !s.draining && s.attached
  }

  ghost predicate AllBusy(s: Server) {
    forall id {:trigger s.conns[id]} :: id in s.conns ==> Busy(s.conns[id])
  }

  ghost predicate Inv(s: Server) {
    && s.attached
    && (forall id {:trigger s.conns[id]} :: id in s.conns ==> s.conns[id].untracked == 0)
    && (!s.listening ==> s.draining && AllBusy(s))
  }

  /** Once the server has stopped accepting, every open connection has an unfinished response, in every
      reachable state. */
  lemma {:induction false} OnlyBusyConnectionsRemain(s: Server, run: seq<Action>)
    requires Init(s) && Legal(s, run)
    ensures Inv(After(s, run))
    decreases |run|
  {
    if run != [] {
      OnlyBusyConnectionsRemain(s, run[..|run| - 1]);
    }
  }

  /** Beginning the drain closes what is idle at once: an idle connection that is open later was accepted since. */
  lemma {:induction false} IdleWhileDrainingIsNew(s: Server, run: seq<Action>, k: nat, id: nat)
    requires Init(s) && Legal(s, run) && k < |run| && run[k] == BeginDrain
    requires id in After(s, run).conns && After(s, run).conns[id].tracked + After(s, run).conns[id].untracked == 0
    ensures exists j :: k < j < |run| && run[j] == Accept(id)
    decreases |run|
  {
    var n := |run| - 1;
    var before := After(s, run[..n]);
    OnlyBusyConnectionsRemain(s, run[..n]);
    if k < n {
      DrainingFrom(s, run[..n], k);
      if id in before.conns && !Busy(before.conns[id]) {
        IdleWhileDrainingIsNew(s, run[..n], k, id);
      } else {
        assert run[n] == Accept(id);
      }
    }
  }

  lemma {:induction false} DrainingFrom(s: Server, run: seq<Action>, k: nat)
    requires Legal(s, run) && k < |run| && run[k] == BeginDrain
    ensures After(s, run).draining
    decreases |run|
  {
    if k < |run| - 1 {
      DrainingFrom(s, run[..|run| - 1], k);
    }
  }

  /** Nobody but the client ends a connection that has an unfinished response: every other step keeps it, with
      the responses it had, one fewer only if that one finished. */
  lemma InFlightWorkIsNeverCut(s: Server, a: Action, id: nat)
    requires Enabled(s, a) && a != ClientClose(id) && id in s.conns && Busy(s.conns[id])
    requires a.Finish? && a.id == id ==> s.conns[id].tracked + s.conns[id].untracked > 1
    ensures id in Next(s, a).conns
    ensures var c, c' := s.conns[id], Next(s, a).conns[id];
            c'.tracked + c'.untracked == c.tracked + c.untracked +
              (if a == Request(id) then 1 else if a.Finish? && a.id == id then -1 else 0)
  {
  }

  /** close() resolves when the server no longer accepts and no connection is open. */
  predicate CanResolve(s: Server) {
    !s.listening && s.conns == map[]
  }

  function ResponsesOn(conns: map<nat, Conn>, id: nat): nat {
    if id in conns then conns[id].tracked + conns[id].untracked else 0
  }

  /** Unfinished responses on the connections with ids below `n`. */
  function Unfinished(conns: map<nat, Conn>, n: nat): nat {
    if n == 0 then 0 else Unfinished(conns, n - 1) + ResponsesOn(conns, n - 1)
  }

  ghost predicate IdsBelow(conns: map<nat, Conn>, n: nat) {
    forall id {:trigger id in conns} :: id in conns ==> id < n
  }

  lemma {:induction false} BusyCounts(conns: map<nat, Conn>, id: nat, n: nat)
    requires id < n
    ensures Unfinished(conns, n) >= ResponsesOn(conns, id)
  {
    if id < n - 1 {
      BusyCounts(conns, id, n - 1);
    }
  }

  lemma {:induction false} ReapForgetsNothing(conns: map<nat, Conn>, n: nat)
    ensures Unfinished(Reap(conns), n) == Unfinished(conns, n)
  {
    if n > 0 {
      ReapForgetsNothing(conns, n - 1);
    }
  }

  lemma {:induction false} SetCounts(conns: map<nat, Conn>, id: nat, c: Conn, n: nat)
    ensures Unfinished(conns[id := c], n) + (if id < n then ResponsesOn(conns, id) else 0) ==
            Unfinished(conns, n) + (if id < n then c.tracked + c.untracked else 0)
  {
    if n > 0 {
      SetCounts(conns, id, c, n - 1);
    }
  }

  /** As soon as no response is unfinished, and not before, nothing is left for close() to wait for. */
  lemma ResolvesWithLastResponse(s: Server, run: seq<Action>, n: nat)
    requires Init(s) && Legal(s, run) && !After(s, run).listening && IdsBelow(After(s, run).conns, n)
    ensures CanResolve(After(s, run)) <==> Unfinished(After(s, run).conns, n) == 0
  {
    OnlyBusyConnectionsRemain(s, run);
    var t := After(s, run);
    if t.conns == map[] {
      NothingUnfinished(n);
    } else {
      var id :| id in t.conns;
      BusyCounts(t.conns, id, n);
    }
  }

  lemma {:induction false} NothingUnfinished(n: nat)
    ensures Unfinished(map[], n) == 0
  {
    if n > 0 {
      NothingUnfinished(n - 1);
    }
  }

  /** If clients send nothing more, as many finishes as there are unfinished responses end the drain. */
  lemma {:induction false} DrainEnds(s: Server, run: seq<Action>, n: nat)
    requires Inv(s) && !s.listening && IdsBelow(s.conns, n) && Legal(s, run)
    requires forall k {:trigger run[k]} :: 0 <= k < |run| ==> run[k].Finish?
    ensures var t := After(s, run); Inv(t) && !t.listening && IdsBelow(t.conns, n)
    ensures |run| + Unfinished(After(s, run).conns, n) == Unfinished(s.conns, n)
    ensures |run| == Unfinished(s.conns, n) ==> CanResolve(After(s, run))
    decreases |run|
  {
    if run != [] {
      var m := |run| - 1;
      DrainEnds(s, run[..m], n);
      var before, a := After(s, run[..m]), run[m];
      var c := before.conns[a.id];
      var c' := Conn(c.tracked - 1, c.untracked);
      SetCounts(before.conns, a.id, c', n);
      ReapForgetsNothing(before.conns[a.id := c'], n);
    }
    var t := After(s, run);
    if t.conns != map[] {
      var id :| id in t.conns;
      BusyCounts(t.conns, id, n);
    }
  }

  /** Without the reap at finish time the drain hangs: a request in flight when the drain begins, whose event
      fired before the listener was attached, leaves an idle connection open. */
  lemma WithoutFinishReapDrainHangs()
    ensures
      var s := Server(map[], true, false, false);
      var run := [Accept(0), Request(0), BeginDrain, StopAccepting, Finish(0, false)];
      Legal(s, run) && !After(s, run).listening && 0 in After(s, run).conns && !Busy(After(s, run).conns[0])
  {
    var s := Server(map[], true, false, false);
    OneMore(s, [], Accept(0));
    var run1 := [] + [Accept(0)];
    OneMore(s, run1, Request(0));
    var run2 := run1 + [Request(0)];
    OneMore(s, run2, BeginDrain);
    var run3 := run2 + [BeginDrain];
    OneMore(s, run3, StopAccepting);
    var run4 := run3 + [StopAccepting];
    OneMore(s, run4, Finish(0, false));
    assert run4 + [Finish(0, false)] == [Accept(0), Request(0), BeginDrain, StopAccepting, Finish(0, false)];
  }

  lemma OneMore(s: Server, run: seq<Action>, a: Action)
    requires Legal(s, run) && Enabled(After(s, run), a)
    ensures Legal(s, run + [a]) && After(s, run + [a]) == Next(After(s, run), a)
  {
    assert (run + [a])[..|run|] == run;
  }

  /** In general, whether the reaper is told decides it: after the last response of a connection finishes, the
      connection is still open if and only if the response was not tracked or the server is not draining. */
  lemma FinishReapsIffTracked(s: Server, id: nat, tracked: bool)
    requires Enabled(s, Finish(id, tracked)) && s.conns[id].tracked + s.conns[id].untracked == 1
    ensures id in Next(s, Finish(id, tracked)).conns <==> !(tracked && s.draining)
  {
  }
}
