/** The Redis rate limiter: INCR and EXPIRE NX as two separate commands per request, for one identifier's
    key, with crashes between them and the key expiring by time.

    A life of the key runs from the INCR that creates it to its expiry. The proved bound is 2 MAX - 1
    admissions per window, one less than two full lives give, and it is attained. */
module RateLimiter {
  import opened Wrappers

  datatype Key = Key(count: nat, deadline: Option<int>)

  predicate Live(key: Option<Key>, now: int) {
    key.Some? && (key.value.deadline.None? || now < key.value.deadline.value)
  }

  /** INCR: creates the key without a TTL if it is not there, and keeps the TTL if it is. */
  function Incr(key: Option<Key>, now: int): Key {
    if Live(key, now) then key.value.(count := key.value.count + 1) else Key(1, None)
  }

  /** EXPIRE key window NX: nothing without a key, nothing if it already has a TTL. */
  function ExpireNx(key: Option<Key>, now: int, window: nat): Option<Key> {
    if Live(key, now) && key.value.deadline.None? then Some(key.value.(deadline := Some(now + window)))
    else if Live(key, now) then key
    else None
  }

  /** The store as one request uses it, its two commands issued one after the other. */
  class RedisKey {
    var key: Option<Key>

    constructor ()
      ensures key == None
    {
      key := None;
    }

    method DoIncr(now: int) returns (current: nat)
      modifies this
      ensures key == Some(Incr(old(key), now)) && current == Incr(old(key), now).count
    {
      if key.Some? && (key.value.deadline.None? || now < key.value.deadline.value) {
        key := Some(Key(key.value.count + 1, key.value.deadline));
      } else {
        key := Some(Key(1, None));
      }
      current := key.value.count;
    }

    method DoExpireNx(now: int, window: nat)
      modifies this
      ensures key == ExpireNx(old(key), now, window)
    {
      if key.Some? && key.value.deadline.Some? && key.value.deadline.value <= now {
        key := None;
      }
      if key.Some? && key.value.deadline.None? {
        key := Some(Key(key.value.count, Some(now + window)));
      }
    }

    /** One request with nobody between its commands: afterwards the key has a deadline, or is gone already. */
    method RateLimit(now: int, later: int, window: nat, max: nat) returns (admitted: bool)
      requires now <= later
      modifies this
      ensures key == ExpireNx(Some(Incr(old(key), now)), later, window)
      ensures admitted <==> Incr(old(key), now).count <= max
      ensures key.Some? ==> key.value.deadline.Some?
    {
      var current := DoIncr(now);
      DoExpireNx(later, window);
      admitted := current <= max;
    }
  }

  // ----- any interleaving of requests -----

  /** After its INCR a request knows its hit, by position in the log, and so the count it was returned. */
  datatype Request = Idle | Counted(hit: nat) | Expired(hit: nat) | Answered(hit: nat, admitted: bool)

  /** One INCR: when, in which life of the key, and the count it returned. */
  datatype Hit = Hit(time: int, life: nat, count: nat)

  datatype State = State(now: int, key: Option<Key>, life: nat, log: seq<Hit>, requests: seq<Request>)

  datatype Config = Config(window: nat, max: nat)

  datatype Action =
    | Wait(ms: nat)
    | DoIncr(r: nat)
    | DoExpire(r: nat)
    | Answer(r: nat)  // a crashed request simply takes no further action

  predicate Enabled(s: State, a: Action) {
    match a
    case Wait(_) => true
    case DoIncr(r) => r < |s.requests| && s.requests[r].Idle?
    case DoExpire(r) => r < |s.requests| && s.requests[r].Counted?
    case Answer(r) => r < |s.requests| && s.requests[r].Expired?
  }

  function Next(c: Config, s: State, a: Action): State
    requires Enabled(s, a)
  {
    match a
    case Wait(ms) => s.(now := s.now + ms)
    case DoIncr(r) =>
      var key := Incr(s.key, s.now);
      var life := if Live(s.key, s.now) then s.life else s.life + 1;
      State(s.now, Some(key), life, s.log + [Hit(s.now, life, key.count)],
            s.requests[r := Counted(|s.log|)])
    case DoExpire(r) =>
      State(s.now, ExpireNx(s.key, s.now, c.window), s.life, s.log,
            s.requests[r := Expired(s.requests[r].hit)])
    case Answer(r) =>
      var hit := s.requests[r].hit;
      s.(requests := s.requests[r := Answered(hit, hit < |s.log| && s.log[hit].count <= c.max)])
  }

  ghost predicate Init(s: State) {
    && s.key == None && s.life == 0 && s.log == []
    && forall r :: 0 <= r < |s.requests| ==> s.requests[r] == Idle
  }

  predicate Legal(c: Config, s: State, run: seq<Action>)
    decreases |run|, 0
  {
    run == [] || (var n := |run| - 1; Legal(c, s, run[..n]) && Enabled(After(c, s, run[..n]), run[n]))
  }

  function After(c: Config, s: State, run: seq<Action>): State
    requires Legal(c, s, run)
    decreases |run|, 1
  {
    if run == [] then s else Next(c, After(c, s, run[..|run| - 1]), run[|run| - 1])
  }

  // ----- the invariant -----

  /** Two INCRs in order: counts rise within a life, and a later life starts with count 1 at least a window
      after any INCR that opened an earlier one. */
  predicate InOrder(c: Config, g: Hit, h: Hit) {
    && g.time <= h.time
    && g.life <= h.life
    && (g.life == h.life ==> g.count < h.count)
    && (g.life < h.life && g.count == 1 ==> g.time + c.window <= h.time)
  }

  predicate HasOpener(log: seq<Hit>, k: int) {
    exists j :: 0 <= j <= k < |log| && log[j].life == log[k].life && log[j].count == 1
  }

  ghost predicate LogOk(c: Config, log: seq<Hit>) {
    && (forall k, l {:trigger log[k], log[l]} :: 0 <= k < l < |log| ==> InOrder(c, log[k], log[l]))
    && (forall k {:trigger HasOpener(log, k)} :: 0 <= k < |log| ==> HasOpener(log, k))
    && (forall k {:trigger log[k]} :: 0 <= k < |log| ==> log[k].count >= 1)
  }

  /** The present life, if any INCR has happened: the key is or was its last count, and no earlier than a
      window after the INCR that opened it can it be gone. */
  ghost predicate KeyOk(c: Config, s: State) {
    && (s.key.Some? ==> s.log != [])
    && (forall k {:trigger s.log[k]} :: 0 <= k < |s.log| ==>
          && s.log[k].time <= s.now && s.log[k].life <= s.life
          && (s.log[k].life == s.life && s.key.Some? ==> s.log[k].count <= s.key.value.count)
          && (s.log[k].count == 1 && !Live(s.key, s.now) ==> s.log[k].time + c.window <= s.now)
          && (s.log[k].count == 1 && s.key.Some? && s.key.value.deadline.Some? ==>
                s.log[k].time + c.window <= s.key.value.deadline.value)
          && (s.log[k].count == 1 && s.log[k].life < s.life ==> s.log[k].time + c.window <= s.now))
    && (s.log != [] ==> HasOpener(s.log, |s.log| - 1) && s.log[|s.log| - 1].life == s.life)
  }

  /** Every request past its INCR has a hit of its own. */
  ghost predicate HitsOk(s: State) {
    && (forall r {:trigger s.requests[r]} :: 0 <= r < |s.requests| && !s.requests[r].Idle? ==>
          s.requests[r].hit < |s.log|)
    && (forall q, r {:trigger s.requests[q], s.requests[r]} ::
          0 <= q < r < |s.requests| && !s.requests[q].Idle? && !s.requests[r].Idle? ==>
          s.requests[q].hit != s.requests[r].hit)
  }

  predicate RanExpire(s: State, r: int) {
    0 <= r < |s.requests| && (s.requests[r].Expired? || s.requests[r].Answered?)
  }

  /** While a live key has no TTL, no request that counted in this life has run its EXPIRE. */
  predicate TtlOk(s: State, r: int) {
    RanExpire(s, r) && Live(s.key, s.now) && s.key.value.deadline.None? && s.requests[r].hit < |s.log| ==>
      s.log[s.requests[r].hit].life != s.life
  }

  predicate AnswerOk(c: Config, s: State, r: int) {
    0 <= r < |s.requests| && s.requests[r].Answered? ==>
      s.requests[r].hit < |s.log| && (s.requests[r].admitted <==> s.log[s.requests[r].hit].count <= c.max)
  }

  predicate RequestOk(c: Config, s: State, r: int) {
    TtlOk(s, r) && AnswerOk(c, s, r)
  }

  ghost predicate Inv(c: Config, s: State) {
    && LogOk(c, s.log)
    && KeyOk(c, s)
    && HitsOk(s)
    && forall r {:trigger RequestOk(c, s, r)} :: RequestOk(c, s, r)
  }

  lemma IncrKeepsInv(c: Config, s: State, r: nat)
    requires Inv(c, s) && Enabled(s, DoIncr(r))
    ensures Inv(c, Next(c, s, DoIncr(r)))
  {
    var s' := Next(c, s, DoIncr(r));
    var n := |s.log|;
    forall k | 0 <= k < |s'.log| ensures HasOpener(s'.log, k) {
      if k < n {
        assert HasOpener(s.log, k);
        var j :| 0 <= j <= k && s.log[j].life == s.log[k].life && s.log[j].count == 1;
        assert s'.log[j] == s.log[j] && s'.log[k] == s.log[k];
      } else if Live(s.key, s.now) {
        assert HasOpener(s.log, n - 1);
        var j :| 0 <= j <= n - 1 && s.log[j].life == s.log[n - 1].life && s.log[j].count == 1;
        assert s'.log[j] == s.log[j];
      } else {
        assert s'.log[n].count == 1;
      }
    }
    forall q ensures RequestOk(c, s', q) {
      assert RequestOk(c, s, q);
    }
  }

  lemma ExpireKeepsInv(c: Config, s: State, r: nat)
    requires Inv(c, s) && Enabled(s, DoExpire(r))
    ensures Inv(c, Next(c, s, DoExpire(r)))
  {
    var s' := Next(c, s, DoExpire(r));
    forall q ensures RequestOk(c, s', q) {
      assert RequestOk(c, s, q);
      assert RequestOk(c, s, r);
    }
  }

  lemma OtherStepsKeepInv(c: Config, s: State, a: Action)
    requires Inv(c, s) && Enabled(s, a) && (a.Wait? || a.Answer?)
    ensures Inv(c, Next(c, s, a))
  {
    var s' := Next(c, s, a);
    forall q ensures RequestOk(c, s', q) {
      assert RequestOk(c, s, q);
      if a.Answer? {
        assert RequestOk(c, s, a.r);
      }
    }
  }

  lemma {:induction false} InvAlways(c: Config, s: State, run: seq<Action>)
    requires Init(s) && Legal(c, s, run)
    ensures Inv(c, After(c, s, run))
    decreases |run|
  {
    if run == [] {
      assert forall r :: RequestOk(c, s, r);
    } else {
      var n := |run| - 1;
      InvAlways(c, s, run[..n]);
      var before, a := After(c, s, run[..n]), run[n];
      match a
      case DoIncr(r) => IncrKeepsInv(c, before, r);
      case DoExpire(r) => ExpireKeepsInv(c, before, r);
      case _ => OtherStepsKeepInv(c, before, a);
    }
  }

  // ----- the bound -----

  lemma {:induction false} Pigeonhole(s: set<int>, f: map<int, int>, n: nat)
    requires s <= f.Keys
    requires forall x {:trigger f[x]} :: x in s ==> 0 <= f[x] < n
    requires forall x, y {:trigger f[x], f[y]} :: x in s && y in s && x != y ==> f[x] != f[y]
    ensures |s| <= n
  {
    if n == 0 {
      assert forall x {:trigger x in s} :: x in s ==> 0 <= f[x] < n;
      assert s == {};
    } else if exists x :: x in s && f[x] == n - 1 {
      var x :| x in s && f[x] == n - 1;
      forall y | y in s - {x} ensures 0 <= f[y] < n - 1 {
        assert f[y] != f[x];
      }
      Pigeonhole(s - {x}, f, n - 1);
    } else {
      Pigeonhole(s, f, n - 1);
    }
  }

  predicate InWindow(c: Config, h: Hit, t: int) {
    t <= h.time < t + c.window
  }

  /** The requests that hit the key in the window starting at `t` and were let through. */
  ghost function AdmittedIn(c: Config, s: State, t: int): set<int> {
    set r | 0 <= r < |s.requests| && s.requests[r].Answered? && s.requests[r].admitted &&
            s.requests[r].hit < |s.log| && InWindow(c, s.log[s.requests[r].hit], t)
  }

  function OpenerBefore(log: seq<Hit>, k: nat): (j: nat)
    requires k < |log| && HasOpener(log, k)
    ensures j <= k && log[j].life == log[k].life && log[j].count == 1
  {
    if log[k].count == 1 then k
    else
      assert exists j :: 0 <= j <= k && log[j].life == log[k].life && log[j].count == 1 && j != k;
      var j := FirstOpener(log, log[k].life, k);
      j
  }

  function FirstOpener(log: seq<Hit>, life: nat, k: nat): (j: nat)
    requires k < |log| && exists j :: 0 <= j <= k && log[j].life == life && log[j].count == 1
    ensures j <= k && log[j].life == life && log[j].count == 1
  {
    if log[k].life == life && log[k].count == 1 then k else FirstOpener(log, life, k - 1)
  }

  /** Hits of one window belong to at most two lives, and if to two, the earlier life was opened before the
      window. */
  lemma TwoLivesPerWindow(c: Config, log: seq<Hit>, t: int, first: nat, k: nat, l: nat)
    requires LogOk(c, log) && first < |log| && k < |log| && l < |log|
    requires InWindow(c, log[first], t) && InWindow(c, log[k], t) && InWindow(c, log[l], t)
    requires log[first].life < log[k].life && log[first].life <= log[l].life
    ensures log[l].life == log[first].life || log[l].life == log[k].life
    ensures log[l].life == log[first].life ==> log[l].count >= 2
  {
    assert HasOpener(log, k) && HasOpener(log, l) && HasOpener(log, first);
    var i, j := OpenerBefore(log, k), OpenerBefore(log, l);
    assert InOrder(c, log[i], log[k]) || i == k;
    assert InOrder(c, log[j], log[l]) || j == l;
  }

  /** Whatever the interleaving and whoever crashes, of the requests that hit one identifier's key within
      one window at most 2 MAX - 1 are admitted. */
  lemma WindowBound(c: Config, s: State, run: seq<Action>, t: int)
    requires Init(s) && Legal(c, s, run)
    ensures |AdmittedIn(c, After(c, s, run), t)| <= if c.max == 0 then 0 else 2 * c.max - 1
  {
    InvAlways(c, s, run);
    var e := After(c, s, run);
    var admitted := AdmittedIn(c, e, t);
    forall r | r in admitted ensures 1 <= e.log[e.requests[r].hit].count <= c.max {
      assert RequestOk(c, e, r);
    }
    if some :| some in admitted {
      var first := EarliestLife(e, admitted, some);
      Slots(c, e, t, first);
    } else {
      assert admitted == {};
    }
  }

  /** One of the requests has a hit in the earliest life among them. */
  lemma EarliestLife(s: State, rs: set<int>, some: int) returns (first: int)
    requires some in rs
    requires forall r :: r in rs ==> 0 <= r < |s.requests| && !s.requests[r].Idle? && s.requests[r].hit < |s.log|
    ensures first in rs
    ensures forall r :: r in rs ==> HitOf(s, first).life <= HitOf(s, r).life
    decreases |rs|
  {
    first := some;
    if other :| other in rs - {some} {
      var least := EarliestLife(s, rs - {some}, other);
      if HitOf(s, least).life < HitOf(s, some).life {
        first := least;
      }
    }
    forall r | r in rs ensures HitOf(s, first).life <= HitOf(s, r).life {
      assert r == some || r in rs - {some};
    }
  }

  function HitOf(s: State, r: int): Hit
    requires 0 <= r < |s.requests| && !s.requests[r].Idle? && s.requests[r].hit < |s.log|
  {
    s.log[s.requests[r].hit]
  }

  lemma DistinctHits(c: Config, s: State, q: int, r: int)
    requires Inv(c, s) && q != r
    requires 0 <= q < |s.requests| && !s.requests[q].Idle? && s.requests[q].hit < |s.log|
    requires 0 <= r < |s.requests| && !s.requests[r].Idle? && s.requests[r].hit < |s.log|
    requires HitOf(s, q).life == HitOf(s, r).life
    ensures HitOf(s, q).count != HitOf(s, r).count
  {
    assert RequestOk(c, s, q);
    var k, l := s.requests[q].hit, s.requests[r].hit;
    assert k != l;
    assert if k < l then InOrder(c, s.log[k], s.log[l]) else InOrder(c, s.log[l], s.log[k]);
  }

  /** A number for every admitted request: with two lives the earlier uses the counts 2..MAX and the later
      1..MAX; a life that is alone uses 1..MAX. */
  function SlotOf(max: nat, h: Hit, life: nat, two: bool): int {
    if h.life != life then max + h.count - 2
    else if two then h.count - 2
    else h.count - 1
  }

  lemma SlotOfTwoLives(c: Config, s: State, t: int, first: int, later: int, r: int)
    requires Inv(c, s)
    requires first in AdmittedIn(c, s, t) && later in AdmittedIn(c, s, t) && r in AdmittedIn(c, s, t)
    requires HitOf(s, first).life < HitOf(s, later).life && HitOf(s, first).life <= HitOf(s, r).life
    requires 1 <= HitOf(s, r).count <= c.max
    ensures HitOf(s, r).life == HitOf(s, first).life || HitOf(s, r).life == HitOf(s, later).life
    ensures
      var slot := SlotOf(c.max, HitOf(s, r), HitOf(s, first).life, true);
      0 <= slot < 2 * c.max - 1 && (HitOf(s, r).life == HitOf(s, first).life <==> slot < c.max - 1)
  {
    TwoLivesPerWindow(c, s.log, t, s.requests[first].hit, s.requests[later].hit, s.requests[r].hit);
  }

  /** Different requests get different numbers. */
  lemma SlotsDiffer(c: Config, s: State, life: nat, two: bool, q: int, r: int)
    requires Inv(c, s) && q != r
    requires 0 <= q < |s.requests| && !s.requests[q].Idle? && s.requests[q].hit < |s.log|
    requires 0 <= r < |s.requests| && !s.requests[r].Idle? && s.requests[r].hit < |s.log|
    requires HitOf(s, q).life == HitOf(s, r).life
    ensures SlotOf(c.max, HitOf(s, q), life, two) != SlotOf(c.max, HitOf(s, r), life, two)
  {
    DistinctHits(c, s, q, r);
  }

  ghost predicate Admissible(c: Config, s: State, rs: set<int>) {
    && (forall r {:trigger r in rs} :: r in rs ==>
      && 0 <= r < |s.requests| && !s.requests[r].Idle? && s.requests[r].hit < |s.log|
      && 1 <= HitOf(s, r).count <= c.max)
  }

  lemma SlotsOfTwoLives(c: Config, s: State, t: int, first: int, later: int)
    requires Inv(c, s) && Admissible(c, s, AdmittedIn(c, s, t))
    requires first in AdmittedIn(c, s, t) && later in AdmittedIn(c, s, t)
    requires HitOf(s, first).life < HitOf(s, later).life
    requires forall r {:trigger HitOf(s, r)} :: r in AdmittedIn(c, s, t) ==> HitOf(s, first).life <= HitOf(s, r).life
    ensures |AdmittedIn(c, s, t)| <= 2 * c.max - 1
  {
    hide Inv, SlotOf, InWindow;
    var rs, life := AdmittedIn(c, s, t), HitOf(s, first).life;
    var slot := map r | r in rs :: SlotOf(c.max, HitOf(s, r), life, true);
    forall r {:trigger slot[r]} | r in rs
      ensures 0 <= slot[r] < 2 * c.max - 1
      ensures HitOf(s, r).life == life || HitOf(s, r).life == HitOf(s, later).life
      ensures HitOf(s, r).life == life <==> slot[r] < c.max - 1
    {
      SlotOfTwoLives(c, s, t, first, later, r);
    }
    forall q, r {:trigger slot[q], slot[r]} | q in rs && r in rs && q != r ensures slot[q] != slot[r] {
      if HitOf(s, q).life == HitOf(s, r).life {
        SlotsDiffer(c, s, life, true, q, r);
      }
    }
    Pigeonhole(rs, slot, 2 * c.max - 1);
  }

  lemma SlotsOfOneLife(c: Config, s: State, rs: set<int>, life: nat)
    requires Inv(c, s) && Admissible(c, s, rs)
    requires forall r {:trigger HitOf(s, r)} :: r in rs ==> HitOf(s, r).life == life
    ensures |rs| <= c.max
  {
    hide Inv;
    var slot := map r | r in rs :: SlotOf(c.max, HitOf(s, r), life, false);
    forall q, r {:trigger slot[q], slot[r]} | q in rs && r in rs && q != r ensures slot[q] != slot[r] {
      SlotsDiffer(c, s, life, false, q, r);
    }
    Pigeonhole(rs, slot, c.max);
  }

  lemma Slots(c: Config, s: State, t: int, first: int)
    requires Inv(c, s) && Admissible(c, s, AdmittedIn(c, s, t)) && first in AdmittedIn(c, s, t)
    requires forall r {:trigger HitOf(s, r)} :: r in AdmittedIn(c, s, t) ==> HitOf(s, first).life <= HitOf(s, r).life
    ensures c.max > 0 && |AdmittedIn(c, s, t)| <= 2 * c.max - 1
  {
    hide Inv, InWindow;
    var rs := AdmittedIn(c, s, t);
    if later :| later in rs && HitOf(s, later).life != HitOf(s, first).life {
      SlotsOfTwoLives(c, s, t, first, later);
    } else {
      SlotsOfOneLife(c, s, rs, HitOf(s, first).life);
    }
  }

  /** The self-healing claim: whenever a live key has no TTL, every request that counted in the present life
      is still before its EXPIRE; so the next EXPIRE of anyone gives the key a deadline. */
  lemma NoTtlMeansNobodyExpired(c: Config, s: State, run: seq<Action>, r: nat)
    requires Init(s) && Legal(c, s, run) && r < |After(c, s, run).requests|
    requires var t := After(c, s, run); Live(t.key, t.now) && t.key.value.deadline.None?
    requires var q := After(c, s, run).requests[r]; q.Expired? || q.Answered?
    ensures var t := After(c, s, run); t.requests[r].hit < |t.log| && t.log[t.requests[r].hit].life < t.life
  {
    InvAlways(c, s, run);
    assert RequestOk(c, After(c, s, run), r);
  }

  // ----- the bound is attained -----

  lemma OneMore(c: Config, s: State, run: seq<Action>, a: Action)
    requires Legal(c, s, run) && Enabled(After(c, s, run), a)
    ensures Legal(c, s, run + [a]) && After(c, s, run + [a]) == Next(c, After(c, s, run), a)
  {
    assert (run + [a])[..|run|] == run;
  }

  /** The state after request `r` ran alone from its INCR to its answer. */
  function Serve(c: Config, s: State, r: nat): State
    requires r < |s.requests|
  {
    var key := Incr(s.key, s.now);
    var life := if Live(s.key, s.now) then s.life else s.life + 1;
    State(s.now, ExpireNx(Some(key), s.now, c.window), life, s.log + [Hit(s.now, life, key.count)],
          s.requests[r := Answered(|s.log|, key.count <= c.max)])
  }

  lemma OneRequest(c: Config, s: State, run: seq<Action>, r: nat) returns (run': seq<Action>)
    requires Legal(c, s, run)
    requires r < |After(c, s, run).requests| && After(c, s, run).requests[r].Idle?
    ensures Legal(c, s, run') && After(c, s, run') == Serve(c, After(c, s, run), r)
  {
    OneMore(c, s, run, DoIncr(r));
    var run1 := run + [DoIncr(r)];
    OneMore(c, s, run1, DoExpire(r));
    var run2 := run1 + [DoExpire(r)];
    OneMore(c, s, run2, Answer(r));
    run' := run2 + [Answer(r)];
  }

  predicate ServedOne(c: Config, s: State, q: int, from: int) {
    && 0 <= q < |s.requests| && q < |s.log|
    && s.requests[q].Answered? && s.requests[q].hit == q && s.requests[q].admitted
    && from <= s.log[q].time
  }

  /** Requests 0 to r-1 are the only ones so far and were admitted; those from `m` on hit at `from` or later. */
  ghost predicate Served(c: Config, s: State, r: nat, m: nat, from: int) {
    && |s.log| == r <= |s.requests|
    && (forall q {:trigger s.requests[q]} :: r <= q < |s.requests| ==> s.requests[q].Idle?)
    && (forall q {:trigger ServedOne(c, s, q, from)} :: m <= q < r ==> ServedOne(c, s, q, from))
  }

  lemma ServeOneMore(c: Config, s: State, r: nat, m: nat, from: int)
    requires Served(c, s, r, m, from) && r < |s.requests| && from <= s.now
    requires Incr(s.key, s.now).count <= c.max
    ensures Served(c, Serve(c, s, r), r + 1, m, from)
  {
    forall q | m <= q < r + 1 ensures ServedOne(c, Serve(c, s, r), q, from) {
      if q < r {
        assert ServedOne(c, s, q, from);
      }
    }
  }

  predicate Counting(s: State, deadline: int, count: nat) {
    s.now < deadline && s.key == Some(Key(count, Some(deadline)))
  }

  /** `n` requests run one after another while the key lives and its count stays within MAX. */
  lemma {:induction false} Burst(c: Config, s: State, run: seq<Action>, r: nat, n: nat, m: nat, from: int,
                                 deadline: int, count: nat) returns (run': seq<Action>)
    requires Legal(c, s, run) && Served(c, After(c, s, run), r, m, from)
    requires r + n <= |After(c, s, run).requests| && from <= After(c, s, run).now
    requires Counting(After(c, s, run), deadline, count) && count + n <= c.max
    ensures Legal(c, s, run') && Served(c, After(c, s, run'), r + n, m, from)
    ensures Counting(After(c, s, run'), deadline, count + n)
    ensures After(c, s, run').now == After(c, s, run).now
    ensures |After(c, s, run').requests| == |After(c, s, run).requests|
    decreases n
  {
    run' := run;
    if n > 0 {
      ServeOneMore(c, After(c, s, run), r, m, from);
      var next := OneRequest(c, s, run, r);
      run' := Burst(c, s, next, r + 1, n - 1, m, from, deadline, count + 1);
    }
  }

  lemma WaitKeepsServed(c: Config, s: State, ms: nat, r: nat, m: nat, m': nat, from: int, from': int)
    requires Served(c, s, r, m, from) && (m' == r || (m' == m && from' == from))
    ensures Served(c, Next(c, s, Wait(ms)), r, m', from')
  {
    forall q | m' <= q < r ensures ServedOne(c, Next(c, s, Wait(ms)), q, from') {
      assert ServedOne(c, s, q, from);
    }
  }

  lemma FirstRequest(c: Config, s: State) returns (run: seq<Action>)
    requires Init(s) && c.max > 0 && c.window > 0 && |s.requests| > 0
    ensures Legal(c, s, run) && Served(c, After(c, s, run), 1, 0, s.now)
    ensures After(c, s, run).now == s.now && |After(c, s, run).requests| == |s.requests|
    ensures Counting(After(c, s, run), s.now + c.window, 1)
  {
    ServeOneMore(c, s, 0, 0, s.now);
    run := OneRequest(c, s, [], 0);
  }

  /** One request opens a life, and MAX - 1 more hit it in its last millisecond. */
  lemma FirstLife(c: Config, s: State) returns (run: seq<Action>)
    requires Init(s) && c.max > 0 && c.window > 0 && |s.requests| >= c.max
    ensures Legal(c, s, run)
    ensures
      var t, from := After(c, s, run), s.now + c.window - 1;
      && Served(c, t, c.max, 1, from) && t.now == from && |t.requests| == |s.requests|
      && Counting(t, from + 1, c.max)
  {
    hide Served, Serve;
    var from := s.now + c.window - 1;
    var run0 := FirstRequest(c, s);
    OneMore(c, s, run0, Wait(c.window - 1));
    WaitKeepsServed(c, After(c, s, run0), c.window - 1, 1, 0, 1, s.now, from);
    run := Burst(c, s, run0 + [Wait(c.window - 1)], 1, c.max - 1, 1, from, s.now + c.window, 1);
  }

  /** The next millisecond starts a new life, and MAX requests hit it at once. */
  lemma SecondLife(c: Config, s: State, run: seq<Action>, from: int) returns (run': seq<Action>)
    requires Legal(c, s, run) && c.max > 0 && c.window > 0
    requires
      var t := After(c, s, run);
      && Served(c, t, c.max, 1, from) && t.now == from && |t.requests| >= 2 * c.max
      && Counting(t, from + 1, c.max)
    ensures Legal(c, s, run')
    ensures Served(c, After(c, s, run'), 2 * c.max, 1, from) && After(c, s, run').now == from + 1
  {
    var t := After(c, s, run);
    OneMore(c, s, run, Wait(1));
    WaitKeepsServed(c, t, 1, c.max, 1, 1, from, from);
    var run1 := run + [Wait(1)];
    ServeOneMore(c, After(c, s, run1), c.max, 1, from);
    var run2 := OneRequest(c, s, run1, c.max);
    run' := Burst(c, s, run2, c.max + 1, c.max - 1, 1, from, from + 1 + c.window, 1);
  }

  /** One request at time 0, MAX - 1 more just before its window ends, MAX as soon as it has: 2 MAX - 1 of
      them lie in one window and all are admitted. (The window is longer than one tick of the clock.) */
  lemma BoundIsAttained(c: Config, s: State) returns (run: seq<Action>)
    requires Init(s) && c.max > 0 && c.window > 1 && |s.requests| >= 2 * c.max
    ensures Legal(c, s, run)
    ensures |AdmittedIn(c, After(c, s, run), s.now + c.window - 1)| == 2 * c.max - 1
  {
    var run1 := FirstLife(c, s);
    run := SecondLife(c, s, run1, s.now + c.window - 1);
    CountServed(c, s, run, s.now + c.window - 1);
  }

  lemma CountServed(c: Config, s: State, run: seq<Action>, from: int)
    requires Init(s) && Legal(c, s, run) && c.max > 0
    requires Served(c, After(c, s, run), 2 * c.max, 1, from) && After(c, s, run).now < from + c.window
    ensures |AdmittedIn(c, After(c, s, run), from)| == 2 * c.max - 1
  {
    var t := After(c, s, run);
    var rs := AdmittedIn(c, t, from);
    InvAlways(c, s, run);
    RangeIs(1, 2 * c.max);
    forall q | q in Range(1, 2 * c.max) ensures q in rs {
      assert ServedOne(c, t, q, from);
    }
    assert rs == Range(1, 2 * c.max) + (rs - Range(1, 2 * c.max));
    WindowBound(c, s, run, from);
  }

  function Range(lo: int, hi: int): set<int>
    decreases hi - lo
  {
    if lo >= hi then {} else Range(lo, hi - 1) + {hi - 1}
  }

  lemma {:induction false} RangeIs(lo: int, hi: int)
    requires lo <= hi
    ensures |Range(lo, hi)| == hi - lo
    ensures forall q {:trigger q in Range(lo, hi)} :: q in Range(lo, hi) <==> lo <= q < hi
    decreases hi - lo
  {
    if lo < hi {
      RangeIs(lo, hi - 1);
    }
  }
}
