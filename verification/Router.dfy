/** The power-of-two-choices router: the xorshift64 generator, the effective weight of a candidate, and how
    often each server is chosen. */
module Router {
  import opened Wrappers
  import Scoreboard

  // ----- xorshift64, on the bits of the word, least significant first -----

  type Word = w: seq<bool> | |w| == 64 witness seq(64, i => false)

  function Xor(a: Word, b: Word): Word {
    seq(64, i requires 0 <= i < 64 => a[i] != b[i])
  }

  function Shl(a: Word, k: nat): Word {
    seq(64, i requires 0 <= i < 64 => if i >= k then a[i - k] else false)
  }

  function Shr(a: Word, k: nat): Word {
    seq(64, i requires 0 <= i < 64 => if i + k < 64 then a[i + k] else false)
  }

  function XorShift(s: Word): Word {
    var s1 := Xor(s, Shl(s, 13));
    var s2 := Xor(s1, Shr(s1, 7));
    Xor(s2, Shl(s2, 17))
  }

  /** The number that bits denote, least significant first. */
  function ValueOf(bits: seq<bool>): nat {
    if bits == [] then 0 else (if bits[0] then 1 else 0) + 2 * ValueOf(bits[1..])
  }

  predicate IsZero(w: Word) {
    forall i :: 0 <= i < 64 ==> !w[i]
  }

  lemma {:induction false} LeftStepBit(s: Word, t: Word, k: nat, i: nat)
    requires k > 0 && i < 64 && Xor(s, Shl(s, k)) == Xor(t, Shl(t, k))
    ensures s[i] == t[i]
    decreases i
  {
    assert Xor(s, Shl(s, k))[i] == Xor(t, Shl(t, k))[i];
    if i >= k {
      LeftStepBit(s, t, k, i - k);
    }
  }

  lemma {:induction false} RightStepBit(s: Word, t: Word, k: nat, i: nat)
    requires k > 0 && i < 64 && Xor(s, Shr(s, k)) == Xor(t, Shr(t, k))
    ensures s[i] == t[i]
    decreases 64 - i
  {
    assert Xor(s, Shr(s, k))[i] == Xor(t, Shr(t, k))[i];
    if i + k < 64 {
      RightStepBit(s, t, k, i + k);
    }
  }

  lemma LeftStepInjective(s: Word, t: Word, k: nat)
    requires k > 0 && Xor(s, Shl(s, k)) == Xor(t, Shl(t, k))
    ensures s == t
  {
    forall i | 0 <= i < 64 ensures s[i] == t[i] {
      LeftStepBit(s, t, k, i);
    }
  }

  lemma RightStepInjective(s: Word, t: Word, k: nat)
    requires k > 0 && Xor(s, Shr(s, k)) == Xor(t, Shr(t, k))
    ensures s == t
  {
    forall i | 0 <= i < 64 ensures s[i] == t[i] {
      RightStepBit(s, t, k, i);
    }
  }

  /** No two states have the same successor: the generator is a permutation of the 64-bit words. */
  lemma XorShiftInjective(s: Word, t: Word)
    requires XorShift(s) == XorShift(t)
    ensures s == t
  {
    var s1, t1 := Xor(s, Shl(s, 13)), Xor(t, Shl(t, 13));
    LeftStepInjective(Xor(s1, Shr(s1, 7)), Xor(t1, Shr(t1, 7)), 17);
    RightStepInjective(s1, t1, 7);
    LeftStepInjective(s, t, 13);
  }

  /** Zero is a fixed point, so nothing else ever reaches it. */
  lemma XorShiftNeverZero(s: Word)
    ensures IsZero(XorShift(s)) <==> IsZero(s)
  {
    var zero: Word := seq(64, i => false);
    assert Xor(zero, Shl(zero, 13)) == zero;
    assert Xor(zero, Shr(zero, 7)) == zero;
    assert Xor(zero, Shl(zero, 17)) == zero;
    if IsZero(s) {
      assert s == zero;
    }
    if IsZero(XorShift(s)) {
      assert XorShift(s) == zero;
      XorShiftInjective(s, zero);
    }
  }

  // ----- effective weight -----

  datatype Signals = Signals(backlog: nat, fiveXx: nat, inFlight: nat)
  datatype Thresholds = Thresholds(maxBacklog: nat, maxFiveXx: nat, maxInFlight: nat)

  /** The scoreboard weight, or an equal share when the score is missing or stale. */
  function BaseWeight(n: nat, score: Option<Scoreboard.Score>, now: int, ttl: int): real
    requires n > 0
  {
    if score.Some? && now - score.value.updatedAt < ttl then score.value.weight else 1.0 / n as real
  }

  /** How many of the three fast safety thresholds the server exceeds. */
  function Violations(t: Thresholds, sig: Option<Signals>): (v: nat)
    ensures v <= 3
    ensures v == 0 <==> sig.None? || (sig.value.backlog <= t.maxBacklog && sig.value.fiveXx <= t.maxFiveXx &&
                                      sig.value.inFlight <= t.maxInFlight)
  {
    match sig
    case None => 0
    case Some(s) =>
      (if s.backlog > t.maxBacklog then 1 else 0) + (if s.fiveXx > t.maxFiveXx then 1 else 0) +
      (if s.inFlight > t.maxInFlight then 1 else 0)
  }

  function Penalty(violations: nat): real {
    if violations == 0 then 1.0 else 0.1 * Penalty(violations - 1)
  }

  function EffectiveWeight(n: nat, t: Thresholds, score: Option<Scoreboard.Score>, sig: Option<Signals>, now: int,
                           ttl: int): real
    requires n > 0
  {
    BaseWeight(n, score, now, ttl) * Penalty(Violations(t, sig))
  }

  function WeightOf(n: nat, t: Thresholds, ttl: int, server: nat, snapshot: Scoreboard.Board,
                    signals: map<nat, Signals>, now: int): real
    requires n > 0
  {
    EffectiveWeight(n, t, if server in snapshot then Some(snapshot[server]) else None,
                    if server in signals then Some(signals[server]) else None, now, ttl)
  }

  function EffectiveWeights(servers: seq<nat>, t: Thresholds, ttl: int, snapshot: Scoreboard.Board,
                            signals: map<nat, Signals>, now: int): seq<real>
  {
    seq(|servers|, i requires 0 <= i < |servers| =>
      WeightOf(|servers|, t, ttl, servers[i], snapshot, signals, now))
  }

  /** One tenth for each threshold that is exceeded, and nothing for a server without signals. */
  lemma EachViolationIsATenth(n: nat, t: Thresholds, score: Option<Scoreboard.Score>, sig: Option<Signals>, now: int,
                              ttl: int)
    requires n > 0
    ensures EffectiveWeight(n, t, score, sig, now, ttl) ==
            match sig
            case None => BaseWeight(n, score, now, ttl)
            case Some(s) =>
              BaseWeight(n, score, now, ttl) * ((if s.backlog > t.maxBacklog then 0.1 else 1.0) *
                ((if s.fiveXx > t.maxFiveXx then 0.1 else 1.0) * (if s.inFlight > t.maxInFlight then 0.1 else 1.0)))
  {
    assert Penalty(0) == 1.0 && Penalty(1) == 0.1 && Penalty(2) == 0.01;
    assert Penalty(3) == 0.1 * Penalty(2) == 0.001;
    hide Penalty;
  }

  lemma {:induction false} PenaltyBounds(v: nat)
    ensures 0.0 < Penalty(v) <= 1.0 && (Penalty(v) == 1.0 <==> v == 0)
  {
    if v > 0 {
      PenaltyBounds(v - 1);
    }
  }

  lemma {:induction false} PenaltyDecreases(v: nat, w: nat)
    requires v < w
    ensures Penalty(w) <= 0.1 * Penalty(v)
  {
    PenaltyBounds(w - 1);
    if v < w - 1 {
      PenaltyDecreases(v, w - 1);
    }
  }

  /** The override keeps the weight within [0, base], touches it exactly when a threshold is exceeded, and
      makes a server with more violations ten times lighter at equal base. */
  lemma OverrideOnlyLowers(n: nat, t: Thresholds, score: Option<Scoreboard.Score>, a: Option<Signals>,
                           b: Option<Signals>,
                           now: int, ttl: int)
    requires n > 0 && BaseWeight(n, score, now, ttl) > 0.0
    ensures 0.0 < EffectiveWeight(n, t, score, a, now, ttl) <= BaseWeight(n, score, now, ttl)
    ensures EffectiveWeight(n, t, score, a, now, ttl) == BaseWeight(n, score, now, ttl) <==> Violations(t, a) == 0
    ensures Violations(t, a) < Violations(t, b) ==>
              EffectiveWeight(n, t, score, b, now, ttl) <= 0.1 * EffectiveWeight(n, t, score, a, now, ttl)
  {
    var base := BaseWeight(n, score, now, ttl);
    var p := Penalty(Violations(t, a));
    PenaltyBounds(Violations(t, a));
    ProductBounds(base, p);
    if Violations(t, a) < Violations(t, b) {
      var q := Penalty(Violations(t, b));
      PenaltyDecreases(Violations(t, a), Violations(t, b));
      assert q <= 0.1 * p;
      assert base * q <= base * (0.1 * p) == 0.1 * (base * p);
    }
  }

  lemma ProductBounds(base: real, p: real)
    requires base > 0.0 && 0.0 < p <= 1.0
    ensures 0.0 < base * p <= base && (base * p == base <==> p == 1.0)
  {
    assert base * (1.0 - p) == base - base * p;
    if p < 1.0 {
      assert base * (1.0 - p) > 0.0;
    }
  }

  // ----- two choices -----

  /** The second candidate: a collision with the first moves on to the next server. */
  function Second(n: nat, i: nat, j: nat): (k: nat)
    requires n > 0 && i < n && j < n
    ensures k < n && (n >= 2 ==> k != i)
  {
    if j == i then (j + 1) % n else j
  }

  function Chosen(ew: seq<real>, i: nat, j: nat): nat
    requires i < |ew| && j < |ew|
  {
    var k := Second(|ew|, i, j);
    if ew[i] >= ew[k] then i else k
  }

  class Router {
    var servers: seq<nat>
    var rngState: Word
    const thresholds: Thresholds
    const ttl: int

    constructor (servers: seq<nat>, thresholds: Thresholds, ttl: int, seed: Word)
      ensures this.servers == servers && this.thresholds == thresholds && this.ttl == ttl
      ensures rngState == seed[0 := true] && !IsZero(rngState)
    {
      this.servers, this.thresholds, this.ttl := servers, thresholds, ttl;
      this.rngState := seed[0 := true];
      assert seed[0 := true][0];
    }

    method FastRandomIndex(n: nat) returns (index: nat)
      requires n > 0 && !IsZero(rngState)
      modifies this`rngState
      ensures rngState == XorShift(old(rngState)) && !IsZero(rngState)
      ensures index == ValueOf(rngState) % n < n
    {
      XorShiftNeverZero(rngState);
      var s := rngState;
      s := Xor(s, Shl(s, 13));
      s := Xor(s, Shr(s, 7));
      s := Xor(s, Shl(s, 17));
      rngState := s;
      index := ValueOf(s) % n;
    }

    /** The weights the candidates are compared by, in list order. */
    function Weights(snapshot: Scoreboard.Board, signals: map<nat, Signals>, now: int): seq<real>
      requires servers != []
      reads this
    {
      EffectiveWeights(servers, thresholds, ttl, snapshot, signals, now)
    }

    method ChooseServer(snapshot: Scoreboard.Board, signals: map<nat, Signals>, now: int)
      returns (choice: Option<nat>)
      requires !IsZero(rngState)
      modifies this`rngState
      ensures !IsZero(rngState)
      ensures servers == [] ==> choice == None
      ensures |servers| == 1 ==> choice == Some(servers[0])
      ensures |servers| >= 2 ==>
        var n := |servers|;
        var r1 := XorShift(old(rngState));
        var r2 := XorShift(r1);
        && rngState == r2
        && choice == Some(servers[Chosen(Weights(snapshot, signals, now), ValueOf(r1) % n, ValueOf(r2) % n)])
    {
      hide XorShift, ValueOf, IsZero, EffectiveWeight;
      var n := |servers|;
      if n == 0 {
        return None;
      }
      if n == 1 {
        return Some(servers[0]);
      }
      var i := FastRandomIndex(n);
      var j := FastRandomIndex(n);
      if j == i {
        j := (j + 1) % n;
      }
      var a, b := servers[i], servers[j];
      var ewA := WeightOf(n, thresholds, ttl, a, snapshot, signals, now);
      var ewB := WeightOf(n, thresholds, ttl, b, snapshot, signals, now);
      return Some(if ewA >= ewB then a else b);
    }
  }

  // ----- how often a server is chosen -----

  ghost function Lighter(ew: seq<real>, x: nat): set<nat>
    requires x < |ew|
  {
    set k: nat | k < |ew| && ew[k] < ew[x]
  }

  /** The raw index pairs, of the `n * n` the generator can produce, for which server `x` is chosen. */
  ghost function PairsChoosing(ew: seq<real>, x: nat): set<(nat, nat)>
    requires x < |ew|
  {
    set i: nat, j: nat | i < |ew| && j < |ew| && Chosen(ew, i, j) == x :: (i, j)
  }

  ghost function OneIf(b: bool, p: (nat, nat)): set<(nat, nat)> {
    if b then {p} else {}
  }

  ghost function FirstIs(x: nat, s: set<nat>): set<(nat, nat)> {
    set j | j in s :: (x, j)
  }

  ghost function SecondIs(x: nat, s: set<nat>): set<(nat, nat)> {
    set i | i in s :: (i, x)
  }

  lemma {:induction false} RowCount(s: set<nat>, x: nat)
    ensures |FirstIs(x, s)| == |s|
    ensures |SecondIs(x, s)| == |s|
  {
    if s == {} {
      assert FirstIs(x, s) == {};
      assert SecondIs(x, s) == {};
    } else {
      var k :| k in s;
      RowCount(s - {k}, x);
      assert FirstIs(x, s) == FirstIs(x, s - {k}) + {(x, k)};
      assert SecondIs(x, s) == SecondIs(x, s - {k}) + {(k, x)};
    }
  }

  ghost predicate Distinct(ew: seq<real>) {
    forall i, j :: 0 <= i < j < |ew| ==> ew[i] != ew[j]
  }

  function Pred(n: nat, x: nat): nat
    requires x < n
  {
    if x == 0 then n - 1 else x - 1
  }

  /** The pairs that choose `x`: first or second candidate against a lighter one, or a collision on `x` or
      just before it resolved in its favour. */
  ghost function FavourablePairs(ew: seq<real>, x: nat): set<(nat, nat)>
    requires |ew| >= 2 && x < |ew|
  {
    var p := Pred(|ew|, x);
    FirstIs(x, Lighter(ew, x)) + SecondIs(x, Lighter(ew, x)) +
    OneIf(ew[(x + 1) % |ew|] < ew[x], (x, x)) + OneIf(ew[p] < ew[x], (p, p))
  }

  lemma PairsAreFavourable(ew: seq<real>, x: nat)
    requires |ew| >= 2 && x < |ew| && Distinct(ew)
    ensures PairsChoosing(ew, x) == FavourablePairs(ew, x)
  {
    forall i: nat, j: nat | i < |ew| && j < |ew|
      ensures (i, j) in PairsChoosing(ew, x) <==> (i, j) in FavourablePairs(ew, x)
    {
      ChosenWhen(ew, x, i, j);
    }
  }

  /** With pairwise distinct weights, a server with `k` lighter ones is chosen by exactly `2 k` pairs, plus
      one if the next server in the list is lighter, plus one if the previous one is. */
  lemma PairCount(ew: seq<real>, x: nat)
    requires |ew| >= 2 && x < |ew| && Distinct(ew)
    ensures |PairsChoosing(ew, x)| ==
            2 * |Lighter(ew, x)| + (if ew[(x + 1) % |ew|] < ew[x] then 1 else 0)
                                 + (if ew[Pred(|ew|, x)] < ew[x] then 1 else 0)
  {
    PairsAreFavourable(ew, x);
    DisjointCount(Lighter(ew, x), x, Pred(|ew|, x), ew[(x + 1) % |ew|] < ew[x], ew[Pred(|ew|, x)] < ew[x]);
  }

  lemma DisjointCount(s: set<nat>, x: nat, p: nat, here: bool, before: bool)
    requires x !in s && p != x
    ensures |FirstIs(x, s) + SecondIs(x, s) + OneIf(here, (x, x)) + OneIf(before, (p, p))| ==
            2 * |s| + (if here then 1 else 0) + (if before then 1 else 0)
  {
    RowCount(s, x);
    var a, b := FirstIs(x, s), SecondIs(x, s);
    assert a !! b;
    assert |a + b| == 2 * |s|;
    assert (x, x) !in a + b;
    assert (p, p) !in a + b + OneIf(here, (x, x));
  }

  lemma ChosenWhen(ew: seq<real>, x: nat, i: nat, j: nat)
    requires |ew| >= 2 && x < |ew| && i < |ew| && j < |ew| && Distinct(ew)
    ensures Chosen(ew, i, j) == x <==>
              || (i == x && j != x && ew[j] < ew[x])
              || (j == x && i != x && ew[i] < ew[x])
              || (i == x && j == x && ew[(x + 1) % |ew|] < ew[x])
              || (i == Pred(|ew|, x) && j == i && ew[i] < ew[x])
  {
    NextInList(|ew|, i);
    NextInList(|ew|, x);
    if i != j {
      assert Chosen(ew, i, j) == if ew[i] >= ew[j] then i else j;
    } else {
      var k := if i + 1 == |ew| then 0 else i + 1;
      assert Chosen(ew, i, j) == if ew[i] >= ew[k] then i else k;
      assert i == Pred(|ew|, x) <==> k == x;
    }
  }

  lemma NextInList(n: nat, i: nat)
    requires i < n
    ensures (i + 1) % n == if i + 1 == n then 0 else i + 1
  {
  }

  /** So it lies between 2k and 2k + 2. */
  lemma ChoiceBounds(ew: seq<real>, x: nat)
    requires |ew| >= 2 && x < |ew| && Distinct(ew)
    ensures 2 * |Lighter(ew, x)| <= |PairsChoosing(ew, x)| <= 2 * |Lighter(ew, x)| + 2
  {
    PairCount(ew, x);
  }

  /** A server strictly lighter than every other is never chosen, whatever the other weights. */
  lemma LightestNeverChosen(ew: seq<real>, x: nat)
    requires |ew| >= 2 && x < |ew| && forall k :: 0 <= k < |ew| && k != x ==> ew[x] < ew[k]
    ensures PairsChoosing(ew, x) == {}
  {
  }
}
