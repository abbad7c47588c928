/** The latency average: an integer 0.9/0.1 EMA in one 64-bit cell, updated by a compare-exchange loop from
    many threads, with 0 standing for "no sample yet". */
module LatencyEma {
  const U64_MAX: nat := 0xFFFF_FFFF_FFFF_FFFF

  function SaturatingMul9(x: nat): nat {
    if 9 * x > U64_MAX then U64_MAX else 9 * x
  }

  /** The value one update tries to write over `cur`. */
  function EmaNext(cur: nat, sample: nat): nat {
    if cur == 0 then sample else SaturatingMul9(cur) / 10 + sample / 10
  }

  lemma EmaStaysInRange(cur: nat, sample: nat)
    requires cur <= U64_MAX && sample <= U64_MAX
    ensures EmaNext(cur, sample) <= U64_MAX
  {
  }

  /** One thread's update against a history of interference: each failed exchange, lost or spurious, hands back the
      value that was there, and the last one succeeds. */
  method UpdateLatencyEma(initial: nat, interference: seq<nat>, sample: nat) returns (written: nat)
    ensures written == EmaNext(if interference == [] then initial else interference[|interference| - 1], sample)
  {
    var cur := initial;
    var failures := 0;
    while true
      invariant failures <= |interference|
      invariant cur == if failures == 0 then initial else interference[failures - 1]
      decreases |interference| - failures
    {
      var next := if cur == 0 then sample else SaturatingMul9(cur) / 10 + sample / 10;
      if failures == |interference| {
        return next;
      }
      cur := interference[failures];
      failures := failures + 1;
    }
  }

  // ----- many threads -----

  datatype Phase = Start | Holding(cur: nat) | Finished
  datatype Thread = Thread(sample: nat, phase: Phase)

  /** `order` lists the threads in the order their exchange succeeded. */
  datatype State = State(cell: nat, threads: seq<Thread>, order: seq<nat>)

  /** A weak exchange may fail although the cell holds the expected value. */
  datatype Action = Load(id: nat) | Exchange(id: nat, spurious: bool)

  predicate Enabled(s: State, a: Action) {
    && a.id < |s.threads|
    && match a
       case Load(i) => s.threads[i].phase.Start?
       case Exchange(i, _) => s.threads[i].phase.Holding?
  }

  function SetPhase(s: State, i: nat, phase: Phase): State
    requires i < |s.threads|
  {
    s.(threads := s.threads[i := s.threads[i].(phase := phase)])
  }

  function Next(s: State, a: Action): State
    requires Enabled(s, a)
  {
    match a
    case Load(i) => SetPhase(s, i, Holding(s.cell))
    case Exchange(i, spurious) =>
      var t := s.threads[i];
      if !spurious && s.cell == t.phase.cur then
        SetPhase(s, i, Finished).(cell := EmaNext(t.phase.cur, t.sample), order := s.order + [i])
      else SetPhase(s, i, Holding(s.cell))
  }

  predicate Legal(s: State, run: seq<Action>)
    decreases |run|, 0
  {
    run == [] || (var n := |run| - 1; Legal(s, run[..n]) && Enabled(After(s, run[..n]), run[n]))
  }

  function After(s: State, run: seq<Action>): State
    requires Legal(s, run)
    decreases |run|, 1
  {
    if run == [] then s else Next(After(s, run[..|run| - 1]), run[|run| - 1])
  }

  ghost predicate Init(s: State) {
    s.order == [] && forall i :: 0 <= i < |s.threads| ==> s.threads[i].phase == Start
  }

  function Fold(start: nat, samples: seq<nat>): nat {
    if samples == [] then start else EmaNext(Fold(start, samples[..|samples| - 1]), samples[|samples| - 1])
  }

  function SamplesOf(threads: seq<Thread>, order: seq<nat>): seq<nat>
    requires forall k :: 0 <= k < |order| ==> order[k] < |threads|
  {
    seq(|order|, k requires 0 <= k < |order| => threads[order[k]].sample)
  }

  /** `order` lists exactly the finished threads, each once. */
  ghost predicate OrderOk(threads: seq<Thread>, order: seq<nat>) {
    && (forall k {:trigger order[k]} :: 0 <= k < |order| ==> order[k] < |threads|)
    && (forall k, l {:trigger order[k], order[l]} :: 0 <= k < l < |order| ==> order[k] != order[l])
    && (forall i: nat {:trigger i in order} :: i < |threads| ==> (threads[i].phase.Finished? <==> i in order))
  }

  ghost predicate SameSamples(a: seq<Thread>, b: seq<Thread>) {
    |a| == |b| && forall i {:trigger b[i]} :: 0 <= i < |a| ==> a[i].sample == b[i].sample
  }

  lemma StepKeepsOrder(t: State, a: Action)
    requires Enabled(t, a) && OrderOk(t.threads, t.order)
    ensures OrderOk(Next(t, a).threads, Next(t, a).order)
    ensures SameSamples(t.threads, Next(t, a).threads)
  {
    var order' := Next(t, a).order;
    if order' != t.order {
      assert forall i: nat {:trigger i in order'} :: i in order' <==> i in t.order || i == a.id;
      assert a.id !in t.order;
    }
  }

  /** Whatever the interleaving of loads, lost exchanges and spurious failures, the cell is the fold of the
      samples in the order of the successful exchanges, each finished thread's sample taken exactly once. */
  lemma {:induction false} CellIsFold(s: State, run: seq<Action>)
    requires Init(s) && Legal(s, run)
    ensures SameSamples(s.threads, After(s, run).threads)
    ensures OrderOk(After(s, run).threads, After(s, run).order)
    ensures After(s, run).cell == Fold(s.cell, SamplesOf(s.threads, After(s, run).order))
    decreases |run|
  {
    hide EmaNext;
    if run == [] {
      assert SamplesOf(s.threads, []) == [];
    } else {
      var n := |run| - 1;
      CellIsFold(s, run[..n]);
      var t := After(s, run[..n]);
      StepKeepsOrder(t, run[n]);
      var t' := Next(t, run[n]);
      if t'.order != t.order {
        var samples := SamplesOf(s.threads, t'.order);
        assert samples[..|samples| - 1] == SamplesOf(s.threads, t.order);
      }
    }
  }

  // ----- how far the integer average is from the exact one -----

  function Exact(samples: seq<nat>): real
    requires samples != []
  {
    if |samples| == 1 then samples[0] as real
    else 0.9 * Exact(samples[..|samples| - 1]) + 0.1 * samples[|samples| - 1] as real
  }

  predicate Reasonable(sample: nat) {
    10 <= sample <= U64_MAX / 9
  }

  /** One division by ten loses less than one. */
  lemma DivTen(x: nat)
    ensures x as real / 10.0 - 0.9 <= (x / 10) as real <= x as real / 10.0
  {
    assert x == 10 * (x / 10) + x % 10;
  }

  /** From no sample yet, if every sample is at least 10 ns and at most u64::MAX / 9, the integer never
      exceeds the exact average and is less than 18 ns below it, for runs of any length. */
  lemma {:induction false} EmaTracksExact(samples: seq<nat>)
    requires samples != [] && forall i :: 0 <= i < |samples| ==> Reasonable(samples[i])
    ensures Exact(samples) - 18.0 < Fold(0, samples) as real <= Exact(samples)
    ensures 1 <= Fold(0, samples) <= U64_MAX / 9
  {
    var n := |samples| - 1;
    var last := samples[n];
    assert Reasonable(last);
    if n == 0 {
      assert samples[..0] == [];
    } else {
      EmaTracksExact(samples[..n]);
      var cur := Fold(0, samples[..n]);
      assert SaturatingMul9(cur) == 9 * cur;
      DivTen(9 * cur);
      DivTen(last);
    }
  }

  /** The sentinel can come back: an average of 1 and a sample below 10 give 0, and only they do; the next
      sample then replaces the whole history. */
  lemma SentinelReturns(cur: nat, sample: nat)
    requires cur > 0
    ensures EmaNext(cur, sample) == 0 <==> cur == 1 && sample < 10
    ensures forall next :: EmaNext(cur, sample) == 0 ==> EmaNext(EmaNext(cur, sample), next) == next
  {
  }
}
