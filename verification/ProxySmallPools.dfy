/** Ten backends are also necessary for never re-weighting: every smaller pool of at least two can be brought to
    different weights, by enough bad polls followed by one in which a backend has recovered. */
module ProxySmallPools {
  import opened Sums
  import opened Scoreboard
  import opened ScoreboardFloor
  import opened ScoreboardDominance
  import opened ScoreboardDomains
  import opened ScoreboardPositive
  import opened ScoreboardResponse
  import opened ScoreboardSaturation
  import opened ProxySync

  /** Against a target of 1 ns: an average of 99 ns with nothing but errors, and a perfect backend. */
  const BAD := Observed(1, 99, 1.0)
  const GOOD := Observed(1, 0, 0.0)

  function AllBad(ids: set<nat>): Registry {
    map sid | sid in ids :: BAD
  }

  function FirstGood(ids: set<nat>): Registry {
    map sid | sid in ids :: if sid == 0 then GOOD else BAD
  }

  lemma BadAndGoodPredictions(f: Maths)
    ensures EffectiveRisk(DEFAULT_CONFIG, f, PredictionOf(1, BAD)) == 0.99 && ErrorOf(PredictionOf(1, BAD)) == 1.0
    ensures EffectiveRisk(DEFAULT_CONFIG, f, PredictionOf(1, GOOD)) == 0.0 && ErrorOf(PredictionOf(1, GOOD)) == 0.0
  {
    RiskIsShare(1, 99);
    RiskIsShare(1, 0);
    EffectiveRiskIsMean(f, PredictionOf(1, BAD));
    EffectiveRiskIsMean(f, PredictionOf(1, GOOD));
  }

  // ----- bad polls -----

  /** All backends have this weight and this health, in one domain. */
  ghost predicate Alike(board: Board, w: real, h: real) {
    && OneDomain(board)
    && forall sid {:trigger board[sid]} :: sid in board ==> board[sid].weight == w && board[sid].health == h
  }

  function NextBad(h: real): real {
    Blend(0.1, 1.0, h)
  }

  lemma BadRaw(f: Maths, board: Board, now: int, w: real, h: real, sid: nat)
    requires MathsOk(f) && Alike(board, w, h) && w > 0.0 && sid in board
    ensures
      var v := ShiftedWeight(DEFAULT_CONFIG, 0.3, RawWeight(f, 0.99, NextBad(h)), w);
      var score := RawBoard(DEFAULT_CONFIG, f, board, Predictions(1, AllBad(board.Keys)), 0.0, now)[sid];
      v > 0.0 && score.weight == v && score.health == NextBad(h)
  {
    hide EffectiveRisk, ErrorOf, ShiftedWeight, RawWeight, Blend, MathsOk;
    BadAndGoodPredictions(f);
    assert Alpha(DEFAULT_CONFIG, 0.0) == 0.3;
    assert Predictions(1, AllBad(board.Keys))[sid] == PredictionOf(1, BAD);
    RawWeightAntitone(f, 0.99, 0.99, NextBad(h), NextBad(h));
    ShiftedWithin(DEFAULT_CONFIG, 0.3, RawWeight(f, 0.99, NextBad(h)), w);
  }

  lemma BadPollKeepsAlike(f: Maths, board: Board, now: int, n: nat, h: real)
    requires MathsOk(f) && |board.Keys| == n > 0 && Alike(board, 1.0 / n as real, h)
    ensures
      var after := Updated(DEFAULT_CONFIG, f, board, Predictions(1, AllBad(board.Keys)), 0.0, now);
      after.Keys == board.Keys && Alike(after, 1.0 / n as real, NextBad(h))
  {
    hide ShiftedWeight, RawWeight, NextBad, MathsOk, RawBoard, Updated, OneDomain;
    var w, preds := 1.0 / n as real, Predictions(1, AllBad(board.Keys));
    var raw := RawBoard(DEFAULT_CONFIG, f, board, preds, 0.0, now);
    OneNthPositive(n);
    RawOneDomain(DEFAULT_CONFIG, f, board, preds, 0.0, now);
    var v := ShiftedWeight(DEFAULT_CONFIG, 0.3, RawWeight(f, 0.99, NextBad(h)), w);
    forall sid {:trigger raw[sid]} | sid in raw ensures raw[sid].weight == v && raw[sid].health == NextBad(h) {
      BadRaw(f, board, now, w, h, sid);
    }
    var some :| some in board.Keys;
    BadRaw(f, board, now, w, h, some);
    UniformRawUpdates(DEFAULT_CONFIG, f, board, preds, 0.0, now, n, v);
    HealthFromRaw(DEFAULT_CONFIG, f, board, preds, 0.0, now);
  }

  function BadPolls(ids: set<nat>, now: int, k: nat): seq<Poll> {
    if k == 0 then [] else BadPolls(ids, now, k - 1) + [Poll(AllBad(ids), now)]
  }

  lemma OneMorePoll(f: Maths, board: Board, polls: seq<Poll>, p: Poll, slo: nat)
    ensures AfterUpdates(DEFAULT_CONFIG, f, board, UpdatesOf(slo, polls + [p])) ==
            Updated(DEFAULT_CONFIG, f, AfterUpdates(DEFAULT_CONFIG, f, board, UpdatesOf(slo, polls)),
                    Predictions(slo, p.registry), 0.0, p.now)
  {
    hide Updated, Predictions;
    var us := UpdatesOf(slo, polls + [p]);
    assert us[..|us| - 1] == UpdatesOf(slo, polls);
  }

  /** What is missing to the worst health shrinks by a tenth each time, so at least as fast as 9 / (9 + k). */
  lemma GapShrinks(h: real, k: real)
    requires 0.0 <= h <= 1.0 && k >= 0.0 && (1.0 - h) * (9.0 + k) <= 9.0
    ensures 0.0 <= NextBad(h) <= 1.0 && (1.0 - NextBad(h)) * (10.0 + k) <= 9.0
  {
    var g := 1.0 - h;
    assert 1.0 - NextBad(h) == 0.9 * g;
    assert 0.9 * g * (10.0 + k) == 0.9 * (g * (9.0 + k)) + 0.9 * g;
  }

  lemma {:induction false} ManyBadPolls(f: Maths, n: nat, start: int, k: nat) returns (h: real)
    requires MathsOk(f) && n > 0
    ensures
      var first := Initial(BackendsOf(n), start);
      var board := AfterUpdates(DEFAULT_CONFIG, f, first, UpdatesOf(1, BadPolls(first.Keys, start, k)));
      board.Keys == first.Keys && |board.Keys| == n && Alike(board, 1.0 / n as real, h)
    ensures 0.0 <= h <= 1.0 && (1.0 - h) * (9.0 + k as real) <= 9.0
  {
    hide MathsOk, Initial, Alike, Updated, NextBad;
    FirstBoard(n, start);
    var first := Initial(BackendsOf(n), start);
    if k == 0 {
      h := 0.0;
      FirstIsAlike(n, start);
    } else {
      var before := ManyBadPolls(f, n, start, k - 1);
      var polls := BadPolls(first.Keys, start, k - 1);
      var board := AfterUpdates(DEFAULT_CONFIG, f, first, UpdatesOf(1, polls));
      OneMorePoll(f, first, polls, Poll(AllBad(first.Keys), start), 1);
      BadPollKeepsAlike(f, board, start, n, before);
      GapShrinks(before, (k - 1) as real);
      h := NextBad(before);
    }
  }

  lemma FirstIsAlike(n: nat, start: int)
    requires n > 0
    ensures Alike(Initial(BackendsOf(n), start), 1.0 / n as real, 0.0)
  {
    FirstBoard(n, start);
  }

  // ----- the recovery -----

  lemma RawOfBad(f: Maths, h: real)
    requires MathsOk(f) && 0.99 <= h <= 1.0
    ensures 0.0 < RawWeight(f, 0.99, NextBad(h)) <= 0.1384
  {
    assert NextBad(h) >= 0.99;
    var x, y := f.exp(-0.99), f.exp(-NextBad(h));
    assert 0.0 < y <= x <= 0.372;
    ProductMonotone(x, 0.372, y, 0.372);
    assert Times(0.372, 0.372) <= 0.1384;
  }

  lemma RawOfGood(f: Maths, h: real)
    requires MathsOk(f) && 0.0 <= h <= 1.0
    ensures RawWeight(f, 0.0, Blend(0.1, 0.0, h)) >= 0.366
  {
    var x, y := f.exp(-0.0), f.exp(-Blend(0.1, 0.0, h));
    assert x == 1.0 && y >= f.exp(-1.0) >= 0.366;
    TimesOne(y);
  }

  /** A recovered backend gets strictly more raw weight than a bad one, and a bad one keeps nine tenths. */
  lemma GoodBeatsBad(good: real, bad: real, w: real)
    requires good >= 0.366 && 0.0 < bad <= 0.1384 && 1.0 / 9.0 <= w <= 0.5
    ensures 0.9 * w <= ShiftedWeight(DEFAULT_CONFIG, 0.3, bad, w) < ShiftedWeight(DEFAULT_CONFIG, 0.3, good, w)
  {
    assert MaxDelta(DEFAULT_CONFIG, w) == 0.1 * w;
    assert Blend(0.3, bad, w) == 0.3 * bad + 0.7 * w;
    assert Blend(0.3, good, w) == 0.3 * good + 0.7 * w;
  }

  /** In a pool of one domain a strictly larger raw weight that is well above the floor stays strictly larger. */
  lemma LargerStaysLarger(raw: Board, a: nat, b: nat)
    requires OneDomain(raw) && AllPositive(raw) && a in raw && b in raw
    requires 0.1 <= raw[b].weight < raw[a].weight
    ensures
      var after := Normalised(Floored(DEFAULT_CONFIG, Capped(DEFAULT_CONFIG, raw)));
      a in after && b in after && after[b].weight < after[a].weight
  {
    hide Total, DomainScale, Normalised, Floored, AllPositive;
    assert Total(raw) > 0.0 by {
      UniformlyPositive(raw, a);
    }
    OneDomainScale(DEFAULT_CONFIG, raw, a);
    assert Capped(DEFAULT_CONFIG, raw)[a].weight == raw[a].weight * 0.4;
    LargerStaysLargerIff(DEFAULT_CONFIG, raw, a, b);
  }

  lemma UniformlyPositive(raw: Board, sid: nat)
    requires AllPositive(raw) && sid in raw
    ensures Total(raw) > 0.0
  {
    TotalPositive(raw);
  }

  lemma RecoveryRaw(f: Maths, board: Board, now: int, w: real, h: real)
    requires MathsOk(f) && Alike(board, w, h) && 0 in board && 1 in board
    ensures
      var raw := RawBoard(DEFAULT_CONFIG, f, board, Predictions(1, FirstGood(board.Keys)), 0.0, now);
      && raw[0].weight == ShiftedWeight(DEFAULT_CONFIG, 0.3, RawWeight(f, 0.0, Blend(0.1, 0.0, h)), w)
      && raw[1].weight == ShiftedWeight(DEFAULT_CONFIG, 0.3, RawWeight(f, 0.99, NextBad(h)), w)
  {
    hide EffectiveRisk, ErrorOf, ShiftedWeight, RawWeight, Blend, MathsOk;
    BadAndGoodPredictions(f);
    assert Alpha(DEFAULT_CONFIG, 0.0) == 0.3;
    var preds := Predictions(1, FirstGood(board.Keys));
    assert preds[0] == PredictionOf(1, GOOD) && preds[1] == PredictionOf(1, BAD);
  }

  lemma RecoveryReweights(f: Maths, board: Board, now: int, n: nat, h: real)
    requires MathsOk(f) && 2 <= n <= 9 && Alike(board, 1.0 / n as real, h) && 0.99 <= h <= 1.0
    requires 0 in board && 1 in board
    ensures
      var after := Updated(DEFAULT_CONFIG, f, board, Predictions(1, FirstGood(board.Keys)), 0.0, now);
      0 in after && 1 in after && after[1].weight < after[0].weight
  {
    hide MathsOk, ShiftedWeight, RawWeight, Capped, Floored, Normalised, RawBoard, OneDomain, NextBad, Blend;
    var w, preds := 1.0 / n as real, Predictions(1, FirstGood(board.Keys));
    SharesOfFew(n);
    var raw := RawBoard(DEFAULT_CONFIG, f, board, preds, 0.0, now);
    RawOneDomain(DEFAULT_CONFIG, f, board, preds, 0.0, now);
    forall sid {:trigger raw[sid]} | sid in raw ensures raw[sid].weight > 0.0 {
      RawPositive(DEFAULT_CONFIG, f, board, preds, 0.0, now, sid);
    }
    RecoveryRaw(f, board, now, w, h);
    RawOfBad(f, h);
    RawOfGood(f, h);
    GoodBeatsBad(RawWeight(f, 0.0, Blend(0.1, 0.0, h)), RawWeight(f, 0.99, NextBad(h)), w);
    LargerStaysLarger(raw, 0, 1);
  }

  lemma SharesOfFew(n: nat)
    requires 2 <= n <= 9
    ensures 1.0 / 9.0 <= 1.0 / n as real <= 0.5
  {
    InverseMonotone(n as real, 9.0);
    InverseMonotone(2.0, n as real);
  }

  // ----- exactly which pools -----

  predicate Covers(polls: seq<Poll>, ids: set<nat>) {
    forall i :: 0 <= i < |polls| ==> polls[i].registry.Keys == ids
  }

  /** Whatever is measured, every backend keeps the share 1 / n. */
  ghost predicate NeverReweighted(f: Maths, n: nat, start: int)
    requires n > 0
  {
    forall slo: nat, polls: seq<Poll> {:trigger UpdatesOf(slo, polls)} ::
      Covers(polls, Initial(BackendsOf(n), start).Keys) ==>
        Uniform(AfterUpdates(DEFAULT_CONFIG, f, Initial(BackendsOf(n), start), UpdatesOf(slo, polls)), 1.0 / n as real)
  }

  lemma {:induction false} BadPollsCover(ids: set<nat>, now: int, k: nat)
    ensures Covers(BadPolls(ids, now, k), ids)
  {
    if k > 0 {
      BadPollsCover(ids, now, k - 1);
    }
  }

  lemma SmallPoolIsReweighted(f: Maths, n: nat, start: int) returns (polls: seq<Poll>)
    requires MathsOk(f) && 2 <= n <= 9
    ensures
      var first := Initial(BackendsOf(n), start);
      var board := AfterUpdates(DEFAULT_CONFIG, f, first, UpdatesOf(1, polls));
      Covers(polls, first.Keys) && 0 in board && 1 in board && board[1].weight < board[0].weight
  {
    hide MathsOk, Initial, Alike, Updated;
    FirstBoard(n, start);
    var ids := Initial(BackendsOf(n), start).Keys;
    var h := ManyBadPolls(f, n, start, 891);
    var bad := BadPolls(ids, start, 891);
    BadPollsCover(ids, start, 891);
    var recovery := Poll(FirstGood(ids), start);
    polls := bad + [recovery];
    OneMorePoll(f, Initial(BackendsOf(n), start), bad, recovery, 1);
    assert 0 in ids && 1 in ids;
    var board := AfterUpdates(DEFAULT_CONFIG, f, Initial(BackendsOf(n), start), UpdatesOf(1, bad));
    RecoveryReweights(f, board, start, n, h);
  }

  lemma SingleBackend(f: Maths, start: int, slo: nat, polls: seq<Poll>)
    requires MathsOk(f) && Covers(polls, Initial(BackendsOf(1), start).Keys)
    ensures Uniform(AfterUpdates(DEFAULT_CONFIG, f, Initial(BackendsOf(1), start), UpdatesOf(slo, polls)), 1.0)
    decreases |polls|
  {
    FirstBoard(1, start);
    var first, updates := Initial(BackendsOf(1), start), UpdatesOf(slo, polls);
    hide MathsOk, Initial, AfterUpdates, Total;
    KeysStay(f, first, slo, polls);
    BackendsAre(1);
    InitialIsShares(BackendsOf(1), start);
    RunsKeepTheFloor(DEFAULT_CONFIG, f, BackendsOf(1), start, updates);
    var board := AfterUpdates(DEFAULT_CONFIG, f, first, updates);
    assert 0 in first;
    OneKey(first.Keys, 0);
    AfterNothing(f, first, updates);
    WeightOfOne(board, 0);
  }

  lemma AfterNothing(f: Maths, board: Board, updates: seq<Update>)
    ensures updates == [] ==> AfterUpdates(DEFAULT_CONFIG, f, board, updates) == board
  {
  }

  lemma OneKey(ids: set<nat>, x: nat)
    requires |ids| == 1 && x in ids
    ensures ids == {x}
  {
    assert |ids - {x}| == 0;
  }

  lemma WeightOfOne(board: Board, sid: nat)
    requires board.Keys == {sid} && Total(board) == 1.0
    ensures Uniform(board, 1.0)
  {
    SumRemove(Weights(board), board.Keys, sid);
  }

  lemma {:induction false} KeysStay(f: Maths, board: Board, slo: nat, polls: seq<Poll>)
    requires Covers(polls, board.Keys)
    ensures AfterUpdates(DEFAULT_CONFIG, f, board, UpdatesOf(slo, polls)).Keys == board.Keys
    decreases |polls|
  {
    if polls != [] {
      var n := |polls| - 1;
      var init, p := polls[..n], polls[n];
      KeysStay(f, board, slo, init);
      assert polls == init + [p];
      OneMorePoll(f, board, init, p, slo);
      HealthFromRaw(DEFAULT_CONFIG, f, AfterUpdates(DEFAULT_CONFIG, f, board, UpdatesOf(slo, init)),
                    Predictions(slo, p.registry), 0.0, p.now);
    }
  }

  /** With the default configuration, a proxy whose polls cover its pool never changes a weight if and only if it
      has one backend, or at least ten. */
  lemma NeverReweightedIff(f: Maths, n: nat, start: int)
    requires MathsOk(f) && n > 0
    ensures NeverReweighted(f, n, start) <==> n == 1 || n >= 10
  {
    hide MathsOk, Initial, AfterUpdates;
    if n == 1 || n >= 10 {
      forall slo: nat, polls: seq<Poll> {:trigger UpdatesOf(slo, polls)} |
        Covers(polls, Initial(BackendsOf(n), start).Keys)
        ensures Uniform(AfterUpdates(DEFAULT_CONFIG, f, Initial(BackendsOf(n), start), UpdatesOf(slo, polls)),
                        1.0 / n as real)
      {
        if n == 1 {
          SingleBackend(f, start, slo, polls);
        } else {
          TenBackendsAreNeverReweighted(f, n, slo, start, polls);
        }
      }
    } else {
      var polls := SmallPoolIsReweighted(f, n, start);
      var board := AfterUpdates(DEFAULT_CONFIG, f, Initial(BackendsOf(n), start), UpdatesOf(1, polls));
      assert !Uniform(board, 1.0 / n as real);
    }
  }
}
