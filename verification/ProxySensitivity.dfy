/** Errors alone and latencies alone re-weight the proxy's pool. Polls in which all backends are equally fast and
    only their error rates differ end in different weights, and so do polls in which they fail equally often and only
    their latencies differ, in exactly the pools that are ever re-weighted. */
module ProxySensitivity {
  import opened Sums
  import opened Scoreboard
  import opened ScoreboardFloor
  import opened ScoreboardDominance
  import opened ScoreboardDomains
  import opened ScoreboardPositive
  import opened ScoreboardSaturation
  import opened ProxySync
  import opened ProxySmallPools

  /** Every poll measures the same latency for all backends, as often. */
  predicate EqualLatencies(polls: seq<Poll>) {
    forall i, a, b {:trigger polls[i].registry[a], polls[i].registry[b]} ::
      0 <= i < |polls| && a in polls[i].registry && b in polls[i].registry ==>
        && polls[i].registry[a].latencyEma == polls[i].registry[b].latencyEma
        && polls[i].registry[a].totalRequests == polls[i].registry[b].totalRequests
  }

  /** Every poll measures the same error rate for all backends, as often. */
  predicate EqualErrors(polls: seq<Poll>) {
    forall i, a, b {:trigger polls[i].registry[a], polls[i].registry[b]} ::
      0 <= i < |polls| && a in polls[i].registry && b in polls[i].registry ==>
        && polls[i].registry[a].errorRate == polls[i].registry[b].errorRate
        && polls[i].registry[a].totalRequests == polls[i].registry[b].totalRequests
  }

  // ----- latencies alone -----

  /** As slow as BAD without an error, and as failing as BAD without a delay. */
  const SLOW := Observed(1, 99, 0.0)
  const FAILING := Observed(1, 0, 1.0)

  function FirstIs(o: Observed, ids: set<nat>): Registry {
    map sid | sid in ids :: if sid == 0 then o else BAD
  }

  lemma SlowAndFailingPredictions(f: Maths)
    ensures EffectiveRisk(DEFAULT_CONFIG, f, PredictionOf(1, SLOW)) == 0.99 && ErrorOf(PredictionOf(1, SLOW)) == 0.0
    ensures EffectiveRisk(DEFAULT_CONFIG, f, PredictionOf(1, FAILING)) == 0.0
    ensures ErrorOf(PredictionOf(1, FAILING)) == 1.0
  {
    RiskIsShare(1, 99);
    RiskIsShare(1, 0);
    EffectiveRiskIsMean(f, PredictionOf(1, SLOW));
    EffectiveRiskIsMean(f, PredictionOf(1, FAILING));
  }

  /** All backends have this weight, in one domain; the first has this health, and the others that. */
  ghost predicate Uneven(board: Board, w: real, first: real, others: real) {
    && OneDomain(board)
    && forall sid {:trigger board[sid]} :: sid in board ==>
         board[sid].weight == w && board[sid].health == if sid == 0 then first else others
  }

  /** What one poll makes of such a pool before capping, when only the first backend is not bad. */
  lemma UnevenRaw(f: Maths, board: Board, now: int, w: real, first: real, others: real, o: Observed, risk: real,
                  sid: nat)
    requires MathsOk(f) && Uneven(board, w, first, others) && w > 0.0 && sid in board
    requires EffectiveRisk(DEFAULT_CONFIG, f, PredictionOf(1, o)) == risk
    ensures
      var raw := RawBoard(DEFAULT_CONFIG, f, board, Predictions(1, FirstIs(o, board.Keys)), 0.0, now);
      var health := if sid == 0 then NextHealth(DEFAULT_CONFIG, first, PredictionOf(1, o)) else NextBad(others);
      && raw[sid].health == health
      && raw[sid].weight ==
         ShiftedWeight(DEFAULT_CONFIG, 0.3, RawWeight(f, if sid == 0 then risk else 0.99, health), w) > 0.0
  {
    hide EffectiveRisk, ErrorOf, ShiftedWeight, RawWeight, Blend, MathsOk;
    BadAndGoodPredictions(f);
    assert Alpha(DEFAULT_CONFIG, 0.0) == 0.3;
    var preds := Predictions(1, FirstIs(o, board.Keys));
    assert preds[sid] == PredictionOf(1, if sid == 0 then o else BAD);
    var r := if sid == 0 then risk else 0.99;
    var h := if sid == 0 then NextHealth(DEFAULT_CONFIG, first, PredictionOf(1, o)) else NextBad(others);
    RawWeightAntitone(f, r, r, h, h);
    ShiftedWithin(DEFAULT_CONFIG, 0.3, RawWeight(f, r, h), w);
  }

  /** If the first backend's raw weight is strictly larger than the second's, so is its weight in the end. */
  lemma FirstStaysLarger(f: Maths, board: Board, now: int, n: nat, first: real, others: real, o: Observed, risk: real)
    requires MathsOk(f) && 2 <= n <= 9 && Uneven(board, 1.0 / n as real, first, others) && 0 in board && 1 in board
    requires EffectiveRisk(DEFAULT_CONFIG, f, PredictionOf(1, o)) == risk
    requires
      var raw := RawBoard(DEFAULT_CONFIG, f, board, Predictions(1, FirstIs(o, board.Keys)), 0.0, now);
      raw[1].weight < raw[0].weight
    ensures
      var after := Updated(DEFAULT_CONFIG, f, board, Predictions(1, FirstIs(o, board.Keys)), 0.0, now);
      0 in after && 1 in after && after[1].weight < after[0].weight
  {
    hide MathsOk, ShiftedWeight, RawWeight, Capped, Floored, Normalised, RawBoard, OneDomain, NextBad, Blend;
    hide EffectiveRisk, NextHealth;
    var w, preds := 1.0 / n as real, Predictions(1, FirstIs(o, board.Keys));
    SharesOfFew(n);
    var raw := RawBoard(DEFAULT_CONFIG, f, board, preds, 0.0, now);
    RawOneDomain(DEFAULT_CONFIG, f, board, preds, 0.0, now);
    forall sid {:trigger raw[sid]} | sid in raw ensures raw[sid].weight > 0.0 {
      UnevenRaw(f, board, now, w, first, others, o, risk, sid);
    }
    UnevenRaw(f, board, now, w, first, others, o, risk, 1);
    KeepsNineTenths(RawWeight(f, 0.99, NextBad(others)), w);
    LargerStaysLarger(raw, 0, 1);
  }

  lemma KeepsNineTenths(raw: real, w: real)
    requires 1.0 / 9.0 <= w
    ensures 0.1 <= 0.9 * w <= ShiftedWeight(DEFAULT_CONFIG, 0.3, raw, w)
  {
    assert MaxDelta(DEFAULT_CONFIG, w) == 0.1 * w;
  }

  /** Enough equally bad polls, then one in which the first backend is fast but still failing. */
  lemma LatenciesAloneReweight(f: Maths, n: nat, start: int) returns (polls: seq<Poll>)
    requires MathsOk(f) && 2 <= n <= 9
    ensures Covers(polls, Initial(BackendsOf(n), start).Keys) && EqualErrors(polls)
    ensures
      var board := AfterUpdates(DEFAULT_CONFIG, f, Initial(BackendsOf(n), start), UpdatesOf(1, polls));
      0 in board && 1 in board && board[1].weight < board[0].weight
  {
    hide MathsOk, Initial, Updated, Alike, Uneven, RawBoard, Predictions, FirstIs, EqualErrors, Covers;
    FirstBoard(n, start);
    var ids := Initial(BackendsOf(n), start).Keys;
    var h := ManyBadPolls(f, n, start, 891);
    var bad := BadPolls(ids, start, 891);
    LatencyPolls(ids, start, 891);
    var last := Poll(FirstIs(FAILING, ids), start);
    polls := bad + [last];
    OneMorePoll(f, Initial(BackendsOf(n), start), bad, last, 1);
    assert 0 in ids && 1 in ids;
    var board := AfterUpdates(DEFAULT_CONFIG, f, Initial(BackendsOf(n), start), UpdatesOf(1, bad));
    AlikeIsUneven(board, 1.0 / n as real, h);
    SlowAndFailingPredictions(f);
    FastBeatsBad(f, board, start, n, h);
    FirstStaysLarger(f, board, start, n, h, h, FAILING, 0.0);
  }

  lemma AlikeIsUneven(board: Board, w: real, h: real)
    requires Alike(board, w, h)
    ensures Uneven(board, w, h, h)
  {
  }

  lemma {:induction false} BadPollsAre(ids: set<nat>, now: int, k: nat)
    ensures |BadPolls(ids, now, k)| == k
    ensures forall i {:trigger BadPolls(ids, now, k)[i]} :: 0 <= i < k ==>
              BadPolls(ids, now, k)[i] == Poll(AllBad(ids), now)
  {
    if k > 0 {
      BadPollsAre(ids, now, k - 1);
    }
  }

  lemma LatencyPolls(ids: set<nat>, now: int, k: nat)
    ensures
      var polls := BadPolls(ids, now, k) + [Poll(FirstIs(FAILING, ids), now)];
      Covers(polls, ids) && EqualErrors(polls)
  {
    BadPollsCover(ids, now, k);
    BadPollsAre(ids, now, k);
  }

  lemma FastBeatsBad(f: Maths, board: Board, now: int, n: nat, h: real)
    requires MathsOk(f) && 2 <= n <= 9 && Uneven(board, 1.0 / n as real, h, h) && 0.99 <= h <= 1.0
    requires 0 in board && 1 in board
    ensures
      var raw := RawBoard(DEFAULT_CONFIG, f, board, Predictions(1, FirstIs(FAILING, board.Keys)), 0.0, now);
      raw[1].weight < raw[0].weight
  {
    hide RawBoard, Uneven, RawWeight, ShiftedWeight, EffectiveRisk, ErrorOf, Blend;
    var w := 1.0 / n as real;
    SharesOfFew(n);
    SlowAndFailingPredictions(f);
    UnevenRaw(f, board, now, w, h, h, FAILING, 0.0, 0);
    UnevenRaw(f, board, now, w, h, h, FAILING, 0.0, 1);
    assert NextHealth(DEFAULT_CONFIG, h, PredictionOf(1, FAILING)) == NextBad(h);
    RawOfBad(f, h);
    RawOfFast(f, h);
    GoodBeatsBad(RawWeight(f, 0.0, NextBad(h)), RawWeight(f, 0.99, NextBad(h)), w);
  }

  lemma RawOfFast(f: Maths, h: real)
    requires MathsOk(f) && 0.0 <= h <= 1.0
    ensures RawWeight(f, 0.0, NextBad(h)) >= 0.366
  {
    var x, y := f.exp(-0.0), f.exp(-NextBad(h));
    assert NextBad(h) <= 1.0;
    assert x == 1.0 && y >= f.exp(-1.0) >= 0.366;
    TimesOne(y);
  }

  // ----- errors alone -----

  function ErrorPolls(ids: set<nat>, now: int, k: nat): seq<Poll> {
    if k == 0 then [] else ErrorPolls(ids, now, k - 1) + [Poll(FirstIs(SLOW, ids), now)]
  }

  lemma {:induction false} ErrorPollsAre(ids: set<nat>, now: int, k: nat)
    ensures |ErrorPolls(ids, now, k)| == k
    ensures forall i {:trigger ErrorPolls(ids, now, k)[i]} :: 0 <= i < k ==>
              ErrorPolls(ids, now, k)[i] == Poll(FirstIs(SLOW, ids), now)
    ensures Covers(ErrorPolls(ids, now, k), ids) && EqualLatencies(ErrorPolls(ids, now, k))
  {
    if k > 0 {
      ErrorPollsAre(ids, now, k - 1);
    }
  }

  /** One poll in which the first backend is as slow as all others but alone does not fail: either it ends with more
      weight, or the clamp hid the difference and only the memory of the others got worse. */
  lemma ErrorPollStep(f: Maths, board: Board, now: int, n: nat, h: real)
    requires MathsOk(f) && 2 <= n <= 9 && |board.Keys| == n && Uneven(board, 1.0 / n as real, 0.0, h)
    requires 0 in board && 1 in board && 0.0 <= h <= 1.0
    ensures
      var after := Updated(DEFAULT_CONFIG, f, board, Predictions(1, FirstIs(SLOW, board.Keys)), 0.0, now);
      && after.Keys == board.Keys
      && (after[1].weight < after[0].weight || (h < 0.99 && Uneven(after, 1.0 / n as real, 0.0, NextBad(h))))
  {
    hide MathsOk, ShiftedWeight, RawWeight, RawBoard, Updated, OneDomain, EffectiveRisk, NextHealth;
    var w, preds := 1.0 / n as real, Predictions(1, FirstIs(SLOW, board.Keys));
    var raw := RawBoard(DEFAULT_CONFIG, f, board, preds, 0.0, now);
    SharesOfFew(n);
    SlowAndFailingPredictions(f);
    assert NextHealth(DEFAULT_CONFIG, 0.0, PredictionOf(1, SLOW)) == 0.0 by {
      StillPerfect(PredictionOf(1, SLOW));
    }
    var clean := ShiftedWeight(DEFAULT_CONFIG, 0.3, RawWeight(f, 0.99, 0.0), w);
    var failing := ShiftedWeight(DEFAULT_CONFIG, 0.3, RawWeight(f, 0.99, NextBad(h)), w);
    RawOneDomain(DEFAULT_CONFIG, f, board, preds, 0.0, now);
    forall sid {:trigger raw[sid]} | sid in raw
      ensures raw[sid].weight == (if sid == 0 then clean else failing) > 0.0
      ensures raw[sid].health == if sid == 0 then 0.0 else NextBad(h)
    {
      UnevenRaw(f, board, now, w, 0.0, h, SLOW, 0.99, sid);
    }
    HealthFromRaw(DEFAULT_CONFIG, f, board, preds, 0.0, now);
    CleanAtLeastFailing(f, h, w);
    if failing < clean {
      FirstStaysLarger(f, board, now, n, 0.0, h, SLOW, 0.99);
    } else {
      UniformRawUpdates(DEFAULT_CONFIG, f, board, preds, 0.0, now, n, clean);
    }
  }

  lemma StillPerfect(p: Prediction)
    requires ErrorOf(p) == 0.0
    ensures NextHealth(DEFAULT_CONFIG, 0.0, p) == 0.0
  {
  }

  lemma CleanAtLeastFailing(f: Maths, h: real, w: real)
    requires MathsOk(f) && 0.0 <= h <= 1.0 && 1.0 / 9.0 <= w <= 0.5
    ensures
      var clean := ShiftedWeight(DEFAULT_CONFIG, 0.3, RawWeight(f, 0.99, 0.0), w);
      var failing := ShiftedWeight(DEFAULT_CONFIG, 0.3, RawWeight(f, 0.99, NextBad(h)), w);
      failing <= clean && (h >= 0.99 ==> failing < clean)
  {
    hide ShiftedWeight, RawWeight;
    assert NextBad(h) >= 0.0;
    RawWeightAntitone(f, 0.99, 0.99, NextBad(h), 0.0);
    ShiftMonotone(DEFAULT_CONFIG, 0.3, RawWeight(f, 0.99, NextBad(h)), RawWeight(f, 0.99, 0.0), w, w);
    if h >= 0.99 {
      RawOfBad(f, h);
      RawOfSlow(f);
      GoodBeatsBad(RawWeight(f, 0.99, 0.0), RawWeight(f, 0.99, NextBad(h)), w);
    }
  }

  lemma RawOfSlow(f: Maths)
    requires MathsOk(f)
    ensures RawWeight(f, 0.99, 0.0) >= 0.366
  {
    var x, y := f.exp(-0.99), f.exp(-0.0);
    assert x > f.exp(-1.0) >= 0.366 && y == 1.0;
    TimesOne(x);
  }

  /** Among the first k such polls there are m after which the weights differ, unless they are all still equal and
      the memory of the failing backends has come as close to the worst as k bad polls bring it. */
  lemma {:induction false} ErrorPollsReweight(f: Maths, n: nat, start: int, k: nat) returns (m: nat, h: real)
    requires MathsOk(f) && 2 <= n <= 9
    ensures
      var first := Initial(BackendsOf(n), start);
      var board := AfterUpdates(DEFAULT_CONFIG, f, first, UpdatesOf(1, ErrorPolls(first.Keys, start, m)));
      && board.Keys == first.Keys && |board.Keys| == n && 0 in board && 1 in board
      && (board[1].weight < board[0].weight ||
          (m == k && Uneven(board, 1.0 / n as real, 0.0, h) && 0.0 <= h <= 1.0 && (1.0 - h) * (9.0 + k as real) <= 9.0))
  {
    hide MathsOk, Initial, Updated, NextBad, Uneven, FirstIs;
    FirstBoard(n, start);
    var first := Initial(BackendsOf(n), start);
    if k == 0 {
      m, h := 0, 0.0;
      FirstIsAlike(n, start);
      AlikeIsUneven(first, 1.0 / n as real, 0.0);
      assert UpdatesOf(1, ErrorPolls(first.Keys, start, 0)) == [];
    } else {
      m, h := ErrorPollsReweight(f, n, start, k - 1);
      var polls := ErrorPolls(first.Keys, start, m);
      var board := AfterUpdates(DEFAULT_CONFIG, f, first, UpdatesOf(1, polls));
      if board[1].weight >= board[0].weight {
        OneMorePoll(f, first, polls, Poll(FirstIs(SLOW, first.Keys), start), 1);
        ErrorPollStep(f, board, start, n, h);
        GapShrinks(h, (k - 1) as real);
        m, h := k, NextBad(h);
      }
    }
  }

  lemma ErrorsAloneReweight(f: Maths, n: nat, start: int) returns (polls: seq<Poll>)
    requires MathsOk(f) && 2 <= n <= 9
    ensures Covers(polls, Initial(BackendsOf(n), start).Keys) && EqualLatencies(polls)
    ensures
      var board := AfterUpdates(DEFAULT_CONFIG, f, Initial(BackendsOf(n), start), UpdatesOf(1, polls));
      0 in board && 1 in board && board[1].weight < board[0].weight
  {
    hide MathsOk, Initial, Updated, Uneven, FirstIs;
    var first := Initial(BackendsOf(n), start);
    var m, h := ErrorPollsReweight(f, n, start, 891);
    polls := ErrorPolls(first.Keys, start, m);
    ErrorPollsAre(first.Keys, start, m);
    var board := AfterUpdates(DEFAULT_CONFIG, f, first, UpdatesOf(1, polls));
    if board[1].weight >= board[0].weight {
      polls := ErrorPolls(first.Keys, start, 892);
      ErrorPollsAre(first.Keys, start, 892);
      OneMorePoll(f, first, ErrorPolls(first.Keys, start, 891), Poll(FirstIs(SLOW, first.Keys), start), 1);
      ErrorPollStep(f, board, start, n, h);
    }
  }

  // ----- exactly which pools -----

  ghost predicate BlindToErrors(f: Maths, n: nat, start: int)
    requires n > 0
  {
    forall slo: nat, polls: seq<Poll> {:trigger UpdatesOf(slo, polls)} ::
      Covers(polls, Initial(BackendsOf(n), start).Keys) && EqualLatencies(polls) ==>
        Uniform(AfterUpdates(DEFAULT_CONFIG, f, Initial(BackendsOf(n), start), UpdatesOf(slo, polls)), 1.0 / n as real)
  }

  ghost predicate BlindToLatencies(f: Maths, n: nat, start: int)
    requires n > 0
  {
    forall slo: nat, polls: seq<Poll> {:trigger UpdatesOf(slo, polls)} ::
      Covers(polls, Initial(BackendsOf(n), start).Keys) && EqualErrors(polls) ==>
        Uniform(AfterUpdates(DEFAULT_CONFIG, f, Initial(BackendsOf(n), start), UpdatesOf(slo, polls)), 1.0 / n as real)
  }

  /** A pool that is ever re-weighted is re-weighted by a difference in errors alone, and by one in latency alone. */
  lemma BlindIff(f: Maths, n: nat, start: int)
    requires MathsOk(f) && n > 0
    ensures BlindToErrors(f, n, start) <==> n == 1 || n >= 10
    ensures BlindToLatencies(f, n, start) <==> n == 1 || n >= 10
  {
    hide MathsOk, Initial, AfterUpdates, Covers, EqualErrors, EqualLatencies;
    NeverReweightedIff(f, n, start);
    if 2 <= n <= 9 {
      var errors := ErrorsAloneReweight(f, n, start);
      var latencies := LatenciesAloneReweight(f, n, start);
      var first := Initial(BackendsOf(n), start);
      assert !Uniform(AfterUpdates(DEFAULT_CONFIG, f, first, UpdatesOf(1, errors)), 1.0 / n as real);
      assert !Uniform(AfterUpdates(DEFAULT_CONFIG, f, first, UpdatesOf(1, latencies)), 1.0 / n as real);
    }
  }
}
