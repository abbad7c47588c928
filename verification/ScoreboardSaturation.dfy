/** Why a large pool of the proxy is never re-weighted: every raw weight is so far above an equal share that all
    servers are clamped to the same step upwards, and normalisation takes the step back. */
module ScoreboardSaturation {
  import opened Sums
  import opened Scoreboard
  import opened ScoreboardFloor
  import opened ScoreboardDominance
  import opened ScoreboardDomains
  import opened ScoreboardPositive

  /** No raw weight is below this: exp(-1) for the risk times exp(-1) for the health. */
  const LEAST_RAW: real := 0.133956

  ghost predicate HealthIsRate(board: Board) {
    forall sid {:trigger board[sid]} :: sid in board ==> 0.0 <= board[sid].health <= 1.0
  }

  /** Even the least raw weight pulls a server of weight `w` up by the whole allowed shift. */
  predicate ShiftSaturates(cfg: Config, load: real, w: real)
    requires Usable(cfg)
  {
    Blend(Alpha(cfg, load), LEAST_RAW, w) >= w + MaxDelta(cfg, w)
  }

  lemma RawAtLeast(f: Maths, risk: real, health: real)
    requires MathsOk(f) && risk <= 1.0 && health <= 1.0
    ensures RawWeight(f, risk, health) >= LEAST_RAW
  {
    RawWeightAntitone(f, 1.0, risk, 1.0, health);
    var e := f.exp(-1.0);
    ProductMonotone(0.366, e, 0.366, e);
    assert Times(0.366, 0.366) == LEAST_RAW;
  }

  lemma HealthStaysRate(cfg: Config, health: real, p: Prediction)
    requires Averaging(cfg) && 0.0 <= health <= 1.0
    ensures 0.0 <= NextHealth(cfg, health, p) <= 1.0
  {
    hide Blend;
    BlendNotNegative(cfg.healthBeta, ErrorOf(p), health);
    BlendMonotone(cfg.healthBeta, ErrorOf(p), 1.0, health, 1.0);
    BlendOfOnes(cfg.healthBeta);
  }

  lemma BlendOfOnes(c: real)
    ensures Blend(c, 1.0, 1.0) == 1.0
  {
  }

  lemma ShiftIsFull(cfg: Config, alpha: real, raw: real, w: real)
    requires Usable(cfg) && 0.0 <= alpha <= 1.0 && raw >= LEAST_RAW
    requires Blend(alpha, LEAST_RAW, w) >= w + MaxDelta(cfg, w)
    ensures ShiftedWeight(cfg, alpha, raw, w) == w + MaxDelta(cfg, w)
  {
    hide Blend, Times;
    BlendMonotone(alpha, LEAST_RAW, raw, w, w);
  }

  /** Every predicted server of weight `w` gets the same raw weight, whatever is predicted of it. */
  lemma RawIsFullShift(cfg: Config, f: Maths, board: Board, preds: map<nat, Prediction>, load: real, now: int, sid: nat)
    requires Averaging(cfg) && MathsOk(f) && HealthIsRate(board) && sid in board && sid in preds
    requires ShiftSaturates(cfg, load, board[sid].weight)
    ensures
      var score := RawBoard(cfg, f, board, preds, load, now)[sid];
      score.weight == board[sid].weight + MaxDelta(cfg, board[sid].weight) && 0.0 <= score.health <= 1.0
  {
    hide ShiftedWeight, Blend, Times, MathsOk, EffectiveRisk, NextHealth, RawWeight, Alpha;
    var risk, health := EffectiveRisk(cfg, f, preds[sid]), NextHealth(cfg, board[sid].health, preds[sid]);
    EffectiveRiskInUnit(cfg, f, preds[sid]);
    HealthStaysRate(cfg, board[sid].health, preds[sid]);
    RawAtLeast(f, risk, health);
    AlphaIsARate(cfg, load);
    ShiftIsFull(cfg, Alpha(cfg, load), RawWeight(f, risk, health), board[sid].weight);
  }

  lemma RawStaysUniform(cfg: Config, f: Maths, board: Board, preds: map<nat, Prediction>, load: real, now: int, w: real)
    requires Averaging(cfg) && MathsOk(f) && HealthIsRate(board) && preds.Keys == board.Keys
    requires Uniform(board, w) && ShiftSaturates(cfg, load, w)
    ensures
      var raw := RawBoard(cfg, f, board, preds, load, now);
      raw.Keys == board.Keys && Uniform(raw, w + MaxDelta(cfg, w)) && HealthIsRate(raw)
  {
    hide RawScore, MathsOk, ShiftSaturates, Times;
    var raw := RawBoard(cfg, f, board, preds, load, now);
    forall sid {:trigger raw[sid]} | sid in raw
      ensures raw[sid].weight == w + MaxDelta(cfg, w) && 0.0 <= raw[sid].health <= 1.0
    {
      assert board[sid].weight == w;
      RawIsFullShift(cfg, f, board, preds, load, now, sid);
    }
  }

  /** What capping and flooring make of the weight `v` in a pool of one domain. */
  function FlooredWeight(cfg: Config, v: real): real {
    Max(Times(Min(1.0, cfg.cap), v), cfg.minWeight)
  }

  lemma FlooredWeightPositive(cfg: Config, v: real)
    requires v > 0.0 && cfg.cap > 0.0
    ensures FlooredWeight(cfg, v) > 0.0
  {
    ProductPositive(Min(1.0, cfg.cap), v);
  }

  /** Capping and flooring a uniform pool of one domain leave it uniform. */
  lemma FlooredStaysUniform(cfg: Config, raw: Board, v: real)
    requires Usable(cfg) && OneDomain(raw) && Uniform(raw, v) && Total(raw) > 0.0
    ensures
      var b := Floored(cfg, Capped(cfg, raw));
      b.Keys == raw.Keys && OneDomain(b) && Uniform(b, FlooredWeight(cfg, v))
  {
    hide Times, Total, DomainScale;
    var c, r := Capped(cfg, raw), Min(1.0, cfg.cap);
    forall sid {:trigger c[sid]} | sid in raw ensures c[sid].weight == Times(r, v) {
      assert raw[sid].weight == v;
      OneDomainScale(cfg, raw, sid);
      ScaledIsTimes(raw[sid], r);
    }
  }

  /** If an update makes all raw weights of a pool of one domain the same, it leaves the pool uniform. */
  lemma UniformRawUpdates(cfg: Config, f: Maths, board: Board, preds: map<nat, Prediction>, load: real, now: int,
                          n: nat, v: real)
    requires Usable(cfg) && cfg.cap > 0.0 && preds.Keys == board.Keys && OneDomain(board)
    requires |board.Keys| == n > 0 && v > 0.0 && Uniform(RawBoard(cfg, f, board, preds, load, now), v)
    ensures
      var after := Updated(cfg, f, board, preds, load, now);
      after.Keys == board.Keys && OneDomain(after) && Uniform(after, 1.0 / n as real)
  {
    hide Times, FlooredWeight, Normalised, Total, RawBoard, Capped, Floored, OneDomain, Uniform;
    assert board.Keys != {};
    var raw := RawBoard(cfg, f, board, preds, load, now);
    RawOneDomain(cfg, f, board, preds, load, now);
    UniformPositive(raw, v);
    FlooredStaysUniform(cfg, raw, v);
    FlooredWeightPositive(cfg, v);
    UniformNormalised(Floored(cfg, Capped(cfg, raw)), FlooredWeight(cfg, v), n);
  }

  /** Capping, flooring and normalising do not touch the health. */
  lemma HealthFromRaw(cfg: Config, f: Maths, board: Board, preds: map<nat, Prediction>, load: real, now: int)
    requires Usable(cfg)
    ensures Updated(cfg, f, board, preds, load, now).Keys == board.Keys + preds.Keys
    ensures forall sid {:trigger Updated(cfg, f, board, preds, load, now)[sid]} :: sid in board || sid in preds ==>
              Updated(cfg, f, board, preds, load, now)[sid].health ==
              RawBoard(cfg, f, board, preds, load, now)[sid].health
  {
    hide RawScore, DomainScale, Total;
  }

  /** A uniform pool of one domain, all predicted, saturated: an update leaves every weight as it was. */
  lemma SaturatedStaysUniform(cfg: Config, f: Maths, board: Board, preds: map<nat, Prediction>, load: real, now: int,
                              n: nat)
    requires Averaging(cfg) && cfg.cap > 0.0 && MathsOk(f) && HealthIsRate(board) && preds.Keys == board.Keys
    requires OneDomain(board) && |board.Keys| == n > 0 && Uniform(board, 1.0 / n as real)
    requires ShiftSaturates(cfg, load, 1.0 / n as real)
    ensures
      var after := Updated(cfg, f, board, preds, load, now);
      after.Keys == board.Keys && OneDomain(after) && Uniform(after, 1.0 / n as real) && HealthIsRate(after)
  {
    hide Times, MaxDelta, RawBoard, Updated, MathsOk, ShiftSaturates, OneDomain, Uniform;
    OneNthPositive(n);
    var w := 1.0 / n as real;
    RawStaysUniform(cfg, f, board, preds, load, now, w);
    UniformRawUpdates(cfg, f, board, preds, load, now, n, w + MaxDelta(cfg, w));
    HealthFromRaw(cfg, f, board, preds, load, now);
  }

  lemma UniformPositive(b: Board, v: real)
    requires b.Keys != {} && Uniform(b, v) && v > 0.0
    ensures Total(b) > 0.0
  {
    TotalPositive(b);
  }

  /** So do any number of them. */
  lemma {:induction false} SaturatedForever(cfg: Config, f: Maths, board: Board, updates: seq<Update>, n: nat)
    requires Averaging(cfg) && cfg.cap > 0.0 && MathsOk(f) && HealthIsRate(board)
    requires OneDomain(board) && |board.Keys| == n > 0 && Uniform(board, 1.0 / n as real)
    requires forall i {:trigger updates[i]} :: 0 <= i < |updates| ==>
      updates[i].preds.Keys == board.Keys && ShiftSaturates(cfg, updates[i].load, 1.0 / n as real)
    ensures
      var after := AfterUpdates(cfg, f, board, updates);
      after.Keys == board.Keys && OneDomain(after) && Uniform(after, 1.0 / n as real) && HealthIsRate(after)
    decreases |updates|
  {
    hide OneDomain, Uniform, ShiftSaturates, HealthIsRate, MathsOk, Updated;
    if updates != [] {
      var init, u := updates[..|updates| - 1], updates[|updates| - 1];
      assert u == updates[|updates| - 1];
      SaturatedForever(cfg, f, board, init, n);
      SaturatedStaysUniform(cfg, f, AfterUpdates(cfg, f, board, init), u.preds, u.load, u.now, n);
    }
  }
}
