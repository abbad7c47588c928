/** A server that is never better than another one, in risk, errors and history, never gets the larger weight:
    one update keeps that order through smoothing, shift clamp, cap, floor and normalisation, and so does any run. */
module ScoreboardDominance {
  import opened Scoreboard
  import opened Sums
  import opened ScoreboardFloor

  /** Rates that are rates: the smoothing and the health memory are weighted averages. */
  predicate Averaging(cfg: Config) {
    Usable(cfg) && 0.0 <= cfg.minAlpha && cfg.maxAlpha <= 1.0 && 0.0 <= cfg.healthBeta <= 1.0
  }

  /** `a` weighs no more than `b` and has no better health, in one failure domain. */
  predicate Dominated(board: Board, a: nat, b: nat) {
    && a in board && b in board && board[a].domain == board[b].domain
    && 0.0 <= board[a].weight <= board[b].weight && board[a].health >= board[b].health
  }

  /** The predictions cover both servers or neither, and see at least as much risk and error in `a`. */
  predicate NoBetter(cfg: Config, f: Maths, preds: map<nat, Prediction>, a: nat, b: nat) {
    && (a in preds <==> b in preds)
    && (a in preds ==>
          EffectiveRisk(cfg, f, preds[a]) >= EffectiveRisk(cfg, f, preds[b]) && ErrorOf(preds[a]) >= ErrorOf(preds[b]))
  }

  // ----- arithmetic -----

  lemma TimesNotNegative(c: real, x: real)
    requires c >= 0.0 && x >= 0.0
    ensures c * x >= 0.0
  {
  }

  lemma TimesMonotone(c: real, x: real, y: real)
    requires c >= 0.0 && x <= y
    ensures Times(c, x) <= Times(c, y)
    ensures x >= 0.0 ==> Times(c, x) >= 0.0
  {
    TimesNotNegative(c, y - x);
    assert c * (y - x) == c * y - c * x;
    if x >= 0.0 {
      TimesNotNegative(c, x);
    }
  }

  lemma BlendMonotone(c: real, x: real, x': real, y: real, y': real)
    requires 0.0 <= c <= 1.0 && x <= x' && y <= y'
    ensures Blend(c, x, y) <= Blend(c, x', y')
  {
    TimesNotNegative(c, x' - x);
    TimesNotNegative(1.0 - c, y' - y);
    assert Blend(c, x', y') - Blend(c, x, y) == c * (x' - x) + (1.0 - c) * (y' - y);
  }

  lemma BlendNotNegative(c: real, x: real, y: real)
    requires 0.0 <= c <= 1.0 && x >= 0.0 && y >= 0.0
    ensures Blend(c, x, y) >= 0.0
  {
    TimesNotNegative(c, x);
    TimesNotNegative(1.0 - c, y);
  }

  lemma ProductMonotone(x: real, x': real, y: real, y': real)
    requires 0.0 < x <= x' && 0.0 < y <= y'
    ensures 0.0 < Times(x, y) <= Times(x', y')
  {
    assert x * y > 0.0;
    TimesNotNegative(x, y' - y);
    TimesNotNegative(y', x' - x);
    assert x' * y' - x * y == x * (y' - y) + y' * (x' - x);
  }

  // ----- step by step -----

  lemma AlphaIsARate(cfg: Config, load: real)
    requires Averaging(cfg)
    ensures 0.0 <= Alpha(cfg, load) <= 1.0
  {
  }

  lemma RawWeightAntitone(f: Maths, risk: real, risk': real, health: real, health': real)
    requires MathsOk(f) && risk >= risk' && health >= health'
    ensures 0.0 < RawWeight(f, risk, health) <= RawWeight(f, risk', health')
  {
    ProductMonotone(f.exp(-risk), f.exp(-risk'), f.exp(-health), f.exp(-health'));
  }

  lemma HealthMonotone(cfg: Config, health: real, health': real, p: Prediction, p': Prediction)
    requires 0.0 <= cfg.healthBeta <= 1.0 && health >= health' && ErrorOf(p) >= ErrorOf(p')
    ensures NextHealth(cfg, health, p) >= NextHealth(cfg, health', p')
  {
    hide ErrorOf, Blend;
    BlendMonotone(cfg.healthBeta, ErrorOf(p'), ErrorOf(p), health', health);
  }

  /** The lower end of the clamp is in order when s <= 1; above that it is below zero and never binds. */
  lemma ClampEnds(s: real, m: real, w: real, w': real)
    requires s >= 0.0 && m >= 0.0 && 0.0 <= w <= w'
    ensures
      var d, d' := Times(s, Max(w, m)), Times(s, Max(w', m));
      && 0.0 <= d <= d'
      && (w - d <= w' - d' || (w - d <= 0.0 && w' - d' <= 0.0))
  {
    var u, u' := Max(w, m), Max(w', m);
    TimesMonotone(s, u, u');
    if s <= 1.0 {
      TimesNotNegative(1.0 - s, u' - u);
      assert (1.0 - s) * (u' - u) == u' - u - (s * u' - s * u);
    } else {
      AtLeastItself(s, u);
      AtLeastItself(s, u');
    }
  }

  lemma AtLeastItself(s: real, u: real)
    requires s >= 1.0 && u >= 0.0
    ensures Times(s, u) >= u
  {
    TimesNotNegative(s - 1.0, u);
    assert (s - 1.0) * u == s * u - u;
  }

  lemma ClampMonotone(x: real, lo: real, hi: real, x': real, lo': real, hi': real)
    requires 0.0 <= x <= x' && 0.0 <= hi <= hi' && lo <= hi && lo' <= hi'
    requires lo <= lo' || (lo <= 0.0 && lo' <= 0.0)
    ensures 0.0 <= Clamp(x, lo, hi) <= Clamp(x', lo', hi')
  {
  }

  lemma ShiftMonotone(cfg: Config, alpha: real, raw: real, raw': real, w: real, w': real)
    requires Usable(cfg) && 0.0 <= alpha <= 1.0 && 0.0 <= raw <= raw' && 0.0 <= w <= w'
    ensures 0.0 <= ShiftedWeight(cfg, alpha, raw, w) <= ShiftedWeight(cfg, alpha, raw', w')
  {
    hide Clamp, Blend, Times;
    BlendMonotone(alpha, raw, raw', w, w');
    BlendNotNegative(alpha, raw, w);
    ClampEnds(cfg.maxShift, cfg.minWeight, w, w');
    ClampMonotone(Blend(alpha, raw, w), w - MaxDelta(cfg, w), w + MaxDelta(cfg, w),
                  Blend(alpha, raw', w'), w' - MaxDelta(cfg, w'), w' + MaxDelta(cfg, w'));
  }

  lemma RefreshKeepsDominance(cfg: Config, f: Maths, alpha: real, x: Score, y: Score, p: Prediction, q: Prediction,
                              now: int)
    requires Averaging(cfg) && MathsOk(f) && 0.0 <= alpha <= 1.0
    requires 0.0 <= x.weight <= y.weight && x.health >= y.health
    requires EffectiveRisk(cfg, f, p) >= EffectiveRisk(cfg, f, q) && ErrorOf(p) >= ErrorOf(q)
    ensures
      var x', y' := Refreshed(cfg, f, alpha, x, p, now), Refreshed(cfg, f, alpha, y, q, now);
      0.0 <= x'.weight <= y'.weight && x'.health >= y'.health && x'.domain == x.domain && y'.domain == y.domain
  {
    hide EffectiveRisk, ErrorOf, NextHealth, RawWeight, ShiftedWeight, MathsOk;
    var health, health' := NextHealth(cfg, x.health, p), NextHealth(cfg, y.health, q);
    HealthMonotone(cfg, x.health, y.health, p, q);
    RawWeightAntitone(f, EffectiveRisk(cfg, f, p), EffectiveRisk(cfg, f, q), health, health');
    ShiftMonotone(cfg, alpha, RawWeight(f, EffectiveRisk(cfg, f, p), health),
                  RawWeight(f, EffectiveRisk(cfg, f, q), health'), x.weight, y.weight);
  }

  lemma RawKeepsDominance(cfg: Config, f: Maths, board: Board, preds: map<nat, Prediction>, load: real, now: int,
                          a: nat, b: nat)
    requires Averaging(cfg) && MathsOk(f) && Dominated(board, a, b) && NoBetter(cfg, f, preds, a, b)
    ensures Dominated(RawBoard(cfg, f, board, preds, load, now), a, b)
  {
    hide Refreshed, Alpha, EffectiveRisk, ErrorOf, MathsOk;
    AlphaIsARate(cfg, load);
    if a in preds {
      RefreshKeepsDominance(cfg, f, Alpha(cfg, load), board[a], board[b], preds[a], preds[b], now);
    }
  }

  lemma CapKeepsDominance(cfg: Config, raw: Board, a: nat, b: nat)
    requires cfg.cap >= 0.0 && Dominated(raw, a, b)
    ensures Dominated(Capped(cfg, raw), a, b)
  {
    hide DomainScale;
    var scale := DomainScale(cfg, raw, raw[a].domain);
    DomainScaleInUnit(cfg, raw, raw[a].domain);
    TimesMonotone(scale, raw[a].weight, raw[b].weight);
    assert raw[a].weight * scale == Times(scale, raw[a].weight) && raw[b].weight * scale == Times(scale, raw[b].weight);
  }

  lemma NormalisingKeepsDominance(board: Board, a: nat, b: nat)
    requires Dominated(board, a, b)
    ensures Dominated(Normalised(board), a, b)
  {
    hide Total;
    if Total(board) > 0.0 {
      QuotientMonotone(0.0, board[a].weight, Total(board));
      QuotientMonotone(board[a].weight, board[b].weight, Total(board));
    }
  }

  /** One update keeps the order. */
  lemma UpdateKeepsDominance(cfg: Config, f: Maths, board: Board, preds: map<nat, Prediction>, load: real, now: int,
                             a: nat, b: nat)
    requires Averaging(cfg) && MathsOk(f) && Dominated(board, a, b) && NoBetter(cfg, f, preds, a, b)
    ensures Dominated(Updated(cfg, f, board, preds, load, now), a, b)
  {
    hide RawBoard, Capped, Normalised, MathsOk, NoBetter;
    var raw := RawBoard(cfg, f, board, preds, load, now);
    RawKeepsDominance(cfg, f, board, preds, load, now, a, b);
    CapKeepsDominance(cfg, raw, a, b);
    NormalisingKeepsDominance(Floored(cfg, Capped(cfg, raw)), a, b);
  }

  /** So does any run of updates, whatever they say about the other servers. */
  lemma {:induction false} RunKeepsDominance(cfg: Config, f: Maths, board: Board, updates: seq<Update>, a: nat, b: nat)
    requires Averaging(cfg) && MathsOk(f) && Dominated(board, a, b)
    requires forall i :: 0 <= i < |updates| ==> NoBetter(cfg, f, updates[i].preds, a, b)
    ensures Dominated(AfterUpdates(cfg, f, board, updates), a, b)
    decreases |updates|
  {
    hide Dominated, NoBetter, MathsOk, Updated;
    if updates != [] {
      var init, u := updates[..|updates| - 1], updates[|updates| - 1];
      RunKeepsDominance(cfg, f, board, init, a, b);
      UpdateKeepsDominance(cfg, f, AfterUpdates(cfg, f, board, init), u.preds, u.load, u.now, a, b);
    }
  }

  /** More predicted risk or more uncertainty never lowers the effective risk of an operator who is not
      risk-seeking. */
  lemma EffectiveRiskMonotone(cfg: Config, f: Maths, p: Prediction, q: Prediction)
    requires MathsOk(f) && cfg.riskAversion >= 0.0
    requires p.riskMean >= q.riskMean && p.riskVariance >= q.riskVariance
    ensures EffectiveRisk(cfg, f, p) >= EffectiveRisk(cfg, f, q)
  {
    hide Times;
    var x, y := f.sqrt(Max(q.riskVariance, 0.0)), f.sqrt(Max(p.riskVariance, 0.0));
    assert x <= y;
    TimesMonotone(cfg.riskAversion, x, y);
  }
}
