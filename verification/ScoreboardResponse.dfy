/** What one update responds to. Every field of a prediction, the load and the history of the server move its weight
    in the intended direction, strictly, except where the shift clamp holds it, and exactly there. */
module ScoreboardResponse {
  import opened Sums
  import opened Scoreboard
  import opened ScoreboardFloor
  import opened ScoreboardDominance
  import opened ScoreboardDomains
  import opened ScoreboardPositive

  // ----- the raw weight -----

  /** More risk, or more error in the memory, is a strictly smaller raw weight. */
  lemma RawWeightStrict(f: Maths, risk: real, risk': real, health: real, health': real)
    requires MathsOk(f) && risk >= risk' && health >= health' && (risk > risk' || health > health')
    ensures 0.0 < RawWeight(f, risk, health) < RawWeight(f, risk', health')
  {
    ProductStrict(f.exp(-risk), f.exp(-risk'), f.exp(-health), f.exp(-health'));
  }

  lemma ProductStrict(x: real, x': real, y: real, y': real)
    requires 0.0 < x <= x' && 0.0 < y <= y' && (x < x' || y < y')
    ensures 0.0 < Times(x, y) < Times(x', y')
  {
    ProductPositive(x, y);
    if x < x' {
      ProductPositive(x' - x, y');
      TimesNotNegative(x, y' - y);
    } else {
      ProductPositive(x, y' - y);
      TimesNotNegative(y', x' - x);
    }
    assert x' * y' - x * y == x * (y' - y) + y' * (x' - x);
  }

  /** Each factor alone is the exponential of its own input, and neither input changes what the other one does. */
  lemma RawWeightSeparates(f: Maths, risk: real, risk': real, health: real, health': real)
    requires MathsOk(f)
    ensures RawWeight(f, risk, 0.0) == f.exp(-risk) && RawWeight(f, 0.0, health) == f.exp(-health)
    ensures Times(RawWeight(f, risk, health), RawWeight(f, risk', health')) ==
            Times(RawWeight(f, risk, health'), RawWeight(f, risk', health))
  {
    assert f.exp(-0.0) == 1.0;
    Exchange(f.exp(-risk), f.exp(-risk'), f.exp(-health), f.exp(-health'));
  }

  lemma Exchange(a: real, a': real, b: real, b': real)
    ensures Times(Times(a, b), Times(a', b')) == Times(Times(a, b'), Times(a', b))
  {
    assert (a * b) * (a' * b') == (a * b') * (a' * b);
  }

  // ----- risk, errors and the memory of them -----

  /** In range, the effective risk is the mean plus lambda standard deviations, up to one, and the memory moves the
      fraction beta of the way to the error rate. */
  lemma InRange(cfg: Config, f: Maths, p: Prediction, health: real)
    requires MathsOk(f) && cfg.riskAversion >= 0.0
    requires 0.0 <= p.riskMean <= 1.0 && p.riskVariance >= 0.0 && 0.0 <= p.errorRate <= 1.0
    ensures EffectiveRisk(cfg, f, p) == Min(p.riskMean + cfg.riskAversion * f.sqrt(p.riskVariance), 1.0)
    ensures NextHealth(cfg, health, p) == health + cfg.healthBeta * (p.errorRate - health)
  {
    TimesNotNegative(cfg.riskAversion, f.sqrt(p.riskVariance));
    var b, e := cfg.healthBeta, p.errorRate;
    assert b * e + (1.0 - b) * health == health + b * (e - health);
  }

  /** A prediction with its fields brought into range. */
  function InUnit(p: Prediction): Prediction {
    Prediction(Clamp(p.riskMean, 0.0, 1.0), Max(p.riskVariance, 0.0), Clamp(p.confidence, 0.0, 1.0),
               Clamp(p.errorRate, 0.0, 1.0))
  }

  /** A field that is out of range acts as the nearest value in range, for known and for new servers. */
  lemma OutOfRangeActsAsNearest(cfg: Config, f: Maths, alpha: real, prev: Score, p: Prediction, now: int)
    requires Usable(cfg)
    ensures Refreshed(cfg, f, alpha, prev, p, now) == Refreshed(cfg, f, alpha, prev, InUnit(p), now)
    ensures Introduced(cfg, f, p, now) == Introduced(cfg, f, InUnit(p), now)
  {
    assert EffectiveRisk(cfg, f, p) == EffectiveRisk(cfg, f, InUnit(p));
  }

  /** An operator who is averse to risk sees strictly more of it in a less certain prediction, short of one. */
  lemma UncertaintyIsRisk(cfg: Config, f: Maths, p: Prediction, q: Prediction)
    requires MathsOk(f) && cfg.riskAversion > 0.0 && p.riskMean == q.riskMean
    requires 0.0 <= q.riskVariance < p.riskVariance && EffectiveRisk(cfg, f, q) < 1.0
    ensures EffectiveRisk(cfg, f, q) < EffectiveRisk(cfg, f, p)
  {
    hide Times;
    TimesStrict(cfg.riskAversion, f.sqrt(q.riskVariance), f.sqrt(p.riskVariance));
  }

  lemma TimesStrict(c: real, x: real, y: real)
    requires c > 0.0 && x < y
    ensures Times(c, x) < Times(c, y)
    ensures x >= 0.0 ==> Times(c, x) >= 0.0
  {
    ProductPositive(c, y - x);
    assert c * (y - x) == c * y - c * x;
    if x >= 0.0 {
      TimesNotNegative(c, x);
    }
  }

  /** A strictly higher error rate, or a strictly worse memory, is a strictly worse memory after the update. */
  lemma HealthStrict(cfg: Config, health: real, health': real, p: Prediction, p': Prediction)
    requires 0.0 < cfg.healthBeta < 1.0 && health >= health' && ErrorOf(p) >= ErrorOf(p')
    requires health > health' || ErrorOf(p) > ErrorOf(p')
    ensures NextHealth(cfg, health, p) > NextHealth(cfg, health', p')
  {
    hide ErrorOf, Blend;
    BlendStrict(cfg.healthBeta, ErrorOf(p'), ErrorOf(p), health', health);
  }

  lemma BlendStrict(c: real, x: real, x': real, y: real, y': real)
    requires 0.0 < c < 1.0 && x <= x' && y <= y' && (x < x' || y < y')
    ensures Blend(c, x, y) < Blend(c, x', y')
  {
    hide Times;
    if x < x' {
      TimesStrict(c, x, x');
      TimesMonotone(1.0 - c, y, y');
    } else {
      TimesStrict(1.0 - c, y, y');
    }
    BlendIsTimes(c, x, y);
    BlendIsTimes(c, x', y');
  }

  lemma BlendIsTimes(c: real, x: real, y: real)
    ensures Blend(c, x, y) == Times(c, x) + Times(1.0 - c, y)
  {
  }

  /** With the same error rate predicted every time, the memory approaches it geometrically: what is left of the
      difference after k updates is (1 - beta)^k of it. */
  lemma {:induction false} HealthForgets(cfg: Config, f: Maths, board: Board, updates: seq<Update>, sid: nat, e: real)
    requires Usable(cfg) && sid in board
    requires forall i {:trigger updates[i]} :: 0 <= i < |updates| ==>
      sid in updates[i].preds && ErrorOf(updates[i].preds[sid]) == e
    ensures sid in AfterUpdates(cfg, f, board, updates)
    ensures AfterUpdates(cfg, f, board, updates)[sid].health ==
            e + Times(Power(1.0 - cfg.healthBeta, |updates|), board[sid].health - e)
    decreases |updates|
  {
    hide Updated, Times, ErrorOf;
    var k := |updates|;
    if k == 0 {
      TimesOne(board[sid].health - e);
    } else {
      var init, u := updates[..k - 1], updates[k - 1];
      HealthForgets(cfg, f, board, init, sid, e);
      var before := AfterUpdates(cfg, f, board, init);
      UpdatedRecord(cfg, f, before, u.preds, u.load, u.now, sid);
      OneMoreFactor(cfg.healthBeta, e, board[sid].health - e, Power(1.0 - cfg.healthBeta, k - 1));
    }
  }

  lemma OneMoreFactor(b: real, e: real, gap: real, p: real)
    ensures Blend(b, e, e + Times(p, gap)) == e + Times(Times(1.0 - b, p), gap)
  {
    assert (1.0 - b) * (p * gap) == ((1.0 - b) * p) * gap;
    assert b * e + (1.0 - b) * (e + p * gap) == e + (1.0 - b) * (p * gap);
  }

  // ----- what is stored -----

  /** Of a predicted server the update stores the time, the risk, the confidence and the new memory, and keeps the
      domain; a new one gets domain 0 and its error rate as memory. All else but the weight stays. */
  lemma UpdatedRecord(cfg: Config, f: Maths, board: Board, preds: map<nat, Prediction>, load: real, now: int, sid: nat)
    requires Usable(cfg) && (sid in board || sid in preds)
    ensures sid in Updated(cfg, f, board, preds, load, now)
    ensures
      var after := Updated(cfg, f, board, preds, load, now)[sid];
      if sid !in preds then after == board[sid].(weight := after.weight)
      else
        && after.updatedAt == now && after.risk == EffectiveRisk(cfg, f, preds[sid])
        && after.confidence == Clamp(preds[sid].confidence, 0.0, 1.0)
        && after.domain == (if sid in board then board[sid].domain else 0)
        && after.health == if sid in board then NextHealth(cfg, board[sid].health, preds[sid]) else ErrorOf(preds[sid])
  {
    hide DomainScale, Total, EffectiveRisk, NextHealth, ErrorOf, RawWeight, ShiftedWeight, Alpha;
  }

  // ----- smoothing and clamp -----

  /** The shift stays at the smoothed weight while that is within s * max(w, min_weight) of the old one, and else
      stops at that distance. */
  lemma ShiftStopsAtBounds(cfg: Config, alpha: real, raw: real, w: real)
    requires Usable(cfg)
    ensures
      var smoothed, step := w + alpha * (raw - w), cfg.maxShift * Max(w, cfg.minWeight);
      var shifted := ShiftedWeight(cfg, alpha, raw, w);
      && (w - step <= smoothed <= w + step ==> shifted == smoothed)
      && (smoothed > w + step ==> shifted == w + step)
      && (smoothed < w - step ==> shifted == w - step)
  {
    assert Blend(alpha, raw, w) == w + alpha * (raw - w);
    assert MaxDelta(cfg, w) >= 0.0;
  }

  /** Both raw weights drive the old weight `w` out of the same end of the allowed shift. */
  predicate SameEnd(cfg: Config, alpha: real, low: real, high: real, w: real)
    requires Usable(cfg)
  {
    Blend(alpha, low, w) >= w + MaxDelta(cfg, w) || Blend(alpha, high, w) <= w - MaxDelta(cfg, w)
  }

  /** From the same old weight, a strictly larger raw weight gives a strictly larger shifted weight unless, and only
      unless, the clamp stops both at the same end. */
  lemma ShiftIsStrictIff(cfg: Config, alpha: real, low: real, high: real, w: real)
    requires Usable(cfg) && alpha > 0.0 && low < high && MaxDelta(cfg, w) > 0.0
    ensures ShiftedWeight(cfg, alpha, low, w) < ShiftedWeight(cfg, alpha, high, w) <==>
              !SameEnd(cfg, alpha, low, high, w)
  {
    hide Blend, Times;
    BlendIsTimes(alpha, low, w);
    BlendIsTimes(alpha, high, w);
    TimesStrict(alpha, low, high);
  }

  /** The smoothing rate at three loads: idle, half and full. */
  lemma DefaultRates()
    ensures Alpha(DEFAULT_CONFIG, 0.0) == 0.3 && Alpha(DEFAULT_CONFIG, 0.5) == 0.15
              && Alpha(DEFAULT_CONFIG, 1.0) == 0.05
  {
  }

  /** The rate stays within its limits and never rises with the load. */
  lemma AlphaFallsWithLoad(cfg: Config, load: real, load': real)
    requires Usable(cfg) && cfg.smoothingAlpha >= 0.0 && load <= load'
    ensures cfg.minAlpha <= Alpha(cfg, load') <= Alpha(cfg, load) <= cfg.maxAlpha
  {
    var x, x' := Clamp(load, 0.0, 1.0), Clamp(load', 0.0, 1.0);
    hide Clamp, Times;
    ClampOrder(load, load', 0.0, 1.0);
    TimesMonotone(cfg.smoothingAlpha, 1.0 - x', 1.0 - x);
    var y, y' := Times(cfg.smoothingAlpha, 1.0 - x), Times(cfg.smoothingAlpha, 1.0 - x');
    ClampOrder(y', y, cfg.minAlpha, cfg.maxAlpha);
  }

  lemma ClampOrder(x: real, y: real, lo: real, hi: real)
    requires lo <= hi && x <= y
    ensures lo <= Clamp(x, lo, hi) <= Clamp(y, lo, hi) <= hi
  {
  }

  /** A busier cluster moves a weight no further: the shift at the higher load lies between the old weight and the
      shift at the lower one. */
  lemma BusyClusterMovesLess(cfg: Config, load: real, load': real, raw: real, w: real)
    requires Usable(cfg) && cfg.smoothingAlpha >= 0.0 && cfg.minAlpha >= 0.0 && load <= load'
    ensures
      var idle, busy := ShiftedWeight(cfg, Alpha(cfg, load), raw, w), ShiftedWeight(cfg, Alpha(cfg, load'), raw, w);
      if raw >= w then w <= busy <= idle else idle <= busy <= w
  {
    hide Alpha;
    AlphaFallsWithLoad(cfg, load, load');
    var a, a' := Alpha(cfg, load), Alpha(cfg, load');
    RateOrder(a', a, raw, w);
    assert MaxDelta(cfg, w) >= 0.0;
  }

  lemma RateOrder(a: real, a': real, raw: real, w: real)
    requires 0.0 <= a <= a'
    ensures if raw >= w then w <= Blend(a, raw, w) <= Blend(a', raw, w) else Blend(a', raw, w) <= Blend(a, raw, w) <= w
  {
    assert Blend(a, raw, w) == w + a * (raw - w) && Blend(a', raw, w) == w + a' * (raw - w);
    if raw >= w {
      TimesNotNegative(a, raw - w);
      TimesNotNegative(a' - a, raw - w);
    } else {
      TimesNotNegative(a, w - raw);
      TimesNotNegative(a' - a, w - raw);
    }
  }

  // ----- one server against another -----

  /** Two predicted servers of the same weight and domain. `a` has at least the risk, the errors and the memory of
      `b`, and strictly more of one of them. */
  predicate StrictlyWorse(cfg: Config, f: Maths, board: Board, preds: map<nat, Prediction>, a: nat, b: nat) {
    && a in board && b in board && a in preds && b in preds
    && board[a].weight == board[b].weight && board[a].domain == board[b].domain
    && EffectiveRisk(cfg, f, preds[a]) >= EffectiveRisk(cfg, f, preds[b])
    && ErrorOf(preds[a]) >= ErrorOf(preds[b]) && board[a].health >= board[b].health
    && (EffectiveRisk(cfg, f, preds[a]) > EffectiveRisk(cfg, f, preds[b]) || ErrorOf(preds[a]) > ErrorOf(preds[b])
        || board[a].health > board[b].health)
  }

  ghost function RawOf(cfg: Config, f: Maths, board: Board, preds: map<nat, Prediction>, sid: nat): real
    requires sid in board && sid in preds
  {
    RawWeight(f, EffectiveRisk(cfg, f, preds[sid]), NextHealth(cfg, board[sid].health, preds[sid]))
  }

  lemma WorseRaw(cfg: Config, f: Maths, board: Board, preds: map<nat, Prediction>, a: nat, b: nat)
    requires MathsOk(f) && 0.0 < cfg.healthBeta < 1.0 && StrictlyWorse(cfg, f, board, preds, a, b)
    ensures RawOf(cfg, f, board, preds, a) < RawOf(cfg, f, board, preds, b)
  {
    hide EffectiveRisk, ErrorOf, NextHealth, RawWeight, MathsOk;
    HealthMonotone(cfg, board[a].health, board[b].health, preds[a], preds[b]);
    if ErrorOf(preds[a]) > ErrorOf(preds[b]) || board[a].health > board[b].health {
      HealthStrict(cfg, board[a].health, board[b].health, preds[a], preds[b]);
    }
    RawWeightStrict(f, EffectiveRisk(cfg, f, preds[a]), EffectiveRisk(cfg, f, preds[b]),
                    NextHealth(cfg, board[a].health, preds[a]), NextHealth(cfg, board[b].health, preds[b]));
  }

  /** So one update gives the worse of two equal servers the strictly smaller weight, if and only if the clamp does
      not stop both at the same end and the better one stays above the floor. */
  lemma WorseServerWeighsLessIff(cfg: Config, f: Maths, board: Board, preds: map<nat, Prediction>, load: real,
                                 now: int, a: nat, b: nat)
    requires Averaging(cfg) && MathsOk(f) && AllPositive(board) && cfg.cap > 0.0
    requires 0.0 < cfg.healthBeta < 1.0 && cfg.minAlpha > 0.0 && cfg.maxShift > 0.0
    requires StrictlyWorse(cfg, f, board, preds, a, b)
    ensures
      var raw, after := RawBoard(cfg, f, board, preds, load, now), Updated(cfg, f, board, preds, load, now);
      after[a].weight < after[b].weight <==>
        && !SameEnd(cfg, Alpha(cfg, load), RawOf(cfg, f, board, preds, a), RawOf(cfg, f, board, preds, b),
                    board[a].weight)
        && Capped(cfg, raw)[b].weight > cfg.minWeight
  {
    hide RawBoard, Alpha, RawOf, EffectiveRisk, ErrorOf, SameEnd, Capped, Floored, Normalised, MathsOk, MaxDelta;
    hide ShiftedWeight, AllPositive;
    var raw := RawBoard(cfg, f, board, preds, load, now);
    var w := board[a].weight;
    WorseRaw(cfg, f, board, preds, a, b);
    RawAllPositive(cfg, f, board, preds, load, now);
    StepIsPositive(cfg, board, a);
    AlphaPositive(cfg, load);
    ShiftIsStrictIff(cfg, Alpha(cfg, load), RawOf(cfg, f, board, preds, a), RawOf(cfg, f, board, preds, b), w);
    RawOfPredicted(cfg, f, board, preds, load, now, a);
    RawOfPredicted(cfg, f, board, preds, load, now, b);
    RawOrder(cfg, f, board, preds, load, a, b);
    LargerStaysLargerIff(cfg, raw, b, a);
  }

  lemma RawOrder(cfg: Config, f: Maths, board: Board, preds: map<nat, Prediction>, load: real, a: nat, b: nat)
    requires Averaging(cfg) && MathsOk(f) && AllPositive(board) && a in board && b in board && a in preds && b in preds
    requires RawOf(cfg, f, board, preds, a) < RawOf(cfg, f, board, preds, b) && board[a].weight == board[b].weight
    ensures ShiftedWeight(cfg, Alpha(cfg, load), RawOf(cfg, f, board, preds, a), board[a].weight) <=
            ShiftedWeight(cfg, Alpha(cfg, load), RawOf(cfg, f, board, preds, b), board[b].weight)
  {
    hide EffectiveRisk, NextHealth, ShiftedWeight, MathsOk;
    AlphaIsARate(cfg, load);
    var risk, health := EffectiveRisk(cfg, f, preds[a]), NextHealth(cfg, board[a].health, preds[a]);
    RawWeightAntitone(f, risk, risk, health, health);
    ShiftMonotone(cfg, Alpha(cfg, load), RawOf(cfg, f, board, preds, a), RawOf(cfg, f, board, preds, b),
                  board[a].weight, board[b].weight);
  }

  lemma AlphaPositive(cfg: Config, load: real)
    requires Usable(cfg) && cfg.minAlpha > 0.0
    ensures Alpha(cfg, load) > 0.0
  {
  }

  lemma StepIsPositive(cfg: Config, board: Board, sid: nat)
    requires Usable(cfg) && cfg.maxShift > 0.0 && AllPositive(board) && sid in board
    ensures MaxDelta(cfg, board[sid].weight) > 0.0
  {
    ProductPositive(cfg.maxShift, Max(board[sid].weight, cfg.minWeight));
  }

  lemma RawAllPositive(cfg: Config, f: Maths, board: Board, preds: map<nat, Prediction>, load: real, now: int)
    requires Averaging(cfg) && MathsOk(f) && AllPositive(board)
    ensures AllPositive(RawBoard(cfg, f, board, preds, load, now))
  {
    hide MathsOk, RawScore;
    var raw := RawBoard(cfg, f, board, preds, load, now);
    forall sid {:trigger raw[sid]} | sid in raw ensures raw[sid].weight > 0.0 {
      RawPositive(cfg, f, board, preds, load, now, sid);
    }
  }

  lemma RawOfPredicted(cfg: Config, f: Maths, board: Board, preds: map<nat, Prediction>, load: real, now: int, sid: nat)
    requires Usable(cfg) && sid in board && sid in preds
    ensures sid in RawBoard(cfg, f, board, preds, load, now)
    ensures RawBoard(cfg, f, board, preds, load, now)[sid].weight ==
            ShiftedWeight(cfg, Alpha(cfg, load), RawOf(cfg, f, board, preds, sid), board[sid].weight)
    ensures RawBoard(cfg, f, board, preds, load, now)[sid].domain == board[sid].domain
  {
    hide EffectiveRisk, NextHealth, RawWeight, ShiftedWeight, Alpha;
  }

  lemma QuotientStrict(x: real, y: real, t: real)
    requires x < y && t > 0.0
    ensures x / t < y / t
  {
    Cancel(x, t);
    Cancel(y, t);
    var p, q := x / t, y / t;
    assert (q - p) * t == y - x;
    SignOfProduct(q - p, t);
  }

  /** Of two servers of one domain the larger raw weight ends up strictly larger, if and only if it is larger and
      stays above the floor once capped. */
  lemma LargerStaysLargerIff(cfg: Config, raw: Board, a: nat, b: nat)
    requires Usable(cfg) && cfg.cap > 0.0 && AllPositive(raw) && a in raw && b in raw
    requires raw[a].domain == raw[b].domain && raw[b].weight <= raw[a].weight
    ensures
      var after := Normalised(Floored(cfg, Capped(cfg, raw)));
      && a in after && b in after
      && (after[b].weight < after[a].weight <==>
          raw[b].weight < raw[a].weight && Capped(cfg, raw)[a].weight > cfg.minWeight)
  {
    hide Total, DomainScale, AllPositive, Scaled;
    var capped := Capped(cfg, raw);
    var floored := Floored(cfg, capped);
    CappedOrder(cfg, raw, a, b);
    CappedPositive(cfg, raw);
    FlooredPositive(cfg, capped);
    if floored[b].weight < floored[a].weight {
      QuotientStrict(floored[b].weight, floored[a].weight, Total(floored));
    }
  }

  lemma FlooredPositive(cfg: Config, capped: Board)
    requires AllPositive(capped) && capped.Keys != {}
    ensures Total(Floored(cfg, capped)) > 0.0
  {
    TotalPositive(Floored(cfg, capped));
  }

  lemma CappedOrder(cfg: Config, raw: Board, a: nat, b: nat)
    requires cfg.cap > 0.0 && a in raw && b in raw && raw[a].domain == raw[b].domain
    ensures raw[b].weight < raw[a].weight <==> Capped(cfg, raw)[b].weight < Capped(cfg, raw)[a].weight
    ensures raw[b].weight == raw[a].weight ==> Capped(cfg, raw)[b].weight == Capped(cfg, raw)[a].weight
  {
    hide Total, DomainTotal, ScaleFactor;
    var scale := DomainScale(cfg, raw, raw[a].domain);
    ScalePositive(cfg.cap, DomainTotal(raw, raw[a].domain), Total(raw));
    SignOfProduct(raw[a].weight - raw[b].weight, scale);
    assert (raw[a].weight - raw[b].weight) * scale == raw[a].weight * scale - raw[b].weight * scale;
  }

  /** Two servers that appear in the predictions only: each starts from the raw weight of its own risk and errors, so
      the one with more of either starts lower, and ends lower iff the better one stays above the floor. */
  lemma WorseNewcomerStartsLower(cfg: Config, f: Maths, board: Board, preds: map<nat, Prediction>, load: real, now: int,
                                 a: nat, b: nat)
    requires Averaging(cfg) && MathsOk(f) && AllPositive(board) && cfg.cap > 0.0
    requires a !in board && b !in board && a in preds && b in preds
    requires EffectiveRisk(cfg, f, preds[a]) >= EffectiveRisk(cfg, f, preds[b])
    requires ErrorOf(preds[a]) >= ErrorOf(preds[b])
    requires EffectiveRisk(cfg, f, preds[a]) > EffectiveRisk(cfg, f, preds[b]) || ErrorOf(preds[a]) > ErrorOf(preds[b])
    ensures
      var raw, after := RawBoard(cfg, f, board, preds, load, now), Updated(cfg, f, board, preds, load, now);
      && raw[a].weight == RawWeight(f, EffectiveRisk(cfg, f, preds[a]), ErrorOf(preds[a]))
      && 0.0 < raw[a].weight < raw[b].weight
      && (after[a].weight < after[b].weight <==> Capped(cfg, raw)[b].weight > cfg.minWeight)
  {
    hide RawBoard, EffectiveRisk, ErrorOf, RawWeight, Capped, Floored, Normalised, MathsOk, AllPositive;
    var raw := RawBoard(cfg, f, board, preds, load, now);
    RawWeightStrict(f, EffectiveRisk(cfg, f, preds[a]), EffectiveRisk(cfg, f, preds[b]), ErrorOf(preds[a]),
                    ErrorOf(preds[b]));
    RawAllPositive(cfg, f, board, preds, load, now);
    RawOfNewcomer(cfg, f, board, preds, load, now, a);
    RawOfNewcomer(cfg, f, board, preds, load, now, b);
    LargerStaysLargerIff(cfg, raw, b, a);
  }

  lemma RawOfNewcomer(cfg: Config, f: Maths, board: Board, preds: map<nat, Prediction>, load: real, now: int, sid: nat)
    requires Usable(cfg) && sid !in board && sid in preds
    ensures sid in RawBoard(cfg, f, board, preds, load, now)
    ensures
      var score := RawBoard(cfg, f, board, preds, load, now)[sid];
      score.domain == 0 && score.weight == RawWeight(f, EffectiveRisk(cfg, f, preds[sid]), ErrorOf(preds[sid]))
  {
    hide EffectiveRisk, ErrorOf, RawWeight, Refreshed;
  }
}
