/** Weights that start positive stay positive and sum to one, with or without a floor, as long as the rates are
    rates and the cap is not zero. */
module ScoreboardPositive {
  import opened Sums
  import opened Scoreboard
  import opened ScoreboardFloor
  import opened ScoreboardDominance

  lemma BlendPositive(c: real, x: real, y: real)
    requires 0.0 <= c <= 1.0 && x > 0.0 && y > 0.0
    ensures Blend(c, x, y) > 0.0
  {
    if x < y {
      TimesNotNegative(1.0 - c, y - x);
      assert c * x + (1.0 - c) * y == x + (1.0 - c) * (y - x);
    } else {
      TimesNotNegative(c, x - y);
      assert c * x + (1.0 - c) * y == y + c * (x - y);
    }
  }

  lemma ShiftedWithin(cfg: Config, alpha: real, raw: real, w: real)
    requires Usable(cfg) && 0.0 <= alpha <= 1.0 && raw > 0.0 && w > 0.0
    ensures 0.0 < ShiftedWeight(cfg, alpha, raw, w) <= Times(1.0 + cfg.maxShift, Max(w, cfg.minWeight))
  {
    hide Blend;
    BlendPositive(alpha, raw, w);
    var u := Max(w, cfg.minWeight);
    TimesNotNegative(cfg.maxShift, u);
    assert (1.0 + cfg.maxShift) * u == u + cfg.maxShift * u;
  }

  lemma RawWithin(cfg: Config, f: Maths, board: Board, preds: map<nat, Prediction>, load: real, now: int, sid: nat)
    requires Averaging(cfg) && MathsOk(f) && sid in board && board[sid].weight > 0.0
    ensures 0.0 < RawBoard(cfg, f, board, preds, load, now)[sid].weight <=
            Times(1.0 + cfg.maxShift, Max(board[sid].weight, cfg.minWeight))
  {
    hide ShiftedWeight, Times, EffectiveRisk, NextHealth, RawWeight, Alpha, MathsOk;
    if sid in preds {
      var risk := EffectiveRisk(cfg, f, preds[sid]);
      var health := NextHealth(cfg, board[sid].health, preds[sid]);
      RawWeightAntitone(f, risk, risk, health, health);
      AlphaIsARate(cfg, load);
      ShiftedWithin(cfg, Alpha(cfg, load), RawWeight(f, risk, health), board[sid].weight);
    } else {
      WithinItsShift(cfg, board[sid].weight);
    }
  }

  lemma WithinItsShift(cfg: Config, w: real)
    requires Usable(cfg)
    ensures w <= Times(1.0 + cfg.maxShift, Max(w, cfg.minWeight))
  {
    var u := Max(w, cfg.minWeight);
    TimesNotNegative(cfg.maxShift, u);
    assert (1.0 + cfg.maxShift) * u == u + cfg.maxShift * u;
  }

  lemma TotalPositive(raw: Board)
    requires raw.Keys != {} && forall sid {:trigger raw[sid]} :: sid in raw ==> raw[sid].weight > 0.0
    ensures Total(raw) > 0.0
  {
    SumPositive(Weights(raw), raw.Keys);
  }

  ghost predicate AllPositive(board: Board) {
    forall sid {:trigger board[sid]} :: sid in board ==> board[sid].weight > 0.0
  }

  lemma RawPositive(cfg: Config, f: Maths, board: Board, preds: map<nat, Prediction>, load: real, now: int, sid: nat)
    requires Averaging(cfg) && MathsOk(f) && AllPositive(board) && (sid in board || sid in preds)
    ensures RawBoard(cfg, f, board, preds, load, now)[sid].weight > 0.0
  {
    hide Refreshed, EffectiveRisk, ErrorOf, RawWeight, MathsOk;
    if sid in board {
      RawWithin(cfg, f, board, preds, load, now, sid);
    } else {
      var risk, health := EffectiveRisk(cfg, f, preds[sid]), ErrorOf(preds[sid]);
      RawWeightAntitone(f, risk, risk, health, health);
    }
  }

  lemma ScalePositive(cap: real, d: real, t: real)
    requires cap > 0.0
    ensures ScaleFactor(cap, d, t) > 0.0
  {
    if t > 0.0 && d / t > cap {
      QuotientPositive(d, t);
      SignOfProduct(cap, t);
      Cancel(cap * t, d);
      SignOfProduct(cap * t / d, d);
    }
  }

  lemma ProductPositive(x: real, y: real)
    requires x > 0.0 && y > 0.0
    ensures x * y > 0.0
  {
  }

  lemma CappedPositive(cfg: Config, raw: Board)
    requires cfg.cap > 0.0 && AllPositive(raw)
    ensures AllPositive(Capped(cfg, raw))
  {
    hide ScaleFactor, DomainTotal, Total;
    forall sid | sid in raw ensures CappedScore(cfg, raw, sid).weight > 0.0 {
      var scale := DomainScale(cfg, raw, raw[sid].domain);
      ScalePositive(cfg.cap, DomainTotal(raw, raw[sid].domain), Total(raw));
      ProductPositive(raw[sid].weight, scale);
    }
  }

  lemma NormalisedPositive(b: Board)
    requires AllPositive(b)
    ensures IsDistribution(Normalised(b))
  {
    if b.Keys != {} {
      TotalPositive(b);
      NormalisedSumsToOne(b);
      hide Total;
      forall sid | sid in b ensures b[sid].weight / Total(b) > 0.0 {
        Cancel(b[sid].weight, Total(b));
        SignOfProduct(b[sid].weight / Total(b), Total(b));
      }
    }
  }

  /** One update of positive weights gives a distribution, also with min_weight zero. */
  lemma UpdateStaysPositive(cfg: Config, f: Maths, board: Board, preds: map<nat, Prediction>, load: real, now: int)
    requires Averaging(cfg) && cfg.cap > 0.0 && MathsOk(f) && AllPositive(board)
    ensures IsDistribution(Updated(cfg, f, board, preds, load, now))
  {
    hide RawScore, CappedScore, Normalised, IsDistribution, MathsOk;
    var raw := RawBoard(cfg, f, board, preds, load, now);
    forall sid {:trigger raw[sid]} | sid in raw ensures raw[sid].weight > 0.0 {
      RawPositive(cfg, f, board, preds, load, now, sid);
    }
    CappedPositive(cfg, raw);
    assert AllPositive(Floored(cfg, Capped(cfg, raw)));
    NormalisedPositive(Floored(cfg, Capped(cfg, raw)));
  }

  /** From with_servers on, so does every run. */
  lemma {:induction false} RunsStayPositive(cfg: Config, f: Maths, servers: seq<(nat, nat)>, start: int,
                                            updates: seq<Update>)
    requires Averaging(cfg) && cfg.cap > 0.0 && MathsOk(f)
    ensures AllPositive(AfterUpdates(cfg, f, Initial(servers, start), updates))
    ensures updates != [] ==> IsDistribution(AfterUpdates(cfg, f, Initial(servers, start), updates))
    decreases |updates|
  {
    hide MathsOk, Updated;
    if updates == [] {
      if servers != [] {
        InitialIsUniform(servers, 1.0 / |servers| as real, start);
        SharesOf(|servers| as real, 0.0);
      }
    } else {
      var u, init := updates[|updates| - 1], updates[..|updates| - 1];
      RunsStayPositive(cfg, f, servers, start, init);
      UpdateStaysPositive(cfg, f, AfterUpdates(cfg, f, Initial(servers, start), init), u.preds, u.load, u.now);
    }
  }
}
