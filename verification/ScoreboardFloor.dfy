/** Over any run of updates the weights stay positive and sum to one, and every server keeps the share that the
    floor really guarantees. The floor is applied before normalisation, so that share is below min_weight. */
module ScoreboardFloor {
  import opened Sums
  import opened Scoreboard

  /** Weights that could be shares: none negative, together at most one. */
  ghost predicate IsShares(board: Board) {
    && (forall sid {:trigger board[sid]} :: sid in board ==> board[sid].weight >= 0.0)
    && Total(board) <= 1.0
  }

  ghost predicate IsDistribution(board: Board) {
    && (forall sid {:trigger board[sid]} :: sid in board ==> board[sid].weight > 0.0)
    && (board != map[] ==> Total(board) == 1.0)
  }

  // ----- one server -----

  lemma ShiftBound(cfg: Config, alpha: real, raw: real, weight: real)
    requires Usable(cfg) && weight >= 0.0
    ensures ShiftedWeight(cfg, alpha, raw, weight) <=
              (1.0 + cfg.maxShift) * weight + (1.0 + cfg.maxShift) * cfg.minWeight
  {
    var s, m := cfg.maxShift, cfg.minWeight;
    assert s * weight >= 0.0 && s * m >= 0.0;
    assert MaxDelta(cfg, weight) <= s * weight + s * m;
    assert (1.0 + s) * weight == weight + s * weight;
    assert (1.0 + s) * m == m + s * m;
  }

  lemma RawAtMostOne(f: Maths, risk: real, health: real)
    requires MathsOk(f) && risk >= 0.0 && health >= 0.0
    ensures 0.0 < RawWeight(f, risk, health) <= 1.0
  {
    var x, y := f.exp(-risk), f.exp(-health);
    assert 0.0 < x <= f.exp(0.0) && 0.0 < y <= f.exp(0.0);
    ProductInUnit(x, y);
  }

  lemma ProductInUnit(x: real, y: real)
    requires 0.0 < x <= 1.0 && 0.0 < y <= 1.0
    ensures 0.0 < x * y <= 1.0
  {
    assert x * (1.0 - y) >= 0.0;
  }

  lemma ScaleInUnit(cap: real, d: real, t: real)
    requires cap >= 0.0
    ensures 0.0 <= ScaleFactor(cap, d, t) <= 1.0
  {
    if t > 0.0 && d / t > cap {
      QuotientPositive(d, t);
      assert d == (d / t) * t > cap * t;
      QuotientInUnit(cap * t, d);
    }
  }

  lemma QuotientInUnit(x: real, d: real)
    requires 0.0 <= x <= d && d > 0.0
    ensures 0.0 <= x / d <= 1.0
  {
  }

  lemma ScaledAtMost(x: real, scale: real, bound: real)
    requires 0.0 <= scale <= 1.0 && x <= bound && 0.0 <= bound
    ensures x * scale <= bound
  {
    if x <= 0.0 {
      assert x * scale <= 0.0;
    } else {
      assert x * (1.0 - scale) >= 0.0;
    }
  }

  // ----- one board -----

  ghost function BoardBeforeNormalising(cfg: Config, f: Maths, board: Board, preds: map<nat, Prediction>, load: real,
                                        now: int): Board
    requires Usable(cfg)
  {
    Floored(cfg, Capped(cfg, RawBoard(cfg, f, board, preds, load, now)))
  }

  function Growth(cfg: Config): real {
    1.0 + cfg.maxShift
  }

  function Slack(cfg: Config): real {
    (1.0 + cfg.maxShift) * cfg.minWeight
  }

  /** A known server weighs at most (1 + s)(w + m) before normalisation, a new one at most max(1, m). */
  function WeightBound(cfg: Config, board: Board, sid: nat): real {
    if sid in board then Affine(Growth(cfg), board[sid].weight, Slack(cfg))
    else Max(1.0, cfg.minWeight)
  }

  lemma KnownBound(s: real, w: real, m: real)
    requires s >= 0.0 && w >= 0.0 && m >= 0.0
    ensures w <= (1.0 + s) * w + (1.0 + s) * m
    ensures m <= (1.0 + s) * w + (1.0 + s) * m
  {
    assert s * w >= 0.0 && s * m >= 0.0;
  }

  lemma RefreshedBound(cfg: Config, f: Maths, alpha: real, prev: Score, p: Prediction, now: int)
    requires Usable(cfg) && prev.weight >= 0.0
    ensures Refreshed(cfg, f, alpha, prev, p, now).weight <=
            (1.0 + cfg.maxShift) * prev.weight + (1.0 + cfg.maxShift) * cfg.minWeight
  {
    var risk := EffectiveRisk(cfg, f, p);
    var health := NextHealth(cfg, prev.health, p);
    ShiftBound(cfg, alpha, RawWeight(f, risk, health), prev.weight);
  }

  lemma EffectiveRiskInUnit(cfg: Config, f: Maths, p: Prediction)
    ensures 0.0 <= EffectiveRisk(cfg, f, p) <= 1.0
  {
  }

  lemma RawBound(cfg: Config, f: Maths, board: Board, preds: map<nat, Prediction>, load: real, now: int, sid: nat)
    requires Usable(cfg) && MathsOk(f) && (sid in board || sid in preds)
    requires sid in board ==> board[sid].weight >= 0.0
    ensures RawScore(cfg, f, board, preds, load, now, sid).weight <= WeightBound(cfg, board, sid)
    ensures cfg.minWeight <= WeightBound(cfg, board, sid)
  {
    hide Refreshed, EffectiveRisk, RawWeight, Alpha;
    if sid in board {
      KnownBound(cfg.maxShift, board[sid].weight, cfg.minWeight);
      if sid in preds {
        RefreshedBound(cfg, f, Alpha(cfg, load), board[sid], preds[sid], now);
      }
    } else {
      EffectiveRiskInUnit(cfg, f, preds[sid]);
      RawAtMostOne(f, EffectiveRisk(cfg, f, preds[sid]), ErrorOf(preds[sid]));
    }
  }

  lemma FloorAfterScale(x: real, scale: real, bound: real, m: real)
    requires 0.0 <= scale <= 1.0 && x <= bound && 0.0 <= m <= bound
    ensures m <= Max(x * scale, m) <= bound
  {
    ScaledAtMost(x, scale, bound);
  }

  lemma DomainScaleInUnit(cfg: Config, board: Board, domain: nat)
    requires cfg.cap >= 0.0
    ensures 0.0 <= DomainScale(cfg, board, domain) <= 1.0
  {
    hide ScaleFactor, DomainTotal, Total;
    ScaleInUnit(cfg.cap, DomainTotal(board, domain), Total(board));
  }

  /** Capping and flooring any board. */
  lemma FlooredScore(cfg: Config, raw: Board, sid: nat, bound: real)
    requires Usable(cfg) && sid in raw && raw[sid].weight <= bound && cfg.minWeight <= bound
    ensures cfg.minWeight <= Floored(cfg, Capped(cfg, raw))[sid].weight <= bound
  {
    hide DomainScale;
    DomainScaleInUnit(cfg, raw, raw[sid].domain);
    FloorAfterScale(raw[sid].weight, DomainScale(cfg, raw, raw[sid].domain), bound, cfg.minWeight);
  }

  lemma FlooredBounds(cfg: Config, f: Maths, board: Board, preds: map<nat, Prediction>, load: real, now: int, sid: nat)
    requires Usable(cfg) && MathsOk(f) && (sid in board || sid in preds)
    requires sid in board ==> board[sid].weight >= 0.0
    ensures sid in BoardBeforeNormalising(cfg, f, board, preds, load, now)
    ensures cfg.minWeight <= BoardBeforeNormalising(cfg, f, board, preds, load, now)[sid].weight <=
              WeightBound(cfg, board, sid)
  {
    RawBound(cfg, f, board, preds, load, now, sid);
    FlooredScore(cfg, RawBoard(cfg, f, board, preds, load, now), sid, WeightBound(cfg, board, sid));
  }

  /** No server of `b` weighs more than its bound. */
  ghost predicate WithinBounds(cfg: Config, board: Board, b: Board) {
    forall sid {:trigger b[sid]} :: sid in b ==> b[sid].weight <= WeightBound(cfg, board, sid)
  }

  /** What `n` known servers of weight `total` in all can weigh before normalisation. */
  function KnownTotal(cfg: Config, total: real, n: nat): real {
    AffineTotal(Growth(cfg), total, Slack(cfg), n)
  }

  function AddedTotal(cfg: Config, k: nat): real {
    Max(1.0, cfg.minWeight) * k as real
  }

  lemma KnownPart(cfg: Config, board: Board, b: Board)
    requires board.Keys <= b.Keys && WithinBounds(cfg, board, b)
    ensures Sum(Weights(b), board.Keys) <= KnownTotal(cfg, Total(board), |board.Keys|)
  {
    hide Affine, AffineTotal, Growth, Slack;
    var a, c := Growth(cfg), Slack(cfg);
    var v, w := Weights(b), Weights(board);
    forall sid {:trigger v[sid]} | sid in board.Keys ensures v[sid] <= Affine(a, w[sid], c) {
      assert b[sid].weight <= WeightBound(cfg, board, sid);
    }
    SumAffineBound(v, w, board.Keys, a, c);
  }

  lemma AddedPart(cfg: Config, board: Board, added: set<nat>, b: Board)
    requires added <= b.Keys && board.Keys !! added && WithinBounds(cfg, board, b)
    ensures Sum(Weights(b), added) <= AddedTotal(cfg, |added|)
  {
    forall sid | sid in added ensures Weights(b)[sid] <= Max(1.0, cfg.minWeight) {
      assert b[sid].weight <= WeightBound(cfg, board, sid);
    }
    AtMostConstant(Weights(b), added, Max(1.0, cfg.minWeight));
  }

  lemma FlooredTotal(cfg: Config, board: Board, added: set<nat>, b: Board)
    requires Usable(cfg) && IsShares(board)
    requires b.Keys == board.Keys + added && board.Keys !! added && WithinBounds(cfg, board, b)
    ensures Total(b) <= TotalBound(cfg, |board.Keys|, |added|)
  {
    hide WithinBounds, KnownTotal, AddedTotal, TotalBound, Total;
    assert Total(b) == Sum(Weights(b), board.Keys) + Sum(Weights(b), added) by {
      SplitTotal(b, board.Keys, added);
    }
    KnownPart(cfg, board, b);
    AddedPart(cfg, board, added, b);
    Combine(cfg, Total(board), |board.Keys|, |added|);
  }

  lemma SplitTotal(b: Board, known: set<nat>, added: set<nat>)
    requires b.Keys == known + added && known !! added
    ensures Total(b) == Sum(Weights(b), known) + Sum(Weights(b), added)
  {
    SumSplit(Weights(b), known, added);
  }

  lemma Combine(cfg: Config, total: real, n: nat, k: nat)
    requires cfg.maxShift >= 0.0 && total <= 1.0
    ensures KnownTotal(cfg, total, n) + AddedTotal(cfg, k) <= TotalBound(cfg, n, k)
  {
    BoundArithmetic(1.0 + cfg.maxShift, cfg.minWeight, total, n as real);
  }

  lemma AtMostConstant(w: map<nat, real>, ids: set<nat>, c: real)
    requires ids <= w.Keys && forall id {:trigger w[id]} :: id in ids ==> w[id] <= c
    ensures Sum(w, ids) <= c * |ids| as real
  {
    var v := map id | id in w :: c;
    SumAtMost(w, v, ids);
    SumConstant(v, ids, c);
  }

  lemma BoundArithmetic(a: real, m: real, total: real, n: real)
    requires a >= 0.0 && total <= 1.0
    ensures a * total + a * m * n <= a * (1.0 + n * m)
  {
    assert a * (1.0 - total) >= 0.0;
    assert a * (1.0 + n * m) == a + a * m * n;
  }

  /** What the weights of `n` known and `k` new servers can add up to before normalisation. */
  function TotalBound(cfg: Config, n: nat, k: nat): real {
    (1.0 + cfg.maxShift) * (1.0 + n as real * cfg.minWeight) + Max(1.0, cfg.minWeight) * k as real
  }

  /** The share every server is left with by an update of `n` known and `k` new servers. */
  function ExplorationFloor(cfg: Config, n: nat, k: nat): real
    requires Usable(cfg)
  {
    TotalBoundPositive(cfg, n, k);
    cfg.minWeight / TotalBound(cfg, n, k)
  }

  lemma TotalBoundPositive(cfg: Config, n: nat, k: nat)
    requires Usable(cfg)
    ensures TotalBound(cfg, n, k) >= 1.0
  {
    var s, x := cfg.maxShift, n as real * cfg.minWeight;
    assert x >= 0.0;
    assert (1.0 + s) * (1.0 + x) == 1.0 + s + x + s * x;
    assert s * x >= 0.0;
    assert Max(1.0, cfg.minWeight) * k as real >= 0.0;
  }

  // ----- normalisation -----

  lemma DivideIsTimes(x: real, t: real)
    requires t > 0.0
    ensures x / t == Times(1.0 / t, x)
    ensures Times(1.0 / t, t) == 1.0
  {
  }

  lemma NormalisedSumsToOne(board: Board)
    requires Total(board) > 0.0
    ensures Total(Normalised(board)) == 1.0
  {
    hide Times;
    var t := Total(board);
    var v, w := Weights(Normalised(board)), Weights(board);
    forall sid | sid in board.Keys ensures v[sid] == Times(1.0 / t, w[sid]) {
      DivideIsTimes(w[sid], t);
    }
    SumScaled(v, w, board.Keys, 1.0 / t);
    DivideIsTimes(t, t);
    assert Normalised(board).Keys == board.Keys;
  }

  lemma SignOfProduct(a: real, q: real)
    requires q > 0.0
    ensures a * q > 0.0 <==> a > 0.0
    ensures a * q == 0.0 <==> a == 0.0
  {
  }

  lemma Cancel(x: real, d: real)
    requires d > 0.0
    ensures x / d * d == x
  {
  }

  lemma QuotientOrder(d: real, t: real, cap: real)
    requires t > 0.0
    ensures d / t > cap <==> d > Times(cap, t)
    ensures d / t == cap <==> d == Times(cap, t)
  {
    Cancel(d, t);
    var q := d / t;
    assert q * t - cap * t == (q - cap) * t;
  }

  lemma QuotientMonotone(m: real, w: real, t: real)
    requires m <= w && t > 0.0
    ensures m / t <= w / t
  {
    assert w / t - m / t == (w - m) / t;
    assert (w - m) / t >= 0.0;
  }

  lemma QuotientAntitone(m: real, t: real, bound: real)
    requires m > 0.0 && 0.0 < t <= bound
    ensures 0.0 < m / bound <= m / t
  {
    InverseMonotone(t, bound);
    assert m / bound == m * (1.0 / bound) && m / t == m * (1.0 / t);
  }

  /** Normalising weights of at least `m > 0` that add up to at most `bound`. */
  lemma NormalisingShares(b: Board, m: real, bound: real)
    requires m > 0.0 && AtLeast(b, m) && Total(b) <= bound && bound > 0.0
    ensures IsDistribution(Normalised(b)) && Normalised(b).Keys == b.Keys && AtLeast(Normalised(b), m / bound)
  {
    if b.Keys != {} {
      SumPositive(Weights(b), b.Keys);
      NormalisedSumsToOne(b);
      forall sid | sid in b ensures b[sid].weight / Total(b) >= m / bound > 0.0 {
        QuotientMonotone(m, b[sid].weight, Total(b));
        QuotientAntitone(m, Total(b), bound);
      }
    }
  }

  /** One update of any board of shares: afterwards the weights are positive, sum to one, and none is below
      m / ((1 + s)(1 + n m) + k max(1, m)), where k servers are new. */
  lemma UpdateGivesDistribution(cfg: Config, f: Maths, board: Board, preds: map<nat, Prediction>, load: real, now: int)
    requires Usable(cfg) && cfg.minWeight > 0.0 && MathsOk(f) && IsShares(board)
    ensures IsDistribution(Updated(cfg, f, board, preds, load, now))
    ensures Updated(cfg, f, board, preds, load, now).Keys == board.Keys + preds.Keys
    ensures AtLeast(Updated(cfg, f, board, preds, load, now),
                    ExplorationFloor(cfg, |board.Keys|, |preds.Keys - board.Keys|))
  {
    var b := BoardBeforeNormalising(cfg, f, board, preds, load, now);
    hide Updated, BoardBeforeNormalising, WithinBounds, AtLeast, IsDistribution, ExplorationFloor, IsShares,
        Normalised, MathsOk;
    UpdatedIsNormalised(cfg, f, board, preds, load, now);
    BoundsBeforeNormalising(cfg, f, board, preds, load, now);
    SharesFromBounds(cfg, board, preds.Keys - board.Keys, b);
  }

  lemma UpdatedIsNormalised(cfg: Config, f: Maths, board: Board, preds: map<nat, Prediction>, load: real, now: int)
    requires Usable(cfg)
    ensures Updated(cfg, f, board, preds, load, now) ==
              Normalised(BoardBeforeNormalising(cfg, f, board, preds, load, now))
    ensures BoardBeforeNormalising(cfg, f, board, preds, load, now).Keys == board.Keys + preds.Keys
    ensures board.Keys + preds.Keys == board.Keys + (preds.Keys - board.Keys)
  {
    hide RawScore, CappedScore;
  }

  lemma BoundsBeforeNormalising(cfg: Config, f: Maths, board: Board, preds: map<nat, Prediction>, load: real, now: int)
    requires Usable(cfg) && cfg.minWeight > 0.0 && MathsOk(f) && IsShares(board)
    ensures WithinBounds(cfg, board, BoardBeforeNormalising(cfg, f, board, preds, load, now))
    ensures AtLeast(BoardBeforeNormalising(cfg, f, board, preds, load, now), cfg.minWeight)
  {
    hide BoardBeforeNormalising, WeightBound;
    UpdatedIsNormalised(cfg, f, board, preds, load, now);
    var b := BoardBeforeNormalising(cfg, f, board, preds, load, now);
    forall sid {:trigger b[sid]} | sid in b ensures cfg.minWeight <= b[sid].weight <= WeightBound(cfg, board, sid) {
      FlooredBounds(cfg, f, board, preds, load, now, sid);
    }
  }

  ghost predicate AtLeast(b: Board, m: real) {
    forall sid {:trigger b[sid]} :: sid in b ==> b[sid].weight >= m
  }

  lemma SharesFromBounds(cfg: Config, board: Board, added: set<nat>, b: Board)
    requires Usable(cfg) && cfg.minWeight > 0.0 && IsShares(board)
    requires b.Keys == board.Keys + added && board.Keys !! added && WithinBounds(cfg, board, b)
    requires AtLeast(b, cfg.minWeight)
    ensures IsDistribution(Normalised(b))
    ensures Normalised(b).Keys == b.Keys && AtLeast(Normalised(b), ExplorationFloor(cfg, |board.Keys|, |added|))
  {
    hide WithinBounds, TotalBound, Normalised, IsDistribution, AtLeast, Total, Weights, IsShares;
    TotalBoundPositive(cfg, |board.Keys|, |added|);
    FlooredTotal(cfg, board, added, b);
    NormalisingShares(b, cfg.minWeight, TotalBound(cfg, |board.Keys|, |added|));
  }

  // ----- whole runs -----

  datatype Update = Update(preds: map<nat, Prediction>, load: real, now: int)

  ghost function AfterUpdates(cfg: Config, f: Maths, board: Board, updates: seq<Update>): Board
    requires Usable(cfg)
    decreases |updates|
  {
    if updates == [] then board
    else
      var u := updates[|updates| - 1];
      Updated(cfg, f, AfterUpdates(cfg, f, board, updates[..|updates| - 1]), u.preds, u.load, u.now)
  }

  predicate DistinctIds(servers: seq<(nat, nat)>) {
    forall i, j :: 0 <= i < j < |servers| ==> servers[i].0 != servers[j].0
  }

  /** A server listed more than once starts in the domain it is listed with last. */
  lemma {:induction false} LastListedDomain(servers: seq<(nat, nat)>, weight: real, now: int, i: nat)
    requires i < |servers| && forall j :: i < j < |servers| ==> servers[j].0 != servers[i].0
    ensures servers[i].0 in InitialOf(servers, weight, now)
    ensures InitialOf(servers, weight, now)[servers[i].0] == Score(0.0, 1.0, weight, now, servers[i].1, 0.0)
    decreases |servers|
  {
    if i < |servers| - 1 {
      LastListedDomain(servers[..|servers| - 1], weight, now, i);
    }
  }

  lemma {:induction false} InitialIsUniform(servers: seq<(nat, nat)>, weight: real, now: int)
    ensures forall sid {:trigger InitialOf(servers, weight, now)[sid]} :: sid in InitialOf(servers, weight, now) ==>
              InitialOf(servers, weight, now)[sid].weight == weight
    ensures |InitialOf(servers, weight, now).Keys| <= |servers|
    ensures DistinctIds(servers) ==> |InitialOf(servers, weight, now).Keys| == |servers|
    decreases |servers|
  {
    hide DistinctIds;
    if servers != [] {
      var init, last := servers[..|servers| - 1], servers[|servers| - 1];
      InitialIsUniform(init, weight, now);
      assert InitialOf(servers, weight, now).Keys == InitialOf(init, weight, now).Keys + {last.0};
      if DistinctIds(servers) {
        DistinctInit(servers, weight, now);
      }
    }
  }

  lemma {:induction false} UnlistedIsAbsent(servers: seq<(nat, nat)>, weight: real, now: int, sid: nat)
    requires forall i :: 0 <= i < |servers| ==> servers[i].0 != sid
    ensures sid !in InitialOf(servers, weight, now)
    decreases |servers|
  {
    if servers != [] {
      UnlistedIsAbsent(servers[..|servers| - 1], weight, now, sid);
    }
  }

  lemma DistinctInit(servers: seq<(nat, nat)>, weight: real, now: int)
    requires servers != [] && DistinctIds(servers)
    ensures DistinctIds(servers[..|servers| - 1])
    ensures servers[|servers| - 1].0 !in InitialOf(servers[..|servers| - 1], weight, now)
  {
    UnlistedIsAbsent(servers[..|servers| - 1], weight, now, servers[|servers| - 1].0);
  }

  lemma UniformTotal(b: Board, w: real)
    requires forall sid {:trigger b[sid]} :: sid in b ==> b[sid].weight == w
    ensures Total(b) == w * |b.Keys| as real
  {
    SumConstant(Weights(b), b.Keys, w);
  }

  lemma UniformIsShares(b: Board, w: real, k: real)
    requires w >= 0.0 && k == |b.Keys| as real && w * k <= 1.0
    requires forall sid {:trigger b[sid]} :: sid in b ==> b[sid].weight == w
    ensures IsShares(b) && Total(b) == w * k
  {
    UniformTotal(b, w);
  }

  lemma InitialIsShares(servers: seq<(nat, nat)>, now: int)
    ensures IsShares(Initial(servers, now))
    ensures servers != [] && DistinctIds(servers) ==> Total(Initial(servers, now)) == 1.0
  {
    hide DistinctIds, IsShares, Total, InitialOf;
    var b := Initial(servers, now);
    if servers == [] {
      UniformIsShares(b, 0.0, 0.0);
    } else {
      var n, k := |servers| as real, |b.Keys| as real;
      InitialIsUniform(servers, 1.0 / n, now);
      SharesOf(n, k);
      UniformIsShares(b, 1.0 / n, k);
    }
  }

  lemma SharesOf(n: real, k: real)
    requires 0.0 <= k <= n && n >= 1.0
    ensures 0.0 < 1.0 / n && (1.0 / n) * k <= 1.0 && (k == n ==> (1.0 / n) * k == 1.0)
  {
    assert (1.0 / n) * k == k / n;
  }

  /** From with_servers on, after any updates the board is a distribution, and after the last of them no
      server is below the floor that this update's numbers of known and new servers give. */
  lemma {:induction false} RunsKeepTheFloor(cfg: Config, f: Maths, servers: seq<(nat, nat)>, start: int,
                                            updates: seq<Update>)
    requires Usable(cfg) && cfg.minWeight > 0.0 && MathsOk(f)
    ensures IsShares(AfterUpdates(cfg, f, Initial(servers, start), updates))
    ensures updates != [] ==> IsDistribution(AfterUpdates(cfg, f, Initial(servers, start), updates))
    ensures updates != [] ==>
      var u := updates[|updates| - 1];
      var before := AfterUpdates(cfg, f, Initial(servers, start), updates[..|updates| - 1]);
      var after := AfterUpdates(cfg, f, Initial(servers, start), updates);
      AtLeast(after, ExplorationFloor(cfg, |before.Keys|, |u.preds.Keys - before.Keys|))
    decreases |updates|
  {
    if updates == [] {
      InitialIsShares(servers, start);
    } else {
      var u := updates[|updates| - 1];
      var init := updates[..|updates| - 1];
      RunsKeepTheFloor(cfg, f, servers, start, init);
      UpdateGivesDistribution(cfg, f, AfterUpdates(cfg, f, Initial(servers, start), init), u.preds, u.load, u.now);
    }
  }

  /** The guaranteed share is strictly below the configured floor, already with one server and s = 0. */
  lemma FloorIsBelowMinWeight(cfg: Config, n: nat, k: nat)
    requires Usable(cfg) && cfg.minWeight > 0.0 && n + k > 0
    ensures 0.0 < ExplorationFloor(cfg, n, k) < cfg.minWeight
  {
    TotalBoundPositive(cfg, n, k);
    var s, m := cfg.maxShift, cfg.minWeight;
    var x := n as real * m;
    assert (1.0 + s) * (1.0 + x) == 1.0 + s + x + s * x && s * x >= 0.0;
    assert n > 0 ==> x > 0.0;
    assert k > 0 ==> Max(1.0, m) * k as real > 0.0;
    StrictlySmaller(m, TotalBound(cfg, n, k));
  }

  lemma NormalisedBelowIff(b: Board, m: real, sid: nat)
    requires m > 0.0 && AtLeast(b, m) && sid in b
    ensures Total(b) > 0.0
    ensures Normalised(b)[sid].weight < m <==> b[sid].weight < Times(m, Total(b))
    ensures b[sid].weight == m ==> (Normalised(b)[sid].weight < m <==> Total(b) > 1.0)
  {
    SumPositive(Weights(b), b.Keys);
    hide Total, Times;
    QuotientOrder(b[sid].weight, Total(b), m);
    TimesAboveIff(m, Total(b));
  }

  lemma TimesAboveIff(m: real, t: real)
    requires m > 0.0
    ensures m < Times(m, t) <==> t > 1.0
  {
    assert m * t - m == (t - 1.0) * m;
    SignOfProduct(t - 1.0, m);
  }

  /** Exactly when an update leaves a server below min_weight: its floored weight is less than that fraction of
      the floored total; and one that was lifted to the floor, if and only if that total is above one. */
  lemma BelowMinWeightIff(cfg: Config, f: Maths, board: Board, preds: map<nat, Prediction>, load: real, now: int,
                          sid: nat)
    requires Usable(cfg) && cfg.minWeight > 0.0 && (sid in board || sid in preds)
    ensures
      var b := BoardBeforeNormalising(cfg, f, board, preds, load, now);
      var after := Updated(cfg, f, board, preds, load, now)[sid].weight;
      && (after < cfg.minWeight <==> b[sid].weight < Times(cfg.minWeight, Total(b)))
      && (b[sid].weight == cfg.minWeight ==> (after < cfg.minWeight <==> Total(b) > 1.0))
  {
    hide Total, Times, RawScore, CappedScore, Normalised;
    UpdatedIsNormalised(cfg, f, board, preds, load, now);
    NormalisedBelowIff(BoardBeforeNormalising(cfg, f, board, preds, load, now), cfg.minWeight, sid);
  }

  lemma StrictlySmaller(m: real, bound: real)
    requires m > 0.0 && bound > 1.0
    ensures 0.0 < m / bound < m
  {
    assert (m / bound) * bound == m;
  }
}
