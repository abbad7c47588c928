/** The scoreboard update: smoothing, shift clamp, domain cap, floor and normalisation of the routing weights,
    over the reals. exp and sqrt are parameters, of which only what Maths states is used. */
module Scoreboard {
  import opened Sums

  // ----- exp and sqrt -----

  datatype Maths = Maths(exp: real -> real, sqrt: real -> real)

  ghost predicate MathsOk(f: Maths) {
    && (forall x: real {:trigger f.exp(x)} :: f.exp(x) > 0.0)
    && (forall x: real, y: real {:trigger f.exp(x), f.exp(y)} :: x < y ==> f.exp(x) < f.exp(y))
    && f.exp(0.0) == 1.0 && f.exp(-1.0) >= 0.366 && f.exp(-0.99) <= 0.372
    && (forall x: real {:trigger f.sqrt(x)} :: x >= 0.0 ==> f.sqrt(x) >= 0.0)
    && (forall x: real, y: real {:trigger f.sqrt(x), f.sqrt(y)} :: 0.0 <= x < y ==> f.sqrt(x) < f.sqrt(y))
    && f.sqrt(0.0) == 0.0
  }

  function ExpLike(x: real): real {
    if x <= -0.99 then 0.372 / (0.01 - x) else if x < 0.0 then 1.0 + 0.63 * x else 1.0 + x
  }

  lemma InverseMonotone(p: real, q: real)
    requires 0.0 < p <= q
    ensures 1.0 / q <= 1.0 / p
  {
  }

  lemma QuotientFalls(c: real, p: real, q: real)
    requires c > 0.0 && 0.0 < p < q
    ensures 0.0 < c / q < c / p
  {
    assert c / q * q == c && c / p * p == c;
    assert c / p * q > c;
  }

  lemma ExpLikeGrows(x: real, y: real)
    requires x < y
    ensures 0.0 < ExpLike(x) < ExpLike(y)
  {
    if y <= -0.99 {
      QuotientFalls(0.372, 0.01 - y, 0.01 - x);
    } else if x < -0.99 {
      QuotientFalls(0.372, 1.0, 0.01 - x);
    }
  }

  /** The assumptions are consistent: these two functions meet them. */
  lemma MathsExists()
    ensures MathsOk(Maths(ExpLike, (x: real) => x))
  {
    forall x: real, y: real {:trigger ExpLike(x), ExpLike(y)} | x < y ensures ExpLike(x) < ExpLike(y) {
      ExpLikeGrows(x, y);
    }
    forall x: real ensures ExpLike(x) > 0.0 {
      ExpLikeGrows(x, x + 1.0);
    }
    QuotientFalls(0.372, 1.0, 1.01);
    assert 0.372 / 1.01 >= 0.366;
  }

  // ----- data -----

  datatype Score = Score(risk: real, confidence: real, weight: real, updatedAt: int, domain: nat, health: real)
  datatype Prediction = Prediction(riskMean: real, riskVariance: real, confidence: real, errorRate: real)
  datatype Config = Config(smoothingAlpha: real, maxShift: real, cap: real, minWeight: real, minAlpha: real,
                           maxAlpha: real, riskAversion: real, healthBeta: real)

  const DEFAULT_CONFIG := Config(0.3, 0.1, 0.4, 0.03, 0.05, 0.6, 0.0, 0.1)

  type Board = map<nat, Score>

  /** What the source needs of its configuration: clamp bounds in order, or it panics, and a cap that is not
      negative, or it divides by an empty domain's weight. */
  predicate Usable(cfg: Config) {
    cfg.minAlpha <= cfg.maxAlpha && cfg.maxShift >= 0.0 && cfg.minWeight >= 0.0 && cfg.cap >= 0.0
  }

  // ----- one update, as functions -----

  function Clamp(x: real, lo: real, hi: real): real
    requires lo <= hi
  {
    if x < lo then lo else if x > hi then hi else x
  }

  function Max(x: real, y: real): real {
    if x < y then y else x
  }

  function Alpha(cfg: Config, clusterLoad: real): real
    requires Usable(cfg)
  {
    Clamp(Times(cfg.smoothingAlpha, 1.0 - Clamp(clusterLoad, 0.0, 1.0)), cfg.minAlpha, cfg.maxAlpha)
  }

  /** The average of `x` and `y` with weight `c` on `x`. */
  function Blend(c: real, x: real, y: real): real {
    c * x + (1.0 - c) * y
  }

  function EffectiveRisk(cfg: Config, f: Maths, p: Prediction): real {
    Clamp(Clamp(p.riskMean, 0.0, 1.0) + Times(cfg.riskAversion, f.sqrt(Max(p.riskVariance, 0.0))), 0.0, 1.0)
  }

  function ErrorOf(p: Prediction): real {
    Clamp(p.errorRate, 0.0, 1.0)
  }

  function NextHealth(cfg: Config, health: real, p: Prediction): real {
    Blend(cfg.healthBeta, ErrorOf(p), health)
  }

  function RawWeight(f: Maths, risk: real, health: real): real {
    Times(f.exp(-risk), f.exp(-health))
  }

  function MaxDelta(cfg: Config, weight: real): (d: real)
    requires Usable(cfg)
    ensures d >= 0.0
  {
    assert Max(weight, cfg.minWeight) >= 0.0;
    Times(cfg.maxShift, Max(weight, cfg.minWeight))
  }

  function ShiftedWeight(cfg: Config, alpha: real, raw: real, weight: real): real
    requires Usable(cfg)
  {
    Clamp(Blend(alpha, raw, weight), weight - MaxDelta(cfg, weight), weight + MaxDelta(cfg, weight))
  }

  /** A server that has a prediction. */
  function Refreshed(cfg: Config, f: Maths, alpha: real, prev: Score, p: Prediction, now: int): Score
    requires Usable(cfg)
  {
    var risk := EffectiveRisk(cfg, f, p);
    var health := NextHealth(cfg, prev.health, p);
    Score(risk, Clamp(p.confidence, 0.0, 1.0),
          ShiftedWeight(cfg, alpha, RawWeight(f, risk, health), prev.weight), now, prev.domain, health)
  }

  /** A server that appears in the predictions only. */
  function Introduced(cfg: Config, f: Maths, p: Prediction, now: int): Score {
    var risk := EffectiveRisk(cfg, f, p);
    Score(risk, Clamp(p.confidence, 0.0, 1.0), RawWeight(f, risk, ErrorOf(p)), now, 0, ErrorOf(p))
  }

  function RawScore(cfg: Config, f: Maths, board: Board, preds: map<nat, Prediction>, load: real, now: int, sid: nat)
    : Score
    requires Usable(cfg) && (sid in board || sid in preds)
  {
    if sid !in board then Introduced(cfg, f, preds[sid], now)
    else if sid in preds then Refreshed(cfg, f, Alpha(cfg, load), board[sid], preds[sid], now)
    else board[sid]
  }

  function RawBoard(cfg: Config, f: Maths, board: Board, preds: map<nat, Prediction>, load: real, now: int): Board
    requires Usable(cfg)
  {
    map sid | sid in board.Keys + preds.Keys :: RawScore(cfg, f, board, preds, load, now, sid)
  }

  function Weights(board: Board): map<nat, real> {
    map sid | sid in board :: board[sid].weight
  }

  ghost function Total(board: Board): real {
    Sum(Weights(board), board.Keys)
  }

  function Members(board: Board, domain: nat): set<nat> {
    set sid | sid in board && board[sid].domain == domain
  }

  ghost function DomainTotal(board: Board, domain: nat): real {
    Sum(Weights(board), Members(board, domain))
  }

  /** The factor that brings an over-cap domain exactly to the cap, and leaves every other domain alone. */
  ghost function DomainScale(cfg: Config, board: Board, domain: nat): real
    requires cfg.cap >= 0.0
  {
    ScaleFactor(cfg.cap, DomainTotal(board, domain), Total(board))
  }

  function ScaleFactor(cap: real, domainTotal: real, total: real): real
    requires cap >= 0.0
  {
    if total > 0.0 && domainTotal / total > cap then
      QuotientPositive(domainTotal, total);
      cap * total / domainTotal
    else 1.0
  }

  lemma QuotientPositive(d: real, t: real)
    requires t > 0.0 && d / t > 0.0
    ensures d > 0.0
  {
    assert d == (d / t) * t;
  }

  function Scaled(score: Score, scale: real): Score {
    score.(weight := score.weight * scale)
  }

  ghost function CappedScore(cfg: Config, board: Board, sid: nat): Score
    requires cfg.cap >= 0.0 && sid in board
  {
    Scaled(board[sid], DomainScale(cfg, board, board[sid].domain))
  }

  ghost function Capped(cfg: Config, board: Board): Board
    requires cfg.cap >= 0.0
  {
    map sid | sid in board :: CappedScore(cfg, board, sid)
  }

  function Floored(cfg: Config, board: Board): Board {
    map sid | sid in board :: board[sid].(weight := Max(board[sid].weight, cfg.minWeight))
  }

  ghost function Normalised(board: Board): Board {
    if Total(board) > 0.0 then map sid | sid in board :: board[sid].(weight := board[sid].weight / Total(board))
    else board
  }

  ghost function Updated(cfg: Config, f: Maths, board: Board, preds: map<nat, Prediction>, load: real, now: int): Board
    requires Usable(cfg)
  {
    Normalised(Floored(cfg, Capped(cfg, RawBoard(cfg, f, board, preds, load, now))))
  }

  // ----- the same as the source's loops -----

  /** `totals` holds, for the domains of the servers seen so far, the weight of those servers. */
  ghost predicate TotalsFor(board: Board, seen: set<nat>, totals: map<nat, real>)
    requires seen <= board.Keys
  {
    && (forall d {:trigger d in totals} :: d in totals <==> Members(board, d) * seen != {})
    && (forall d {:trigger totals[d]} :: d in totals ==> totals[d] == Sum(Weights(board), Members(board, d) * seen))
  }

  lemma TotalsGrow(board: Board, seen: set<nat>, totals: map<nat, real>, sid: nat)
    requires seen <= board.Keys && sid in board && sid !in seen && TotalsFor(board, seen, totals)
    ensures
      var d := board[sid].domain;
      TotalsFor(board, seen + {sid}, totals[d := (if d in totals then totals[d] else 0.0) + board[sid].weight])
  {
    var d := board[sid].domain;
    forall e ensures Members(board, e) * (seen + {sid}) ==
                     if e == d then Members(board, e) * seen + {sid} else Members(board, e) * seen
    {
    }
    SumAdd(Weights(board), Members(board, d) * seen, sid);
  }

  lemma UnscaledScore(cfg: Config, board: Board, sid: nat)
    requires cfg.cap >= 0.0 && sid in board && DomainScale(cfg, board, board[sid].domain) == 1.0
    ensures CappedScore(cfg, board, sid) == board[sid]
  {
  }

  lemma NothingToCap(cfg: Config, board: Board)
    requires cfg.cap >= 0.0 && Total(board) <= 0.0
    ensures Capped(cfg, board) == board
  {
    forall sid | sid in board ensures CappedScore(cfg, board, sid) == board[sid] {
      UnscaledScore(cfg, board, sid);
    }
  }

  class ScoreboardState {
    var inner: Board
    const cfg: Config
    const f: Maths

    ghost predicate Valid()
    {
      Usable(cfg)
    }

    /** Every server starts with the same share and no risk; a server listed twice keeps its last domain. */
    constructor WithServers(servers: seq<(nat, nat)>, cfg: Config, f: Maths, now: int)
      ensures inner == Initial(servers, now) && this.cfg == cfg && this.f == f
    {
      var n := |servers| as real;
      var initialWeight := if n > 0.0 then 1.0 / n else 0.0;
      var board: Board := map[];
      for i := 0 to |servers|
        invariant |servers| > 0 ==> board == InitialOf(servers[..i], 1.0 / |servers| as real, now)
        invariant |servers| == 0 ==> board == map[]
      {
        board := board[servers[i].0 := Score(0.0, 1.0, initialWeight, now, servers[i].1, 0.0)];
        assert servers[..i + 1][..i] == servers[..i];
      }
      assert servers[..|servers|] == servers;
      this.inner, this.cfg, this.f := board, cfg, f;
    }

    method UpdateScores(preds: map<nat, Prediction>, load: real, now: int)
      requires Valid()
      modifies this`inner
      ensures inner == Updated(cfg, f, old(inner), preds, load, now)
    {
      var board := BuildRawWeights(preds, load, now);
      board := ApplyDomainCaps(cfg, board);
      board := ApplyFloor(cfg, board);
      inner := NormaliseWeights(board);
    }

    method BuildRawWeights(preds: map<nat, Prediction>, load: real, now: int) returns (board: Board)
      requires Valid()
      ensures board == RawBoard(cfg, f, inner, preds, load, now)
    {
      var known := RefreshKnown(preds, load, now);
      board := IntroduceUnknown(known, preds, now);
      forall sid | sid in board ensures board[sid] == RawScore(cfg, f, inner, preds, load, now, sid) {
        if sid in inner {
          assert board[sid] == known[sid];
        }
      }
    }

    method RefreshKnown(preds: map<nat, Prediction>, load: real, now: int) returns (board: Board)
      requires Valid()
      ensures board.Keys == inner.Keys
      ensures forall sid {:trigger board[sid]} :: sid in board ==>
        board[sid] == RawScore(cfg, f, inner, preds, load, now, sid)
    {
      var alpha := Alpha(cfg, load);
      board := map[];
      var left := inner.Keys;
      while left != {}
        invariant left <= inner.Keys
        invariant board.Keys == inner.Keys - left
        invariant forall sid {:trigger board[sid]} :: sid in board ==>
          board[sid] == RawScore(cfg, f, inner, preds, load, now, sid)
        decreases |left|
      {
        var sid :| sid in left;
        left := left - {sid};
        var score := inner[sid];
        if sid in preds {
          score := RefreshScore(score, preds[sid], alpha, now);
        }
        assert score == RawScore(cfg, f, inner, preds, load, now, sid);
        board := board[sid := score];
      }
    }

    method IntroduceUnknown(known: Board, preds: map<nat, Prediction>, now: int) returns (board: Board)
      ensures board.Keys == known.Keys + preds.Keys
      ensures forall sid {:trigger board[sid]} :: sid in board ==>
        board[sid] == if sid in known then known[sid] else Introduced(cfg, f, preds[sid], now)
    {
      hide Introduced;
      board := known;
      var added := preds.Keys - known.Keys;
      while added != {}
        invariant added <= preds.Keys - known.Keys
        invariant board.Keys == known.Keys + preds.Keys - added
        invariant forall sid {:trigger board[sid]} :: sid in board ==>
          board[sid] == if sid in known then known[sid] else Introduced(cfg, f, preds[sid], now)
        decreases |added|
      {
        var sid :| sid in added;
        added := added - {sid};
        board := board[sid := Introduced(cfg, f, preds[sid], now)];
      }
    }

    method RefreshScore(prev: Score, pred: Prediction, alpha: real, now: int) returns (score: Score)
      requires Valid()
      ensures score == Refreshed(cfg, f, alpha, prev, pred, now)
    {
      var risk := EffectiveRisk(cfg, f, pred);
      var health := NextHealth(cfg, prev.health, pred);
      var raw := f.exp(-risk) * f.exp(-health);
      var smoothed := alpha * raw + (1.0 - alpha) * prev.weight;
      var delta := MaxDelta(cfg, prev.weight);
      var capped := Clamp(smoothed, prev.weight - delta, prev.weight + delta);
      score := Score(risk, Clamp(pred.confidence, 0.0, 1.0), capped, now, prev.domain, health);
    }

    static method SumWeights(board: Board) returns (total: real)
      ensures total == Total(board)
    {
      total := 0.0;
      var left := board.Keys;
      while left != {}
        invariant left <= board.Keys
        invariant total == Sum(Weights(board), board.Keys - left)
        decreases |left|
      {
        var sid :| sid in left;
        SumAdd(Weights(board), board.Keys - left, sid);
        assert board.Keys - (left - {sid}) == board.Keys - left + {sid};
        left := left - {sid};
        total := total + board[sid].weight;
      }
      assert board.Keys - {} == board.Keys;
    }

    /** Accumulates every domain's total in one pass over the servers. */
    static method DomainTotals(board: Board) returns (totals: map<nat, real>)
      ensures forall d {:trigger d in totals} :: d in totals <==> Members(board, d) != {}
      ensures forall d {:trigger totals[d]} :: d in totals ==> totals[d] == DomainTotal(board, d)
    {
      totals := map[];
      var left := board.Keys;
      while left != {}
        invariant left <= board.Keys
        invariant TotalsFor(board, board.Keys - left, totals)
        decreases |left|
      {
        var sid :| sid in left;
        var d := board[sid].domain;
        TotalsGrow(board, board.Keys - left, totals, sid);
        assert board.Keys - (left - {sid}) == board.Keys - left + {sid};
        left := left - {sid};
        totals := totals[d := (if d in totals then totals[d] else 0.0) + board[sid].weight];
      }
      assert forall d :: Members(board, d) * (board.Keys - {}) == Members(board, d);
    }

    /** In whatever order the domains come up, each is scaled by its own factor once. */
    static method ApplyDomainCaps(cfg: Config, before: Board) returns (board: Board)
      requires cfg.cap >= 0.0
      ensures board == Capped(cfg, before)
    {
      hide CappedScore, DomainTotal, Total;
      board := before;
      var totals := DomainTotals(before);
      var total := SumWeights(before);
      if total <= 0.0 {
        NothingToCap(cfg, before);
        return;
      }
      var left := totals.Keys;
      forall sid | sid in before ensures before[sid].domain in totals {
        assert sid in Members(before, before[sid].domain);
      }
      while left != {}
        invariant left <= totals.Keys && board.Keys == before.Keys
        invariant forall sid {:trigger board[sid]} :: sid in before ==>
          && board[sid] == (if before[sid].domain in left then before[sid] else CappedScore(cfg, before, sid))
          && board[sid].domain == before[sid].domain
        decreases |left|
      {
        var d :| d in left;
        left := left - {d};
        board := CapDomain(cfg, before, board, d, totals[d], total);
      }
    }

    static method CapDomain(cfg: Config, ghost before: Board, board: Board, d: nat, domainTotal: real, total: real)
      returns (after: Board)
      requires cfg.cap >= 0.0 && total == Total(before) > 0.0 && domainTotal == DomainTotal(before, d)
      requires board.Keys == before.Keys
      requires forall sid {:trigger board[sid]} :: sid in before && before[sid].domain == d ==>
                board[sid] == before[sid]
      requires forall sid {:trigger board[sid]} :: sid in before ==> board[sid].domain == before[sid].domain
      ensures after.Keys == before.Keys
      ensures forall sid {:trigger after[sid]} :: sid in before ==>
        && after[sid] == (if before[sid].domain == d then CappedScore(cfg, before, sid) else board[sid])
        && after[sid].domain == before[sid].domain
    {
      if domainTotal / total > cfg.cap {
        QuotientPositive(domainTotal, total);
        after := ScaleDomain(board, d, cfg.cap * total / domainTotal);
      } else {
        after := board;
        forall sid | sid in before && before[sid].domain == d ensures before[sid] == CappedScore(cfg, before, sid) {
          UnscaledScore(cfg, before, sid);
        }
      }
    }

    static method ScaleDomain(before: Board, d: nat, scale: real) returns (board: Board)
      ensures board.Keys == before.Keys
      ensures forall sid {:trigger board[sid]} :: sid in before ==>
        board[sid] == if before[sid].domain == d then Scaled(before[sid], scale) else before[sid]
    {
      hide Scaled;
      board := before;
      var left := before.Keys;
      while left != {}
        invariant left <= before.Keys && board.Keys == before.Keys
        invariant forall sid {:trigger board[sid]} :: sid in before ==>
          board[sid] == if before[sid].domain == d && sid !in left then Scaled(before[sid], scale) else before[sid]
        decreases |left|
      {
        var sid :| sid in left;
        left := left - {sid};
        if board[sid].domain == d {
          board := board[sid := Scaled(board[sid], scale)];
        }
      }
    }

    static method ApplyFloor(cfg: Config, before: Board) returns (board: Board)
      ensures board == Floored(cfg, before)
    {
      board := before;
      var left := before.Keys;
      while left != {}
        invariant left <= before.Keys && board.Keys == before.Keys
        invariant forall sid {:trigger board[sid]} :: sid in before ==>
          board[sid] == if sid in left then before[sid] else Floored(cfg, before)[sid]
        decreases |left|
      {
        var sid :| sid in left;
        left := left - {sid};
        if board[sid].weight < cfg.minWeight {
          board := board[sid := board[sid].(weight := cfg.minWeight)];
        }
      }
    }

    static method NormaliseWeights(before: Board) returns (board: Board)
      ensures board == Normalised(before)
    {
      board := before;
      var total := SumWeights(before);
      if total > 0.0 {
        var left := before.Keys;
        while left != {}
          invariant left <= before.Keys && board.Keys == before.Keys
          invariant forall sid {:trigger board[sid]} :: sid in before ==>
            board[sid] == if sid in left then before[sid] else before[sid].(weight := before[sid].weight / total)
          decreases |left|
        {
          var sid :| sid in left;
          left := left - {sid};
          board := board[sid := board[sid].(weight := board[sid].weight / total)];
        }
      }
    }
  }

  function InitialOf(servers: seq<(nat, nat)>, weight: real, now: int): Board {
    if servers == [] then map[]
    else
      var last := servers[|servers| - 1];
      InitialOf(servers[..|servers| - 1], weight, now)[last.0 := Score(0.0, 1.0, weight, now, last.1, 0.0)]
  }

  function Initial(servers: seq<(nat, nat)>, now: int): Board {
    if servers == [] then map[] else InitialOf(servers, 1.0 / |servers| as real, now)
  }
}
