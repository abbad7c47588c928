/** lb-proxy's slow loop: every poll turns each backend's health into a prediction and feeds the scoreboard. */
module ProxySync {
  import opened Scoreboard
  import opened ScoreboardFloor
  import opened ScoreboardDominance
  import opened ScoreboardDomains
  import opened ScoreboardResponse
  import opened ScoreboardSaturation
  import opened Sums

  /** What the loop reads of one backend: how often it was measured, its latency average in ns and the share of
      recent requests that failed. */
  datatype Observed = Observed(totalRequests: nat, latencyEma: nat, errorRate: real)

  type Registry = map<nat, Observed>

  /** 1 - slo / max(slo + ema, 1), within [0, 1]. */
  function RiskOf(slo: nat, ema: nat): real {
    var denom := Max((slo + ema) as real, 1.0);
    Clamp(1.0 - slo as real / denom, 0.0, 1.0)
  }

  function PredictionOf(slo: nat, o: Observed): Prediction {
    if o.totalRequests == 0 then Prediction(0.0, 0.0, 0.0, 0.0)
    else Prediction(RiskOf(slo, o.latencyEma), 0.0, Min(o.totalRequests as real / 10.0, 1.0), o.errorRate)
  }

  function Predictions(slo: nat, registry: Registry): map<nat, Prediction> {
    map sid | sid in registry :: PredictionOf(slo, registry[sid])
  }

  /** Backend i of n is server i, and all of them are in domain 0. */
  function BackendsOf(n: nat): seq<(nat, nat)> {
    if n == 0 then [] else BackendsOf(n - 1) + [(n - 1, 0)]
  }

  class ProxyState {
    const scoreboard: ScoreboardState
    var registry: Registry
    const latencySlo: nat

    ghost predicate Valid()
      reads this
    {
      scoreboard.Valid()
    }

    constructor (n: nat, latencySlo: nat, f: Maths, now: int)
      ensures Valid() && fresh(scoreboard) && this.latencySlo == latencySlo
      ensures scoreboard.inner == Initial(BackendsOf(n), now) && scoreboard.cfg == DEFAULT_CONFIG && scoreboard.f == f
      ensures registry.Keys == Initial(BackendsOf(n), now).Keys
      ensures forall sid :: sid in registry ==> registry[sid].totalRequests == 0
    {
      var servers: seq<(nat, nat)> := [];
      for i := 0 to n
        invariant servers == BackendsOf(i)
      {
        servers := servers + [(i, 0)];
      }
      var sb := new ScoreboardState.WithServers(servers, DEFAULT_CONFIG, f, now);
      scoreboard := sb;
      registry := map sid | sid in Initial(servers, now) :: Observed(0, 0, 0.0);
      this.latencySlo := latencySlo;
    }

    /** Push current predictions for every backend into the scoreboard, at cluster load zero. */
    method SyncScoreboard(now: int)
      requires Valid()
      modifies scoreboard`inner
      ensures scoreboard.inner == Updated(scoreboard.cfg, scoreboard.f, old(scoreboard.inner),
                                          Predictions(latencySlo, registry), 0.0, now)
    {
      var predictions := Predict();
      scoreboard.UpdateScores(predictions, 0.0, now);
    }

    method Predict() returns (predictions: map<nat, Prediction>)
      ensures predictions == Predictions(latencySlo, registry)
    {
      predictions := map[];
      var left := registry.Keys;
      while left != {}
        invariant left <= registry.Keys && predictions.Keys == registry.Keys - left
        invariant forall sid {:trigger predictions[sid]} :: sid in predictions ==>
          predictions[sid] == PredictionOf(latencySlo, registry[sid])
        decreases |left|
      {
        var sid :| sid in left;
        left := left - {sid};
        var health := registry[sid];
        if health.totalRequests == 0 {
          predictions := predictions[sid := Prediction(0.0, 0.0, 0.0, 0.0)];
          continue;
        }
        var denom := Max((latencySlo + health.latencyEma) as real, 1.0);
        var risk := 1.0 - latencySlo as real / denom;
        var confidence := Min(health.totalRequests as real / 10.0, 1.0);
        predictions := predictions[sid := Prediction(Clamp(risk, 0.0, 1.0), 0.0, confidence, health.errorRate)];
      }
    }
  }

  // ----- from latency to risk -----

  /** Against a latency target of at least one ns the risk is ema / (slo + ema). */
  lemma RiskIsShare(slo: nat, ema: nat)
    requires slo > 0
    ensures RiskOf(slo, ema) == ema as real / (slo + ema) as real
    ensures 0.0 <= RiskOf(slo, ema) < 1.0
  {
    var d := (slo + ema) as real;
    assert slo as real / d + ema as real / d == 1.0;
    QuotientOrder(slo as real, d, 0.0);
    QuotientOrder(ema as real, d, 1.0);
    QuotientMonotone(0.0, ema as real, d);
  }

  /** A higher latency average is a strictly higher risk, and nothing else is. */
  lemma HigherLatencyHigherRisk(slo: nat, ema: nat, ema': nat)
    requires slo > 0
    ensures RiskOf(slo, ema) < RiskOf(slo, ema') <==> ema < ema'
  {
    RiskIsShare(slo, ema);
    RiskIsShare(slo, ema');
    hide RiskOf;
    if ema <= ema' {
      ShareOrder(slo as real, ema as real, ema' as real);
    } else {
      ShareOrder(slo as real, ema' as real, ema as real);
    }
  }

  lemma ShareOrder(s: real, x: real, y: real)
    requires s > 0.0 && 0.0 <= x <= y
    ensures x / (s + x) <= y / (s + y)
    ensures x < y ==> x / (s + x) < y / (s + y)
  {
    var p, q := x / (s + x), y / (s + y);
    Cancel(x, s + x);
    Cancel(y, s + y);
    assert (q - p) * ((s + y) * (s + x)) == (q * (s + y)) * (s + x) - (p * (s + x)) * (s + y);
    assert y * (s + x) - x * (s + y) == s * (y - x);
    SignOfProduct(s + y, s + x);
    TimesNotNegative(s, y - x);
    SignOfProduct(q - p, (s + y) * (s + x));
    if x < y {
      SignOfProduct(y - x, s);
    }
  }

  /** With a target of zero ns every measured backend has risk one, so latency no longer tells them apart. */
  lemma NoTargetMeansFullRisk(ema: nat)
    ensures RiskOf(0, ema) == 1.0
  {
    var denom := Max(ema as real, 1.0);
    assert 0.0 / denom == 0.0;
  }

  // ----- the order of two backends over a whole run -----

  /** `x` was never seen better than `y`: a backend that was never measured counts as perfect. */
  predicate NoFaster(x: Observed, y: Observed) {
    y.totalRequests == 0 || (x.totalRequests > 0 && x.latencyEma >= y.latencyEma && x.errorRate >= y.errorRate)
  }

  lemma RiskInUnit(slo: nat, ema: nat)
    ensures 0.0 <= RiskOf(slo, ema) <= 1.0
  {
  }

  lemma EffectiveRiskIsMean(f: Maths, p: Prediction)
    requires 0.0 <= p.riskMean <= 1.0
    ensures EffectiveRisk(DEFAULT_CONFIG, f, p) == p.riskMean
  {
    hide Times;
    NothingTimes(f.sqrt(Max(p.riskVariance, 0.0)));
  }

  /** The proxy predicts without uncertainty: under any configuration the effective risk is the latency's. */
  lemma NoUncertainty(cfg: Config, f: Maths, slo: nat, o: Observed)
    requires MathsOk(f)
    ensures EffectiveRisk(cfg, f, PredictionOf(slo, o)) == if o.totalRequests == 0
              then 0.0 else RiskOf(slo, o.latencyEma)
  {
    RiskInUnit(slo, o.latencyEma);
    hide RiskOf;
    assert f.sqrt(Max(0.0, 0.0)) == 0.0;
    TimesNothing(cfg.riskAversion);
  }

  lemma TimesNothing(c: real)
    ensures Times(c, 0.0) == 0.0
  {
  }

  /** What a poll stores of a backend: full confidence from ten requests on, a tenth of it for each before; no risk and
      no error for one that was never measured; a tenth of the error rate in the memory. */
  lemma PollRecords(f: Maths, board: Board, slo: nat, registry: Registry, now: int, sid: nat)
    requires MathsOk(f) && sid in board && sid in registry && 0.0 <= registry[sid].errorRate <= 1.0
    ensures sid in Updated(DEFAULT_CONFIG, f, board, Predictions(slo, registry), 0.0, now)
    ensures
      var o, after := registry[sid], Updated(DEFAULT_CONFIG, f, board, Predictions(slo, registry), 0.0, now)[sid];
      && after.updatedAt == now && after.domain == board[sid].domain
      && after.confidence == (if o.totalRequests >= 10 then 1.0 else 0.1 * o.totalRequests as real)
      && after.risk == (if o.totalRequests == 0 then 0.0 else RiskOf(slo, o.latencyEma))
      && after.health == 0.9 * board[sid].health + if o.totalRequests == 0 then 0.0 else 0.1 * o.errorRate
  {
    hide Updated, RiskOf, EffectiveRisk;
    UpdatedRecord(DEFAULT_CONFIG, f, board, Predictions(slo, registry), 0.0, now, sid);
    NoUncertainty(DEFAULT_CONFIG, f, slo, registry[sid]);
  }

  lemma NothingTimes(x: real)
    ensures Times(0.0, x) == 0.0
  {
  }

  lemma NoFasterPredictsNoBetter(f: Maths, slo: nat, registry: Registry, a: nat, b: nat)
    requires a in registry && b in registry && NoFaster(registry[a], registry[b])
    ensures NoBetter(DEFAULT_CONFIG, f, Predictions(slo, registry), a, b)
  {
    hide EffectiveRisk, RiskOf;
    RiskInUnit(slo, registry[a].latencyEma);
    RiskInUnit(slo, registry[b].latencyEma);
    EffectiveRiskIsMean(f, PredictionOf(slo, registry[a]));
    EffectiveRiskIsMean(f, PredictionOf(slo, registry[b]));
    if registry[b].totalRequests > 0 {
      if slo == 0 {
        NoTargetMeansFullRisk(registry[a].latencyEma);
        NoTargetMeansFullRisk(registry[b].latencyEma);
      } else {
        HigherLatencyHigherRisk(slo, registry[a].latencyEma, registry[b].latencyEma);
      }
    }
  }

  datatype Poll = Poll(registry: Registry, now: int)

  function UpdatesOf(slo: nat, polls: seq<Poll>): seq<Update> {
    seq(|polls|, i requires 0 <= i < |polls| => Update(Predictions(slo, polls[i].registry), 0.0, polls[i].now))
  }

  lemma {:induction false} BackendsAre(n: nat)
    ensures |BackendsOf(n)| == n && forall i :: 0 <= i < n ==> BackendsOf(n)[i] == (i, 0)
    ensures DistinctIds(BackendsOf(n))
  {
    if n > 0 {
      BackendsAre(n - 1);
    }
  }

  lemma {:induction false} AllInDomainZero(servers: seq<(nat, nat)>, weight: real, now: int)
    requires forall i :: 0 <= i < |servers| ==> servers[i].1 == 0
    ensures forall sid {:trigger InitialOf(servers, weight, now)[sid]} :: sid in InitialOf(servers, weight, now) ==>
              InitialOf(servers, weight, now)[sid] == Score(0.0, 1.0, weight, now, 0, 0.0)
    ensures forall i :: 0 <= i < |servers| ==> servers[i].0 in InitialOf(servers, weight, now)
    decreases |servers|
  {
    if servers != [] {
      AllInDomainZero(servers[..|servers| - 1], weight, now);
    }
  }

  /** The proxy's first scoreboard: n backends, one domain, equal weights, no history. */
  lemma FirstBoard(n: nat, now: int)
    requires n > 0
    ensures
      var b := Initial(BackendsOf(n), now);
      && |b.Keys| == n && (forall sid :: 0 <= sid < n ==> sid in b)
      && (forall sid {:trigger b[sid]} :: sid in b ==> b[sid] == Score(0.0, 1.0, 1.0 / n as real, now, 0, 0.0))
  {
    hide BackendsOf, InitialOf;
    BackendsAre(n);
    AllInDomainZero(BackendsOf(n), 1.0 / n as real, now);
    InitialIsUniform(BackendsOf(n), 1.0 / n as real, now);
    forall sid | 0 <= sid < n ensures sid in Initial(BackendsOf(n), now) {
      assert BackendsOf(n)[sid].0 == sid;
    }
  }

  /** A backend that at every poll so far was no faster and failed no less often than another one never has
      the larger weight, for runs of any length and whatever happens to the other backends. */
  lemma SlowerNeverOvertakes(f: Maths, n: nat, slo: nat, start: int, polls: seq<Poll>, a: nat, b: nat)
    requires MathsOk(f) && a < n && b < n
    requires forall i :: 0 <= i < |polls| ==>
      a in polls[i].registry && b in polls[i].registry && NoFaster(polls[i].registry[a], polls[i].registry[b])
    ensures
      var board := AfterUpdates(DEFAULT_CONFIG, f, Initial(BackendsOf(n), start), UpdatesOf(slo, polls));
      a in board && b in board && board[a].weight <= board[b].weight
  {
    hide NoBetter, MathsOk, AfterUpdates, Initial;
    FirstBoard(n, start);
    OneNthPositive(n);
    var updates := UpdatesOf(slo, polls);
    forall i | 0 <= i < |updates| ensures NoBetter(DEFAULT_CONFIG, f, updates[i].preds, a, b) {
      NoFasterPredictsNoBetter(f, slo, polls[i].registry, a, b);
    }
    RunKeepsDominance(DEFAULT_CONFIG, f, Initial(BackendsOf(n), start), updates, a, b);
  }

  /** With the default configuration a pool of 15 backends or more is never re-weighted, even if some polls see
      only part of it: every backend keeps the share 1 / n for ever. */
  lemma LargePoolsAreNeverReweighted(f: Maths, n: nat, slo: nat, start: int, polls: seq<Poll>)
    requires MathsOk(f) && n >= 15
    requires forall i :: 0 <= i < |polls| ==> polls[i].registry.Keys <= Initial(BackendsOf(n), start).Keys
    ensures
      var board := AfterUpdates(DEFAULT_CONFIG, f, Initial(BackendsOf(n), start), UpdatesOf(slo, polls));
      board.Keys == Initial(BackendsOf(n), start).Keys && Uniform(board, 1.0 / n as real)
  {
    hide MathsOk, AfterUpdates, Initial, CapMeetsFloor;
    FirstBoard(n, start);
    SmallShares(n);
    UniformForever(DEFAULT_CONFIG, f, Initial(BackendsOf(n), start), UpdatesOf(slo, polls), n);
  }

  lemma SmallShares(n: nat)
    requires n >= 15
    ensures CapMeetsFloor(DEFAULT_CONFIG, 1.0 / n as real)
  {
    InverseMonotone(15.0, n as real);
    assert 1.0 / 15.0 <= 0.067;
    assert Max(1.0 / n as real, 0.03) <= 0.067;
  }

  /** When every poll covers the whole pool, as the proxy's do, ten backends are enough for that: whatever
      latencies and errors are measured, no weight ever changes. */
  lemma TenBackendsAreNeverReweighted(f: Maths, n: nat, slo: nat, start: int, polls: seq<Poll>)
    requires MathsOk(f) && n >= 10
    requires forall i :: 0 <= i < |polls| ==> polls[i].registry.Keys == Initial(BackendsOf(n), start).Keys
    ensures
      var board := AfterUpdates(DEFAULT_CONFIG, f, Initial(BackendsOf(n), start), UpdatesOf(slo, polls));
      board.Keys == Initial(BackendsOf(n), start).Keys && Uniform(board, 1.0 / n as real)
  {
    hide MathsOk, AfterUpdates, Initial, ShiftSaturates;
    FirstBoard(n, start);
    TenthSaturates(n);
    SaturatedForever(DEFAULT_CONFIG, f, Initial(BackendsOf(n), start), UpdatesOf(slo, polls), n);
  }

  lemma TenthSaturates(n: nat)
    requires n >= 10
    ensures ShiftSaturates(DEFAULT_CONFIG, 0.0, 1.0 / n as real)
  {
    InverseMonotone(10.0, n as real);
    var w := 1.0 / n as real;
    assert w <= 0.1;
    assert Alpha(DEFAULT_CONFIG, 0.0) == 0.3;
    assert Blend(0.3, LEAST_RAW, w) == 0.3 * 0.133956 + 0.7 * w;
    assert MaxDelta(DEFAULT_CONFIG, w) == 0.1 * Max(w, 0.03);
  }

  /** The exploration floor is missed in earnest: with 34 backends or more every one of them has less than
      min_weight after every poll, and has had since the start. */
  lemma ManyBackendsEndBelowMinWeight(f: Maths, n: nat, slo: nat, start: int, polls: seq<Poll>, sid: nat)
    requires MathsOk(f) && n >= 34 && sid < n
    requires forall i :: 0 <= i < |polls| ==> polls[i].registry.Keys <= Initial(BackendsOf(n), start).Keys
    ensures
      var board := AfterUpdates(DEFAULT_CONFIG, f, Initial(BackendsOf(n), start), UpdatesOf(slo, polls));
      sid in board && board[sid].weight < DEFAULT_CONFIG.minWeight
  {
    hide MathsOk, AfterUpdates, Initial;
    FirstBoard(n, start);
    LargePoolsAreNeverReweighted(f, n, slo, start, polls);
    InverseMonotone(34.0, n as real);
    assert 1.0 / 34.0 < 0.03;
  }

  ghost predicate AllInZero(board: Board) {
    forall sid {:trigger board[sid]} :: sid in board ==> board[sid].domain == 0
  }

  lemma UpdateStaysInZero(cfg: Config, f: Maths, board: Board, preds: map<nat, Prediction>, load: real, now: int)
    requires Usable(cfg) && AllInZero(board)
    ensures AllInZero(Updated(cfg, f, board, preds, load, now))
  {
    hide EffectiveRisk, NextHealth, RawWeight, ShiftedWeight, Alpha, DomainScale, Total;
  }

  lemma {:induction false} RunStaysInZero(cfg: Config, f: Maths, board: Board, updates: seq<Update>)
    requires Usable(cfg) && AllInZero(board)
    ensures AllInZero(AfterUpdates(cfg, f, board, updates))
    ensures board.Keys <= AfterUpdates(cfg, f, board, updates).Keys
    decreases |updates|
  {
    if updates != [] {
      var init, u := updates[..|updates| - 1], updates[|updates| - 1];
      RunStaysInZero(cfg, f, board, init);
      UpdateStaysInZero(cfg, f, AfterUpdates(cfg, f, board, init), u.preds, u.load, u.now);
      hide Total, CappedScore, RawScore;
      assert AfterUpdates(cfg, f, board, init).Keys <= AfterUpdates(cfg, f, board, updates).Keys;
    }
  }

  lemma WholePoolBreaksCap(cfg: Config, board: Board)
    requires AllInZero(board) && Total(board) == 1.0 && cfg.cap < 1.0
    ensures !MeetsCap(cfg, board)
  {
    assert Members(board, 0) == board.Keys;
    WholeDomain(board, 0);
    assert DomainTotal(board, 0) / Total(board) > cfg.cap;
  }

  /** The cap is missed in earnest: with the default configuration the one domain of the proxy has the share one,
      above the cap of 0.4, at the start and after every poll. */
  lemma ProxyNeverMeetsCap(f: Maths, n: nat, slo: nat, start: int, polls: seq<Poll>)
    requires MathsOk(f) && n > 0
    ensures !MeetsCap(DEFAULT_CONFIG,
                      AfterUpdates(DEFAULT_CONFIG, f, Initial(BackendsOf(n), start), UpdatesOf(slo, polls)))
  {
    hide MathsOk, Updated, Initial, IsShares, Total, MeetsCap;
    var first, updates := Initial(BackendsOf(n), start), UpdatesOf(slo, polls);
    FirstBoard(n, start);
    BackendsAre(n);
    InitialIsShares(BackendsOf(n), start);
    RunStaysInZero(DEFAULT_CONFIG, f, first, updates);
    assert 0 in first;
    RunsKeepTheFloor(DEFAULT_CONFIG, f, BackendsOf(n), start, updates);
    WholePoolBreaksCap(DEFAULT_CONFIG, AfterUpdates(DEFAULT_CONFIG, f, first, updates));
  }
}
