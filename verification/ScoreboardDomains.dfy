/** What the domain cap really does. Capping alone brings every domain to at most the cap, but normalisation
    follows: unless the floor intervenes, every over-cap domain ends strictly above the cap again, so an update
    meets the cap exactly when nothing had to be capped. In a pool of one domain the cap does nothing at all, or
    else stops every re-weighting. */
module ScoreboardDomains {
  import opened Sums
  import opened Scoreboard
  import opened ScoreboardFloor
  import opened ScoreboardDominance
  import opened ScoreboardPositive

  function Min(x: real, y: real): real {
    if x < y then x else y
  }

  ghost predicate NotNegative(board: Board) {
    AtLeast(board, 0.0)
  }

  ghost function Share(board: Board, domain: nat): real
    requires Total(board) > 0.0
  {
    DomainTotal(board, domain) / Total(board)
  }

  /** Capping and normalising, when the floor changes nothing. */
  ghost function Pass(cfg: Config, board: Board): Board
    requires cfg.cap >= 0.0
  {
    Normalised(Capped(cfg, board))
  }

  lemma NoFloorHit(cfg: Config, board: Board)
    requires AtLeast(board, cfg.minWeight)
    ensures Floored(cfg, board) == board
  {
  }

  /** An update in which no capped weight is below the floor is a pass over the raw weights. */
  lemma UpdateIsPass(cfg: Config, f: Maths, board: Board, preds: map<nat, Prediction>, load: real, now: int)
    requires Usable(cfg) && AtLeast(Capped(cfg, RawBoard(cfg, f, board, preds, load, now)), cfg.minWeight)
    ensures Updated(cfg, f, board, preds, load, now) == Pass(cfg, RawBoard(cfg, f, board, preds, load, now))
  {
    NoFloorHit(cfg, Capped(cfg, RawBoard(cfg, f, board, preds, load, now)));
  }

  // ----- capping -----

  lemma ScaledToCap(cap: real, d: real, t: real)
    requires cap >= 0.0 && t > 0.0
    ensures Times(ScaleFactor(cap, d, t), d) == Min(d, Times(cap, t))
  {
    QuotientOrder(d, t, cap);
    if d / t > cap {
      QuotientPositive(d, t);
      Cancel(cap * t, d);
    }
  }

  /** Whatever the order of the hash map, capping leaves each domain with total min(D, cap T). */
  lemma CappedDomainTotal(cfg: Config, board: Board, domain: nat)
    requires cfg.cap >= 0.0 && Total(board) > 0.0
    ensures Members(Capped(cfg, board), domain) == Members(board, domain)
    ensures DomainTotal(Capped(cfg, board), domain) == Min(DomainTotal(board, domain), Times(cfg.cap, Total(board)))
  {
    hide Total, DomainScale, Times;
    var ids, scale := Members(board, domain), DomainScale(cfg, board, domain);
    assert Members(Capped(cfg, board), domain) == ids;
    var v, w := Weights(Capped(cfg, board)), Weights(board);
    forall sid {:trigger v[sid]} | sid in ids ensures v[sid] == Times(scale, w[sid]) {
      ScaledIsTimes(board[sid], scale);
    }
    SumScaled(v, w, ids, scale);
    DomainScaleTimes(cfg, board, domain);
  }

  lemma ScaledIsTimes(score: Score, scale: real)
    ensures Scaled(score, scale).weight == Times(scale, score.weight)
  {
  }

  lemma DomainScaleTimes(cfg: Config, board: Board, domain: nat)
    requires cfg.cap >= 0.0 && Total(board) > 0.0
    ensures Times(DomainScale(cfg, board, domain), DomainTotal(board, domain)) ==
            Min(DomainTotal(board, domain), Times(cfg.cap, Total(board)))
  {
    hide Total, DomainTotal, ScaleFactor, Times;
    ScaledToCap(cfg.cap, DomainTotal(board, domain), Total(board));
  }

  lemma CappedWeight(cfg: Config, board: Board, sid: nat)
    requires cfg.cap >= 0.0 && sid in board && board[sid].weight >= 0.0
    ensures 0.0 <= Capped(cfg, board)[sid].weight <= board[sid].weight
  {
    hide DomainScale;
    var scale := DomainScale(cfg, board, board[sid].domain);
    DomainScaleInUnit(cfg, board, board[sid].domain);
    TimesNotNegative(scale, board[sid].weight);
    ScaledAtMost(board[sid].weight, scale, board[sid].weight);
  }

  /** Capping only takes weight away. */
  lemma CappedTotalAtMost(cfg: Config, board: Board)
    requires cfg.cap >= 0.0 && NotNegative(board)
    ensures NotNegative(Capped(cfg, board)) && Total(Capped(cfg, board)) <= Total(board)
  {
    hide CappedScore;
    var v, w := Weights(Capped(cfg, board)), Weights(board);
    forall sid | sid in board ensures 0.0 <= Capped(cfg, board)[sid].weight <= board[sid].weight {
      CappedWeight(cfg, board, sid);
    }
    assert Capped(cfg, board).Keys == board.Keys;
    SumAtMost(v, w, board.Keys);
  }

  // ----- normalising -----

  lemma NormalisedDomainTotal(board: Board, domain: nat)
    requires Total(board) > 0.0
    ensures DomainTotal(Normalised(board), domain) == Share(board, domain)
    ensures Total(Normalised(board)) == 1.0
  {
    hide Times;
    var t := Total(board);
    var v, w := Weights(Normalised(board)), Weights(board);
    assert Members(Normalised(board), domain) == Members(board, domain);
    forall sid | sid in Members(board, domain) ensures v[sid] == Times(1.0 / t, w[sid]) {
      DivideIsTimes(w[sid], t);
    }
    SumScaled(v, w, Members(board, domain), 1.0 / t);
    DivideIsTimes(DomainTotal(board, domain), t);
    NormalisedSumsToOne(board);
  }

  lemma NormalisedNotNegative(board: Board)
    requires Total(board) > 0.0 && NotNegative(board)
    ensures NotNegative(Normalised(board))
  {
    hide Total;
    forall sid | sid in board ensures 0.0 <= board[sid].weight / Total(board) {
      QuotientMonotone(0.0, board[sid].weight, Total(board));
    }
  }

  lemma DomainWithinTotal(board: Board, domain: nat)
    requires NotNegative(board)
    ensures 0.0 <= DomainTotal(board, domain) <= Total(board)
  {
    var ids := Members(board, domain);
    SumSplit(Weights(board), ids, board.Keys - ids);
    assert ids + (board.Keys - ids) == board.Keys;
    SumNotNegative(Weights(board), ids);
    SumNotNegative(Weights(board), board.Keys - ids);
  }

  lemma {:induction false} SumNotNegative(w: map<nat, real>, ids: set<nat>)
    requires ids <= w.Keys && forall id {:trigger w[id]} :: id in ids ==> w[id] >= 0.0
    ensures Sum(w, ids) >= 0.0
    decreases |ids|
  {
    if ids != {} {
      var x :| x in ids;
      SumRemove(w, ids, x);
      SumNotNegative(w, ids - {x});
    }
  }

  // ----- passes over any board -----

  lemma ShareOfLessIsMore(cap: real, t: real, t': real)
    requires cap >= 0.0 && 0.0 < t' <= t
    ensures Times(cap, t) / t' >= cap
  {
    TimesMonotone(cap, t', t);
    QuotientMonotone(cap * t', cap * t, t');
    assert cap * t' / t' == cap;
  }

  /** One pass never takes a domain from the cap or above to below it, nor from above the cap down to it, however
      many domains are over. */
  lemma NeverOvershoots(cfg: Config, board: Board, domain: nat)
    requires cfg.cap > 0.0 && NotNegative(board) && Total(board) > 0.0 && Share(board, domain) >= cfg.cap
    ensures NotNegative(Pass(cfg, board)) && Total(Pass(cfg, board)) == 1.0
    ensures Share(Pass(cfg, board), domain) >= cfg.cap
    ensures Share(board, domain) > cfg.cap ==> Share(Pass(cfg, board), domain) > cfg.cap
  {
    hide Total, DomainTotal, Capped, Normalised, Times, NotNegative;
    if Share(board, domain) > cfg.cap {
      StaysOverCap(cfg, board, domain);
    }
    var t, c := Total(board), Capped(cfg, board);
    CappedDomainTotal(cfg, board, domain);
    QuotientOrder(DomainTotal(board, domain), t, cfg.cap);
    assert DomainTotal(c, domain) == Times(cfg.cap, t);
    CappedTotalAtMost(cfg, board);
    DomainWithinTotal(c, domain);
    CapPositive(cfg.cap, t);
    NormalisedDomainTotal(c, domain);
    NormalisedNotNegative(c);
    ShareOfLessIsMore(cfg.cap, t, Total(c));
    WholeShare(Pass(cfg, board), domain);
  }

  lemma CapPositive(cap: real, t: real)
    requires cap > 0.0 && t > 0.0
    ensures Times(cap, t) > 0.0
  {
  }

  lemma WholeShare(board: Board, domain: nat)
    requires Total(board) == 1.0
    ensures Share(board, domain) == DomainTotal(board, domain)
  {
  }

  ghost function Passes(cfg: Config, board: Board, k: nat): Board
    requires cfg.cap >= 0.0
  {
    if k == 0 then board else Pass(cfg, Passes(cfg, board, k - 1))
  }

  /** So it is never below the cap after any number of passes. */
  lemma {:induction false} PassesNeverOvershoot(cfg: Config, board: Board, domain: nat, k: nat)
    requires cfg.cap > 0.0 && NotNegative(board) && Total(board) > 0.0 && Share(board, domain) >= cfg.cap
    ensures NotNegative(Passes(cfg, board, k)) && Total(Passes(cfg, board, k)) > 0.0
    ensures Share(Passes(cfg, board, k), domain) >= cfg.cap
  {
    hide Pass, Total, Share, NotNegative;
    if k > 0 {
      PassesNeverOvershoot(cfg, board, domain, k - 1);
      NeverOvershoots(cfg, Passes(cfg, board, k - 1), domain);
    }
  }

  // ----- exactly when a pass meets the cap -----

  /** Capping takes at least the excess of each single domain out of the total. */
  lemma CapTakesTheExcess(cfg: Config, board: Board, domain: nat)
    requires cfg.cap >= 0.0 && NotNegative(board) && Total(board) > 0.0
    ensures Total(Capped(cfg, board)) <=
            Total(board) - (DomainTotal(board, domain) - DomainTotal(Capped(cfg, board), domain))
  {
    hide Times, CappedScore, DomainScale;
    var c, ids := Capped(cfg, board), Members(board, domain);
    var others := board.Keys - ids;
    CappedDomainTotal(cfg, board, domain);
    forall sid | sid in others ensures Weights(c)[sid] <= Weights(board)[sid] {
      CappedWeight(cfg, board, sid);
    }
    SumAtMost(Weights(c), Weights(board), others);
    assert ids + others == board.Keys == c.Keys;
    SumSplit(Weights(c), ids, others);
    SumSplit(Weights(board), ids, others);
  }

  lemma ShareOfLessIsStrictlyMore(cap: real, t: real, t': real)
    requires cap > 0.0 && 0.0 < t' < t
    ensures Times(cap, t) / t' > cap
  {
    SignOfProduct(cap, t - t');
    assert cap * (t - t') == cap * t - cap * t';
    QuotientOrder(cap * t, t', cap);
  }

  /** An over-cap domain is over the cap again after a pass, however many domains are over. */
  lemma StaysOverCap(cfg: Config, board: Board, domain: nat)
    requires cfg.cap > 0.0 && NotNegative(board) && Total(board) > 0.0 && Share(board, domain) > cfg.cap
    ensures Total(Pass(cfg, board)) == 1.0 && Share(Pass(cfg, board), domain) > cfg.cap
  {
    hide Total, DomainTotal, Capped, Normalised, Times, NotNegative;
    var t, c := Total(board), Capped(cfg, board);
    CappedDomainTotal(cfg, board, domain);
    QuotientOrder(DomainTotal(board, domain), t, cfg.cap);
    CapTakesTheExcess(cfg, board, domain);
    CappedTotalAtMost(cfg, board);
    DomainWithinTotal(c, domain);
    CapPositive(cfg.cap, t);
    NormalisedDomainTotal(c, domain);
    ShareOfLessIsStrictlyMore(cfg.cap, t, Total(c));
    WholeShare(Pass(cfg, board), domain);
  }

  ghost predicate MeetsCap(cfg: Config, board: Board) {
    Total(board) > 0.0 && forall d {:trigger DomainTotal(board, d)} :: Share(board, d) <= cfg.cap
  }

  lemma WithinCapUnscaled(cfg: Config, board: Board, sid: nat)
    requires cfg.cap >= 0.0 && MeetsCap(cfg, board) && sid in board
    ensures CappedScore(cfg, board, sid) == board[sid]
  {
    hide Total;
    var domain := board[sid].domain;
    assert DomainTotal(board, domain) / Total(board) <= cfg.cap;
    UnscaledScore(cfg, board, sid);
  }

  /** A board that meets the cap is only normalised, and keeps every domain's share. */
  lemma WithinCapUnchanged(cfg: Config, board: Board)
    requires cfg.cap >= 0.0 && MeetsCap(cfg, board)
    ensures Pass(cfg, board) == Normalised(board) && Total(Pass(cfg, board)) == 1.0
    ensures forall d {:trigger DomainTotal(Pass(cfg, board), d)} ::
              DomainTotal(Pass(cfg, board), d) == Share(board, d)
  {
    hide Total, CappedScore, Normalised, DomainTotal;
    forall sid | sid in board ensures CappedScore(cfg, board, sid) == board[sid] {
      WithinCapUnscaled(cfg, board, sid);
    }
    assert Capped(cfg, board) == board;
    forall d ensures DomainTotal(Normalised(board), d) == Share(board, d) {
      NormalisedDomainTotal(board, d);
    }
    NormalisedDomainTotal(board, 0);
  }

  /** A pass ends within the cap in every domain if and only if it began so: the cap step never achieves what
      was not there before. */
  lemma PassMeetsCapIff(cfg: Config, board: Board)
    requires cfg.cap > 0.0 && NotNegative(board) && Total(board) > 0.0
    ensures MeetsCap(cfg, Pass(cfg, board)) <==> MeetsCap(cfg, board)
  {
    hide Total, DomainTotal, Pass, NotNegative;
    if MeetsCap(cfg, board) {
      WithinCapUnchanged(cfg, board);
      forall d ensures Share(Pass(cfg, board), d) <= cfg.cap {
        assert DomainTotal(board, d) / Total(board) <= cfg.cap;
        WholeShare(Pass(cfg, board), d);
      }
    } else {
      var d :| Share(board, d) > cfg.cap;
      StaysOverCap(cfg, board, d);
      assert DomainTotal(Pass(cfg, board), d) / Total(Pass(cfg, board)) > cfg.cap;
    }
  }

  lemma PassStaysNotNegative(cfg: Config, board: Board)
    requires cfg.cap > 0.0 && NotNegative(board) && Total(board) > 0.0
    ensures NotNegative(Pass(cfg, board)) && Total(Pass(cfg, board)) > 0.0
  {
    hide Total, DomainTotal, Times, NotNegative, Normalised, Capped;
    var c := Capped(cfg, board);
    if d :| Share(board, d) > cfg.cap {
      NeverOvershoots(cfg, board, d);
    } else {
      WithinCapUnchanged(cfg, board);
      NormalisedNotNegative(board);
    }
  }

  /** And so for any number of passes: repeating the step does not help. */
  lemma {:induction false} PassesMeetCapIff(cfg: Config, board: Board, k: nat)
    requires cfg.cap > 0.0 && NotNegative(board) && Total(board) > 0.0
    ensures NotNegative(Passes(cfg, board, k)) && Total(Passes(cfg, board, k)) > 0.0
    ensures MeetsCap(cfg, Passes(cfg, board, k)) <==> MeetsCap(cfg, board)
  {
    hide Pass, Total, MeetsCap, NotNegative;
    if k > 0 {
      PassesMeetCapIff(cfg, board, k - 1);
      PassStaysNotNegative(cfg, Passes(cfg, board, k - 1));
      PassMeetsCapIff(cfg, Passes(cfg, board, k - 1));
    }
  }

  /** For an update: if no capped weight is below the floor, it meets the cap exactly when its raw weights,
      before any capping, already did. */
  lemma UpdateMeetsCapIff(cfg: Config, f: Maths, board: Board, preds: map<nat, Prediction>, load: real, now: int)
    requires Usable(cfg) && cfg.cap > 0.0
    requires
      var raw := RawBoard(cfg, f, board, preds, load, now);
      NotNegative(raw) && Total(raw) > 0.0 && AtLeast(Capped(cfg, raw), cfg.minWeight)
    ensures MeetsCap(cfg, Updated(cfg, f, board, preds, load, now)) <==>
            MeetsCap(cfg, RawBoard(cfg, f, board, preds, load, now))
  {
    hide RawBoard, Capped, Total, MeetsCap, NotNegative, AtLeast, Updated, Pass;
    UpdateIsPass(cfg, f, board, preds, load, now);
    PassMeetsCapIff(cfg, RawBoard(cfg, f, board, preds, load, now));
  }

  // ----- one domain over the cap -----

  /** Only `domain` is over the cap, and it is not the whole pool. */
  ghost predicate LoneOverCap(cfg: Config, board: Board, domain: nat) {
    && Total(board) > 0.0 && cfg.cap < Share(board, domain) < 1.0
    && (forall e {:trigger DomainTotal(board, e)} :: e != domain ==>
        DomainTotal(board, e) <= Times(cfg.cap, Total(board)))
  }

  /** Where one pass takes the share of the only over-cap domain. */
  function NextShare(cap: real, x: real): real
    requires cap >= 0.0 && x < 1.0
  {
    cap / (cap + (1.0 - x))
  }

  lemma LoneCappedTotal(cfg: Config, board: Board, domain: nat)
    requires cfg.cap >= 0.0 && LoneOverCap(cfg, board, domain)
    ensures DomainTotal(Capped(cfg, board), domain) == Times(cfg.cap, Total(board))
    ensures Total(Capped(cfg, board)) == Times(cfg.cap, Total(board)) + (Total(board) - DomainTotal(board, domain))
  {
    hide Times, DomainScale;
    var c, ids := Capped(cfg, board), Members(board, domain);
    var others := board.Keys - ids;
    CappedDomainTotal(cfg, board, domain);
    QuotientOrder(DomainTotal(board, domain), Total(board), cfg.cap);
    forall sid | sid in others ensures Weights(c)[sid] == Weights(board)[sid] {
      OthersUnscaled(cfg, board, board[sid].domain);
    }
    SumSame(Weights(c), Weights(board), others);
    assert ids + others == board.Keys == c.Keys;
    SumSplit(Weights(c), ids, others);
    SumSplit(Weights(board), ids, others);
  }

  lemma OthersUnscaled(cfg: Config, board: Board, domain: nat)
    requires cfg.cap >= 0.0 && Total(board) > 0.0 && DomainTotal(board, domain) <= Times(cfg.cap, Total(board))
    ensures DomainScale(cfg, board, domain) == 1.0
  {
    hide Total, DomainTotal, Times;
    QuotientOrder(DomainTotal(board, domain), Total(board), cfg.cap);
  }

  lemma NextShareArithmetic(cap: real, t: real, d: real)
    requires cap >= 0.0 && t > 0.0 && d < t
    ensures Times(cap, t) + (t - d) > 0.0 && d / t < 1.0
    ensures Times(cap, t) / (Times(cap, t) + (t - d)) == NextShare(cap, d / t)
  {
    TimesNotNegative(cap, t);
    QuotientOrder(d, t, 1.0);
    var x := d / t;
    Cancel(d, t);
    assert cap * t + (t - d) == (cap + (1.0 - x)) * t;
    CommonFactor(cap, cap + (1.0 - x), t);
  }

  lemma CommonFactor(p: real, q: real, t: real)
    requires t > 0.0 && q > 0.0 && q * t > 0.0
    ensures (p * t) / (q * t) == p / q
  {
    Cancel(p, q);
    var r := p / q;
    assert p * t == r * (q * t);
    assert r * (q * t) / (q * t) == r;
  }

  /** The step is towards the cap and stops short of it: the share lands in [cap, x), on the cap itself only
      if the cap is zero. */
  lemma NextShareBetween(cap: real, x: real)
    requires 0.0 <= cap < x < 1.0
    ensures cap <= NextShare(cap, x) < x
    ensures NextShare(cap, x) == cap <==> cap == 0.0
  {
    var q := cap + (1.0 - x);
    var r := cap / q;
    Cancel(cap, q);
    assert cap - cap * q == cap * (x - cap);
    TimesNotNegative(cap, x - cap);
    assert (r - cap) * q == cap * (x - cap);
    assert x * q - cap == (x - cap) * (1.0 - x);
    SignOfProduct(x - cap, 1.0 - x);
    assert (x - r) * q > 0.0;
    SignOfProduct(r - cap, q);
    SignOfProduct(x - r, q);
  }

  /** A lone over-cap domain of share x < 1 moves to cap / (cap + 1 - x), which lies in [cap, x). */
  lemma LoneDomainShare(cfg: Config, board: Board, domain: nat)
    requires cfg.cap >= 0.0 && LoneOverCap(cfg, board, domain)
    ensures Total(Pass(cfg, board)) == 1.0
    ensures Share(Pass(cfg, board), domain) == NextShare(cfg.cap, Share(board, domain))
    ensures cfg.cap <= Share(Pass(cfg, board), domain) < Share(board, domain)
    ensures Share(Pass(cfg, board), domain) == cfg.cap <==> cfg.cap == 0.0
  {
    hide Total, DomainTotal, Capped, Normalised, Times, NextShare;
    var c := Capped(cfg, board);
    LoneCappedTotal(cfg, board, domain);
    QuotientOrder(DomainTotal(board, domain), Total(board), 1.0);
    TimesOne(Total(board));
    NextShareArithmetic(cfg.cap, Total(board), DomainTotal(board, domain));
    NormalisedDomainTotal(c, domain);
    WholeShare(Pass(cfg, board), domain);
    NextShareBetween(cfg.cap, Share(board, domain));
  }

  lemma TimesOne(t: real)
    ensures Times(1.0, t) == t
  {
  }

  function Power(x: real, k: nat): real {
    if k == 0 then 1.0 else Times(x, Power(x, k - 1))
  }

  /** As long as it stays the only one over the cap, its excess over the cap shrinks by the factor x, its first
      share, with every pass. */
  lemma {:induction false} PassesConverge(cfg: Config, board: Board, domain: nat, k: nat)
    requires cfg.cap >= 0.0
    requires LoneOverCap(cfg, board, domain) && LoneOverCap(cfg, Passes(cfg, board, k), domain)
    requires forall i {:trigger Passes(cfg, board, i)} :: 0 < i < k ==> LoneOverCap(cfg, Passes(cfg, board, i), domain)
    ensures cfg.cap < Share(Passes(cfg, board, k), domain) <= Share(board, domain)
    ensures Share(Passes(cfg, board, k), domain) - cfg.cap <=
            Times(Power(Share(board, domain), k), Share(board, domain) - cfg.cap)
  {
    hide Pass, Total, Share, LoneOverCap, Times;
    ShareOfLone(cfg, Passes(cfg, board, k), domain);
    ShareOfLone(cfg, board, domain);
    var x := Share(board, domain);
    if k == 0 {
      TimesOne(x - cfg.cap);
    } else {
      assert LoneOverCap(cfg, Passes(cfg, board, k - 1), domain);
      PassesConverge(cfg, board, domain, k - 1);
      var before := Passes(cfg, board, k - 1);
      ShareOfLone(cfg, before, domain);
      LoneDomainShare(cfg, before, domain);
      ExcessShrinks(cfg.cap, x, Share(before, domain), Power(x, k - 1));
    }
  }

  // ----- when it stays the only one -----

  /** No other domain holds more than the fraction cap / (1 - cap) of what is outside `domain`. */
  ghost predicate OthersSpread(cfg: Config, board: Board, domain: nat) {
    forall e {:trigger DomainTotal(board, e)} :: e != domain ==>
      Times(1.0 - cfg.cap, DomainTotal(board, e)) <= Times(cfg.cap, Total(board) - DomainTotal(board, domain))
  }

  lemma SpreadIsWithinCap(cap: real, t: real, d: real, e: real)
    requires 0.0 <= cap < 1.0 && t > 0.0 && d >= Times(cap, t)
    requires Times(1.0 - cap, e) <= Times(cap, t - d)
    ensures e <= Times(cap, t)
  {
    TimesMonotone(cap, t - d, t - cap * t);
    assert cap * (t - cap * t) == (1.0 - cap) * (cap * t);
    SignOfProduct(cap * t - e, 1.0 - cap);
    assert (1.0 - cap) * (cap * t) - (1.0 - cap) * e == (cap * t - e) * (1.0 - cap);
  }

  lemma SpreadScales(cap: real, e: real, rest: real, t: real)
    requires t > 0.0 && Times(1.0 - cap, e) <= Times(cap, rest)
    ensures Times(1.0 - cap, e / t) <= Times(cap, rest / t)
  {
    QuotientMonotone((1.0 - cap) * e, cap * rest, t);
    assert (1.0 - cap) * e / t == (1.0 - cap) * (e / t);
    assert cap * rest / t == cap * (rest / t);
  }

  lemma SpreadKeepsLone(cfg: Config, board: Board, domain: nat)
    requires 0.0 <= cfg.cap && Total(board) > 0.0 && cfg.cap < Share(board, domain) < 1.0
    requires OthersSpread(cfg, board, domain)
    ensures LoneOverCap(cfg, board, domain)
  {
    hide Total, DomainTotal, Times;
    var t := Total(board);
    QuotientOrder(DomainTotal(board, domain), t, cfg.cap);
    forall e {:trigger DomainTotal(board, e)} | e != domain ensures DomainTotal(board, e) <= Times(cfg.cap, t) {
      SpreadIsWithinCap(cfg.cap, t, DomainTotal(board, domain), DomainTotal(board, e));
    }
  }

  lemma DifferenceOfShares(t: real, d: real, u: real)
    requires u > 0.0
    ensures t / u - d / u == (t - d) / u
  {
  }

  /** A pass scales all other domains alike, so the spread is kept. */
  lemma PassKeepsSpread(cfg: Config, board: Board, domain: nat)
    requires cfg.cap > 0.0 && LoneOverCap(cfg, board, domain) && OthersSpread(cfg, board, domain)
    ensures LoneOverCap(cfg, Pass(cfg, board), domain) && OthersSpread(cfg, Pass(cfg, board), domain)
  {
    hide Total, DomainTotal, Capped, Normalised, Times, NextShare;
    var c, p := Capped(cfg, board), Pass(cfg, board);
    var t, d := Total(board), DomainTotal(board, domain);
    LoneCappedTotal(cfg, board, domain);
    LoneDomainShare(cfg, board, domain);
    QuotientOrder(d, t, 1.0);
    TimesOne(t);
    NextShareArithmetic(cfg.cap, t, d);
    NormalisedDomainTotal(c, domain);
    DifferenceOfShares(Total(c), DomainTotal(c, domain), Total(c));
    assert Total(c) / Total(c) == 1.0;
    forall e {:trigger DomainTotal(p, e)} | e != domain
      ensures Times(1.0 - cfg.cap, DomainTotal(p, e)) <= Times(cfg.cap, Total(p) - DomainTotal(p, domain))
    {
      CappedDomainTotal(cfg, board, e);
      assert DomainTotal(board, e) <= Times(cfg.cap, t);
      NormalisedDomainTotal(c, e);
      SpreadScales(cfg.cap, DomainTotal(board, e), t - d, Total(c));
    }
    SpreadKeepsLone(cfg, p, domain);
  }

  /** From such a spread it is the only one over the cap after any number of passes, and its excess shrinks by
      the factor x each time: the share converges to the cap and never reaches it. */
  lemma {:induction false} SpreadConverges(cfg: Config, board: Board, domain: nat, k: nat)
    requires cfg.cap > 0.0 && LoneOverCap(cfg, board, domain) && OthersSpread(cfg, board, domain)
    ensures LoneOverCap(cfg, Passes(cfg, board, k), domain) && OthersSpread(cfg, Passes(cfg, board, k), domain)
    ensures cfg.cap < Share(Passes(cfg, board, k), domain) <= Share(board, domain)
    ensures Share(Passes(cfg, board, k), domain) - cfg.cap <=
            Times(Power(Share(board, domain), k), Share(board, domain) - cfg.cap)
  {
    SpreadLasts(cfg, board, domain, k);
    forall i {:trigger Passes(cfg, board, i)} | 0 < i < k ensures LoneOverCap(cfg, Passes(cfg, board, i), domain) {
      SpreadLasts(cfg, board, domain, i);
    }
    PassesConverge(cfg, board, domain, k);
  }

  lemma {:induction false} SpreadLasts(cfg: Config, board: Board, domain: nat, k: nat)
    requires cfg.cap > 0.0 && LoneOverCap(cfg, board, domain) && OthersSpread(cfg, board, domain)
    ensures LoneOverCap(cfg, Passes(cfg, board, k), domain) && OthersSpread(cfg, Passes(cfg, board, k), domain)
  {
    hide Pass, LoneOverCap, OthersSpread;
    if k > 0 {
      SpreadLasts(cfg, board, domain, k - 1);
      PassKeepsSpread(cfg, Passes(cfg, board, k - 1), domain);
    }
  }

  lemma ShareOfLone(cfg: Config, board: Board, domain: nat)
    requires LoneOverCap(cfg, board, domain)
    ensures Total(board) > 0.0 && cfg.cap < Share(board, domain) < 1.0
  {
  }

  lemma ExcessShrinks(cap: real, x: real, y: real, p: real)
    requires 0.0 <= cap < y <= x < 1.0 && y - cap <= Times(p, x - cap)
    ensures NextShare(cap, y) - cap <= Times(Times(x, p), x - cap)
  {
    NextShareBetween(cap, y);
    var q := cap + (1.0 - y);
    var r := NextShare(cap, y);
    Cancel(cap, q);
    assert (r - cap) * q == cap * (y - cap);
    ExcessFactor(cap, y, r, q);
    TimesMonotone(y, y - cap, p * (x - cap));
    assert y * (p * (x - cap)) >= 0.0;
    TimesNotNegative(x - y, p * (x - cap));
    assert (x - y) * (p * (x - cap)) == x * (p * (x - cap)) - y * (p * (x - cap));
    assert x * p * (x - cap) == x * (p * (x - cap));
  }

  lemma ExcessFactor(cap: real, y: real, r: real, q: real)
    requires 0.0 <= cap < y < 1.0 && q == cap + (1.0 - y) && (r - cap) * q == cap * (y - cap) && r >= cap
    ensures r - cap <= Times(y, y - cap)
  {
    // y q - cap = (y - cap)(1 - y) >= 0, so cap (y - cap) <= y q (y - cap)
    assert y * q - cap == (y - cap) * (1.0 - y);
    TimesNotNegative(y - cap, 1.0 - y);
    TimesNotNegative(y * q - cap, y - cap);
    assert (y * q - cap) * (y - cap) == y * q * (y - cap) - cap * (y - cap);
    assert (y * (y - cap) - (r - cap)) * q >= 0.0;
    SignOfProduct(y * (y - cap) - (r - cap), q);
  }

  // ----- a pool of one domain, as the proxy builds -----

  ghost predicate OneDomain(board: Board) {
    forall x, y {:trigger board[x], board[y]} :: x in board && y in board ==> board[x].domain == board[y].domain
  }

  /** Then every server is scaled by the same factor: the cap itself, if that is below one. */
  lemma OneDomainScale(cfg: Config, board: Board, sid: nat)
    requires cfg.cap >= 0.0 && OneDomain(board) && Total(board) > 0.0 && sid in board
    ensures DomainScale(cfg, board, board[sid].domain) == Min(1.0, cfg.cap)
  {
    hide Total;
    assert Members(board, board[sid].domain) == board.Keys;
    assert DomainTotal(board, board[sid].domain) == Total(board) by {
      WholeDomain(board, board[sid].domain);
    }
    hide DomainTotal;
    WholeScale(cfg.cap, Total(board));
  }

  lemma WholeDomain(board: Board, domain: nat)
    requires Members(board, domain) == board.Keys
    ensures DomainTotal(board, domain) == Total(board)
  {
  }

  lemma WholeScale(cap: real, t: real)
    requires cap >= 0.0 && t > 0.0
    ensures ScaleFactor(cap, t, t) == Min(1.0, cap)
  {
    assert t / t == 1.0;
    assert cap * t / t == cap;
  }

  lemma CancelScale(r: real, w: real, t: real)
    requires r > 0.0 && t > 0.0
    ensures Times(r, t) > 0.0 && Times(r, w) / Times(r, t) == w / t
  {
    Cancel(w, t);
    var q := w / t;
    assert r * w == q * (r * t);
    assert q * (r * t) / (r * t) == q;
  }

  /** So normalisation undoes the cap. */
  lemma CapCancelsInOneDomain(cfg: Config, board: Board)
    requires cfg.cap > 0.0 && OneDomain(board) && Total(board) > 0.0
    ensures Pass(cfg, board) == Normalised(board)
  {
    hide Times, DomainScale, Total;
    var c, r := Capped(cfg, board), Min(1.0, cfg.cap);
    forall sid | sid in board ensures c[sid].weight == Times(r, board[sid].weight) {
      OneDomainScale(cfg, board, sid);
      ScaledIsTimes(board[sid], r);
    }
    ScaledTotal(board, c, r);
    forall sid | sid in board ensures Pass(cfg, board)[sid] == Normalised(board)[sid] {
      CancelScale(r, board[sid].weight, Total(board));
    }
    CancelScale(r, 0.0, Total(board));
  }

  lemma ScaledTotal(board: Board, c: Board, r: real)
    requires c.Keys == board.Keys
    requires forall sid {:trigger c[sid]} :: sid in board ==> c[sid].weight == Times(r, board[sid].weight)
    ensures Total(c) == Times(r, Total(board))
  {
    SumScaled(Weights(c), Weights(board), board.Keys, r);
  }

  // ----- how far one update moves a weight of such a pool -----

  lemma ShiftRange(cfg: Config, alpha: real, raw: real, w: real)
    requires Usable(cfg) && w >= cfg.minWeight
    ensures Times(1.0 - cfg.maxShift, w) <= ShiftedWeight(cfg, alpha, raw, w) <= Times(1.0 + cfg.maxShift, w)
  {
    hide Blend;
    assert (1.0 - cfg.maxShift) * w == w - cfg.maxShift * w;
    assert (1.0 + cfg.maxShift) * w == w + cfg.maxShift * w;
    assert Max(w, cfg.minWeight) == w;
  }

  lemma RawRange(cfg: Config, f: Maths, board: Board, preds: map<nat, Prediction>, load: real, now: int, sid: nat)
    requires Usable(cfg) && sid in board && sid in preds && board[sid].weight >= cfg.minWeight
    ensures Times(1.0 - cfg.maxShift, board[sid].weight) <= RawBoard(cfg, f, board, preds, load, now)[sid].weight
                                                         <= Times(1.0 + cfg.maxShift, board[sid].weight)
  {
    hide ShiftedWeight, Times, EffectiveRisk, NextHealth, RawWeight, Alpha;
    var risk := EffectiveRisk(cfg, f, preds[sid]);
    var health := NextHealth(cfg, board[sid].health, preds[sid]);
    ShiftRange(cfg, Alpha(cfg, load), RawWeight(f, risk, health), board[sid].weight);
  }

  /** If every weight lies between the fractions `lo` and `hi` of its old value, so does the total. */
  lemma TotalRange(board: Board, raw: Board, lo: real, hi: real)
    requires raw.Keys == board.Keys
    requires forall sid {:trigger raw[sid]} :: sid in board ==>
               Times(lo, board[sid].weight) <= raw[sid].weight <= Times(hi, board[sid].weight)
    ensures Times(lo, Total(board)) <= Total(raw) <= Times(hi, Total(board))
  {
    hide Times;
    var w := Weights(board);
    var below, above := map sid | sid in board :: Times(lo, w[sid]), map sid | sid in board :: Times(hi, w[sid]);
    SumScaled(below, w, board.Keys, lo);
    SumScaled(above, w, board.Keys, hi);
    forall sid | sid in board ensures below[sid] <= Weights(raw)[sid] <= above[sid] {
      assert raw[sid].weight == Weights(raw)[sid];
    }
    SumAtMost(below, Weights(raw), board.Keys);
    SumAtMost(Weights(raw), above, board.Keys);
  }

  lemma RatioRange(r: real, t: real, w: real, s: real)
    requires 0.0 <= s < 1.0 && w >= 0.0 && Times(1.0 - s, w) <= r <= Times(1.0 + s, w) && 1.0 - s <= t <= 1.0 + s
    ensures Times(1.0 - s, w) / (1.0 + s) <= r / t <= Times(1.0 + s, w) / (1.0 - s)
  {
    TimesNotNegative(1.0 - s, w);
    DividedByMore(Times(1.0 - s, w), t, 1.0 + s);
    QuotientMonotone(Times(1.0 - s, w), r, t);
    TimesNotNegative(1.0 + s, w);
    DividedByMore(Times(1.0 + s, w), 1.0 - s, t);
    QuotientMonotone(r, Times(1.0 + s, w), t);
  }

  lemma DividedByMore(x: real, t: real, u: real)
    requires x >= 0.0 && 0.0 < t <= u
    ensures x / u <= x / t
  {
    Cancel(x, t);
    Cancel(x, u);
    var p, q := x / t, x / u;
    TimesNotNegative(p, u - t);
    assert (p - q) * u == p * (u - t);
    SignOfProduct(p - q, u);
  }

  /** A pool of one domain that is a distribution with every weight at the floor or above, all predicted: if
      no capped weight is below the floor, one update takes w into [w (1-s)/(1+s), w (1+s)/(1-s)]. */
  lemma UpdateMovesWithinRatio(cfg: Config, f: Maths, board: Board, preds: map<nat, Prediction>, load: real, now: int,
                               sid: nat)
    requires Usable(cfg) && cfg.maxShift < 1.0 && cfg.cap > 0.0 && OneDomain(board) && AtLeast(board, cfg.minWeight)
    requires Total(board) == 1.0 && preds.Keys == board.Keys && sid in board
    requires AtLeast(Capped(cfg, RawBoard(cfg, f, board, preds, load, now)), cfg.minWeight)
    ensures
      var w, w' := board[sid].weight, Updated(cfg, f, board, preds, load, now)[sid].weight;
      Times(1.0 - cfg.maxShift, w) / (1.0 + cfg.maxShift) <= w' <= Times(1.0 + cfg.maxShift, w) / (1.0 - cfg.maxShift)
  {
    hide Times, Total, RawScore, CappedScore;
    var raw := RawBoard(cfg, f, board, preds, load, now);
    forall id {:trigger raw[id]} | id in board
      ensures Times(1.0 - cfg.maxShift, board[id].weight) <= raw[id].weight <=
                Times(1.0 + cfg.maxShift, board[id].weight)
    {
      RawRange(cfg, f, board, preds, load, now, id);
    }
    TotalRange(board, raw, 1.0 - cfg.maxShift, 1.0 + cfg.maxShift);
    OneIsNeutral(1.0 - cfg.maxShift);
    OneIsNeutral(1.0 + cfg.maxShift);
    RawOneDomain(cfg, f, board, preds, load, now);
    CapCancelsInOneDomain(cfg, raw);
    UpdateIsPass(cfg, f, board, preds, load, now);
    RatioRange(raw[sid].weight, Total(raw), board[sid].weight, cfg.maxShift);
  }

  lemma OneIsNeutral(a: real)
    ensures Times(a, 1.0) == a
  {
  }

  lemma RawOneDomain(cfg: Config, f: Maths, board: Board, preds: map<nat, Prediction>, load: real, now: int)
    requires Usable(cfg) && OneDomain(board) && preds.Keys <= board.Keys
    ensures RawBoard(cfg, f, board, preds, load, now).Keys == board.Keys
    ensures OneDomain(RawBoard(cfg, f, board, preds, load, now))
    ensures forall sid {:trigger board[sid]} :: sid in board ==>
              RawBoard(cfg, f, board, preds, load, now)[sid].domain == board[sid].domain
  {
    hide EffectiveRisk, NextHealth, RawWeight, ShiftedWeight, Alpha;
  }

  // ----- when the cap stops all re-weighting -----

  /** Every server has the same weight. */
  ghost predicate Uniform(board: Board, w: real) {
    forall sid {:trigger board[sid]} :: sid in board ==> board[sid].weight == w
  }

  /** So small a cap, or so large a floor, that no shifted weight stays above the floor once capped. */
  predicate CapMeetsFloor(cfg: Config, w: real) {
    cfg.cap < 1.0 && Times(cfg.cap, Times(1.0 + cfg.maxShift, Max(w, cfg.minWeight))) <= cfg.minWeight
  }

  /** Then an update leaves a uniform pool of one domain uniform, whatever is predicted of its servers. */
  lemma UniformStaysUniform(cfg: Config, f: Maths, board: Board, preds: map<nat, Prediction>, load: real, now: int,
                            n: nat)
    requires Averaging(cfg) && cfg.minWeight > 0.0 && MathsOk(f)
    requires OneDomain(board) && |board.Keys| == n > 0 && Uniform(board, 1.0 / n as real)
    requires CapMeetsFloor(cfg, 1.0 / n as real)
    requires preds.Keys <= board.Keys
    ensures
      var after := Updated(cfg, f, board, preds, load, now);
      after.Keys == board.Keys && OneDomain(after) && Uniform(after, 1.0 / n as real)
  {
    hide Times, Total, RawBoard, Capped, Floored, Normalised, MathsOk, CapMeetsFloor, OneDomain, Uniform;
    OneNthPositive(n);
    assert board.Keys != {};
    var raw := RawBoard(cfg, f, board, preds, load, now);
    UniformRaw(cfg, f, board, preds, load, now, 1.0 / n as real);
    AllFloored(cfg, raw, 1.0 / n as real);
    UniformNormalised(Floored(cfg, Capped(cfg, raw)), cfg.minWeight, n);
  }

  lemma OneNthPositive(n: nat)
    requires n > 0
    ensures 1.0 / n as real > 0.0
  {
  }

  /** No server weighs more than the shift allows from `w`. */
  ghost predicate WithinShift(cfg: Config, raw: Board, w: real) {
    forall sid {:trigger raw[sid]} :: sid in raw ==>
      raw[sid].weight <= Times(1.0 + cfg.maxShift, Max(w, cfg.minWeight))
  }

  lemma UniformRaw(cfg: Config, f: Maths, board: Board, preds: map<nat, Prediction>, load: real, now: int, w: real)
    requires Averaging(cfg) && MathsOk(f)
    requires OneDomain(board) && board.Keys != {} && Uniform(board, w) && w > 0.0 && preds.Keys <= board.Keys
    ensures
      var raw := RawBoard(cfg, f, board, preds, load, now);
      raw.Keys == board.Keys && OneDomain(raw) && Total(raw) > 0.0 && WithinShift(cfg, raw, w)
  {
    hide Times, Total, RawScore, MathsOk;
    var raw := RawBoard(cfg, f, board, preds, load, now);
    RawOneDomain(cfg, f, board, preds, load, now);
    forall sid {:trigger raw[sid]} | sid in raw
      ensures 0.0 < raw[sid].weight <= Times(1.0 + cfg.maxShift, Max(w, cfg.minWeight))
    {
      RawWithin(cfg, f, board, preds, load, now, sid);
    }
    TotalPositive(raw);
  }

  lemma AllFloored(cfg: Config, raw: Board, w: real)
    requires Usable(cfg) && OneDomain(raw) && Total(raw) > 0.0 && CapMeetsFloor(cfg, w) && WithinShift(cfg, raw, w)
    ensures Uniform(Floored(cfg, Capped(cfg, raw)), cfg.minWeight) && OneDomain(Capped(cfg, raw))
    ensures Floored(cfg, Capped(cfg, raw)).Keys == raw.Keys && OneDomain(Floored(cfg, Capped(cfg, raw)))
  {
    hide Times, Total, DomainScale;
    forall sid {:trigger raw[sid]} | sid in raw ensures Capped(cfg, raw)[sid].weight <= cfg.minWeight {
      OneDomainScale(cfg, raw, sid);
      ScaledIsTimes(raw[sid], cfg.cap);
      TimesMonotone(cfg.cap, raw[sid].weight, Times(1.0 + cfg.maxShift, Max(w, cfg.minWeight)));
    }
  }

  lemma UniformNormalised(b: Board, m: real, n: nat)
    requires m > 0.0 && Uniform(b, m) && |b.Keys| == n > 0
    ensures Normalised(b).Keys == b.Keys && Uniform(Normalised(b), 1.0 / n as real)
    ensures OneDomain(b) ==> OneDomain(Normalised(b))
  {
    hide Total;
    UniformTotal(b, m);
    ShareOfUniform(m, n as real);
  }

  lemma ShareOfUniform(m: real, k: real)
    requires m > 0.0 && k > 0.0
    ensures m * k > 0.0 && m / (m * k) == 1.0 / k
  {
    assert m / (m * k) * k == 1.0;
  }

  /** So it stays uniform for ever. */
  lemma {:induction false} UniformForever(cfg: Config, f: Maths, board: Board, updates: seq<Update>, n: nat)
    requires Averaging(cfg) && cfg.minWeight > 0.0 && MathsOk(f)
    requires OneDomain(board) && |board.Keys| == n > 0 && Uniform(board, 1.0 / n as real)
    requires CapMeetsFloor(cfg, 1.0 / n as real)
    requires forall i :: 0 <= i < |updates| ==> updates[i].preds.Keys <= board.Keys
    ensures
      var after := AfterUpdates(cfg, f, board, updates);
      after.Keys == board.Keys && OneDomain(after) && Uniform(after, 1.0 / n as real)
    decreases |updates|
  {
    hide OneDomain, Uniform, CapMeetsFloor, MathsOk, Updated;
    if updates != [] {
      var init, u := updates[..|updates| - 1], updates[|updates| - 1];
      UniformForever(cfg, f, board, init, n);
      UniformStaysUniform(cfg, f, AfterUpdates(cfg, f, board, init), u.preds, u.load, u.now, n);
    }
  }
}
