/** What the router's choice has to do with the scoreboard: while the scores are fresh and no threshold is exceeded it
    takes the heavier candidate, and with nothing fresh the first one. */
module RouterChoice {
  import opened Wrappers
  import opened Scoreboard
  import R = Router

  /** No threshold is exceeded, or there are no signals. */
  predicate IsQuiet(t: R.Thresholds, signals: map<nat, R.Signals>, server: nat) {
    server in signals ==>
      var s := signals[server];
      s.backlog <= t.maxBacklog && s.fiveXx <= t.maxFiveXx && s.inFlight <= t.maxInFlight
  }

  ghost predicate AllQuiet(t: R.Thresholds, signals: map<nat, R.Signals>, servers: seq<nat>) {
    forall i {:trigger servers[i]} :: 0 <= i < |servers| ==> IsQuiet(t, signals, servers[i])
  }

  lemma FreshWeight(n: nat, t: R.Thresholds, ttl: int, server: nat, snapshot: Board, signals: map<nat, R.Signals>,
                    now: int)
    requires n > 0 && IsQuiet(t, signals, server) && server in snapshot && now < snapshot[server].updatedAt + ttl
    ensures R.WeightOf(n, t, ttl, server, snapshot, signals, now) == snapshot[server].weight
  {
    assert R.Penalty(0) == 1.0;
  }

  lemma StaleWeight(n: nat, t: R.Thresholds, ttl: int, server: nat, snapshot: Board, signals: map<nat, R.Signals>,
                    now: int)
    requires n > 0 && IsQuiet(t, signals, server)
    requires server in snapshot ==> snapshot[server].updatedAt + ttl <= now
    ensures R.WeightOf(n, t, ttl, server, snapshot, signals, now) == 1.0 / n as real
  {
    assert R.Penalty(0) == 1.0;
  }

  /** Two fresh, quiet candidates: the one with the larger scoreboard weight is chosen, the first one if they are
      equal. */
  lemma FreshChoice(servers: seq<nat>, t: R.Thresholds, ttl: int, snapshot: Board, signals: map<nat, R.Signals>,
                    now: int, i: nat, j: nat)
    requires |servers| >= 2 && i < |servers| && j < |servers| && AllQuiet(t, signals, servers)
    requires
      var k := if j != i then j else (i + 1) % |servers|;
      && servers[i] in snapshot && now < snapshot[servers[i]].updatedAt + ttl
      && servers[k] in snapshot && now < snapshot[servers[k]].updatedAt + ttl
    ensures
      var k := if j != i then j else (i + 1) % |servers|;
      R.Chosen(R.EffectiveWeights(servers, t, ttl, snapshot, signals, now), i, j) ==
      if snapshot[servers[i]].weight >= snapshot[servers[k]].weight then i else k
  {
    hide R.WeightOf;
    var n, k := |servers|, if j != i then j else (i + 1) % |servers|;
    FreshWeight(n, t, ttl, servers[i], snapshot, signals, now);
    FreshWeight(n, t, ttl, servers[k], snapshot, signals, now);
  }

  /** No score or none that is young enough: the first candidate is chosen, whatever the weights. */
  lemma StaleChoice(servers: seq<nat>, t: R.Thresholds, ttl: int, snapshot: Board, signals: map<nat, R.Signals>,
                    now: int, i: nat, j: nat)
    requires |servers| >= 2 && i < |servers| && j < |servers| && AllQuiet(t, signals, servers)
    requires forall k {:trigger servers[k]} :: 0 <= k < |servers| && servers[k] in snapshot ==>
               snapshot[servers[k]].updatedAt + ttl <= now
    ensures R.Chosen(R.EffectiveWeights(servers, t, ttl, snapshot, signals, now), i, j) == i
  {
    hide R.WeightOf;
    var n, k := |servers|, R.Second(|servers|, i, j);
    StaleWeight(n, t, ttl, servers[i], snapshot, signals, now);
    StaleWeight(n, t, ttl, servers[k], snapshot, signals, now);
  }

  // ----- right after an update -----

  /** Every server of the router has a prediction. */
  ghost predicate AllPredicted(preds: map<nat, Prediction>, servers: seq<nat>) {
    forall i {:trigger servers[i]} :: 0 <= i < |servers| ==> servers[i] in preds
  }

  lemma PredictedAreStamped(cfg: Config, f: Maths, board: Board, preds: map<nat, Prediction>, load: real, at: int,
                            sid: nat)
    requires Usable(cfg) && sid in preds
    ensures sid in Updated(cfg, f, board, preds, load, at)
    ensures Updated(cfg, f, board, preds, load, at)[sid].updatedAt == at
  {
    hide EffectiveRisk, NextHealth, RawWeight, ShiftedWeight, Alpha, DomainScale, Total;
  }

  /** Server `x` of the list is strictly lighter than all others on this board. */
  ghost predicate IsLightest(board: Board, servers: seq<nat>, x: nat)
    requires forall i {:trigger servers[i]} :: 0 <= i < |servers| ==> servers[i] in board
  {
    x < |servers| && forall k {:trigger servers[k]} :: 0 <= k < |servers| && k != x ==>
      board[servers[x]].weight < board[servers[k]].weight
  }

  /** From an update that predicts all servers until its scores go stale, whatever the generator draws: the lightest
      server is never chosen, and of any two candidates it is the heavier one that is. From then on the scoreboard
      no longer matters and the first candidate is chosen. */
  lemma UpdateSteersTheChoice(cfg: Config, f: Maths, board: Board, preds: map<nat, Prediction>, load: real, at: int,
                              servers: seq<nat>, t: R.Thresholds, ttl: int, signals: map<nat, R.Signals>, now: int,
                              i: nat, j: nat)
    requires Usable(cfg) && |servers| >= 2 && i < |servers| && j < |servers|
    requires AllPredicted(preds, servers) && AllQuiet(t, signals, servers)
    ensures
      var after := Updated(cfg, f, board, preds, load, at);
      var k := if j != i then j else (i + 1) % |servers|;
      var chosen := R.Chosen(R.EffectiveWeights(servers, t, ttl, after, signals, now), i, j);
      && (forall y {:trigger servers[y]} :: 0 <= y < |servers| ==> servers[y] in after)
      && (now < at + ttl ==> chosen == if after[servers[i]].weight >= after[servers[k]].weight then i else k)
      && (now < at + ttl ==> forall x: nat :: IsLightest(after, servers, x) ==> chosen != x)
      && (at + ttl <= now ==> chosen == i)
  {
    hide Updated, R.EffectiveWeights, R.Chosen;
    var after := Updated(cfg, f, board, preds, load, at);
    forall y {:trigger servers[y]} | 0 <= y < |servers| ensures servers[y] in after
        && after[servers[y]].updatedAt == at {
      PredictedAreStamped(cfg, f, board, preds, load, at, servers[y]);
    }
    if now < at + ttl {
      FreshChoice(servers, t, ttl, after, signals, now, i, j);
    } else {
      StaleChoice(servers, t, ttl, after, signals, now, i, j);
    }
  }
}
