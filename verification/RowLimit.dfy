// The health query reads the newest 100 rows of a symbol.  The cooldown leaves so few recent ones that
// the limit loses nothing, up to an exact length of the recency window.
module RowLimit {
  import opened Domain
  import opened Detectors
  import opened Pipeline
  import opened PipelineLaws
  import opened Health
  import opened Retention

  const HEALTH_ANOMALY_LIMIT: nat := 100

  // ----- The newest rows -----

  // What a query for the newest rows may return, in any order and with any choice among ties.
  ghost predicate SplitsNewest(rows: seq<Anomaly>, rest: seq<Anomaly>, log: seq<Anomaly>, limit: nat) {
    && multiset(log) == multiset(rows) + multiset(rest)
    && |rows| == (if |log| < limit then |log| else limit)
    && forall r, q :: r in rows && q in rest ==> q.createdAt <= r.createdAt
  }

  ghost predicate IsNewest(rows: seq<Anomaly>, log: seq<Anomaly>, limit: nat) {
    exists rest :: SplitsNewest(rows, rest, log, limit)
  }

  lemma SplitMembers(rows: seq<Anomaly>, rest: seq<Anomaly>, log: seq<Anomaly>)
    requires multiset(log) == multiset(rows) + multiset(rest)
    ensures forall a :: a in log <==> a in rows || a in rest
    ensures |log| == |rows| + |rest|
    ensures multiset(log) == multiset(rows + rest)
  {
    assert forall a :: a in log <==> a in multiset(log);
    assert forall a :: a in rows <==> a in multiset(rows);
    assert forall a :: a in rest <==> a in multiset(rest);
    assert |multiset(log)| == |log|;
  }

  lemma {:induction false} SumOfOnes(f: Anomaly -> nat, log: seq<Anomaly>)
    requires forall a :: a in log ==> f(a) == 1
    ensures SumBy(f, log) == |log|
  {
    if log != [] {
      var front, last := log[..|log| - 1], log[|log| - 1];
      assert log == front + [last];
      SumOfOnes(f, front);
    }
  }

  lemma {:induction false} SumOfZeros(f: Anomaly -> nat, log: seq<Anomaly>)
    requires forall a :: a in log ==> f(a) == 0
    ensures SumBy(f, log) == 0
  {
    if log != [] {
      var front, last := log[..|log| - 1], log[|log| - 1];
      assert log == front + [last];
      SumOfZeros(f, front);
    }
  }

  lemma {:induction false} SumAtLeast(f: Anomaly -> nat, log: seq<Anomaly>, a: Anomaly)
    requires a in log
    ensures SumBy(f, log) >= f(a)
  {
    var front, last := log[..|log| - 1], log[|log| - 1];
    assert log == front + [last];
    if a != last { SumAtLeast(f, front, a); }
  }

  // ----- Nothing recent is cut off -----

  // The query's clock is read before the rows are: rows stamped up to slack after it may be returned.
  // If window and slack together stay below 420 seconds, no row cut off by the limit is recent.
  lemma NothingRecentIsCutOff(
    rows: seq<Anomaly>, rest: seq<Anomaly>, log: seq<Anomaly>, symbol: Symbol,
    now: Millis, slack: nat, settings: HealthSettings)
    requires SplitsNewest(rows, rest, log, HEALTH_ANOMALY_LIMIT)
    requires AllOfSymbol(symbol, log) && Spaced(log) && forall a :: a in log ==> a.createdAt <= now + slack
    requires settings.recentWindowSecs * 1000 + slack < 420_000
    ensures forall a :: a in rest ==> a.createdAt < now - settings.recentWindowSecs * 1000
  {
    var lo, hi := now - settings.recentWindowSecs * 1000, now + slack;
    var inside := (a: Anomaly) => InStretch(a, lo, hi);
    SplitMembers(rows, rest, log);
    if q :| q in rest && q.createdAt >= lo {
      hide Spaced, AllOfSymbol;
      assert SumBy(inside, log) <= 98 by { StretchBound(log, symbol, lo, hi); }
      assert SumBy(inside, log) == SumBy(inside, rows) + SumBy(inside, rest) by {
        SumByPermutation(inside, log, rows + rest);
        SumByConcat(inside, rows, rest);
      }
      assert SumBy(inside, rows) == |rows| by { SumOfOnes(inside, rows); }
      SumAtLeast(inside, rest, q);
      assert false;
    }
  }

  // ----- Same health -----

  // Score, status, number of recent anomalies, and the same penalties, in whatever order.
  ghost predicate SameHealth(
    state: MarketState, a: seq<Anomaly>, b: seq<Anomaly>, now: Millis, settings: HealthSettings, staleMs: nat)
  {
    var e, f := EvaluateHealth(state, a, now, settings, staleMs), EvaluateHealth(state, b, now, settings, staleMs);
    && e.score == f.score && e.status == f.status && e.recentAnomalyCount == f.recentAnomalyCount
    && multiset(e.penalties) == multiset(f.penalties)
  }

  function PenaltyOne(a: Anomaly, penalty: Penalty, now: Millis, settings: HealthSettings): nat {
    if IsRecent(a, now, settings) && AnomalyPenalty(a, settings) == penalty then 1 else 0
  }

  // How often a penalty is listed, as a sum over all anomalies.
  lemma {:induction false} PenaltiesCounted(log: seq<Anomaly>, penalty: Penalty, now: Millis, settings: HealthSettings)
    ensures multiset(AnomalyPenalties(RecentAnomalies(log, now, settings), settings))[penalty]
            == SumBy((a: Anomaly) => PenaltyOne(a, penalty, now, settings), log)
  {
    if log != [] {
      hide AnomalyPenalty, IsRecent;
      var front, last := log[..|log| - 1], log[|log| - 1];
      PenaltiesCounted(front, penalty, now, settings);
      var before := RecentAnomalies(front, now, settings);
      if IsRecent(last, now, settings) {
        assert (before + [last])[..|before|] == before;
      } else {
        assert before + [] == before;
      }
    }
  }

  lemma SamePenalties(
    rows: seq<Anomaly>, rest: seq<Anomaly>, log: seq<Anomaly>, now: Millis, settings: HealthSettings)
    requires multiset(log) == multiset(rows) + multiset(rest)
    requires forall a :: a in rest ==> !IsRecent(a, now, settings)
    ensures multiset(AnomalyPenalties(RecentAnomalies(rows, now, settings), settings))
            == multiset(AnomalyPenalties(RecentAnomalies(log, now, settings), settings))
  {
    SplitMembers(rows, rest, log);
    var ofRows := multiset(AnomalyPenalties(RecentAnomalies(rows, now, settings), settings));
    var ofLog := multiset(AnomalyPenalties(RecentAnomalies(log, now, settings), settings));
    forall penalty: Penalty
      ensures ofRows[penalty] == ofLog[penalty]
    {
      var one := (a: Anomaly) => PenaltyOne(a, penalty, now, settings);
      PenaltiesCounted(rows, penalty, now, settings);
      PenaltiesCounted(log, penalty, now, settings);
      SumByPermutation(one, log, rows + rest);
      SumByConcat(one, rows, rest);
      SumOfZeros(one, rest);
    }
  }

  lemma SameNumbers(
    rows: seq<Anomaly>, rest: seq<Anomaly>, log: seq<Anomaly>,
    state: MarketState, now: Millis, settings: HealthSettings, staleMs: nat)
    requires multiset(log) == multiset(rows) + multiset(rest)
    requires forall a :: a in rest ==> !IsRecent(a, now, settings)
    ensures var e := EvaluateHealth(state, rows, now, settings, staleMs);
            var f := EvaluateHealth(state, log, now, settings, staleMs);
            e.score == f.score && e.status == f.status && e.recentAnomalyCount == f.recentAnomalyCount
    ensures HasRecentStale(rows, now, settings) <==> HasRecentStale(log, now, settings)
  {
    var one, points := (a: Anomaly) => RecentOne(a, now, settings), (a: Anomaly) => RecentPoints(a, now, settings);
    SplitMembers(rows, rest, log);
    SumByPermutation(one, log, rows + rest);
    SumByConcat(one, rows, rest);
    SumOfZeros(one, rest);
    SumByPermutation(points, log, rows + rest);
    SumByConcat(points, rows, rest);
    SumOfZeros(points, rest);
    ScoreIsClampedDifference(state, rows, now, settings, staleMs);
    ScoreIsClampedDifference(state, log, now, settings, staleMs);
  }

  lemma CutOffDoesNotMatter(
    rows: seq<Anomaly>, rest: seq<Anomaly>, log: seq<Anomaly>,
    state: MarketState, now: Millis, settings: HealthSettings, staleMs: nat)
    requires multiset(log) == multiset(rows) + multiset(rest)
    requires forall a :: a in rest ==> !IsRecent(a, now, settings)
    ensures SameHealth(state, rows, log, now, settings, staleMs)
  {
    hide AnomalyPenalties, RecentAnomalies, SaturatingTotal, HasRecentStale, HasStalePenalty;
    SameNumbers(rows, rest, log, state, now, settings, staleMs);
    SamePenalties(rows, rest, log, now, settings);
    RecentPenaltiesSum(rows, now, settings);
    RecentPenaltiesSum(log, now, settings);
  }

  // ----- Lossless truncation -----

  function StoredRows(initial: Cache, ticks: seq<Tick>, settings: Settings, symbol: Symbol): seq<Anomaly> {
    OfSymbol(symbol, PipeAfter(initial, ticks, settings).stored)
  }

  // After any run whose clock readings are at most slack ahead of the query's, the health computed from
  // the newest 100 stored rows of a symbol is the health computed from all its stored rows, if the
  // recency window and the slack together stay below 420 seconds.
  lemma TruncationIsLossless(
    initial: Cache, ticks: seq<Tick>, detectorSettings: Settings, symbol: Symbol, rows: seq<Anomaly>,
    state: MarketState, now: Millis, slack: nat, settings: HealthSettings, staleMs: nat)
    requires settings.recentWindowSecs * 1000 + slack < 420_000
    requires forall i :: 0 <= i < |ticks| ==> ticks[i].now <= now + slack
    requires IsNewest(rows, StoredRows(initial, ticks, detectorSettings, symbol), HEALTH_ANOMALY_LIMIT)
    ensures SameHealth(state, rows, StoredRows(initial, ticks, detectorSettings, symbol), now, settings, staleMs)
  {
    hide PipeNext, SameHealth;
    var stored := PipeAfter(initial, ticks, detectorSettings).stored;
    var log := StoredRows(initial, ticks, detectorSettings, symbol);
    var rest :| SplitsNewest(rows, rest, log, HEALTH_ANOMALY_LIMIT);
    RunIsWellSpaced(initial, ticks, detectorSettings);
    OfSymbolIsSpaced(symbol, stored);
    LogsCarryReadings(initial, ticks, detectorSettings);
    NothingRecentIsCutOff(rows, rest, log, symbol, now, slack, settings);
    CutOffDoesNotMatter(rows, rest, log, state, now, settings, staleMs);
  }

  // ----- Exactly when -----

  // What the configuration checks of detector settings.
  predicate AcceptedByConfig(settings: Settings) {
    && settings.priceMovePct > 0.0 && settings.spreadSpikePct > 0.0 && settings.staleDataMs > 0
    && settings.tradeBurstMultiplier > 0.0 && settings.tradeBurstMinWarmup > 0
    && settings.quoteStuckMs > 0 && settings.eventLagSpikeMs > 0 && settings.depthGapMinIncrement > 0
  }

  // A query for the newest rows of a symbol after some run of the pipeline: valid events, settings the
  // configuration accepts, no clock reading more than slack ahead of the query's.
  ghost predicate Asked(
    initial: Cache, ticks: seq<Tick>, detectorSettings: Settings, symbol: Symbol, rows: seq<Anomaly>,
    now: Millis, slack: nat)
  {
    && ValidTicks(ticks) && AcceptedByConfig(detectorSettings)
    && (forall i :: 0 <= i < |ticks| ==> ticks[i].now <= now + slack)
    && IsNewest(rows, StoredRows(initial, ticks, detectorSettings, symbol), HEALTH_ANOMALY_LIMIT)
  }

  ghost predicate Loses(
    initial: Cache, ticks: seq<Tick>, detectorSettings: Settings, symbol: Symbol, rows: seq<Anomaly>,
    state: MarketState, now: Millis, settings: HealthSettings, staleMs: nat)
  {
    !SameHealth(state, rows, StoredRows(initial, ticks, detectorSettings, symbol), now, settings, staleMs)
  }

  ghost predicate AlwaysLossless(settings: HealthSettings, slack: nat) {
    forall initial, ticks, detectorSettings, symbol, rows, state, now, staleMs ::
      Asked(initial, ticks, detectorSettings, symbol, rows, now, slack) ==>
        !Loses(initial, ticks, detectorSettings, symbol, rows, state, now, settings, staleMs)
  }
}
