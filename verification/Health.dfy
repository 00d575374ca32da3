// The health score of one symbol: recent anomalies cost penalties, staleness costs one of its own
// unless a recent stale-data anomaly already stands for it.
module Health {
  import opened Domain

  type U8 = n: nat | n <= 255

  const U16_MAX: nat := 0xFFFF

  datatype HealthSettings = HealthSettings(
    baseScore: U8,
    infoPenalty: U8,
    warningPenalty: U8,
    criticalPenalty: U8,
    staleDataPenalty: U8,
    recentWindowSecs: nat,
    healthyMinScore: U8,
    degradedMinScore: U8)

  datatype HealthStatus = Healthy | Degraded | Unhealthy

  datatype Penalty = Penalty(
    penalty: U8,
    kind: Option<AnomalyKind>,
    severity: Option<Severity>,
    observed: Option<real>,
    threshold: Option<real>,
    eventTime: Option<Millis>)

  datatype HealthSignals = HealthSignals(signals: Signals, lastEventTime: Option<Millis>, lastEventAgeMs: Option<nat>)

  datatype Evaluation = Evaluation(
    baseScore: U8,
    score: nat,
    status: HealthStatus,
    evaluatedAt: Millis,
    recentAnomalyCount: nat,
    signals: HealthSignals,
    penalties: seq<Penalty>)

  function LastEventAgeMs(last: Option<Millis>, now: Millis): Option<nat> {
    if last.None? then None else Some(if now > last.value then now - last.value else 0)
  }

  predicate IsRecent(anomaly: Anomaly, now: Millis, settings: HealthSettings) {
    now - settings.recentWindowSecs * 1000 <= anomaly.createdAt <= now
  }

  function RecentAnomalies(anomalies: seq<Anomaly>, now: Millis, settings: HealthSettings): seq<Anomaly> {
    if anomalies == [] then []
    else
      var last := anomalies[|anomalies| - 1];
      RecentAnomalies(anomalies[..|anomalies| - 1], now, settings)
      + if IsRecent(last, now, settings) then [last] else []
  }

  function PenaltyPoints(anomaly: Anomaly, settings: HealthSettings): U8 {
    if anomaly.kind.StaleData? then settings.staleDataPenalty
    else match anomaly.severity
      case Info => settings.infoPenalty
      case Warning => settings.warningPenalty
      case Critical => settings.criticalPenalty
  }

  function AnomalyPenalty(anomaly: Anomaly, settings: HealthSettings): Penalty {
    Penalty(PenaltyPoints(anomaly, settings), Some(anomaly.kind), Some(anomaly.severity),
            anomaly.observed, anomaly.threshold, Some(anomaly.eventTime))
  }

  function AnomalyPenalties(anomalies: seq<Anomaly>, settings: HealthSettings): seq<Penalty> {
    if anomalies == [] then []
    else AnomalyPenalties(anomalies[..|anomalies| - 1], settings)
         + [AnomalyPenalty(anomalies[|anomalies| - 1], settings)]
  }

  predicate IsStale(state: MarketState, now: Millis, staleMs: nat) {
    var age := LastEventAgeMs(state.lastEventTime, now);
    age.None? || age.value >= staleMs
  }

  function StaleStatePenalty(state: MarketState, now: Millis, points: U8, staleMs: nat): Penalty {
    var age := LastEventAgeMs(state.lastEventTime, now);
    Penalty(points, Some(StaleData), None, if age.None? then None else Some(age.value as real),
            Some(staleMs as real), state.lastEventTime)
  }

  predicate HasStalePenalty(penalties: seq<Penalty>) {
    exists i :: 0 <= i < |penalties| && penalties[i].kind == Some(StaleData)
  }

  function CollectPenalties(
    state: MarketState, recent: seq<Anomaly>, now: Millis, settings: HealthSettings, staleMs: nat): seq<Penalty>
  {
    var penalties := AnomalyPenalties(recent, settings);
    if IsStale(state, now, staleMs) && !HasStalePenalty(penalties)
    then penalties + [StaleStatePenalty(state, now, settings.staleDataPenalty, staleMs)]
    else penalties
  }

  // A 16-bit sum that stops at its largest value.
  function SaturatingTotal(penalties: seq<Penalty>): (total: nat)
    ensures total <= U16_MAX
  {
    if penalties == [] then 0
    else
      var sum := SaturatingTotal(penalties[..|penalties| - 1]) + penalties[|penalties| - 1].penalty;
      if sum > U16_MAX then U16_MAX else sum
  }

  function ComputeScore(baseScore: U8, total: nat): nat {
    var left := if total > baseScore then 0 else baseScore - total;
    if left > 100 then 100 else left
  }

  function Classify(score: nat, settings: HealthSettings): HealthStatus {
    if score >= settings.healthyMinScore then Healthy
    else if score >= settings.degradedMinScore then Degraded
    else Unhealthy
  }

  function EvaluateHealth(
    state: MarketState, anomalies: seq<Anomaly>, now: Millis, settings: HealthSettings, staleMs: nat): Evaluation
  {
    var recent := RecentAnomalies(anomalies, now, settings);
    var penalties := CollectPenalties(state, recent, now, settings, staleMs);
    var score := ComputeScore(settings.baseScore, SaturatingTotal(penalties));
    Evaluation(settings.baseScore, score, Classify(score, settings), now, |recent|,
               HealthSignals(state.signals, state.lastEventTime, LastEventAgeMs(state.lastEventTime, now)), penalties)
  }

  // ----- Sums over lists that do not depend on order -----

  function SumBy<T>(f: T -> nat, xs: seq<T>): nat {
    if xs == [] then 0 else SumBy(f, xs[..|xs| - 1]) + f(xs[|xs| - 1])
  }

  lemma {:induction false} SumByConcat<T>(f: T -> nat, a: seq<T>, b: seq<T>)
    ensures SumBy(f, a + b) == SumBy(f, a) + SumBy(f, b)
  {
    if b == [] {
      assert a + b == a;
    } else {
      assert (a + b)[..|a + b| - 1] == a + b[..|b| - 1];
      SumByConcat(f, a, b[..|b| - 1]);
    }
  }

  lemma SumByTakeOut<T>(f: T -> nat, xs: seq<T>, i: nat)
    requires i < |xs|
    ensures SumBy(f, xs) == SumBy(f, xs[..i] + xs[i + 1..]) + f(xs[i])
  {
    var before, one, after := xs[..i], [xs[i]], xs[i + 1..];
    assert xs == before + (one + after);
    SumByConcat(f, before, one + after);
    SumByConcat(f, one, after);
    SumByConcat(f, before, after);
    assert SumBy(f, one) == f(xs[i]) by { assert one[..0] == []; }
  }

  lemma FindAndRemove<T>(front: seq<T>, x: T, b: seq<T>) returns (i: nat)
    requires multiset(front + [x]) == multiset(b)
    ensures i < |b| && b[i] == x && multiset(b[..i] + b[i + 1..]) == multiset(front)
  {
    assert x in multiset(b);
    i :| 0 <= i < |b| && b[i] == x;
    var rest := b[..i] + b[i + 1..];
    assert b == b[..i] + [x] + b[i + 1..];
    assert multiset(b) == multiset(rest) + multiset{x};
    assert multiset(rest) == multiset(b) - multiset{x};
    assert multiset(front) == multiset(front + [x]) - multiset{x};
  }

  lemma {:induction false} SumByPermutation<T>(f: T -> nat, a: seq<T>, b: seq<T>)
    requires multiset(a) == multiset(b)
    ensures SumBy(f, a) == SumBy(f, b)
    decreases |a|
  {
    assert |multiset(a)| == |a| && |multiset(b)| == |b|;
    if a != [] {
      var x, front := a[|a| - 1], a[..|a| - 1];
      assert a == front + [x];
      var i := FindAndRemove(front, x, b);
      SumByPermutation(f, front, b[..i] + b[i + 1..]);
      SumByTakeOut(f, b, i);
    }
  }

  // ----- What the score is -----

  function Points(penalty: Penalty): nat {
    penalty.penalty
  }

  lemma {:induction false} SaturatingTotalIsCappedSum(penalties: seq<Penalty>)
    ensures var sum := SumBy(Points, penalties);
            SaturatingTotal(penalties) == if sum > U16_MAX then U16_MAX else sum
  {
    if penalties != [] { SaturatingTotalIsCappedSum(penalties[..|penalties| - 1]); }
  }

  function RecentPoints(anomaly: Anomaly, now: Millis, settings: HealthSettings): nat {
    if IsRecent(anomaly, now, settings) then PenaltyPoints(anomaly, settings) else 0
  }

  function RecentOne(anomaly: Anomaly, now: Millis, settings: HealthSettings): nat {
    if IsRecent(anomaly, now, settings) then 1 else 0
  }

  ghost predicate HasRecentStale(anomalies: seq<Anomaly>, now: Millis, settings: HealthSettings) {
    exists a :: a in anomalies && IsRecent(a, now, settings) && a.kind.StaleData?
  }

  // The unbounded penalty: every recent anomaly's points, plus the stale points when the state is
  // stale and no recent anomaly says so.
  ghost function PenaltySum(
    state: MarketState, anomalies: seq<Anomaly>, now: Millis, settings: HealthSettings, staleMs: nat): nat
  {
    SumBy((a: Anomaly) => RecentPoints(a, now, settings), anomalies)
    + if IsStale(state, now, staleMs) && !HasRecentStale(anomalies, now, settings) then settings.staleDataPenalty else 0
  }

  lemma {:induction false} RecentPenaltiesSum(anomalies: seq<Anomaly>, now: Millis, settings: HealthSettings)
    ensures var recent := RecentAnomalies(anomalies, now, settings);
            && SumBy(Points, AnomalyPenalties(recent, settings))
               == SumBy((a: Anomaly) => RecentPoints(a, now, settings), anomalies)
            && |recent| == SumBy((a: Anomaly) => RecentOne(a, now, settings), anomalies)
            && (HasStalePenalty(AnomalyPenalties(recent, settings)) <==> HasRecentStale(anomalies, now, settings))
  {
    hide HasStalePenalty, HasRecentStale;
    if anomalies == [] {
      NoPenalties(now, settings);
    } else {
      var front, last := anomalies[..|anomalies| - 1], anomalies[|anomalies| - 1];
      RecentPenaltiesSum(front, now, settings);
      RecentStaleStep(anomalies, now, settings);
      var before := RecentAnomalies(front, now, settings);
      if IsRecent(last, now, settings) {
        PenaltyAppend(before, last, settings);
      } else {
        assert before + [] == before;
      }
    }
  }

  lemma NoPenalties(now: Millis, settings: HealthSettings)
    ensures !HasStalePenalty([]) && !HasRecentStale([], now, settings)
  {
  }

  lemma RecentStaleStep(anomalies: seq<Anomaly>, now: Millis, settings: HealthSettings)
    requires anomalies != []
    ensures var front, last := anomalies[..|anomalies| - 1], anomalies[|anomalies| - 1];
            HasRecentStale(anomalies, now, settings)
            <==> HasRecentStale(front, now, settings) || (IsRecent(last, now, settings) && last.kind.StaleData?)
  {
    assert anomalies == anomalies[..|anomalies| - 1] + [anomalies[|anomalies| - 1]];
  }

  lemma PenaltyAppend(recent: seq<Anomaly>, anomaly: Anomaly, settings: HealthSettings)
    ensures var before, after := AnomalyPenalties(recent, settings), AnomalyPenalties(recent + [anomaly], settings);
            && SumBy(Points, after) == SumBy(Points, before) + PenaltyPoints(anomaly, settings)
            && (HasStalePenalty(after) <==> HasStalePenalty(before) || anomaly.kind.StaleData?)
  {
    assert (recent + [anomaly])[..|recent|] == recent;
    var before, penalty := AnomalyPenalties(recent, settings), AnomalyPenalty(anomaly, settings);
    var after := before + [penalty];
    assert after[..|before|] == before;
    if i :| 0 <= i < |before| && before[i].kind == Some(StaleData) { assert after[i].kind == Some(StaleData); }
    if anomaly.kind.StaleData? { assert after[|before|].kind == Some(StaleData); }
    if i :| 0 <= i < |after| && after[i].kind == Some(StaleData) {
      assert if i < |before| then before[i].kind == Some(StaleData) else anomaly.kind.StaleData?;
    }
  }

  function ClampedDifference(baseScore: U8, sum: nat): nat {
    if sum >= baseScore then 0 else if baseScore - sum > 100 then 100 else baseScore - sum
  }

  // Despite 16-bit saturation the score is the base minus the true penalty sum, clamped to [0, 100].
  lemma ScoreIsClampedDifference(
    state: MarketState, anomalies: seq<Anomaly>, now: Millis, settings: HealthSettings, staleMs: nat)
    ensures EvaluateHealth(state, anomalies, now, settings, staleMs).score
            == ClampedDifference(settings.baseScore, PenaltySum(state, anomalies, now, settings, staleMs))
    ensures EvaluateHealth(state, anomalies, now, settings, staleMs).recentAnomalyCount
            == SumBy((a: Anomaly) => RecentOne(a, now, settings), anomalies)
  {
    var recent := RecentAnomalies(anomalies, now, settings);
    var penalties := CollectPenalties(state, recent, now, settings, staleMs);
    RecentPenaltiesSum(anomalies, now, settings);
    SaturatingTotalIsCappedSum(penalties);
    var own := AnomalyPenalties(recent, settings);
    assert (own + [StaleStatePenalty(state, now, settings.staleDataPenalty, staleMs)])[..|own|] == own;
  }

  // ----- The score in numbers -----

  function Count<T>(p: T -> bool, xs: seq<T>): nat {
    if xs == [] then 0 else Count(p, xs[..|xs| - 1]) + if p(xs[|xs| - 1]) then 1 else 0
  }

  // Recent anomalies other than stale data, of one severity.
  function RecentOf(severity: Severity, anomalies: seq<Anomaly>, now: Millis, windowSecs: nat): nat {
    Count((a: Anomaly) => now - windowSecs * 1000 <= a.createdAt <= now && a.severity == severity && a.kind != StaleData,
          anomalies)
  }

  function RecentStale(anomalies: seq<Anomaly>, now: Millis, windowSecs: nat): nat {
    Count((a: Anomaly) => now - windowSecs * 1000 <= a.createdAt <= now && a.kind == StaleData, anomalies)
  }

  // The points of a list by its counts.
  function Priced(infos: nat, warnings: nat, criticals: nat, stales: nat, settings: HealthSettings): int {
    infos * settings.infoPenalty + warnings * settings.warningPenalty
    + criticals * settings.criticalPenalty + stales * settings.staleDataPenalty
  }

  lemma OneMore(infos: nat, warnings: nat, criticals: nat, stales: nat, settings: HealthSettings)
    ensures var points := Priced(infos, warnings, criticals, stales, settings);
            && Priced(infos + 1, warnings, criticals, stales, settings) == points + settings.infoPenalty
            && Priced(infos, warnings + 1, criticals, stales, settings) == points + settings.warningPenalty
            && Priced(infos, warnings, criticals + 1, stales, settings) == points + settings.criticalPenalty
            && Priced(infos, warnings, criticals, stales + 1, settings) == points + settings.staleDataPenalty
  {
  }

  lemma CountsStep(anomalies: seq<Anomaly>, now: Millis, w: nat)
    requires anomalies != []
    ensures var front, last := anomalies[..|anomalies| - 1], anomalies[|anomalies| - 1];
            var inWindow, stale := now - w * 1000 <= last.createdAt <= now, last.kind == StaleData;
            && (forall severity: Severity ::
                  RecentOf(severity, anomalies, now, w)
                  == RecentOf(severity, front, now, w) + if inWindow && last.severity == severity && !stale then 1 else 0)
            && RecentStale(anomalies, now, w) == RecentStale(front, now, w) + if inWindow && stale then 1 else 0
  {
  }

  lemma {:induction false} PointsByCount(anomalies: seq<Anomaly>, now: Millis, settings: HealthSettings)
    ensures var w := settings.recentWindowSecs;
            var infos, warnings := RecentOf(Info, anomalies, now, w), RecentOf(Warning, anomalies, now, w);
            var criticals, stales := RecentOf(Critical, anomalies, now, w), RecentStale(anomalies, now, w);
            && SumBy((a: Anomaly) => RecentPoints(a, now, settings), anomalies)
               == Priced(infos, warnings, criticals, stales, settings)
            && SumBy((a: Anomaly) => RecentOne(a, now, settings), anomalies) == infos + warnings + criticals + stales
            && (HasRecentStale(anomalies, now, settings) <==> stales > 0)
  {
    var w := settings.recentWindowSecs;
    if anomalies == [] {
      NoPenalties(now, settings);
    } else {
      hide RecentOf, RecentStale, Priced, HasRecentStale;
      var front, last := anomalies[..|anomalies| - 1], anomalies[|anomalies| - 1];
      PointsByCount(front, now, settings);
      RecentStaleStep(anomalies, now, settings);
      CountsStep(anomalies, now, w);
      OneMore(RecentOf(Info, front, now, w), RecentOf(Warning, front, now, w),
              RecentOf(Critical, front, now, w), RecentStale(front, now, w), settings);
    }
  }

  // The score is the base score less the penalty of each severity for every recent anomaly of it, the
  // stale penalty for every recent stale-data anomaly, and that penalty once more when there is none of
  // these although the last event is missing or as old as the threshold; clamped to [0, 100].  The two
  // thresholds of the settings turn it into the status.
  lemma ScoreInNumbers(
    state: MarketState, anomalies: seq<Anomaly>, now: Millis, settings: HealthSettings, staleMs: nat)
    ensures var w, e := settings.recentWindowSecs, EvaluateHealth(state, anomalies, now, settings, staleMs);
            var stales := RecentStale(anomalies, now, w);
            var isOld := state.lastEventTime.None? || staleMs == 0 || now - state.lastEventTime.value >= staleMs;
            var left := settings.baseScore
                        - RecentOf(Info, anomalies, now, w) * settings.infoPenalty
                        - RecentOf(Warning, anomalies, now, w) * settings.warningPenalty
                        - RecentOf(Critical, anomalies, now, w) * settings.criticalPenalty
                        - stales * settings.staleDataPenalty
                        - if isOld && stales == 0 then settings.staleDataPenalty else 0;
            e.score == if left < 0 then 0 else if left > 100 then 100 else left
    ensures var w, e := settings.recentWindowSecs, EvaluateHealth(state, anomalies, now, settings, staleMs);
            e.recentAnomalyCount
            == RecentOf(Info, anomalies, now, w) + RecentOf(Warning, anomalies, now, w)
               + RecentOf(Critical, anomalies, now, w) + RecentStale(anomalies, now, w)
    ensures var e := EvaluateHealth(state, anomalies, now, settings, staleMs);
            && (e.status.Healthy? <==> e.score >= settings.healthyMinScore)
            && (e.status.Unhealthy? <==> e.score < settings.healthyMinScore && e.score < settings.degradedMinScore)
  {
    hide HasRecentStale, CollectPenalties, RecentAnomalies, RecentOf, RecentStale, SaturatingTotal;
    ScoreIsClampedDifference(state, anomalies, now, settings, staleMs);
    PointsByCount(anomalies, now, settings);
  }

  lemma {:induction false} PenaltyOfEach(recent: seq<Anomaly>, settings: HealthSettings)
    ensures |AnomalyPenalties(recent, settings)| == |recent|
    ensures forall i :: 0 <= i < |recent| ==>
              var penalty, anomaly := AnomalyPenalties(recent, settings)[i], recent[i];
              && penalty.kind == Some(anomaly.kind) && penalty.severity == Some(anomaly.severity)
              && penalty.observed == anomaly.observed && penalty.threshold == anomaly.threshold
              && penalty.eventTime == Some(anomaly.eventTime)
              && (anomaly.kind == StaleData ==> penalty.penalty == settings.staleDataPenalty)
              && (anomaly.kind != StaleData && anomaly.severity == Info ==> penalty.penalty == settings.infoPenalty)
              && (anomaly.kind != StaleData && anomaly.severity == Warning ==> penalty.penalty == settings.warningPenalty)
              && (anomaly.kind != StaleData && anomaly.severity == Critical ==> penalty.penalty == settings.criticalPenalty)
  {
    if recent != [] { PenaltyOfEach(recent[..|recent| - 1], settings); }
  }

  lemma {:induction false} RecentAreInTheWindow(anomalies: seq<Anomaly>, now: Millis, settings: HealthSettings)
    ensures forall a :: a in RecentAnomalies(anomalies, now, settings)
              <==> a in anomalies && now - settings.recentWindowSecs * 1000 <= a.createdAt <= now
  {
    if anomalies != [] {
      var front, last := anomalies[..|anomalies| - 1], anomalies[|anomalies| - 1];
      RecentAreInTheWindow(front, now, settings);
      assert anomalies == front + [last];
    }
  }

  // The penalties listed are one per recent anomaly, in order, and then, exactly when none of these is
  // about stale data although the state is stale, one for the state: its age beside the threshold.
  lemma PenaltiesListed(
    state: MarketState, anomalies: seq<Anomaly>, now: Millis, settings: HealthSettings, staleMs: nat)
    ensures var penalties := EvaluateHealth(state, anomalies, now, settings, staleMs).penalties;
            var own := AnomalyPenalties(RecentAnomalies(anomalies, now, settings), settings);
            var isOld := state.lastEventTime.None? || staleMs == 0 || now - state.lastEventTime.value >= staleMs;
            if isOld && forall a :: a in anomalies && now - settings.recentWindowSecs * 1000 <= a.createdAt <= now ==>
                              a.kind != StaleData
            then
              var age := match state.lastEventTime
                         case None => None
                         case Some(last) => Some((if now < last then 0 else now - last) as real);
              penalties == own + [Penalty(settings.staleDataPenalty, Some(StaleData), None, age, Some(staleMs as real),
                                          state.lastEventTime)]
            else penalties == own
  {
    hide RecentAnomalies;
    var recent := RecentAnomalies(anomalies, now, settings);
    RecentAreInTheWindow(anomalies, now, settings);
    PenaltyOfEach(recent, settings);
    var own := AnomalyPenalties(recent, settings);
    if a :| a in recent && a.kind == StaleData {
      var i :| 0 <= i < |recent| && recent[i] == a;
      assert own[i].kind == Some(StaleData);
    }
    if HasStalePenalty(own) {
      var i :| 0 <= i < |own| && own[i].kind == Some(StaleData);
      assert recent[i] in recent;
    }
  }

  // The order in which anomalies are listed does not matter.
  lemma ScoreIgnoresOrder(
    state: MarketState, a: seq<Anomaly>, b: seq<Anomaly>, now: Millis, settings: HealthSettings, staleMs: nat)
    requires multiset(a) == multiset(b)
    ensures var e, f := EvaluateHealth(state, a, now, settings, staleMs), EvaluateHealth(state, b, now, settings, staleMs);
            e.score == f.score && e.status == f.status && e.recentAnomalyCount == f.recentAnomalyCount
  {
    ScoreIsClampedDifference(state, a, now, settings, staleMs);
    ScoreIsClampedDifference(state, b, now, settings, staleMs);
    SumByPermutation((x: Anomaly) => RecentPoints(x, now, settings), a, b);
    SumByPermutation((x: Anomaly) => RecentOne(x, now, settings), a, b);
    assert forall x :: x in a <==> x in multiset(a);
    assert forall x :: x in b <==> x in multiset(b);
  }

  function Rank(status: HealthStatus): nat {
    match status case Healthy => 2 case Degraded => 1 case Unhealthy => 0
  }

  lemma PenaltySumGrows(
    state: MarketState, anomalies: seq<Anomaly>, extra: Anomaly, now: Millis, settings: HealthSettings, staleMs: nat)
    ensures PenaltySum(state, anomalies, now, settings, staleMs)
            <= PenaltySum(state, anomalies + [extra], now, settings, staleMs)
  {
    var longer := anomalies + [extra];
    assert longer[..|longer| - 1] == anomalies;
    assert HasRecentStale(longer, now, settings)
           ==> HasRecentStale(anomalies, now, settings) || (IsRecent(extra, now, settings) && extra.kind.StaleData?);
  }

  // One more anomaly, wherever it is listed, never raises the score: not even a stale-data one that
  // takes the place of the synthetic staleness penalty.  Nor does it improve the status.
  lemma AnomaliesNeverHelp(
    state: MarketState, anomalies: seq<Anomaly>, extra: Anomaly, i: nat,
    now: Millis, settings: HealthSettings, staleMs: nat)
    requires i <= |anomalies|
    ensures var before := EvaluateHealth(state, anomalies, now, settings, staleMs);
            var after := EvaluateHealth(state, anomalies[..i] + [extra] + anomalies[i..], now, settings, staleMs);
            after.score <= before.score && Rank(after.status) <= Rank(before.status)
  {
    hide PenaltySum, CollectPenalties, RecentAnomalies, SaturatingTotal;
    var appended := anomalies + [extra];
    assert multiset(anomalies[..i] + [extra] + anomalies[i..]) == multiset(appended) by {
      assert anomalies == anomalies[..i] + anomalies[i..];
    }
    ScoreIgnoresOrder(state, anomalies[..i] + [extra] + anomalies[i..], appended, now, settings, staleMs);
    ScoreIsClampedDifference(state, anomalies, now, settings, staleMs);
    ScoreIsClampedDifference(state, appended, now, settings, staleMs);
    PenaltySumGrows(state, anomalies, extra, now, settings, staleMs);
  }
}
