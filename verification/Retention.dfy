// The cooldown decides exactly what is emitted, and bounds how many anomalies one symbol can have in
// any stretch of time.
module Retention {
  import opened Domain
  import opened Detectors
  import opened Engines
  import opened Pipeline
  import opened PipelineLaws
  import opened Health

  const COOLDOWN_MILLIS: int := 30_000

  predicate SameKey(a: Anomaly, b: Anomaly) {
    a.symbol == b.symbol && a.kind == b.kind
  }

  // Two entries of the same symbol and kind are at least the cooldown apart, in log order: neither a
  // burst of events nor a clock that steps back brings them closer.
  ghost predicate Spaced(log: seq<Anomaly>) {
    forall i, j :: 0 <= i < j < |log| && SameKey(log[i], log[j]) ==>
      log[i].createdAt + COOLDOWN_MILLIS <= log[j].createdAt
  }

  ghost predicate FarFromAll(anomaly: Anomaly, log: seq<Anomaly>) {
    forall a :: a in log && SameKey(a, anomaly) ==> a.createdAt + COOLDOWN_MILLIS <= anomaly.createdAt
  }

  // The bookkeeping knows of every log entry, or of a later one of the same key.
  ghost predicate Covers(emitted: Emissions, log: seq<Anomaly>) {
    forall a :: a in log ==> (a.symbol, a.kind) in emitted && a.createdAt <= emitted[(a.symbol, a.kind)]
  }

  lemma SpacedAppend(log: seq<Anomaly>, anomaly: Anomaly)
    ensures Spaced(log + [anomaly]) <==> Spaced(log) && FarFromAll(anomaly, log)
  {
    var longer := log + [anomaly];
    if Spaced(longer) {
      forall i, j | 0 <= i < j < |log| && SameKey(log[i], log[j])
        ensures log[i].createdAt + COOLDOWN_MILLIS <= log[j].createdAt
      {
        assert longer[i] == log[i] && longer[j] == log[j];
      }
      forall a | a in log && SameKey(a, anomaly)
        ensures a.createdAt + COOLDOWN_MILLIS <= anomaly.createdAt
      {
        var i :| 0 <= i < |log| && log[i] == a;
        assert longer[i] == a && longer[|log|] == anomaly;
      }
    }
  }

  lemma AdmittedIsFar(emitted: Emissions, log: seq<Anomaly>, anomaly: Anomaly)
    requires Covers(emitted, log) && MayEmit(emitted, anomaly)
    ensures FarFromAll(anomaly, log)
    ensures Covers(emitted[(anomaly.symbol, anomaly.kind) := anomaly.createdAt], log + [anomaly])
  {
  }

  lemma {:induction false} AdmitKeepsSpacing(emitted: Emissions, log: seq<Anomaly>, anomalies: seq<Anomaly>)
    requires Spaced(log) && Covers(emitted, log)
    ensures var admitted := Admit(emitted, anomalies);
            Spaced(log + admitted.1) && Covers(admitted.0, log + admitted.1)
    decreases |anomalies|
  {
    if anomalies == [] {
      assert log + [] == log;
    } else if MayEmit(emitted, anomalies[0]) {
      var first := anomalies[0];
      AdmittedIsFar(emitted, log, first);
      SpacedAppend(log, first);
      var emitted' := emitted[(first.symbol, first.kind) := first.createdAt];
      AdmitKeepsSpacing(emitted', log + [first], anomalies[1..]);
      assert log + ([first] + Admit(emitted', anomalies[1..]).1) == (log + [first]) + Admit(emitted', anomalies[1..]).1;
    } else {
      AdmitKeepsSpacing(emitted, log, anomalies[1..]);
    }
  }

  // Leaving entries out does not hurt.
  lemma {:induction false} SurvivorsAreSpaced(log: seq<Anomaly>, anomalies: seq<Anomaly>, failed: set<AnomalyKind>)
    requires Spaced(log + anomalies)
    ensures Spaced(log + Surviving(anomalies, failed))
  {
    if anomalies == [] {
      assert log + [] == log;
    } else {
      var front, last := anomalies[..|anomalies| - 1], anomalies[|anomalies| - 1];
      var kept := Surviving(front, failed);
      assert log + anomalies == (log + front) + [last];
      SpacedAppend(log + front, last);
      SurvivorsAreSpaced(log, front, failed);
      SurvivorsAreMembers(front, failed);
      assert log + (kept + [last]) == (log + kept) + [last];
      SpacedAppend(log + kept, last);
      assert kept + [] == kept;
    }
  }

  lemma CoversFewer(emitted: Emissions, log: seq<Anomaly>, fewer: seq<Anomaly>)
    requires Covers(emitted, log) && forall a :: a in fewer ==> a in log
    ensures Covers(emitted, fewer)
  {
  }

  // What a whole run keeps true of its two logs.
  ghost predicate WellSpaced(pipe: Pipe) {
    && Spaced(pipe.emitted) && Covers(pipe.engine.emitted, pipe.emitted)
    && Spaced(pipe.stored) && Covers(pipe.engine.emitted, pipe.stored)
  }

  lemma EventKeepsSpacing(pipe: Pipe, tick: Tick, settings: Settings)
    requires WellSpaced(pipe)
    ensures WellSpaced(PipeNext(pipe, tick, settings))
  {
    hide Candidates;
    var state := StateAfterEvent(pipe, tick.event);
    var candidates := CandidatesOf(pipe.engine, ContextOf(state, settings, tick.now));
    var admitted := Admit(pipe.engine.emitted, candidates);
    var survivors := Surviving(admitted.1, tick.failedInserts);
    AdmitKeepsSpacing(pipe.engine.emitted, pipe.emitted, candidates);
    AdmitKeepsSpacing(pipe.engine.emitted, pipe.stored, candidates);
    SurvivorsAreSpaced(pipe.stored, admitted.1, tick.failedInserts);
    SurvivorsAreMembers(admitted.1, tick.failedInserts);
    CoversFewer(admitted.0, pipe.stored + admitted.1, pipe.stored + survivors);
  }

  // Over any run, with any clock, emitted and stored anomalies keep the cooldown's distance.
  lemma {:induction false} RunIsWellSpaced(initial: Cache, ticks: seq<Tick>, settings: Settings)
    ensures WellSpaced(PipeAfter(initial, ticks, settings))
  {
    hide PipeNext;
    if ticks != [] {
      RunIsWellSpaced(initial, ticks[..|ticks| - 1], settings);
      EventKeepsSpacing(PipeAfter(initial, ticks[..|ticks| - 1], settings), ticks[|ticks| - 1], settings);
    }
  }

  // ----- Exactly what is emitted -----

  // When the log last saw this symbol and kind.
  function LastLogged(log: seq<Anomaly>, symbol: Symbol, kind: AnomalyKind): Option<Millis> {
    if log == [] then None
    else
      var last := log[|log| - 1];
      if last.symbol == symbol && last.kind == kind then Some(last.createdAt)
      else LastLogged(log[..|log| - 1], symbol, kind)
  }

  ghost predicate Mirrors(emitted: Emissions, log: seq<Anomaly>) {
    forall symbol, kind :: LastEmission(emitted, symbol, kind) == LastLogged(log, symbol, kind)
  }

  lemma MirrorsAppend(emitted: Emissions, log: seq<Anomaly>, anomaly: Anomaly)
    requires Mirrors(emitted, log)
    ensures Mirrors(emitted[(anomaly.symbol, anomaly.kind) := anomaly.createdAt], log + [anomaly])
  {
    var longer := log + [anomaly];
    assert longer[..|longer| - 1] == log;
    forall symbol, kind
      ensures LastEmission(emitted[(anomaly.symbol, anomaly.kind) := anomaly.createdAt], symbol, kind)
              == LastLogged(longer, symbol, kind)
    {
      assert LastEmission(emitted, symbol, kind) == LastLogged(log, symbol, kind);
    }
  }

  lemma {:induction false} AdmitKeepsMirror(emitted: Emissions, log: seq<Anomaly>, anomalies: seq<Anomaly>)
    requires Mirrors(emitted, log)
    ensures Mirrors(Admit(emitted, anomalies).0, log + Admit(emitted, anomalies).1)
    decreases |anomalies|
  {
    if anomalies == [] {
      assert log + [] == log;
    } else if MayEmit(emitted, anomalies[0]) {
      var first := anomalies[0];
      var emitted' := emitted[(first.symbol, first.kind) := first.createdAt];
      MirrorsAppend(emitted, log, first);
      AdmitKeepsMirror(emitted', log + [first], anomalies[1..]);
      assert log + ([first] + Admit(emitted', anomalies[1..]).1) == (log + [first]) + Admit(emitted', anomalies[1..]).1;
    } else {
      AdmitKeepsMirror(emitted, log, anomalies[1..]);
    }
  }

  // The cooldown bookkeeping is the log of emissions, seen key by key.
  lemma {:induction false} BookkeepingMirrorsLog(initial: Cache, ticks: seq<Tick>, settings: Settings)
    ensures Mirrors(PipeAfter(initial, ticks, settings).engine.emitted, PipeAfter(initial, ticks, settings).emitted)
  {
    hide CandidatesOf, StateAfterEvent;
    if ticks != [] {
      var front, last := ticks[..|ticks| - 1], ticks[|ticks| - 1];
      var pipe := PipeAfter(initial, front, settings);
      BookkeepingMirrorsLog(initial, front, settings);
      AdmitKeepsMirror(pipe.engine.emitted, pipe.emitted,
                       CandidatesOf(pipe.engine, ContextOf(StateAfterEvent(pipe, last.event), settings, last.now)));
    }
  }

  ghost predicate DistinctKinds(anomalies: seq<Anomaly>) {
    forall i, j :: 0 <= i < j < |anomalies| ==> anomalies[i].kind != anomalies[j].kind
  }

  lemma {:induction false} AdmitOfDistinct(emitted: Emissions, anomalies: seq<Anomaly>)
    requires DistinctKinds(anomalies)
    ensures forall a :: a in Admit(emitted, anomalies).1 <==> a in anomalies && MayEmit(emitted, a)
    decreases |anomalies|
  {
    if anomalies != [] {
      var first, rest := anomalies[0], anomalies[1..];
      assert anomalies == [first] + rest;
      assert DistinctKinds(rest);
      assert forall a :: a in rest ==> a.kind != first.kind;
      var emitted' := if MayEmit(emitted, first) then emitted[(first.symbol, first.kind) := first.createdAt] else emitted;
      AdmitOfDistinct(emitted', rest);
    }
  }

  // Each detector reports at most once per look.
  lemma {:induction false} ReportsAreDistinct(
    kinds: seq<AnomalyKind>, burst: Burst, stuck: Stuck, gap: Option<nat>, context: Context)
    requires forall i, j :: 0 <= i < j < |kinds| ==> kinds[i] != kinds[j]
    ensures DistinctKinds(ReportsOf(kinds, burst, stuck, gap, context))
    ensures forall a :: a in ReportsOf(kinds, burst, stuck, gap, context) ==> a.kind in kinds
  {
    if kinds != [] {
      var front, last := kinds[..|kinds| - 1], kinds[|kinds| - 1];
      assert kinds == front + [last];
      ReportsAreDistinct(front, burst, stuck, gap, context);
      assert last !in front;
      ReportIsOfItsKind(last, burst, stuck, gap, context);
      hide Report;
      var before, report := ReportsOf(front, burst, stuck, gap, context), Report(last, burst, stuck, gap, context);
      assert forall i :: 0 <= i < |before| ==> before[i].kind in front;
    }
  }

  lemma ReportIsOfItsKind(kind: AnomalyKind, burst: Burst, stuck: Stuck, gap: Option<nat>, context: Context)
    ensures var report := Report(kind, burst, stuck, gap, context); report.Some? ==> report.value.kind == kind
  {
  }

  // What the detectors report at an event is emitted exactly when the log of the run so far has no entry
  // of the same symbol and kind, or the last one is thirty whole seconds old.
  lemma EmittedExactly(initial: Cache, ticks: seq<Tick>, tick: Tick, settings: Settings, anomaly: Anomaly)
    ensures var pipe := PipeAfter(initial, ticks, settings);
            var state := StateAfterEvent(pipe, tick.event);
            var last := LastLogged(pipe.emitted, anomaly.symbol, anomaly.kind);
            anomaly in Evaluated(pipe.engine, state, settings, tick.now).1
            <==> && anomaly in CandidatesOf(pipe.engine, ContextOf(state, settings, tick.now))
                 && (last.Some? ==> ElapsedMs(last.value, anomaly.createdAt) >= 30_000)
  {
    hide PipeNext, StateAfterEvent;
    var pipe := PipeAfter(initial, ticks, settings);
    var context := ContextOf(StateAfterEvent(pipe, tick.event), settings, tick.now);
    var symbol := context.state.symbol;
    ReportsAreDistinct(DETECTORS, BurstOf(pipe.engine, symbol), StuckOf(pipe.engine, symbol), GapOf(pipe.engine, symbol), context);
    AdmitOfDistinct(pipe.engine.emitted, CandidatesOf(pipe.engine, context));
    BookkeepingMirrorsLog(initial, ticks, settings);
    assert LastEmission(pipe.engine.emitted, anomaly.symbol, anomaly.kind)
           == LastLogged(pipe.emitted, anomaly.symbol, anomaly.kind);
  }

  // ----- How many fit into a stretch of time -----

  predicate Falls(anomaly: Anomaly, symbol: Symbol, kind: AnomalyKind, lo: Millis, hi: Millis) {
    anomaly.symbol == symbol && anomaly.kind == kind && lo <= anomaly.createdAt <= hi
  }

  function CountIn(log: seq<Anomaly>, symbol: Symbol, kind: AnomalyKind, lo: Millis, hi: Millis): nat {
    if log == [] then 0
    else CountIn(log[..|log| - 1], symbol, kind, lo, hi)
         + if Falls(log[|log| - 1], symbol, kind, lo, hi) then 1 else 0
  }

  // The newest of n entries in the stretch lies at least n - 1 cooldowns after its beginning.
  lemma {:induction false} SpacedCount(log: seq<Anomaly>, symbol: Symbol, kind: AnomalyKind, lo: Millis, hi: Millis)
    requires Spaced(log)
    ensures var n := CountIn(log, symbol, kind, lo, hi);
            n > 0 ==> exists a :: a in log && Falls(a, symbol, kind, lo, hi) && lo + (n - 1) * COOLDOWN_MILLIS <= a.createdAt
  {
    if log != [] {
      var front, last := log[..|log| - 1], log[|log| - 1];
      assert log == front + [last];
      SpacedAppend(front, last);
      SpacedCount(front, symbol, kind, lo, hi);
      var n := CountIn(front, symbol, kind, lo, hi);
      if Falls(last, symbol, kind, lo, hi) {
        if n > 0 {
          var a :| a in front && Falls(a, symbol, kind, lo, hi) && lo + (n - 1) * COOLDOWN_MILLIS <= a.createdAt;
          assert SameKey(a, last);
        }
        assert last in log && lo + n * COOLDOWN_MILLIS <= last.createdAt;
      } else if n > 0 {
        var a :| a in front && Falls(a, symbol, kind, lo, hi) && lo + (n - 1) * COOLDOWN_MILLIS <= a.createdAt;
        assert a in log;
      }
    }
  }

  lemma CountBound(log: seq<Anomaly>, symbol: Symbol, kind: AnomalyKind, lo: Millis, hi: Millis)
    requires Spaced(log) && lo <= hi
    ensures CountIn(log, symbol, kind, lo, hi) <= (hi - lo) / COOLDOWN_MILLIS + 1
  {
    SpacedCount(log, symbol, kind, lo, hi);
  }

  // At most floor(length / 30 s) + 1 emissions of one symbol and kind in any stretch of time.
  lemma EmissionRateBound(
    initial: Cache, ticks: seq<Tick>, settings: Settings, symbol: Symbol, kind: AnomalyKind, lo: Millis, hi: Millis)
    requires lo <= hi
    ensures CountIn(PipeAfter(initial, ticks, settings).emitted, symbol, kind, lo, hi) <= (hi - lo) / COOLDOWN_MILLIS + 1
    ensures CountIn(PipeAfter(initial, ticks, settings).stored, symbol, kind, lo, hi) <= (hi - lo) / COOLDOWN_MILLIS + 1
  {
    hide PipeNext;
    RunIsWellSpaced(initial, ticks, settings);
    CountBound(PipeAfter(initial, ticks, settings).emitted, symbol, kind, lo, hi);
    CountBound(PipeAfter(initial, ticks, settings).stored, symbol, kind, lo, hi);
  }

  function CountAllKinds(log: seq<Anomaly>, symbol: Symbol, lo: Millis, hi: Millis): nat {
    CountIn(log, symbol, PriceMove, lo, hi) + CountIn(log, symbol, SpreadSpike, lo, hi)
    + CountIn(log, symbol, StaleData, lo, hi) + CountIn(log, symbol, TradeBurst, lo, hi)
    + CountIn(log, symbol, QuoteStuck, lo, hi) + CountIn(log, symbol, EventLagSpike, lo, hi)
    + CountIn(log, symbol, DepthSequenceGap, lo, hi)
  }

  function InStretch(anomaly: Anomaly, lo: Millis, hi: Millis): nat {
    if lo <= anomaly.createdAt <= hi then 1 else 0
  }

  // The entries of a one-symbol log in a stretch of time, counted kind by kind.
  lemma {:induction false} StretchByKind(log: seq<Anomaly>, symbol: Symbol, lo: Millis, hi: Millis)
    requires AllOfSymbol(symbol, log)
    ensures SumBy((a: Anomaly) => InStretch(a, lo, hi), log) == CountAllKinds(log, symbol, lo, hi)
  {
    if log != [] {
      StretchByKind(log[..|log| - 1], symbol, lo, hi);
      match log[|log| - 1].kind {
        case PriceMove => case SpreadSpike => case StaleData => case TradeBurst =>
        case QuoteStuck => case EventLagSpike => case DepthSequenceGap =>
      }
    }
  }

  // Seven kinds, each at most once a cooldown.
  lemma StretchBound(log: seq<Anomaly>, symbol: Symbol, lo: Millis, hi: Millis)
    requires AllOfSymbol(symbol, log) && Spaced(log) && lo <= hi
    ensures SumBy((a: Anomaly) => InStretch(a, lo, hi), log) <= 7 * ((hi - lo) / COOLDOWN_MILLIS + 1)
  {
    StretchByKind(log, symbol, lo, hi);
    CountBound(log, symbol, PriceMove, lo, hi);
    CountBound(log, symbol, SpreadSpike, lo, hi);
    CountBound(log, symbol, StaleData, lo, hi);
    CountBound(log, symbol, TradeBurst, lo, hi);
    CountBound(log, symbol, QuoteStuck, lo, hi);
    CountBound(log, symbol, EventLagSpike, lo, hi);
    CountBound(log, symbol, DepthSequenceGap, lo, hi);
  }

  // ----- Logs of one symbol, and when they were written -----

  lemma {:induction false} OfSymbolIsSpaced(symbol: Symbol, log: seq<Anomaly>)
    requires Spaced(log)
    ensures Spaced(OfSymbol(symbol, log)) && AllOfSymbol(symbol, OfSymbol(symbol, log))
    ensures forall a :: a in OfSymbol(symbol, log) ==> a in log
  {
    if log != [] {
      var front, last := log[..|log| - 1], log[|log| - 1];
      assert log == front + [last];
      SpacedAppend(front, last);
      OfSymbolIsSpaced(symbol, front);
      SpacedAppend(OfSymbol(symbol, front), last);
      assert OfSymbol(symbol, front) + [] == OfSymbol(symbol, front);
    }
  }

  // Every entry carries one of the run's clock readings.
  ghost predicate ReadingsOf(log: seq<Anomaly>, ticks: seq<Tick>) {
    forall a :: a in log ==> exists i :: 0 <= i < |ticks| && ticks[i].now == a.createdAt
  }

  lemma ReadingsGrow(log: seq<Anomaly>, ticks: seq<Tick>, more: seq<Anomaly>, tick: Tick)
    requires ReadingsOf(log, ticks) && forall a :: a in more ==> a.createdAt == tick.now
    ensures ReadingsOf(log + more, ticks + [tick])
  {
    var longer := ticks + [tick];
    forall a | a in log + more
      ensures exists i :: 0 <= i < |longer| && longer[i].now == a.createdAt
    {
      if a in more {
        assert longer[|ticks|].now == a.createdAt;
      } else {
        var i :| 0 <= i < |ticks| && ticks[i].now == a.createdAt;
        assert longer[i].now == a.createdAt;
      }
    }
  }

  lemma {:induction false} LogsCarryReadings(initial: Cache, ticks: seq<Tick>, settings: Settings)
    ensures ReadingsOf(PipeAfter(initial, ticks, settings).emitted, ticks)
    ensures ReadingsOf(PipeAfter(initial, ticks, settings).stored, ticks)
  {
    hide Evaluated, StateAfterEvent, ReadingsOf;
    if ticks == [] {
      NoReadings();
    } else {
      var front, last := ticks[..|ticks| - 1], ticks[|ticks| - 1];
      assert ticks == front + [last];
      LogsCarryReadings(initial, front, settings);
      var pipe := PipeAfter(initial, front, settings);
      var state := StateAfterEvent(pipe, last.event);
      var emitted := Evaluated(pipe.engine, state, settings, last.now).1;
      EmittedAreStamped(pipe.engine, state, settings, last.now);
      SurvivorsAreMembers(emitted, last.failedInserts);
      ReadingsGrow(pipe.emitted, front, emitted, last);
      ReadingsGrow(pipe.stored, front, Surviving(emitted, last.failedInserts), last);
    }
  }

  lemma NoReadings()
    ensures ReadingsOf([], [])
  {
  }

  // ----- A report always leaves a recent row -----

  lemma {:induction false} LastLoggedIsThere(log: seq<Anomaly>, symbol: Symbol, kind: AnomalyKind)
    ensures var last := LastLogged(log, symbol, kind);
            last.Some? ==> exists a :: a in log && a.symbol == symbol && a.kind == kind && a.createdAt == last.value
  {
    if log != [] {
      LastLoggedIsThere(log[..|log| - 1], symbol, kind);
      assert log[|log| - 1] in log;
    }
  }

  // Whatever a detector reports is emitted, or was emitted less than a cooldown ago.
  lemma ReportLeavesARow(initial: Cache, ticks: seq<Tick>, tick: Tick, settings: Settings, anomaly: Anomaly)
    requires var pipe := PipeAfter(initial, ticks, settings);
             anomaly in CandidatesOf(pipe.engine, ContextOf(StateAfterEvent(pipe, tick.event), settings, tick.now))
    requires forall i :: 0 <= i < |ticks| ==> ticks[i].now <= tick.now
    ensures exists row :: row in PipeNext(PipeAfter(initial, ticks, settings), tick, settings).emitted
                          && SameKey(row, anomaly) && tick.now - COOLDOWN_MILLIS < row.createdAt <= tick.now
  {
    hide CandidatesOf, StateAfterEvent, Admit;
    var pipe := PipeAfter(initial, ticks, settings);
    var state := StateAfterEvent(pipe, tick.event);
    var emitted := Evaluated(pipe.engine, state, settings, tick.now).1;
    var next := PipeNext(pipe, tick, settings);
    CandidateIsStamped(pipe.engine, state, settings, tick.now, anomaly);
    EmittedExactly(initial, ticks, tick, settings, anomaly);
    if anomaly in emitted {
      assert anomaly in next.emitted;
    } else {
      LastLoggedIsThere(pipe.emitted, anomaly.symbol, anomaly.kind);
      LogsCarryReadings(initial, ticks, settings);
      var last := LastLogged(pipe.emitted, anomaly.symbol, anomaly.kind).value;
      var row :| row in pipe.emitted && row.symbol == anomaly.symbol && row.kind == anomaly.kind && row.createdAt == last;
      assert row in next.emitted;
    }
  }

  lemma CandidateIsStamped(engine: Engine, state: MarketState, settings: Settings, now: Millis, anomaly: Anomaly)
    requires anomaly in CandidatesOf(engine, ContextOf(state, settings, now))
    ensures anomaly.symbol == state.symbol && anomaly.createdAt == now
  {
    ReportsAreStamped(DETECTORS, BurstOf(engine, state.symbol), StuckOf(engine, state.symbol),
                      GapOf(engine, state.symbol), ContextOf(state, settings, now));
  }
}
