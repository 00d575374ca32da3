// A run in which all seven detectors report every thirty seconds, fifteen times over: 420 seconds hold
// 105 rows of one symbol, so that window and limit of the health query cannot be larger.
module FullHouse {
  import opened Domain
  import opened BookSide
  import opened Books
  import opened Windows
  import opened Aggregator
  import opened Detectors
  import opened Engines
  import opened Pipeline
  import opened PipelineLaws
  import opened Health
  import opened Retention
  import opened RowLimit

  // ----- The run -----

  const SYMBOL: Symbol := "A"

  // The clock reading of the first round; events are older than that.
  const BASE: Millis := 100_000

  // The shipped thresholds, except that a burst needs only the mean and one earlier rate.
  const SETTINGS: Settings := Settings(2.5, 0.5, 5_000, 1.0, 1, 10_000, 3_000, 1)

  function TradeAt(t: Millis, price: real): Event {
    TradeEvent(Trade(SYMBOL, price, 1.0, t, t + 4_000))
  }

  const QUOTE: Event := QuoteEvent(Quote(SYMBOL, 10.0, 1.0, 11.0, 1.0, 0, 4_000))

  // Always the same single bid.
  function DepthAt(t: Millis, id: U64): Event {
    DepthEvent(DepthUpdate(SYMBOL, Some(id), Some(id), [DepthLevel(10.0, 1.0)], [], t, t + 4_000))
  }

  function TickAt(event: Event, now: Millis): Tick {
    Tick(event, now, true, {})
  }

  function RoundTime(k: nat): Millis {
    BASE + k * COOLDOWN_MILLIS
  }

  // A further trade makes the rate grow; it comes 20 seconds after the signature was first seen.
  function TradeTick(k: nat): Tick {
    TickAt(TradeAt(20_000, 2.0), RoundTime(k))
  }

  // A depth update that skips ids.
  function DepthTick(k: nat): Tick
    requires k < 15
  {
    TickAt(DepthAt(20_000, 10 * k + 10), RoundTime(k))
  }

  function Setup(): seq<Tick> {
    [TickAt(TradeAt(0, 1.0), BASE), TickAt(QUOTE, BASE), TickAt(DepthAt(0, 1), BASE)]
  }

  // The setup and k rounds.
  function Rounds(k: nat): seq<Tick>
    requires k <= 15
  {
    if k == 0 then Setup() else Rounds(k - 1) + [TradeTick(k - 1)] + [DepthTick(k - 1)]
  }

  // ----- The symbol during the run -----

  const SIGNATURE: Signature := Signature(10.0, 1.0, 11.0, 1.0, Some(1.0), None)

  function LatestTime(n: nat): Millis {
    if n <= 1 then 0 else 20_000
  }

  // The n trades in the window.
  function Samples(n: nat): (samples: seq<Sample>)
    ensures |samples| == n
  {
    if n == 0 then [] else Samples(n - 1) + [Sample(LatestTime(n), if n == 1 then 1.0 else 2.0)]
  }

  lemma {:induction false} SamplesAre(n: nat)
    ensures forall i :: 0 <= i < n ==> Samples(n)[i] == if i == 0 then Sample(0, 1.0) else Sample(20_000, 2.0)
  {
    if n > 0 { SamplesAre(n - 1); }
  }

  // After n trades, n >= 1, and g rounds' depth updates.
  ghost predicate BookIs(book: Book, g: nat) {
    && book.bids == map[10.0 := 1.0] && book.asks == map[] && book.retained == 50
    && book.lastFinalUpdateId == Some(if g == 0 then 1 else 10 * g)
    && book.gapCount == g
  }

  ghost predicate StateIs(state: MarketState, n: nat, g: nat) {
    && state.symbol == SYMBOL && state.depthSequenceGapCount == g
    && SignatureOf(state) == Some(SIGNATURE)
    && state.signals.spreadPct == SpreadPct(10.0, 11.0)
    && state.signals.priceChangePct == (if n <= 1 then None else Some(100.0))
    && state.signals.tradesPerMinute == Some(n as real)
    && state.lastEventTime == Some(LatestTime(n)) && state.lastIngestTime == Some(LatestTime(n) + 4_000)
  }

  ghost predicate SymbolIs(m: SymbolModel, n: nat, g: nat) {
    && n >= 1 && StateIs(m.state, n, g) && BookIs(m.book, g)
    && m.window == Window(Samples(n), Some(LatestTime(n)), TRADE_WINDOW_MILLIS)
  }

  lemma WindowGrows(n: nat)
    requires n >= 1
    ensures PushSample(Window(Samples(n), Some(LatestTime(n)), TRADE_WINDOW_MILLIS), Sample(20_000, 2.0))
            == Window(Samples(n + 1), Some(20_000), TRADE_WINDOW_MILLIS)
  {
    SamplesAre(n);
    SamplesAre(n + 1);
    InsertPointIs(Samples(n), 20_000, n);
    assert Samples(n)[..n] == Samples(n) && Samples(n)[n..] == [];
    assert Insert(Samples(n), Sample(20_000, 2.0)) == Samples(n + 1);
  }

  lemma TradeStep(m: SymbolModel, n: nat, g: nat)
    requires SymbolIs(m, n, g)
    ensures SymbolIs(EventApplied(m, TradeAt(20_000, 2.0)), n + 1, g)
  {
    hide PushSample, BookIs;
    WindowGrows(n);
    SamplesAre(n + 1);
    assert PriceChangePct(Samples(n + 1)) == Some(100.0) by {
      assert Samples(n + 1)[0] == Sample(0, 1.0) && Samples(n + 1)[n] == Sample(20_000, 2.0);
    }
  }

  // Re-quoting the one bid leaves the sides alone.
  lemma SidesStay(bids: Side)
    requires bids == map[] || bids == map[10.0 := 1.0]
    ensures TopN(LowestPrice, ApplyLevels(bids, [DepthLevel(10.0, 1.0)]), 50) == map[10.0 := 1.0]
    ensures TopN(HighestPrice, ApplyLevels(map[], []), 50) == map[]
  {
    var level := DepthLevel(10.0, 1.0);
    assert [level][..|[level]| - 1] == [] && ApplyLevels(bids, []) == bids;
    assert ApplyLevels(bids, [level]) == ApplyLevel(bids, level) == map[10.0 := 1.0];
    TopNSize(LowestPrice, map[10.0 := 1.0], 50);
    TopNSize(HighestPrice, map[], 50);
  }

  lemma DepthStep(m: SymbolModel, n: nat, g: nat)
    requires SymbolIs(m, n, g) && n >= 2 && g < 15
    ensures SymbolIs(EventApplied(m, DepthAt(20_000, 10 * g + 10)), n, g + 1)
  {
    hide TopN, Best, SpreadPct, Liquidity;
    SidesStay(m.book.bids);
    OneBidShown();
  }

  lemma OneBidShown()
    ensures Best(LowestPrice, map[10.0 := 1.0]) == Some((10.0, 1.0)) && Best(HighestPrice, map[]) == None
  {
    var side: Side := map[10.0 := 1.0];
    assert side.Keys == {10.0};
    assert Ahead(LowestPrice, side.Keys, 10.0) == {};
    BestIsUnique(LowestPrice, side, 10.0);
  }

  // ----- The setup -----

  // Before the first depth update.
  ghost predicate Opening(m: SymbolModel) {
    && m.state.symbol == SYMBOL && m.state.depthSequenceGapCount == 0
    && m.state.topBidQuantity == None && m.state.topAskQuantity == None
    && m.state.signals.priceChangePct == None && m.state.signals.tradesPerMinute == Some(1.0)
    && m.state.lastEventTime == Some(0) && m.state.lastIngestTime == Some(4_000)
    && m.window == Window(Samples(1), Some(0), TRADE_WINDOW_MILLIS) && m.book == NewBook(DEFAULT_RETAINED_DEPTH_LEVELS)
  }

  lemma FirstTrade()
    ensures var m := EventApplied(NewSymbolModel(SYMBOL), TradeAt(0, 1.0));
            Opening(m) && m.latestQuoteTime == None && SignatureOf(m.state) == None
  {
    SamplesAre(1);
    assert Samples(1) == [Sample(0, 1.0)];
    assert Insert([], Sample(0, 1.0)) == [Sample(0, 1.0)];
  }

  lemma FirstQuote(m: SymbolModel)
    requires Opening(m) && m.latestQuoteTime == None
    ensures var next := EventApplied(m, QUOTE);
            && Opening(next) && next.state.signals.spreadPct == SpreadPct(10.0, 11.0)
            && SignatureOf(next.state) == Some(Signature(10.0, 1.0, 11.0, 1.0, None, None))
  {
    hide SpreadPct;
  }

  lemma FirstDepth(m: SymbolModel)
    requires Opening(m) && m.state.signals.spreadPct == SpreadPct(10.0, 11.0)
    requires SignatureOf(m.state) == Some(Signature(10.0, 1.0, 11.0, 1.0, None, None))
    ensures SymbolIs(EventApplied(m, DepthAt(0, 1)), 1, 0)
  {
    hide TopN, Best, SpreadPct, Liquidity;
    SidesStay(m.book.bids);
    OneBidShown();
  }

  // ----- The detectors' memories -----

  ghost predicate Armed(engine: Engine, n: nat, g: nat) {
    var burst := BurstOf(engine, SYMBOL);
    && burst.last == Some(n as real) && burst.count >= 1
    && burst.baseline.Some? && 0.0 <= burst.baseline.value <= n as real
    && StuckOf(engine, SYMBOL) == Stuck(Some(SIGNATURE), Some(0))
    && GapOf(engine, SYMBOL) == Some(g)
  }

  lemma MeanStaysBelow(mean: real, count: nat, x: real)
    requires 0.0 <= mean <= x
    ensures 0.0 <= MeanWith(mean, count, x) <= x
  {
    var c, next := count as real, MeanWith(mean, count, x);
    assert mean * c <= x * c;
    assert next * (c + 1.0) == mean * c + x;
    assert (x - next) * (c + 1.0) == x * c - mean * c;
    SignOfFactor(next, c + 1.0);
    SignOfFactor(x - next, c + 1.0);
  }

  // A look at the next state, after a trade or a depth update, keeps the memories armed.
  lemma LookKeepsArmed(engine: Engine, state: MarketState, n: nat, g: nat, n': nat, g': nat, now: Millis)
    requires Armed(engine, n, g) && StateIs(state, n', g') && (n' == n || n' == n + 1)
    ensures Armed(Evaluated(engine, state, SETTINGS, now).0, n', g')
  {
    hide Evaluated, SignatureOf;
    var burst := BurstOf(engine, SYMBOL);
    MemoriesAfter(engine, state, SETTINGS, now);
    if n' == n + 1 { MeanStaysBelow(burst.baseline.value, burst.count, n' as real); }
  }

  ghost predicate PipeIs(pipe: Pipe, n: nat, g: nat) {
    SYMBOL in pipe.symbols && SymbolIs(pipe.symbols[SYMBOL], n, g) && Armed(pipe.engine, n, g)
  }

  lemma Appended(initial: Cache, ticks: seq<Tick>, tick: Tick)
    ensures PipeAfter(initial, ticks + [tick], SETTINGS) == PipeNext(PipeAfter(initial, ticks, SETTINGS), tick, SETTINGS)
  {
    hide PipeNext;
    assert (ticks + [tick])[..|ticks|] == ticks;
  }

  // What the pipeline shows the detectors of the next event of the symbol, and what it keeps.
  lemma NextIs(pipe: Pipe, event: Event, now: Millis, m: SymbolModel)
    requires event.Symbol() == SYMBOL && m == EventApplied(SymbolOrNew(pipe.symbols, SYMBOL), event)
    ensures var next := PipeNext(pipe, TickAt(event, now), SETTINGS);
            && StateAfterEvent(pipe, event) == m.state
            && SYMBOL in next.symbols && next.symbols[SYMBOL] == m
            && next.engine == Evaluated(pipe.engine, m.state, SETTINGS, now).0
            && next.emitted == pipe.emitted + Evaluated(pipe.engine, m.state, SETTINGS, now).1
  {
    hide Evaluated, EventApplied;
  }

  lemma TradeTickKeeps(pipe: Pipe, n: nat, g: nat, now: Millis)
    requires PipeIs(pipe, n, g)
    ensures PipeIs(PipeNext(pipe, TickAt(TradeAt(20_000, 2.0), now), SETTINGS), n + 1, g)
    ensures StateIs(StateAfterEvent(pipe, TradeAt(20_000, 2.0)), n + 1, g)
  {
    hide PipeNext, StateIs, Armed, BookIs, EventApplied;
    var event := TradeAt(20_000, 2.0);
    var m := EventApplied(pipe.symbols[SYMBOL], event);
    TradeStep(pipe.symbols[SYMBOL], n, g);
    NextIs(pipe, event, now, m);
    LookKeepsArmed(pipe.engine, m.state, n, g, n + 1, g, now);
  }

  lemma DepthTickKeeps(pipe: Pipe, n: nat, g: nat, now: Millis)
    requires PipeIs(pipe, n, g) && n >= 2 && g < 15
    ensures PipeIs(PipeNext(pipe, TickAt(DepthAt(20_000, 10 * g + 10), now), SETTINGS), n, g + 1)
    ensures StateIs(StateAfterEvent(pipe, DepthAt(20_000, 10 * g + 10)), n, g + 1)
  {
    hide PipeNext, StateIs, Armed, BookIs, EventApplied;
    var event := DepthAt(20_000, 10 * g + 10);
    var m := EventApplied(pipe.symbols[SYMBOL], event);
    DepthStep(pipe.symbols[SYMBOL], n, g);
    NextIs(pipe, event, now, m);
    LookKeepsArmed(pipe.engine, m.state, n, g, n, g + 1, now);
  }

  lemma SetupIsReady(initial: Cache)
    ensures PipeIs(PipeAfter(initial, Setup(), SETTINGS), 1, 0)
  {
    hide PipeAfter, PipeNext;
    var ticks := Setup();
    assert ticks == [] + [ticks[0]] + [ticks[1]] + [ticks[2]];
    Appended(initial, [], ticks[0]);
    Appended(initial, [] + [ticks[0]], ticks[1]);
    Appended(initial, [] + [ticks[0]] + [ticks[1]], ticks[2]);
    assert PipeAfter(initial, [], SETTINGS) == NewPipe(initial) by { NothingYet(initial); }
    SetupSteps(NewPipe(initial));
  }

  lemma NothingYet(initial: Cache)
    ensures PipeAfter(initial, [], SETTINGS) == NewPipe(initial)
  {
  }

  lemma SetupSteps(p0: Pipe)
    requires p0.symbols == map[] && p0.engine == NEW_ENGINE
    ensures var ticks := Setup();
            var p1 := PipeNext(p0, ticks[0], SETTINGS);
            var p2 := PipeNext(p1, ticks[1], SETTINGS);
            PipeIs(PipeNext(p2, ticks[2], SETTINGS), 1, 0)
  {
    hide PipeNext, EventApplied, StateIs, BookIs, Evaluated, Samples, SignatureOf, SpreadPct;
    var ticks := Setup();
    var m1 := EventApplied(NewSymbolModel(SYMBOL), TradeAt(0, 1.0));
    var m2 := EventApplied(m1, QUOTE);
    var m3 := EventApplied(m2, DepthAt(0, 1));
    FirstTrade();
    FirstQuote(m1);
    FirstDepth(m2);
    NextIs(p0, TradeAt(0, 1.0), BASE, m1);
    var p1 := PipeNext(p0, ticks[0], SETTINGS);
    NextIs(p1, QUOTE, BASE, m2);
    var p2 := PipeNext(p1, ticks[1], SETTINGS);
    NextIs(p2, DepthAt(0, 1), BASE, m3);
    ArmedBySetup(m1.state, m2.state, m3.state);
  }

  lemma ArmedBySetup(s1: MarketState, s2: MarketState, s3: MarketState)
    requires s1.symbol == SYMBOL && s2.symbol == SYMBOL
    requires s1.lastEventTime == Some(0) && s2.lastEventTime == Some(0) && StateIs(s3, 1, 0)
    requires s1.signals.tradesPerMinute == Some(1.0) && s2.signals.tradesPerMinute == Some(1.0)
    requires SignatureOf(s1) == None && SignatureOf(s2) == Some(Signature(10.0, 1.0, 11.0, 1.0, None, None))
    ensures var e1 := Evaluated(NEW_ENGINE, s1, SETTINGS, BASE).0;
            var e2 := Evaluated(e1, s2, SETTINGS, BASE).0;
            Armed(Evaluated(e2, s3, SETTINGS, BASE).0, 1, 0)
  {
    hide Evaluated, SignatureOf;
    var e1 := Evaluated(NEW_ENGINE, s1, SETTINGS, BASE).0;
    var e2 := Evaluated(e1, s2, SETTINGS, BASE).0;
    MemoriesAfter(NEW_ENGINE, s1, SETTINGS, BASE);
    MemoriesAfter(e1, s2, SETTINGS, BASE);
    MemoriesAfter(e2, s3, SETTINGS, BASE);
  }

  // ----- What is reported -----

  function ReportAt(kind: AnomalyKind, engine: Engine, state: MarketState, now: Millis): Option<Anomaly> {
    Report(kind, BurstOf(engine, SYMBOL), StuckOf(engine, SYMBOL), GapOf(engine, SYMBOL), ContextOf(state, SETTINGS, now))
  }

  // At the trade all detectors but one report, at the depth update that one.
  lemma AllReport(engine: Engine, state: MarketState, n: nat, g: nat, now: Millis, kind: AnomalyKind)
    requires Armed(engine, n, g) && n >= 1 && now >= BASE
    requires if kind.DepthSequenceGap? then n >= 2 && StateIs(state, n, g + 1) else StateIs(state, n + 1, g)
    ensures ReportAt(kind, engine, state, now).Some?
  {
    hide SignatureOf;
    SpreadIsWide();
  }

  lemma SpreadIsWide()
    ensures SpreadPct(10.0, 11.0).Some? && SpreadPct(10.0, 11.0).value >= 0.5
  {
  }

  lemma {:induction false} ReportsAreListed(
    kinds: seq<AnomalyKind>, kind: AnomalyKind, burst: Burst, stuck: Stuck, gap: Option<nat>, context: Context)
    requires kind in kinds && Report(kind, burst, stuck, gap, context).Some?
    ensures Report(kind, burst, stuck, gap, context).value in ReportsOf(kinds, burst, stuck, gap, context)
  {
    hide Report;
    var front, last := kinds[..|kinds| - 1], kinds[|kinds| - 1];
    assert kinds == front + [last];
    if kind in front { ReportsAreListed(front, kind, burst, stuck, gap, context); }
  }

  lemma EveryKindHasADetector(kind: AnomalyKind)
    ensures kind in DETECTORS
  {
    match kind {
      case PriceMove => assert DETECTORS[0] == kind;
      case SpreadSpike => assert DETECTORS[1] == kind;
      case StaleData => assert DETECTORS[2] == kind;
      case EventLagSpike => assert DETECTORS[3] == kind;
      case TradeBurst => assert DETECTORS[4] == kind;
      case QuoteStuck => assert DETECTORS[5] == kind;
      case DepthSequenceGap => assert DETECTORS[6] == kind;
    }
  }

  // A row of this kind from less than a cooldown before the round's clock reading.
  ghost predicate HasRow(log: seq<Anomaly>, kind: AnomalyKind, k: nat) {
    exists row :: row in log && row.symbol == SYMBOL && row.kind == kind
                  && RoundTime(k) - COOLDOWN_MILLIS < row.createdAt <= RoundTime(k)
  }

  lemma ReportLeavesARoundRow(initial: Cache, ticks: seq<Tick>, event: Event, k: nat, kind: AnomalyKind)
    requires var pipe := PipeAfter(initial, ticks, SETTINGS);
             var state := StateAfterEvent(pipe, event);
             state.symbol == SYMBOL && ReportAt(kind, pipe.engine, state, RoundTime(k)).Some?
    requires forall i :: 0 <= i < |ticks| ==> ticks[i].now <= RoundTime(k)
    ensures HasRow(PipeAfter(initial, ticks + [TickAt(event, RoundTime(k))], SETTINGS).emitted, kind, k)
  {
    hide PipeNext, StateAfterEvent, Report, ReportsOf;
    var pipe, tick := PipeAfter(initial, ticks, SETTINGS), TickAt(event, RoundTime(k));
    var state := StateAfterEvent(pipe, event);
    var anomaly := ReportAt(kind, pipe.engine, state, RoundTime(k)).value;
    var context := ContextOf(state, SETTINGS, RoundTime(k));
    EveryKindHasADetector(kind);
    var burst, stuck, gap := BurstOf(pipe.engine, SYMBOL), StuckOf(pipe.engine, SYMBOL), GapOf(pipe.engine, SYMBOL);
    ReportsAreListed(DETECTORS, kind, burst, stuck, gap, context);
    ReportIsOfItsKind(kind, burst, stuck, gap, context);
    assert anomaly in CandidatesOf(pipe.engine, context);
    CandidateIsStamped(pipe.engine, state, SETTINGS, RoundTime(k), anomaly);
    ReportLeavesARow(initial, ticks, tick, SETTINGS, anomaly);
    Appended(initial, ticks, tick);
  }

  lemma RowsStay(initial: Cache, ticks: seq<Tick>, tick: Tick, kind: AnomalyKind, k: nat)
    requires HasRow(PipeAfter(initial, ticks, SETTINGS).emitted, kind, k)
    ensures HasRow(PipeAfter(initial, ticks + [tick], SETTINGS).emitted, kind, k)
  {
    hide Evaluated, StateAfterEvent;
    Appended(initial, ticks, tick);
    var pipe := PipeAfter(initial, ticks, SETTINGS);
    var row :| row in pipe.emitted && row.symbol == SYMBOL && row.kind == kind
               && RoundTime(k) - COOLDOWN_MILLIS < row.createdAt <= RoundTime(k);
    assert row in PipeNext(pipe, tick, SETTINGS).emitted;
  }

  // ----- Fifteen rounds -----

  // What the ticks are like: valid events of the one symbol, a clock that does not go back, no failures.
  lemma {:induction false} RoundsAreProper(k: nat)
    requires k <= 15
    ensures forall i :: 0 <= i < |Rounds(k)| ==>
              && Rounds(k)[i].event.Valid() && Rounds(k)[i].failedInserts == {} && Rounds(k)[i].cacheAccepts
              && BASE <= Rounds(k)[i].now <= RoundTime(if k == 0 then 0 else k - 1)
    ensures forall i, j :: 0 <= i <= j < |Rounds(k)| ==> Rounds(k)[i].now <= Rounds(k)[j].now
  {
    if k > 0 { RoundsAreProper(k - 1); }
  }

  lemma TradeInRound(initial: Cache, ticks: seq<Tick>, k: nat)
    requires k < 15 && PipeIs(PipeAfter(initial, ticks, SETTINGS), k + 1, k)
    ensures PipeIs(PipeAfter(initial, ticks + [TradeTick(k)], SETTINGS), k + 2, k)
    ensures StateIs(StateAfterEvent(PipeAfter(initial, ticks, SETTINGS), TradeTick(k).event), k + 2, k)
  {
    hide PipeIs, PipeNext, StateIs, StateAfterEvent;
    Appended(initial, ticks, TradeTick(k));
    TradeTickKeeps(PipeAfter(initial, ticks, SETTINGS), k + 1, k, RoundTime(k));
  }

  lemma DepthInRound(initial: Cache, ticks: seq<Tick>, k: nat)
    requires k < 15 && PipeIs(PipeAfter(initial, ticks, SETTINGS), k + 2, k)
    ensures PipeIs(PipeAfter(initial, ticks + [DepthTick(k)], SETTINGS), k + 2, k + 1)
    ensures StateIs(StateAfterEvent(PipeAfter(initial, ticks, SETTINGS), DepthTick(k).event), k + 2, k + 1)
  {
    hide PipeIs, PipeNext, StateIs, StateAfterEvent;
    Appended(initial, ticks, DepthTick(k));
    DepthTickKeeps(PipeAfter(initial, ticks, SETTINGS), k + 2, k, RoundTime(k));
  }

  lemma {:induction false} RoundsAreReady(initial: Cache, k: nat)
    requires k <= 15
    ensures PipeIs(PipeAfter(initial, Rounds(k), SETTINGS), k + 1, k)
  {
    hide PipeIs, PipeAfter;
    if k == 0 {
      SetupIsReady(initial);
    } else {
      RoundsAreReady(initial, k - 1);
      TradeInRound(initial, Rounds(k - 1), k - 1);
      DepthInRound(initial, Rounds(k - 1) + [TradeTick(k - 1)], k - 1);
    }
  }

  lemma TradeLeavesRow(initial: Cache, k: nat, kind: AnomalyKind)
    requires k < 15 && !kind.DepthSequenceGap?
    ensures HasRow(PipeAfter(initial, Rounds(k) + [TradeTick(k)], SETTINGS).emitted, kind, k)
  {
    hide PipeAfter, HasRow, StateAfterEvent, SymbolIs, Armed, Report;
    var pipe := PipeAfter(initial, Rounds(k), SETTINGS);
    RoundsAreReady(initial, k);
    RoundsAreProper(k);
    TradeInRound(initial, Rounds(k), k);
    AllReport(pipe.engine, StateAfterEvent(pipe, TradeTick(k).event), k + 1, k, RoundTime(k), kind);
    ReportLeavesARoundRow(initial, Rounds(k), TradeTick(k).event, k, kind);
  }

  lemma DepthLeavesRow(initial: Cache, k: nat)
    requires k < 15
    ensures HasRow(PipeAfter(initial, Rounds(k) + [TradeTick(k)] + [DepthTick(k)], SETTINGS).emitted, DepthSequenceGap, k)
  {
    hide PipeAfter, HasRow, StateAfterEvent, SymbolIs, Armed, Report;
    var ticks := Rounds(k) + [TradeTick(k)];
    var pipe := PipeAfter(initial, ticks, SETTINGS);
    RoundsAreReady(initial, k);
    RoundsAreProper(k);
    TradeInRound(initial, Rounds(k), k);
    DepthInRound(initial, ticks, k);
    AllReport(pipe.engine, StateAfterEvent(pipe, DepthTick(k).event), k + 2, k, RoundTime(k), DepthSequenceGap);
    ReportLeavesARoundRow(initial, ticks, DepthTick(k).event, k, DepthSequenceGap);
  }

  // The round with this number leaves a row of every kind.
  lemma RoundLeavesRows(initial: Cache, k: nat, kind: AnomalyKind)
    requires k < 15
    ensures HasRow(PipeAfter(initial, Rounds(k + 1), SETTINGS).emitted, kind, k)
  {
    hide PipeAfter, HasRow;
    if kind.DepthSequenceGap? {
      DepthLeavesRow(initial, k);
    } else {
      TradeLeavesRow(initial, k, kind);
      RowsStay(initial, Rounds(k) + [TradeTick(k)], DepthTick(k), kind, k);
    }
  }

  lemma {:induction false} EveryRoundLeavesRows(initial: Cache, k: nat, j: nat, kind: AnomalyKind)
    requires j < k <= 15
    ensures HasRow(PipeAfter(initial, Rounds(k), SETTINGS).emitted, kind, j)
  {
    hide PipeAfter, HasRow;
    if j == k - 1 {
      RoundLeavesRows(initial, j, kind);
    } else {
      EveryRoundLeavesRows(initial, k - 1, j, kind);
      RowsStay(initial, Rounds(k - 1), TradeTick(k - 1), kind, j);
      RowsStay(initial, Rounds(k - 1) + [TradeTick(k - 1)], DepthTick(k - 1), kind, j);
    }
  }

  // ----- The rows -----

  lemma {:induction false} NoneFailed(anomalies: seq<Anomaly>)
    ensures Surviving(anomalies, {}) == anomalies
  {
    if anomalies != [] {
      NoneFailed(anomalies[..|anomalies| - 1]);
      assert anomalies == anomalies[..|anomalies| - 1] + [anomalies[|anomalies| - 1]];
    }
  }

  lemma {:induction false} AllStored(initial: Cache, ticks: seq<Tick>)
    requires forall i :: 0 <= i < |ticks| ==> ticks[i].failedInserts == {}
    ensures PipeAfter(initial, ticks, SETTINGS).stored == PipeAfter(initial, ticks, SETTINGS).emitted
  {
    hide Evaluated, StateAfterEvent;
    if ticks != [] {
      var front, last := ticks[..|ticks| - 1], ticks[|ticks| - 1];
      AllStored(initial, front);
      var pipe := PipeAfter(initial, front, SETTINGS);
      NoneFailed(Evaluated(pipe.engine, StateAfterEvent(pipe, last.event), SETTINGS, last.now).1);
    }
  }

  lemma {:induction false} OfSymbolKeeps(symbol: Symbol, log: seq<Anomaly>, a: Anomaly)
    requires a in log && a.symbol == symbol
    ensures a in OfSymbol(symbol, log)
  {
    var front, last := log[..|log| - 1], log[|log| - 1];
    assert log == front + [last];
    if a in front { OfSymbolKeeps(symbol, front, a); }
  }

  // Rows of every kind in every round, nothing outside the 420 seconds.
  ghost predicate IsFull(log: seq<Anomaly>) {
    && Spaced(log) && AllOfSymbol(SYMBOL, log)
    && (forall a :: a in log ==> BASE <= a.createdAt <= BASE + 420_000)
    && forall kind, k: nat :: k < 15 ==> HasRow(log, kind, k)
  }

  lemma StoredIsFull(initial: Cache)
    ensures IsFull(StoredRows(initial, Rounds(15), SETTINGS, SYMBOL))
  {
    hide PipeAfter, Spaced;
    var pipe := PipeAfter(initial, Rounds(15), SETTINGS);
    RoundsAreProper(15);
    RunIsWellSpaced(initial, Rounds(15), SETTINGS);
    LogsCarryReadings(initial, Rounds(15), SETTINGS);
    AllStored(initial, Rounds(15));
    OfSymbolIsSpaced(SYMBOL, pipe.stored);
    forall kind, k: nat | k < 15
      ensures HasRow(OfSymbol(SYMBOL, pipe.stored), kind, k)
    {
      EveryRoundLeavesRows(initial, 15, k, kind);
      var row :| row in pipe.emitted && row.symbol == SYMBOL && row.kind == kind
                 && RoundTime(k) - COOLDOWN_MILLIS < row.createdAt <= RoundTime(k);
      OfSymbolKeeps(SYMBOL, pipe.stored, row);
    }
  }

  lemma {:induction false} CountSplits(log: seq<Anomaly>, kind: AnomalyKind, lo: Millis, mid: Millis, hi: Millis)
    requires lo <= mid + 1 && mid <= hi
    ensures CountIn(log, SYMBOL, kind, lo, hi)
            == CountIn(log, SYMBOL, kind, lo, mid) + CountIn(log, SYMBOL, kind, mid + 1, hi)
  {
    if log != [] { CountSplits(log[..|log| - 1], kind, lo, mid, hi); }
  }

  lemma {:induction false} RowCounts(log: seq<Anomaly>, row: Anomaly, lo: Millis, hi: Millis)
    requires row in log && row.symbol == SYMBOL && lo <= row.createdAt <= hi
    ensures CountIn(log, SYMBOL, row.kind, lo, hi) >= 1
  {
    var front, last := log[..|log| - 1], log[|log| - 1];
    assert log == front + [last];
    if row != last { RowCounts(front, row, lo, hi); }
  }

  lemma {:induction false} NothingCounts(log: seq<Anomaly>, kind: AnomalyKind, lo: Millis, hi: Millis)
    requires forall a :: a in log ==> !(lo <= a.createdAt <= hi)
    ensures CountIn(log, SYMBOL, kind, lo, hi) == 0
  {
    if log != [] {
      var front, last := log[..|log| - 1], log[|log| - 1];
      assert log == front + [last];
      NothingCounts(front, kind, lo, hi);
    }
  }

  // The rounds' rows lie in disjoint stretches.
  lemma {:induction false} RoundsCount(log: seq<Anomaly>, kind: AnomalyKind, k: nat)
    requires IsFull(log) && k <= 15
    ensures CountIn(log, SYMBOL, kind, BASE - 29_999, RoundTime(k) - COOLDOWN_MILLIS) >= k
  {
    if k > 0 {
      RoundsCount(log, kind, k - 1);
      assert HasRow(log, kind, k - 1);
      var row :| row in log && row.symbol == SYMBOL && row.kind == kind
                 && RoundTime(k - 1) - COOLDOWN_MILLIS < row.createdAt <= RoundTime(k - 1);
      RowCounts(log, row, RoundTime(k - 1) - COOLDOWN_MILLIS + 1, RoundTime(k - 1));
      CountSplits(log, kind, BASE - 29_999, RoundTime(k - 1) - COOLDOWN_MILLIS, RoundTime(k - 1));
    }
  }

  lemma FifteenOfEach(log: seq<Anomaly>, kind: AnomalyKind)
    requires IsFull(log)
    ensures CountIn(log, SYMBOL, kind, BASE, BASE + 420_000) == 15
  {
    RoundsCount(log, kind, 15);
    CountSplits(log, kind, BASE - 29_999, BASE - 1, BASE + 420_000);
    NothingCounts(log, kind, BASE - 29_999, BASE - 1);
    CountBound(log, SYMBOL, kind, BASE, BASE + 420_000);
  }

  lemma HundredAndFive(log: seq<Anomaly>)
    requires IsFull(log)
    ensures |log| == 105
  {
    var inside := (a: Anomaly) => InStretch(a, BASE, BASE + 420_000);
    SumOfOnes(inside, log);
    StretchByKind(log, SYMBOL, BASE, BASE + 420_000);
    FifteenOfEach(log, PriceMove);
    FifteenOfEach(log, SpreadSpike);
    FifteenOfEach(log, StaleData);
    FifteenOfEach(log, TradeBurst);
    FifteenOfEach(log, QuoteStuck);
    FifteenOfEach(log, EventLagSpike);
    FifteenOfEach(log, DepthSequenceGap);
  }

  // ----- What the limit cuts off -----

  lemma TakeOne(log: seq<Anomaly>, a: Anomaly) returns (rest: seq<Anomaly>)
    requires a in log
    ensures multiset(log) == multiset(rest) + multiset{a} && |rest| == |log| - 1
  {
    var i :| 0 <= i < |log| && log[i] == a;
    rest := log[..i] + log[i + 1..];
    assert log == log[..i] + [a] + log[i + 1..];
  }

  lemma {:induction false} TakeOut(log: seq<Anomaly>, picks: seq<Anomaly>) returns (rest: seq<Anomaly>)
    requires forall a :: a in picks ==> a in log
    requires forall i, j :: 0 <= i < j < |picks| ==> picks[i] != picks[j]
    ensures multiset(log) == multiset(rest) + multiset(picks)
    ensures |rest| == |log| - |picks|
    ensures forall a :: a in log && a !in picks ==> a in rest
    decreases |picks|
  {
    if picks == [] {
      rest := log;
    } else {
      var front, last := picks[..|picks| - 1], picks[|picks| - 1];
      assert picks == front + [last];
      var more := TakeOut(log, front);
      assert last !in front;
      rest := TakeOne(more, last);
      forall a | a in log && a !in picks
        ensures a in rest
      {
        assert a in multiset(more);
      }
    }
  }

  lemma RowAtBase(log: seq<Anomaly>, kind: AnomalyKind) returns (row: Anomaly)
    requires IsFull(log)
    ensures row in log && row.kind == kind && row.createdAt == BASE
  {
    assert HasRow(log, kind, 0);
    row :| row in log && row.symbol == SYMBOL && row.kind == kind
           && RoundTime(0) - COOLDOWN_MILLIS < row.createdAt <= RoundTime(0);
  }

  lemma NothingBefore(log: seq<Anomaly>)
    requires IsFull(log)
    ensures forall a :: a in log ==> BASE <= a.createdAt
  {
  }

  // One way the query may leave out five rows of the first round, a stale-data row among them.
  lemma CutFive(log: seq<Anomaly>) returns (rows: seq<Anomaly>, rest: seq<Anomaly>)
    requires IsFull(log)
    ensures SplitsNewest(rows, rest, log, HEALTH_ANOMALY_LIMIT) && |rest| == 5
    ensures forall a :: a in rest ==> a.createdAt == BASE
    ensures rest[0].kind.StaleData? && forall i :: 1 <= i < 5 ==> !rest[i].kind.StaleData?
  {
    hide IsFull;
    var stale := RowAtBase(log, StaleData);
    var price := RowAtBase(log, PriceMove);
    var spread := RowAtBase(log, SpreadSpike);
    var lag := RowAtBase(log, EventLagSpike);
    var burst := RowAtBase(log, TradeBurst);
    rest := [stale, price, spread, lag, burst];
    HundredAndFive(log);
    NothingBefore(log);
    rows := TakeOut(log, rest);
    SplitMembers(rows, rest, log);
  }

  // ----- The limit loses -----

  lemma CountIsLost(
    rows: seq<Anomaly>, rest: seq<Anomaly>, log: seq<Anomaly>,
    state: MarketState, now: Millis, settings: HealthSettings, staleMs: nat)
    requires SplitsNewest(rows, rest, log, HEALTH_ANOMALY_LIMIT) && |rest| == 5
    requires forall a :: a in rest ==> IsRecent(a, now, settings)
    ensures EvaluateHealth(state, log, now, settings, staleMs).recentAnomalyCount
            == EvaluateHealth(state, rows, now, settings, staleMs).recentAnomalyCount + 5
  {
    var one := (a: Anomaly) => RecentOne(a, now, settings);
    SplitMembers(rows, rest, log);
    SumByPermutation(one, log, rows + rest);
    SumByConcat(one, rows, rest);
    SumOfOnes(one, rest);
    ScoreIsClampedDifference(state, log, now, settings, staleMs);
    ScoreIsClampedDifference(state, rows, now, settings, staleMs);
  }

  // From 420 seconds of window and slack on, a query after this run counts five anomalies too few.
  lemma LimitLoses(initial: Cache, settings: HealthSettings, slack: nat, state: MarketState, staleMs: nat)
    requires settings.recentWindowSecs * 1000 + slack >= 420_000
    ensures exists rows, now ::
              && Asked(initial, Rounds(15), SETTINGS, SYMBOL, rows, now, slack)
              && Loses(initial, Rounds(15), SETTINGS, SYMBOL, rows, state, now, settings, staleMs)
  {
    hide PipeAfter, EvaluateHealth, Rounds, IsFull, SplitsNewest;
    var log := StoredRows(initial, Rounds(15), SETTINGS, SYMBOL);
    var now := BASE + 420_000 - if slack > 420_000 then 420_000 else slack;
    StoredIsFull(initial);
    RoundsAreProper(15);
    var rows, rest := CutFive(log);
    CountIsLost(rows, rest, log, state, now, settings, staleMs);
    assert IsNewest(rows, log, HEALTH_ANOMALY_LIMIT);
    assert Asked(initial, Rounds(15), SETTINGS, SYMBOL, rows, now, slack);
  }

  // Over all runs the limit of 100 rows loses nothing exactly when window and slack together stay below
  // 420 seconds; with a clock reading no row can be ahead of, exactly up to a window of 419 seconds.
  lemma LosslessExactly(settings: HealthSettings, slack: nat)
    ensures AlwaysLossless(settings, slack) <==> settings.recentWindowSecs * 1000 + slack < 420_000
    ensures AlwaysLossless(settings, 0) <==> settings.recentWindowSecs <= 419
  {
    LosslessFor(settings, slack);
    LosslessFor(settings, 0);
  }

  lemma LosslessFor(settings: HealthSettings, slack: nat)
    ensures AlwaysLossless(settings, slack) <==> settings.recentWindowSecs * 1000 + slack < 420_000
  {
    hide SameHealth, IsNewest;
    if settings.recentWindowSecs * 1000 + slack < 420_000 {
      forall initial, ticks, detectorSettings, symbol, rows, state, now, staleMs: nat |
        Asked(initial, ticks, detectorSettings, symbol, rows, now, slack)
        ensures !Loses(initial, ticks, detectorSettings, symbol, rows, state, now, settings, staleMs)
      {
        TruncationIsLossless(initial, ticks, detectorSettings, symbol, rows, state, now, slack, settings, staleMs);
      }
    } else {
      hide Asked, Loses, Rounds;
      LimitLoses(map[], settings, slack, NewMarketState(SYMBOL), 0);
    }
  }

  // ----- The score -----

  // Only stale data costs anything; the configuration accepts this (base and penalties at most 100,
  // penalties in order, thresholds in order and at most the base).
  const STALE_ONLY: HealthSettings := HealthSettings(100, 0, 0, 0, 1, 420, 80, 50)

  lemma {:induction false} StalePoints(log: seq<Anomaly>, now: Millis)
    requires AllOfSymbol(SYMBOL, log)
    ensures SumBy((a: Anomaly) => RecentPoints(a, now, STALE_ONLY), log)
            == CountIn(log, SYMBOL, StaleData, now - 420_000, now)
  {
    if log != [] { StalePoints(log[..|log| - 1], now); }
  }

  lemma ScoreOf(log: seq<Anomaly>, state: MarketState, now: Millis, staleMs: nat)
    requires AllOfSymbol(SYMBOL, log) && CountIn(log, SYMBOL, StaleData, now - 420_000, now) >= 1
    ensures EvaluateHealth(state, log, now, STALE_ONLY, staleMs).score
            == ClampedDifference(100, CountIn(log, SYMBOL, StaleData, now - 420_000, now))
  {
    StalePoints(log, now);
    ScoreIsClampedDifference(state, log, now, STALE_ONLY, staleMs);
    assert HasRecentStale(log, now, STALE_ONLY) by {
      if forall a :: a in log ==> !Falls(a, SYMBOL, StaleData, now - 420_000, now) { NoneFalls(log, now - 420_000, now); }
    }
  }

  lemma {:induction false} NoneFalls(log: seq<Anomaly>, lo: Millis, hi: Millis)
    requires forall a :: a in log ==> !Falls(a, SYMBOL, StaleData, lo, hi)
    ensures CountIn(log, SYMBOL, StaleData, lo, hi) == 0
  {
    if log != [] {
      var front, last := log[..|log| - 1], log[|log| - 1];
      assert log == front + [last];
      NoneFalls(front, lo, hi);
    }
  }

  lemma {:induction false} CountIsSum(log: seq<Anomaly>, lo: Millis, hi: Millis)
    ensures CountIn(log, SYMBOL, StaleData, lo, hi)
            == SumBy((a: Anomaly) => if Falls(a, SYMBOL, StaleData, lo, hi) then 1 else 0, log)
  {
    if log != [] { CountIsSum(log[..|log| - 1], lo, hi); }
  }

  const LAST_ROUND: Millis := BASE + 420_000

  // The query may leave out a stale-data row: the score over the rows is then 86, over the log 85.
  lemma ScoreIsLost(initial: Cache, state: MarketState, staleMs: nat)
    ensures exists rows ::
              && Asked(initial, Rounds(15), SETTINGS, SYMBOL, rows, LAST_ROUND, 0)
              && EvaluateHealth(state, rows, LAST_ROUND, STALE_ONLY, staleMs).score == 86
              && EvaluateHealth(state, StoredRows(initial, Rounds(15), SETTINGS, SYMBOL),
                                LAST_ROUND, STALE_ONLY, staleMs).score == 85
  {
    hide PipeAfter, EvaluateHealth, Rounds, IsFull;
    var log, now := StoredRows(initial, Rounds(15), SETTINGS, SYMBOL), LAST_ROUND;
    StoredIsFull(initial);
    RoundsAreProper(15);
    var rows, rest := CutFive(log);
    assert IsNewest(rows, log, HEALTH_ANOMALY_LIMIT);
    assert Asked(initial, Rounds(15), SETTINGS, SYMBOL, rows, now, 0);
    OneStaleRowLess(log, rows, rest);
    ScoreOf(log, state, now, staleMs);
    ScoreOf(rows, state, now, staleMs);
  }

  lemma OneStaleRowLess(log: seq<Anomaly>, rows: seq<Anomaly>, rest: seq<Anomaly>)
    requires IsFull(log) && SplitsNewest(rows, rest, log, HEALTH_ANOMALY_LIMIT) && |rest| == 5
    requires forall a :: a in rest ==> a.createdAt == BASE
    requires rest[0].kind.StaleData? && forall i :: 1 <= i < 5 ==> !rest[i].kind.StaleData?
    ensures AllOfSymbol(SYMBOL, log) && AllOfSymbol(SYMBOL, rows)
    ensures CountIn(log, SYMBOL, StaleData, BASE, BASE + 420_000) == 15
    ensures CountIn(rows, SYMBOL, StaleData, BASE, BASE + 420_000) == 14
  {
    var one := (a: Anomaly) => if Falls(a, SYMBOL, StaleData, BASE, BASE + 420_000) then 1 else 0;
    SplitMembers(rows, rest, log);
    FifteenOfEach(log, StaleData);
    CountIsSum(log, BASE, BASE + 420_000);
    CountIsSum(rows, BASE, BASE + 420_000);
    SumByPermutation(one, log, rows + rest);
    SumByConcat(one, rows, rest);
    assert rest[0] in rest && rest[0] in log;
    SumByConcat(one, [rest[0]], rest[1..]);
    assert rest == [rest[0]] + rest[1..];
    assert forall a :: a in rest[1..] ==> one(a) == 0;
    SumOfZeros(one, rest[1..]);
    SumOfOnes(one, [rest[0]]);
    forall i | 0 <= i < |rows|
      ensures rows[i].symbol == SYMBOL
    {
      assert rows[i] in log;
    }
  }
}
