// Folding trades, quotes and depth updates into one market state per symbol.  SymbolModel is the
// value a SymbolState object denotes; TradeApplied, QuoteApplied and
// DepthApplied are its three transitions.
module Aggregator {
  import opened Domain
  import opened Windows
  import opened Books

  const TRADE_WINDOW_MILLIS: int := 60_000

  datatype SymbolModel = SymbolModel(
    state: MarketState,
    latestTradeTime: Option<Millis>,
    latestQuoteTime: Option<Millis>,
    window: Window,
    book: Book)

  function NewSymbolModel(symbol: Symbol): SymbolModel {
    SymbolModel(NewMarketState(symbol), None, None, EmptyWindow(TRADE_WINDOW_MILLIS),
                NewBook(DEFAULT_RETAINED_DEPTH_LEVELS))
  }

  function PriceChangePct(samples: seq<Sample>): Option<real> {
    if samples == [] then None
    else
      var oldest, latest := samples[0], samples[|samples| - 1];
      if oldest.eventTime == latest.eventTime || oldest.price <= 0.0 then None
      else Some((latest.price - oldest.price) / oldest.price * 100.0)
  }

  function SpreadPct(bid: real, ask: real): Option<real> {
    var mid := (bid + ask) / 2.0;
    if mid <= 0.0 then None else Some((ask - bid) / mid * 100.0)
  }

  predicate NotOlder(current: Option<Millis>, t: Millis) {
    current.None? || t >= current.value
  }

  function Advance(state: MarketState, eventTime: Millis, ingestTime: Millis): MarketState {
    state.(lastEventTime := Later(state.lastEventTime, Some(eventTime)),
           lastIngestTime := Later(state.lastIngestTime, Some(ingestTime)))
  }

  function WithTradeSignals(state: MarketState, samples: seq<Sample>): MarketState {
    state.(signals := state.signals.(priceChangePct := PriceChangePct(samples),
                                     tradesPerMinute := Some(|samples| as real)))
  }

  function TradeApplied(m: SymbolModel, trade: Trade): SymbolModel {
    var newer := NotOlder(m.latestTradeTime, trade.eventTime);
    var window := PushSample(m.window, Sample(trade.eventTime, trade.price));
    var state := if newer
                 then m.state.(lastTradePrice := Some(trade.price), lastTradeQuantity := Some(trade.quantity))
                 else m.state;
    m.(state := WithTradeSignals(Advance(state, trade.eventTime, trade.ingestTime), window.samples),
       latestTradeTime := if newer then Some(trade.eventTime) else m.latestTradeTime,
       window := window)
  }

  function WithQuote(state: MarketState, quote: Quote): MarketState {
    state.(bestBidPrice := Some(quote.bidPrice), bestBidQuantity := Some(quote.bidQuantity),
           bestAskPrice := Some(quote.askPrice), bestAskQuantity := Some(quote.askQuantity),
           signals := state.signals.(spreadPct := SpreadPct(quote.bidPrice, quote.askPrice)))
  }

  function QuoteApplied(m: SymbolModel, quote: Quote): SymbolModel {
    var newer := NotOlder(m.latestQuoteTime, quote.eventTime);
    m.(state := Advance(if newer then WithQuote(m.state, quote) else m.state, quote.eventTime, quote.ingestTime),
       latestQuoteTime := if newer then Some(quote.eventTime) else m.latestQuoteTime)
  }

  function WithBook(state: MarketState, snapshot: Snapshot): MarketState {
    state.(topBidQuantity := snapshot.bestBidQuantity,
           topAskQuantity := snapshot.bestAskQuantity,
           topBidLiquidity := Some(snapshot.topBidLiquidity),
           topAskLiquidity := Some(snapshot.topAskLiquidity),
           bookImbalance := snapshot.imbalance,
           depthSequenceGapCount := snapshot.gapCount,
           lastDepthEventTime := snapshot.lastDepthEventTime,
           lastDepthIngestTime := snapshot.lastDepthIngestTime)
  }

  function DepthApplied(m: SymbolModel, depth: DepthUpdate): SymbolModel {
    if IsStale(m.book, depth) then m
    else
      var book := ApplyUpdate(m.book, depth);
      m.(state := Advance(WithBook(m.state, SnapshotOf(book)), depth.eventTime, depth.ingestTime),
         book := book)
  }

  function EventApplied(m: SymbolModel, event: Event): SymbolModel {
    match event
    case TradeEvent(trade) => TradeApplied(m, trade)
    case QuoteEvent(quote) => QuoteApplied(m, quote)
    case DepthEvent(depth) => DepthApplied(m, depth)
  }

  // One symbol after a feed of its own events.
  function SymbolAfter(symbol: Symbol, events: seq<Event>): SymbolModel {
    if events == [] then NewSymbolModel(symbol)
    else EventApplied(SymbolAfter(symbol, events[..|events| - 1]), events[|events| - 1])
  }

  type Symbols = map<Symbol, SymbolModel>

  function SymbolOrNew(symbols: Symbols, symbol: Symbol): SymbolModel {
    if symbol in symbols then symbols[symbol] else NewSymbolModel(symbol)
  }

  function ApplyToSymbols(symbols: Symbols, event: Event): Symbols {
    symbols[event.Symbol() := EventApplied(SymbolOrNew(symbols, event.Symbol()), event)]
  }

  // The symbols with an entry for this one, created if missing.
  function WithEntry(symbols: Symbols, symbol: Symbol): Symbols {
    if symbol in symbols then symbols else symbols[symbol := NewSymbolModel(symbol)]
  }

  lemma CreateThenApply(symbols: Symbols, event: Event)
    ensures var symbol, created := event.Symbol(), WithEntry(symbols, event.Symbol());
            created[symbol := EventApplied(created[symbol], event)] == ApplyToSymbols(symbols, event)
  {
  }

  // All symbols after a mixed feed.
  function SymbolsAfter(events: seq<Event>): Symbols {
    if events == [] then map[]
    else ApplyToSymbols(SymbolsAfter(events[..|events| - 1]), events[|events| - 1])
  }

  function SnapshotFor(symbols: Symbols, symbol: Symbol): Option<MarketState> {
    if symbol in symbols then Some(symbols[symbol].state) else None
  }

  class SymbolState {
    ghost const owner: Symbol
    var latestState: MarketState
    var latestTradeEventTime: Option<Millis>
    var latestQuoteEventTime: Option<Millis>
    const trades: TradeWindow
    const orderBook: OrderBook

    ghost function Model(): SymbolModel
      reads this, trades, orderBook
    {
      SymbolModel(latestState, latestTradeEventTime, latestQuoteEventTime, trades.Model(), orderBook.Model())
    }

    ghost predicate Valid()
      reads this, trades, orderBook
    {
      orderBook.Valid() && orderBook.owner == owner && trades.owner == owner
    }

    constructor (symbol: Symbol)
      ensures Valid() && Model() == NewSymbolModel(symbol) && owner == symbol
      ensures fresh(trades) && fresh(orderBook)
    {
      owner := symbol;
      latestState := NewMarketState(symbol);
      latestTradeEventTime, latestQuoteEventTime := None, None;
      trades := new TradeWindow(TRADE_WINDOW_MILLIS, symbol);
      orderBook := new OrderBook(DEFAULT_RETAINED_DEPTH_LEVELS, symbol);
    }

    method Apply(event: Event)
      requires Valid() && event.Valid()
      modifies this, trades, orderBook
      ensures Valid() && Model() == EventApplied(old(Model()), event)
    {
      match event
      case TradeEvent(trade) => ApplyTrade(trade);
      case QuoteEvent(quote) => ApplyQuote(quote);
      case DepthEvent(depth) => ApplyDepth(depth);
    }

    method ApplyTrade(trade: Trade)
      requires Valid()
      modifies this, trades
      ensures Valid() && Model() == TradeApplied(old(Model()), trade)
    {
      if latestTradeEventTime.None? || trade.eventTime >= latestTradeEventTime.value {
        latestState := latestState.(lastTradePrice := Some(trade.price), lastTradeQuantity := Some(trade.quantity));
        latestTradeEventTime := Some(trade.eventTime);
      }
      trades.Push(Sample(trade.eventTime, trade.price));
      AdvanceTimestamps(trade.eventTime, trade.ingestTime);
      RefreshTradeSignals();
    }

    method ApplyQuote(quote: Quote)
      requires Valid()
      modifies this
      ensures Valid() && Model() == QuoteApplied(old(Model()), quote)
    {
      if latestQuoteEventTime.None? || quote.eventTime >= latestQuoteEventTime.value {
        latestState := latestState.(
          bestBidPrice := Some(quote.bidPrice), bestBidQuantity := Some(quote.bidQuantity),
          bestAskPrice := Some(quote.askPrice), bestAskQuantity := Some(quote.askQuantity),
          signals := latestState.signals.(spreadPct := SpreadPct(quote.bidPrice, quote.askPrice)));
        latestQuoteEventTime := Some(quote.eventTime);
      }
      AdvanceTimestamps(quote.eventTime, quote.ingestTime);
    }

    method ApplyDepth(depth: DepthUpdate)
      requires Valid() && depth.Valid()
      modifies this, orderBook
      ensures Valid() && Model() == DepthApplied(old(Model()), depth)
    {
      var accepted := orderBook.Apply(depth);
      if !accepted {
        return;
      }
      var snapshot := orderBook.TakeSnapshot();
      ApplyOrderBookSnapshot(snapshot);
      AdvanceTimestamps(depth.eventTime, depth.ingestTime);
    }

    method ApplyOrderBookSnapshot(snapshot: Snapshot)
      modifies `latestState
      ensures latestState == WithBook(old(latestState), snapshot)
    {
      latestState := latestState.(topBidQuantity := snapshot.bestBidQuantity, topAskQuantity := snapshot.bestAskQuantity);
      latestState := latestState.(
        topBidLiquidity := Some(snapshot.topBidLiquidity), topAskLiquidity := Some(snapshot.topAskLiquidity));
      latestState := latestState.(
        bookImbalance := snapshot.imbalance, depthSequenceGapCount := snapshot.gapCount);
      latestState := latestState.(
        lastDepthEventTime := snapshot.lastDepthEventTime, lastDepthIngestTime := snapshot.lastDepthIngestTime);
    }

    method AdvanceTimestamps(eventTime: Millis, ingestTime: Millis)
      modifies `latestState
      ensures latestState == Advance(old(latestState), eventTime, ingestTime)
    {
      latestState := latestState.(
        lastEventTime := Some(match latestState.lastEventTime
                              case None => eventTime
                              case Some(current) => if current < eventTime then eventTime else current),
        lastIngestTime := Some(match latestState.lastIngestTime
                               case None => ingestTime
                               case Some(current) => if current < ingestTime then ingestTime else current));
    }

    method RefreshTradeSignals()
      modifies `latestState
      ensures latestState == WithTradeSignals(old(latestState), trades.samples)
    {
      latestState := latestState.(signals := latestState.signals.(
        priceChangePct := PriceChangePct(trades.samples),
        tradesPerMinute := Some(|trades.samples| as real)));
    }
  }

  class MarketStateAggregator {
    var states: map<Symbol, SymbolState>
    ghost var Contents: Symbols
    ghost var Repr: set<object>

    // Every symbol owns its state, its window and its book; owners differ, so nothing is shared.
    ghost predicate Owned()
      reads this
    {
      && this in Repr
      && forall s :: s in states ==>
           && states[s] in Repr && states[s].trades in Repr && states[s].orderBook in Repr
           && states[s].owner == s
    }

    ghost predicate Valid()
      reads this, Repr
    {
      && Owned()
      && Contents.Keys == states.Keys
      && forall s :: s in states ==> states[s].Valid() && states[s].Model() == Contents[s]
    }

    constructor ()
      ensures Valid() && fresh(Repr) && Contents == map[]
    {
      states, Contents, Repr := map[], map[], {this};
    }

    method Apply(event: Event) returns (symbol: Symbol)
      requires Valid() && event.Valid()
      modifies Repr
      ensures Valid() && fresh(Repr - old(Repr))
      ensures symbol == event.Symbol() && Contents == ApplyToSymbols(old(Contents), event)
    {
      symbol := event.Symbol();
      SymbolStateMut(symbol);
      ghost var created := Repr - old(Repr);
      CreateThenApply(old(Contents), event);
      ApplyToExisting(symbol, event);
      assert Repr - old(Repr) == created;
    }

    method ApplyToExisting(symbol: Symbol, event: Event)
      requires Valid() && event.Valid() && symbol in states
      modifies Repr
      ensures Valid() && Repr == old(Repr)
      ensures Contents == old(Contents)[symbol := EventApplied(old(Contents)[symbol], event)]
    {
      hide EventApplied;
      ghost var before := Contents;
      Dispatch(symbol, event);
      Contents := before[symbol := EventApplied(before[symbol], event)];
      forall s | s in states
        ensures states[s].Valid() && states[s].Model() == Contents[s]
      {
        if s != symbol {
          assert states[s].Model() == before[s];
        }
      }
    }

    // Only the symbol's own objects change.
    method Dispatch(symbol: Symbol, event: Event)
      requires Valid() && event.Valid() && symbol in states
      modifies states[symbol], states[symbol].trades, states[symbol].orderBook
      ensures forall s :: s in states ==> states[s].Valid()
      ensures states[symbol].Model() == EventApplied(Contents[symbol], event)
      ensures forall s :: s in states && s != symbol ==> states[s].Model() == Contents[s]
    {
      hide EventApplied;
      var state := states[symbol];
      state.Apply(event);
    }

    // The entry for the symbol, created on first use.
    method SymbolStateMut(symbol: Symbol)
      requires Valid()
      modifies this
      ensures Valid() && fresh(Repr - old(Repr)) && old(Repr) <= Repr
      ensures Contents == WithEntry(old(Contents), symbol)
    {
      if symbol !in states {
        var state := new SymbolState(symbol);
        Adopt(symbol, state);
      }
    }

    method Adopt(symbol: Symbol, state: SymbolState)
      requires Valid() && symbol !in states
      requires state.Valid() && state.owner == symbol
      modifies `states, `Contents, `Repr
      ensures Valid() && Repr == old(Repr) + {state, state.trades, state.orderBook}
      ensures Contents == old(Contents)[symbol := state.Model()]
    {
      states := states[symbol := state];
      Contents := Contents[symbol := state.Model()];
      Repr := Repr + {state, state.trades, state.orderBook};
    }

    method Snapshot(symbol: Symbol) returns (state: Option<MarketState>)
      requires Valid()
      ensures state == SnapshotFor(Contents, symbol)
    {
      state := if symbol in states then Some(states[symbol].latestState) else None;
    }
  }
}
