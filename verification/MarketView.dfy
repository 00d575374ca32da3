// What the published market state says about the feed: the depth fields show the book, hence the
// untrimmed book as far as trimming allows, and the percentages mean what their names say.
module MarketView {
  import opened Domain
  import opened BookSide
  import opened Books
  import opened BookDegradation
  import opened BookIds
  import opened Windows
  import opened Aggregator
  import opened AggregatorLaws

  // ----- The depth fields -----

  function DepthFeed(events: seq<Event>): seq<DepthUpdate> {
    if events == [] then []
    else
      var last := events[|events| - 1];
      DepthFeed(events[..|events| - 1]) + if last.DepthEvent? then [last.depth] else []
  }

  // A symbol's book is the book of its depth updates alone.
  lemma {:induction false} BookIsFed(symbol: Symbol, events: seq<Event>)
    ensures SymbolAfter(symbol, events).book == BookAfter(DEFAULT_RETAINED_DEPTH_LEVELS, DepthFeed(events))
  {
    if events != [] {
      var front, last := events[..|events| - 1], events[|events| - 1];
      var feed := DepthFeed(front);
      BookIsFed(symbol, front);
      match last
      case DepthEvent(depth) => AfterAppend(DEFAULT_RETAINED_DEPTH_LEVELS, feed, depth);
      case TradeEvent(_) => assert feed + [] == feed;
      case QuoteEvent(_) => assert feed + [] == feed;
    }
  }

  // The depth fields of the state are read off the book; before the first accepted update there are none.
  ghost predicate ShowsBook(state: MarketState, book: Book) {
    && state.topBidQuantity == QuantityOf(Best(LowestPrice, book.bids))
    && state.topAskQuantity == QuantityOf(Best(HighestPrice, book.asks))
    && state.topBidLiquidity == (if book.lastDepthEventTime.None? then None else Some(Liquidity(book.bids)))
    && state.topAskLiquidity == (if book.lastDepthEventTime.None? then None else Some(Liquidity(book.asks)))
    && state.bookImbalance == Imbalance(Liquidity(book.bids), Liquidity(book.asks))
    && state.depthSequenceGapCount == book.gapCount
    && state.lastDepthEventTime == book.lastDepthEventTime
    && state.lastDepthIngestTime == book.lastDepthIngestTime
  }

  lemma EventKeepsShowingBook(m: SymbolModel, event: Event)
    requires ShowsBook(m.state, m.book)
    ensures ShowsBook(EventApplied(m, event).state, EventApplied(m, event).book)
  {
    hide Best, Imbalance, IsStale;
  }

  lemma {:induction false} StateShowsBook(symbol: Symbol, events: seq<Event>)
    ensures ShowsBook(SymbolAfter(symbol, events).state, SymbolAfter(symbol, events).book)
  {
    if events != [] {
      hide EventApplied, ShowsBook;
      var front, last := events[..|events| - 1], events[|events| - 1];
      StateShowsBook(symbol, front);
      EventKeepsShowingBook(SymbolAfter(symbol, front), last);
    }
  }

  // The book keeps at most fifty levels a side.
  lemma FiftyLevels(symbol: Symbol, events: seq<Event>)
    ensures var book := SymbolAfter(symbol, events).book;
            book.retained == 50 && |book.bids| <= 50 && |book.asks| <= 50
  {
    var feed := DepthFeed(events);
    BookIsFed(symbol, events);
    BookSideIsRetained(LowestPrice, DEFAULT_RETAINED_DEPTH_LEVELS, feed);
    BookSideIsRetained(HighestPrice, DEFAULT_RETAINED_DEPTH_LEVELS, feed);
    RetainedSize(LowestPrice, 50, AcceptedLevels(LowestPrice, DEFAULT_RETAINED_DEPTH_LEVELS, feed));
    RetainedSize(HighestPrice, 50, AcceptedLevels(HighestPrice, DEFAULT_RETAINED_DEPTH_LEVELS, feed));
  }

  // The top quantities published are those at the highest bid and the lowest ask of the symbol's book, and
  // as long as fewer than fifty deletions were applied to a side, of the untrimmed side as well.
  lemma TopQuantitiesShown(symbol: Symbol, events: seq<Event>)
    ensures var state, book := SymbolAfter(symbol, events).state, SymbolAfter(symbol, events).book;
            var bids := AcceptedLevels(LowestPrice, DEFAULT_RETAINED_DEPTH_LEVELS, DepthFeed(events));
            && (exists bid :: IsHighest(book.bids, bid, state.topBidQuantity))
            && (Deletions(bids) < 50 ==> exists bid :: IsHighest(Untrimmed(bids), bid, state.topBidQuantity))
    ensures var state, book := SymbolAfter(symbol, events).state, SymbolAfter(symbol, events).book;
            var asks := AcceptedLevels(HighestPrice, DEFAULT_RETAINED_DEPTH_LEVELS, DepthFeed(events));
            && (exists ask :: IsLowest(book.asks, ask, state.topAskQuantity))
            && (Deletions(asks) < 50 ==> exists ask :: IsLowest(Untrimmed(asks), ask, state.topAskQuantity))
  {
    hide Best, TopN, IsHighest, IsLowest, BookAfter, Untrimmed, Deletions, AcceptedLevels, Submap, Liquidity, Imbalance;
    hide SymbolAfter;
    var state, book := SymbolAfter(symbol, events).state, SymbolAfter(symbol, events).book;
    var bids := AcceptedLevels(LowestPrice, DEFAULT_RETAINED_DEPTH_LEVELS, DepthFeed(events));
    var asks := AcceptedLevels(HighestPrice, DEFAULT_RETAINED_DEPTH_LEVELS, DepthFeed(events));
    BookIsFed(symbol, events);
    StateShowsBook(symbol, events);
    BestInPrices(book.bids);
    BestInPrices(book.asks);
    BestInPrices(Untrimmed(bids));
    BestInPrices(Untrimmed(asks));
    TopLevelsSurviveDeletions(LowestPrice, DEFAULT_RETAINED_DEPTH_LEVELS, DepthFeed(events));
    TopLevelsSurviveDeletions(HighestPrice, DEFAULT_RETAINED_DEPTH_LEVELS, DepthFeed(events));
  }

  // The gap count shown is the number of disjoint spans of ids the depth feed was seen to skip.
  lemma GapCountShownIsSpans(symbol: Symbol, events: seq<Event>)
    requires forall i :: 0 <= i < |events| ==> events[i].Valid()
    ensures var spans := GapSpans(DEFAULT_RETAINED_DEPTH_LEVELS, DepthFeed(events));
            && SymbolAfter(symbol, events).state.depthSequenceGapCount == |spans|
            && Ladderlike(spans, LastId(SymbolAfter(symbol, events).book))
  {
    BookIsFed(symbol, events);
    StateShowsBook(symbol, events);
    DepthFeedIsValid(events);
    SpansAreDisjoint(DEFAULT_RETAINED_DEPTH_LEVELS, DepthFeed(events));
  }

  lemma {:induction false} DepthFeedIsValid(events: seq<Event>)
    requires forall i :: 0 <= i < |events| ==> events[i].Valid()
    ensures ValidFeed(DepthFeed(events))
  {
    if events != [] { DepthFeedIsValid(events[..|events| - 1]); }
  }

  // ----- The percentages -----

  // Raising the oldest price in the window by the change gives the newest one; there is a change exactly
  // when the window spans more than one instant.
  lemma PriceChangeLeadsBack(samples: seq<Sample>)
    requires forall i :: 0 <= i < |samples| ==> samples[i].price > 0.0
    ensures PriceChangePct(samples).None?
            <==> samples == [] || samples[0].eventTime == samples[|samples| - 1].eventTime
    ensures var change := PriceChangePct(samples);
            change.Some? ==> samples[|samples| - 1].price == samples[0].price + samples[0].price * change.value / 100.0
  {
    if PriceChangePct(samples).Some? {
      var oldest, latest := samples[0].price, samples[|samples| - 1].price;
      var ratio := (latest - oldest) / oldest;
      assert ratio * oldest == latest - oldest;
      assert oldest * (ratio * 100.0) / 100.0 == oldest * ratio;
    }
  }

  lemma PricesArePositive(trades: seq<Event>, cutoff: Millis)
    requires AllOf(Trades, trades) && forall i :: 0 <= i < |trades| ==> trades[i].Valid()
    ensures forall s :: s in Since(StableSort(SamplesOf(trades)), cutoff) ==> s.price > 0.0
  {
    var samples := SamplesOf(trades);
    SinceMembers(StableSort(samples), cutoff);
    forall s | s in StableSort(samples)
      ensures s.price > 0.0
    {
      StableSortIsStable(samples, s.eventTime);
      AtMembers(StableSort(samples), s.eventTime);
      AtMembers(samples, s.eventTime);
      SamplesArePositive(trades);
    }
  }

  lemma {:induction false} SamplesArePositive(trades: seq<Event>)
    requires AllOf(Trades, trades) && forall i :: 0 <= i < |trades| ==> trades[i].Valid()
    ensures forall s :: s in SamplesOf(trades) ==> s.price > 0.0
  {
    if trades != [] {
      SamplesArePositive(trades[..|trades| - 1]);
      assert trades[|trades| - 1].TradeEvent?;
    }
  }

  // The trades of the last minute before the newest one, oldest first.
  function LastMinute(trades: seq<Event>): seq<Sample>
    requires AllOf(Trades, trades) && trades != []
  {
    NewestAreMaxima(trades);
    Since(StableSort(SamplesOf(trades)), NewestTime(trades).value - 60_000)
  }

  lemma TradeModelShows(symbol: Symbol, trades: seq<Event>)
    requires AllOf(Trades, trades) && trades != []
    ensures var m := TradeModel(symbol, trades);
            && m.window == WindowAfter(TRADE_WINDOW_MILLIS, SamplesOf(trades))
            && m.state.signals.priceChangePct == PriceChangePct(m.window.samples)
  {
    hide PriceChangePct, WindowAfter;
  }

  lemma WindowShown(symbol: Symbol, events: seq<Event>)
    requires Only(Trades, events) != []
    ensures AllOf(Trades, Only(Trades, events))
    ensures var m := SymbolAfter(symbol, events);
            && m.window.samples == LastMinute(Only(Trades, events))
            && m.window.latest == NewestTime(Only(Trades, events))
            && m.state.signals.priceChangePct == PriceChangePct(m.window.samples)
  {
    hide SymbolAfter, TradeModel, PriceChangePct, WindowAfter, StableSort, Since, NewestTime, SamplesOf, Only;
    var trades := Only(Trades, events);
    OnlyKeepsStream(Trades, events);
    StreamsAreIndependent(symbol, events);
    TradesBuild(symbol, trades);
    TradeModelShows(symbol, trades);
    NewestOfSamples(trades);
    NewestAreMaxima(trades);
    WindowIsRecentStableSort(TRADE_WINDOW_MILLIS, SamplesOf(trades));
  }

  // After any valid feed with a trade, the rate published is the number of trades of the last minute.  The
  // price change published is the one that leads from the oldest of them to the last trade published, and
  // it is absent exactly when they all happened at one instant.
  lemma PriceChangeShown(symbol: Symbol, events: seq<Event>)
    requires forall i :: 0 <= i < |events| ==> events[i].Valid()
    requires Only(Trades, events) != []
    ensures AllOf(Trades, Only(Trades, events))
    ensures var recent, state := LastMinute(Only(Trades, events)), SymbolAfter(symbol, events).state;
            var change := state.signals.priceChangePct;
            && recent != [] && state.lastTradePrice.Some?
            && state.signals.tradesPerMinute == Some(|recent| as real)
            && (change.None? <==> Some(recent[0].eventTime) == NewestTime(Only(Trades, events)))
            && (change.Some? ==>
                  state.lastTradePrice.value == recent[0].price + recent[0].price * change.value / 100.0)
  {
    hide SymbolAfter, PriceChangePct, LastMinute;
    WindowShown(symbol, events);
    BookkeepingsAgree(symbol, events);
    OnlyKeepsValid(Trades, events);
    LastMinuteIsPositive(Only(Trades, events));
    PriceChangeLeadsBack(SymbolAfter(symbol, events).window.samples);
  }

  lemma LastMinuteIsPositive(trades: seq<Event>)
    requires AllOf(Trades, trades) && trades != [] && forall i :: 0 <= i < |trades| ==> trades[i].Valid()
    ensures forall i :: 0 <= i < |LastMinute(trades)| ==> LastMinute(trades)[i].price > 0.0
  {
    NewestAreMaxima(trades);
    PricesArePositive(trades, NewestTime(trades).value - TRADE_WINDOW_MILLIS);
  }

  lemma {:induction false} OnlyKeepsValid(stream: Stream, events: seq<Event>)
    requires forall i :: 0 <= i < |events| ==> events[i].Valid()
    ensures forall i :: 0 <= i < |Only(stream, events)| ==> Only(stream, events)[i].Valid()
  {
    if events != [] { OnlyKeepsValid(stream, events[..|events| - 1]); }
  }

  // The spread of a valid quote always exists, is zero exactly when bid and ask meet, and stays below
  // two hundred percent.
  lemma SpreadInRange(bid: real, ask: real)
    requires 0.0 < bid <= ask
    ensures SpreadPct(bid, ask).Some?
    ensures 0.0 <= SpreadPct(bid, ask).value < 200.0
    ensures SpreadPct(bid, ask).value == 0.0 <==> bid == ask
    ensures SpreadPct(bid, ask).value * (bid + ask) == 200.0 * (ask - bid)
  {
    var mid := (bid + ask) / 2.0;
    var ratio := (ask - bid) / mid;
    assert ratio * mid == ask - bid;
    SignOfFactor(ratio, mid);
    SignOfFactor(2.0 - ratio, mid) by { assert (2.0 - ratio) * mid == 2.0 * bid; }
    assert ratio * 100.0 * (bid + ask) == 200.0 * (ratio * mid);
  }

  // The best quote published is uncrossed, and the spread published is that quote's: the distance in
  // percent of the middle, within [0, 200), zero exactly when bid and ask meet.
  ghost predicate ShowsSpread(state: MarketState) {
    var spread := state.signals.spreadPct;
    && (spread.Some? <==> state.bestBidPrice.Some?) && (spread.Some? <==> state.bestAskPrice.Some?)
    && (spread.Some? ==>
          var bid, ask := state.bestBidPrice.value, state.bestAskPrice.value;
          && 0.0 < bid <= ask && 0.0 <= spread.value < 200.0
          && (spread.value == 0.0 <==> bid == ask)
          && spread.value * (bid + ask) == 200.0 * (ask - bid))
  }

  lemma EventKeepsShowingSpread(m: SymbolModel, event: Event)
    requires ShowsSpread(m.state) && event.Valid()
    ensures var next := EventApplied(m, event).state;
            && ShowsSpread(next)
            && (event.QuoteEvent? && m.state.signals.spreadPct.None? && m.latestQuoteTime.None? ==>
                  next.signals.spreadPct.Some?)
            && (!event.QuoteEvent? ==> next.signals.spreadPct == m.state.signals.spreadPct)
            && (m.state.signals.spreadPct.Some? ==> next.signals.spreadPct.Some?)
            && (!event.QuoteEvent? ==> EventApplied(m, event).latestQuoteTime == m.latestQuoteTime)
            && (event.QuoteEvent? ==> EventApplied(m, event).latestQuoteTime.Some?)
  {
    hide SpreadPct;
    if event.QuoteEvent? { SpreadInRange(event.quote.bidPrice, event.quote.askPrice); }
  }

  // So it is after any valid feed, from the first quote on.
  lemma {:induction false} SpreadShown(symbol: Symbol, events: seq<Event>)
    requires forall i :: 0 <= i < |events| ==> events[i].Valid()
    ensures ShowsSpread(SymbolAfter(symbol, events).state)
    ensures SymbolAfter(symbol, events).state.signals.spreadPct.Some? <==> Only(Quotes, events) != []
    ensures SymbolAfter(symbol, events).latestQuoteTime.Some? <==> Only(Quotes, events) != []
  {
    if events != [] {
      hide EventApplied, ShowsSpread;
      SpreadShown(symbol, events[..|events| - 1]);
      EventKeepsShowingSpread(SymbolAfter(symbol, events[..|events| - 1]), events[|events| - 1]);
    }
  }
}
