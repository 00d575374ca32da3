// What the folded market state depends on: each symbol's own three streams, not how they were
// multiplexed; and for trades and quotes not even their arrival order, beyond ties.
module AggregatorLaws {
  import opened Domain
  import opened Windows
  import opened Books
  import opened Aggregator

  datatype Stream = Trades | Quotes | Depths

  function StreamOf(event: Event): Stream {
    match event
    case TradeEvent(_) => Trades
    case QuoteEvent(_) => Quotes
    case DepthEvent(_) => Depths
  }

  // The events of one stream, in order.
  function Only(stream: Stream, events: seq<Event>): seq<Event> {
    if events == [] then []
    else Only(stream, events[..|events| - 1])
         + if StreamOf(events[|events| - 1]) == stream then [events[|events| - 1]] else []
  }

  // The events of one symbol, in order.
  function EventsOf(symbol: Symbol, events: seq<Event>): seq<Event> {
    if events == [] then []
    else EventsOf(symbol, events[..|events| - 1])
         + if events[|events| - 1].Symbol() == symbol then [events[|events| - 1]] else []
  }

  // ----- Streams do not interact -----

  // The model put together from one that saw only trades, one that saw only quotes and one that saw
  // only depth updates.
  function Merge(t: SymbolModel, q: SymbolModel, d: SymbolModel): SymbolModel {
    SymbolModel(
      MarketState(
        t.state.symbol, t.state.lastTradePrice, t.state.lastTradeQuantity,
        q.state.bestBidPrice, q.state.bestBidQuantity, q.state.bestAskPrice, q.state.bestAskQuantity,
        d.state.topBidQuantity, d.state.topAskQuantity, d.state.topBidLiquidity, d.state.topAskLiquidity,
        d.state.bookImbalance, d.state.depthSequenceGapCount,
        d.state.lastDepthEventTime, d.state.lastDepthIngestTime,
        Signals(q.state.signals.spreadPct, t.state.signals.priceChangePct, t.state.signals.tradesPerMinute),
        Later(t.state.lastEventTime, Later(q.state.lastEventTime, d.state.lastEventTime)),
        Later(t.state.lastIngestTime, Later(q.state.lastIngestTime, d.state.lastIngestTime))),
      t.latestTradeTime, q.latestQuoteTime, t.window, d.book)
  }

  lemma MergeTrade(t: SymbolModel, q: SymbolModel, d: SymbolModel, trade: Trade)
    ensures TradeApplied(Merge(t, q, d), trade) == Merge(TradeApplied(t, trade), q, d)
  {
  }

  lemma MergeQuote(t: SymbolModel, q: SymbolModel, d: SymbolModel, quote: Quote)
    ensures QuoteApplied(Merge(t, q, d), quote) == Merge(t, QuoteApplied(q, quote), d)
  {
  }

  lemma MergeDepth(t: SymbolModel, q: SymbolModel, d: SymbolModel, depth: DepthUpdate)
    ensures DepthApplied(Merge(t, q, d), depth) == Merge(t, q, DepthApplied(d, depth))
  {
  }

  lemma SymbolAfterAppend(symbol: Symbol, events: seq<Event>, event: Event)
    ensures SymbolAfter(symbol, events + [event]) == EventApplied(SymbolAfter(symbol, events), event)
  {
    assert (events + [event])[..|events|] == events;
  }

  // The state of a symbol is the merge of what each of its streams builds alone.
  lemma {:induction false} StreamsAreIndependent(symbol: Symbol, events: seq<Event>)
    ensures SymbolAfter(symbol, events)
            == Merge(SymbolAfter(symbol, Only(Trades, events)),
                     SymbolAfter(symbol, Only(Quotes, events)),
                     SymbolAfter(symbol, Only(Depths, events)))
  {
    if events != [] {
      var front, last := events[..|events| - 1], events[|events| - 1];
      StreamsAreIndependent(symbol, front);
      OnlyStep(Trades, events);
      OnlyStep(Quotes, events);
      OnlyStep(Depths, events);
      var t := SymbolAfter(symbol, Only(Trades, front));
      var q := SymbolAfter(symbol, Only(Quotes, front));
      var d := SymbolAfter(symbol, Only(Depths, front));
      match last
      case TradeEvent(trade) =>
        SymbolAfterAppend(symbol, Only(Trades, front), last);
        MergeTrade(t, q, d, trade);
      case QuoteEvent(quote) =>
        SymbolAfterAppend(symbol, Only(Quotes, front), last);
        MergeQuote(t, q, d, quote);
      case DepthEvent(depth) =>
        SymbolAfterAppend(symbol, Only(Depths, front), last);
        MergeDepth(t, q, d, depth);
    }
  }

  lemma OnlyStep(stream: Stream, events: seq<Event>)
    requires events != []
    ensures var front, last := events[..|events| - 1], events[|events| - 1];
            Only(stream, events) == if StreamOf(last) == stream then Only(stream, front) + [last] else Only(stream, front)
  {
  }

  // A symbol's entry in a mixed feed is what its own events alone produce.
  lemma {:induction false} SymbolsAreIndependent(symbol: Symbol, events: seq<Event>)
    ensures symbol in SymbolsAfter(events) <==> EventsOf(symbol, events) != []
    ensures SymbolOrNew(SymbolsAfter(events), symbol) == SymbolAfter(symbol, EventsOf(symbol, events))
  {
    if events != [] {
      var front, last := events[..|events| - 1], events[|events| - 1];
      SymbolsAreIndependent(symbol, front);
      var own := EventsOf(symbol, front);
      if last.Symbol() == symbol {
        SymbolAfterAppend(symbol, own, last);
      } else {
        assert own + [] == own;
      }
    }
  }

  // ----- Arrival order within the trade and quote streams -----

  function TimeOf(event: Event): Millis {
    match event
    case TradeEvent(trade) => trade.eventTime
    case QuoteEvent(quote) => quote.eventTime
    case DepthEvent(depth) => depth.eventTime
  }

  function IngestTimeOf(event: Event): Millis {
    match event
    case TradeEvent(trade) => trade.ingestTime
    case QuoteEvent(quote) => quote.ingestTime
    case DepthEvent(depth) => depth.ingestTime
  }

  function EventsAt(events: seq<Event>, t: Millis): seq<Event> {
    if events == [] then []
    else EventsAt(events[..|events| - 1], t)
         + if TimeOf(events[|events| - 1]) == t then [events[|events| - 1]] else []
  }

  function NewestTime(events: seq<Event>): Option<Millis> {
    if events == [] then None
    else Later(NewestTime(events[..|events| - 1]), Some(TimeOf(events[|events| - 1])))
  }

  function NewestIngest(events: seq<Event>): Option<Millis> {
    if events == [] then None
    else Later(NewestIngest(events[..|events| - 1]), Some(IngestTimeOf(events[|events| - 1])))
  }

  // Same events, and events of the same instant in the same order.
  ghost predicate SameUpToTies(a: seq<Event>, b: seq<Event>) {
    forall t :: EventsAt(a, t) == EventsAt(b, t)
  }

  ghost predicate AllOf(stream: Stream, events: seq<Event>) {
    forall i :: 0 <= i < |events| ==> StreamOf(events[i]) == stream
  }

  lemma {:induction false} EventsAtMembers(events: seq<Event>, t: Millis)
    ensures forall e :: e in EventsAt(events, t) <==> e in events && TimeOf(e) == t
  {
    if events != [] {
      EventsAtMembers(events[..|events| - 1], t);
      assert events == events[..|events| - 1] + [events[|events| - 1]];
    }
  }

  lemma {:induction false} NewestAreMaxima(events: seq<Event>)
    ensures NewestTime(events).None? <==> events == []
    ensures NewestIngest(events).None? <==> events == []
    ensures forall e :: e in events ==>
              TimeOf(e) <= NewestTime(events).value && IngestTimeOf(e) <= NewestIngest(events).value
    ensures events != [] ==> exists e :: e in events && TimeOf(e) == NewestTime(events).value
    ensures events != [] ==> exists e :: e in events && IngestTimeOf(e) == NewestIngest(events).value
  {
    if events != [] {
      NewestAreMaxima(events[..|events| - 1]);
      assert events == events[..|events| - 1] + [events[|events| - 1]];
    }
  }

  lemma SameMembersUpToTies(a: seq<Event>, b: seq<Event>)
    requires SameUpToTies(a, b)
    ensures forall e :: e in a ==> e in b
  {
    forall e | e in a
      ensures e in b
    {
      EventsAtMembers(a, TimeOf(e));
      EventsAtMembers(b, TimeOf(e));
      assert EventsAt(a, TimeOf(e)) == EventsAt(b, TimeOf(e));
    }
  }

  lemma SameMembersSameMaxima(a: seq<Event>, b: seq<Event>)
    requires forall e :: e in a <==> e in b
    ensures NewestTime(a) == NewestTime(b) && NewestIngest(a) == NewestIngest(b)
    ensures a == [] <==> b == []
  {
    NewestAreMaxima(a);
    NewestAreMaxima(b);
    assert a != [] ==> a[0] in b;
    assert b != [] ==> b[0] in a;
  }

  lemma SameMaximaUpToTies(a: seq<Event>, b: seq<Event>)
    requires SameUpToTies(a, b)
    ensures NewestTime(a) == NewestTime(b) && NewestIngest(a) == NewestIngest(b)
    ensures a == [] <==> b == []
  {
    SameMembersUpToTies(a, b);
    SameMembersUpToTies(b, a);
    SameMembersSameMaxima(a, b);
  }

  // The last arrival among the newest events.
  function LastOfNewest(events: seq<Event>): (e: Event)
    requires events != []
    ensures e in events
  {
    NewestAreMaxima(events);
    EventsAtMembers(events, NewestTime(events).value);
    var newest := EventsAt(events, NewestTime(events).value);
    assert newest != [] by {
      var e :| e in events && TimeOf(e) == NewestTime(events).value;
      assert e in newest;
    }
    newest[|newest| - 1]
  }

  lemma LastOfNewestStep(events: seq<Event>)
    requires events != []
    ensures var front, last := events[..|events| - 1], events[|events| - 1];
            LastOfNewest(events)
            == if front == [] || TimeOf(last) >= NewestTime(front).value then last else LastOfNewest(front)
  {
    var front, last := events[..|events| - 1], events[|events| - 1];
    NewestAreMaxima(front);
    var t := NewestTime(events).value;
    if TimeOf(last) != t {
      assert EventsAt(events, t) == EventsAt(front, t) + [] == EventsAt(front, t);
    }
  }

  // It is the event no other is newer than, nor arrived later at the same instant.
  lemma {:induction false} LastOfNewestIsLatest(events: seq<Event>, i: nat)
    requires i < |events|
    ensures LastOfNewest(events) == events[i]
            <== && (forall j :: 0 <= j < i ==> TimeOf(events[j]) <= TimeOf(events[i]))
                && (forall j :: i < j < |events| ==> TimeOf(events[j]) < TimeOf(events[i]))
  {
    var front, last := events[..|events| - 1], events[|events| - 1];
    assert forall j :: 0 <= j < |front| ==> front[j] == events[j];
    LastOfNewestStep(events);
    NewestAreMaxima(front);
    if i < |front| {
      LastOfNewestIsLatest(front, i);
      assert TimeOf(front[i]) <= NewestTime(front).value;
    } else if front != [] {
      var e :| e in front && TimeOf(e) == NewestTime(front).value;
      var j :| 0 <= j < |front| && front[j] == e;
      assert TimeOf(events[j]) == NewestTime(front).value;
    }
  }

  function SampleOf(event: Event): Sample
    requires event.TradeEvent?
  {
    Sample(event.trade.eventTime, event.trade.price)
  }

  function SamplesOf(events: seq<Event>): (samples: seq<Sample>)
    requires AllOf(Trades, events)
    ensures |samples| == |events|
  {
    if events == [] then []
    else SamplesOf(events[..|events| - 1]) + [SampleOf(events[|events| - 1])]
  }

  // What a trade-only feed builds, in closed form.
  ghost function TradeModel(symbol: Symbol, events: seq<Event>): SymbolModel
    requires AllOf(Trades, events)
  {
    if events == [] then NewSymbolModel(symbol)
    else
      var latest := LastOfNewest(events).trade;
      var window := WindowAfter(TRADE_WINDOW_MILLIS, SamplesOf(events));
      var state := NewMarketState(symbol).(
        lastTradePrice := Some(latest.price), lastTradeQuantity := Some(latest.quantity),
        lastEventTime := NewestTime(events), lastIngestTime := NewestIngest(events));
      NewSymbolModel(symbol).(state := WithTradeSignals(state, window.samples),
                         latestTradeTime := NewestTime(events), window := window)
  }

  // What a quote-only feed builds, in closed form.
  ghost function QuoteModel(symbol: Symbol, events: seq<Event>): SymbolModel
    requires AllOf(Quotes, events)
  {
    if events == [] then NewSymbolModel(symbol)
    else
      var state := NewMarketState(symbol).(lastEventTime := NewestTime(events), lastIngestTime := NewestIngest(events));
      NewSymbolModel(symbol).(state := WithQuote(state, LastOfNewest(events).quote), latestQuoteTime := NewestTime(events))
  }

  lemma NewestStep(events: seq<Event>)
    requires events != []
    ensures var front, last := events[..|events| - 1], events[|events| - 1];
            && NewestTime(events) == Later(NewestTime(front), Some(TimeOf(last)))
            && NewestIngest(events) == Later(NewestIngest(front), Some(IngestTimeOf(last)))
            && (NewestTime(front).None? <==> front == []) && (NewestIngest(front).None? <==> front == [])
  {
    NewestAreMaxima(events[..|events| - 1]);
  }

  lemma WindowStep(size: int, events: seq<Event>)
    requires AllOf(Trades, events) && events != []
    ensures var front, last := events[..|events| - 1], events[|events| - 1];
            WindowAfter(size, SamplesOf(events)) == PushSample(WindowAfter(size, SamplesOf(front)), SampleOf(last))
  {
    var samples := SamplesOf(events);
    assert samples[..|samples| - 1] == SamplesOf(events[..|events| - 1]);
    assert samples[|samples| - 1] == SampleOf(events[|events| - 1]);
  }

  lemma {:induction false} TradesBuild(symbol: Symbol, events: seq<Event>)
    requires AllOf(Trades, events)
    ensures SymbolAfter(symbol, events) == TradeModel(symbol, events)
  {
    if events != [] {
      var front, last := events[..|events| - 1], events[|events| - 1];
      TradesBuild(symbol, front);
      LastOfNewestStep(events);
      NewestStep(events);
      WindowStep(TRADE_WINDOW_MILLIS, events);
      assert last.TradeEvent? && SymbolAfter(symbol, events) == TradeApplied(TradeModel(symbol, front), last.trade);
    }
  }

  lemma {:induction false} QuotesBuild(symbol: Symbol, events: seq<Event>)
    requires AllOf(Quotes, events)
    ensures SymbolAfter(symbol, events) == QuoteModel(symbol, events)
  {
    if events != [] {
      var front, last := events[..|events| - 1], events[|events| - 1];
      QuotesBuild(symbol, front);
      LastOfNewestStep(events);
      NewestStep(events);
      assert last.QuoteEvent? && SymbolAfter(symbol, events) == QuoteApplied(QuoteModel(symbol, front), last.quote);
    }
  }

  lemma {:induction false} SamplesAt(events: seq<Event>, t: Millis)
    requires AllOf(Trades, events)
    ensures AllOf(Trades, EventsAt(events, t))
    ensures At(SamplesOf(events), t) == SamplesOf(EventsAt(events, t))
  {
    if events != [] {
      var front, last := events[..|events| - 1], events[|events| - 1];
      SamplesAt(front, t);
      var samples := SamplesOf(events);
      assert samples[..|samples| - 1] == SamplesOf(front);
      if TimeOf(last) == t {
        assert (EventsAt(front, t) + [last])[..|EventsAt(front, t)|] == EventsAt(front, t);
      } else {
        assert EventsAt(events, t) == EventsAt(front, t) + [] == EventsAt(front, t);
        assert At(samples, t) == At(SamplesOf(front), t) + [] == At(SamplesOf(front), t);
      }
    }
  }

  lemma SameLastOfNewest(a: seq<Event>, b: seq<Event>)
    requires SameUpToTies(a, b) && a != [] && b != []
    ensures LastOfNewest(a) == LastOfNewest(b)
  {
    SameMaximaUpToTies(a, b);
    assert EventsAt(a, NewestTime(a).value) == EventsAt(b, NewestTime(a).value);
  }

  lemma SameWindowUpToTies(a: seq<Event>, b: seq<Event>)
    requires AllOf(Trades, a) && AllOf(Trades, b) && SameUpToTies(a, b)
    ensures WindowAfter(TRADE_WINDOW_MILLIS, SamplesOf(a)) == WindowAfter(TRADE_WINDOW_MILLIS, SamplesOf(b))
  {
    forall t
      ensures At(SamplesOf(a), t) == At(SamplesOf(b), t)
    {
      SamplesAt(a, t);
      SamplesAt(b, t);
      assert EventsAt(a, t) == EventsAt(b, t);
    }
    ArrivalOrderIsIrrelevant(TRADE_WINDOW_MILLIS, SamplesOf(a), SamplesOf(b));
  }

  // Two arrival orders of the same trades that differ only between different instants build the same
  // state: window, signals, last trade, timestamps.
  lemma TradeOrderIsIrrelevant(symbol: Symbol, a: seq<Event>, b: seq<Event>)
    requires AllOf(Trades, a) && AllOf(Trades, b) && SameUpToTies(a, b)
    ensures SymbolAfter(symbol, a) == SymbolAfter(symbol, b)
  {
    TradesBuild(symbol, a);
    TradesBuild(symbol, b);
    SameMaximaUpToTies(a, b);
    SameWindowUpToTies(a, b);
    if a != [] { SameLastOfNewest(a, b); }
  }

  lemma QuoteOrderIsIrrelevant(symbol: Symbol, a: seq<Event>, b: seq<Event>)
    requires AllOf(Quotes, a) && AllOf(Quotes, b) && SameUpToTies(a, b)
    ensures SymbolAfter(symbol, a) == SymbolAfter(symbol, b)
  {
    QuotesBuild(symbol, a);
    QuotesBuild(symbol, b);
    SameMaximaUpToTies(a, b);
    if a != [] { SameLastOfNewest(a, b); }
  }

  lemma {:induction false} OnlyKeepsStream(stream: Stream, events: seq<Event>)
    ensures AllOf(stream, Only(stream, events))
  {
    if events != [] { OnlyKeepsStream(stream, events[..|events| - 1]); }
  }

  lemma {:induction false} SomeStreamSpeaks(events: seq<Event>)
    ensures events == [] <==> Only(Trades, events) == [] && Only(Quotes, events) == [] && Only(Depths, events) == []
  {
    if events != [] {
      assert Only(StreamOf(events[|events| - 1]), events) != [];
    }
  }

  // Two mixed feeds, with any other symbols interleaved in any way, leave the same snapshot of a symbol
  // whenever its depth updates come in the same order and its trades and its quotes are the same up to
  // the order of different instants.
  lemma SnapshotDependsOnStreams(symbol: Symbol, a: seq<Event>, b: seq<Event>)
    requires var ownA, ownB := EventsOf(symbol, a), EventsOf(symbol, b);
             && SameUpToTies(Only(Trades, ownA), Only(Trades, ownB))
             && SameUpToTies(Only(Quotes, ownA), Only(Quotes, ownB))
             && Only(Depths, ownA) == Only(Depths, ownB)
    ensures SnapshotFor(SymbolsAfter(a), symbol) == SnapshotFor(SymbolsAfter(b), symbol)
    ensures SymbolOrNew(SymbolsAfter(a), symbol) == SymbolOrNew(SymbolsAfter(b), symbol)
  {
    var ownA, ownB := EventsOf(symbol, a), EventsOf(symbol, b);
    SymbolsAreIndependent(symbol, a);
    SymbolsAreIndependent(symbol, b);
    SameStreamsSameSymbol(symbol, ownA, ownB);
  }

  lemma SameStreamsSameSymbol(symbol: Symbol, a: seq<Event>, b: seq<Event>)
    requires SameUpToTies(Only(Trades, a), Only(Trades, b))
    requires SameUpToTies(Only(Quotes, a), Only(Quotes, b))
    requires Only(Depths, a) == Only(Depths, b)
    ensures SymbolAfter(symbol, a) == SymbolAfter(symbol, b)
    ensures a == [] <==> b == []
  {
    StreamsAreIndependent(symbol, a);
    StreamsAreIndependent(symbol, b);
    OnlyKeepsStream(Trades, a);
    OnlyKeepsStream(Trades, b);
    OnlyKeepsStream(Quotes, a);
    OnlyKeepsStream(Quotes, b);
    TradeOrderIsIrrelevant(symbol, Only(Trades, a), Only(Trades, b));
    QuoteOrderIsIrrelevant(symbol, Only(Quotes, a), Only(Quotes, b));
    SameMaximaUpToTies(Only(Trades, a), Only(Trades, b));
    SameMaximaUpToTies(Only(Quotes, a), Only(Quotes, b));
    SomeStreamSpeaks(a);
    SomeStreamSpeaks(b);
  }

  // ----- The last trade, the best quote -----

  // After any feed with a quote, the best prices and quantities published are those of the quote that
  // arrived last among the newest ones.
  lemma LatestQuoteShown(symbol: Symbol, events: seq<Event>)
    requires Only(Quotes, events) != []
    ensures LastOfNewest(Only(Quotes, events)).QuoteEvent?
    ensures var quote, state := LastOfNewest(Only(Quotes, events)).quote, SymbolAfter(symbol, events).state;
            && state.bestBidPrice == Some(quote.bidPrice) && state.bestBidQuantity == Some(quote.bidQuantity)
            && state.bestAskPrice == Some(quote.askPrice) && state.bestAskQuantity == Some(quote.askQuantity)
    ensures SymbolAfter(symbol, events).latestQuoteTime == NewestTime(Only(Quotes, events))
  {
    hide SymbolAfter, Only;
    OnlyKeepsStream(Quotes, events);
    QuotesBuild(symbol, Only(Quotes, events));
    StreamsAreIndependent(symbol, events);
  }

  // Likewise the last trade.
  lemma LatestTradeShown(symbol: Symbol, events: seq<Event>)
    requires Only(Trades, events) != []
    ensures LastOfNewest(Only(Trades, events)).TradeEvent?
    ensures var trade, state := LastOfNewest(Only(Trades, events)).trade, SymbolAfter(symbol, events).state;
            state.lastTradePrice == Some(trade.price) && state.lastTradeQuantity == Some(trade.quantity)
    ensures SymbolAfter(symbol, events).latestTradeTime == NewestTime(Only(Trades, events))
  {
    hide SymbolAfter, Only, WindowAfter, PriceChangePct;
    OnlyKeepsStream(Trades, events);
    TradesBuild(symbol, Only(Trades, events));
    StreamsAreIndependent(symbol, events);
  }

  // ----- The two trade bookkeepings, and the clock fields -----

  // The window is not empty, and its back sample is the last trade the state reports.
  ghost predicate TradeBooksAgree(m: SymbolModel) {
    && m.window.samples != []
    && m.state.lastTradePrice == Some(m.window.samples[|m.window.samples| - 1].price)
    && m.latestTradeTime == m.window.latest == Some(m.window.samples[|m.window.samples| - 1].eventTime)
    && m.state.signals.tradesPerMinute == Some(|m.window.samples| as real)
  }

  // So it is after any feed with a trade.
  lemma BookkeepingsAgree(symbol: Symbol, events: seq<Event>)
    requires Only(Trades, events) != []
    ensures TradeBooksAgree(SymbolAfter(symbol, events))
  {
    var trades := Only(Trades, events);
    OnlyKeepsStream(Trades, events);
    TradeModelBack(symbol, trades);
    TradesBuild(symbol, trades);
    StreamsAreIndependent(symbol, events);
    MergeKeepsTradeBooks(SymbolAfter(symbol, trades), SymbolAfter(symbol, Only(Quotes, events)),
                         SymbolAfter(symbol, Only(Depths, events)));
  }

  lemma MergeKeepsTradeBooks(t: SymbolModel, q: SymbolModel, d: SymbolModel)
    requires TradeBooksAgree(t)
    ensures TradeBooksAgree(Merge(t, q, d))
  {
  }

  lemma TradeModelBack(symbol: Symbol, trades: seq<Event>)
    requires AllOf(Trades, trades) && trades != []
    ensures TradeBooksAgree(TradeModel(symbol, trades))
  {
    var samples := SamplesOf(trades);
    BackIsLastOfNewest(TRADE_WINDOW_MILLIS, samples);
    WindowIsRecentStableSort(TRADE_WINDOW_MILLIS, samples);
    NewestOfSamples(trades);
    var top := NewestTime(trades).value;
    SamplesAt(trades, top);
    NewestAreMaxima(trades);
    EventsAtMembers(trades, top);
  }

  lemma {:induction false} NewestOfSamples(trades: seq<Event>)
    requires AllOf(Trades, trades)
    ensures Newest(SamplesOf(trades)) == NewestTime(trades)
  {
    if trades != [] {
      var front := trades[..|trades| - 1];
      NewestOfSamples(front);
      var samples := SamplesOf(trades);
      assert samples[..|samples| - 1] == SamplesOf(front);
      assert trades[|trades| - 1].TradeEvent?;
    }
  }

  // Trades and quotes always count for the clock; depth updates only when accepted.
  predicate Counted(symbol: Symbol, events: seq<Event>, i: nat)
    requires i < |events|
  {
    events[i].DepthEvent? ==> !IsStale(SymbolAfter(symbol, events[..i]).book, events[i].depth)
  }

  // The last event time is the maximum over all counted events, hence never below the last depth time.
  lemma {:induction false} LastEventTimeIsMaximum(symbol: Symbol, events: seq<Event>)
    ensures var last := SymbolAfter(symbol, events).state.lastEventTime;
            && (last.Some? <==> events != [])
            && (forall i :: 0 <= i < |events| && Counted(symbol, events, i) ==> TimeOf(events[i]) <= last.value)
            && (events != [] ==>
                  exists i :: 0 <= i < |events| && Counted(symbol, events, i) && TimeOf(events[i]) == last.value)
    ensures var state := SymbolAfter(symbol, events).state;
            state.lastDepthEventTime.Some? ==>
              state.lastEventTime.Some? && state.lastDepthEventTime.value <= state.lastEventTime.value
    ensures events == [] ==> SymbolAfter(symbol, events).book.lastFinalUpdateId.None?
  {
    if events != [] {
      var n := |events| - 1;
      var front := events[..n];
      LastEventTimeIsMaximum(symbol, front);
      CountedBefore(symbol, events);
      ClockStep(SymbolAfter(symbol, front), events[n]);
      assert Counted(symbol, events, n) || front != [] ;
      if front != [] {
        var i :| 0 <= i < n && Counted(symbol, front, i)
                 && TimeOf(front[i]) == SymbolAfter(symbol, front).state.lastEventTime.value;
        assert Counted(symbol, events, i) && TimeOf(events[i]) == SymbolAfter(symbol, front).state.lastEventTime.value;
      }
    }
  }

  // Likewise the last ingest time.
  lemma {:induction false} LastIngestTimeIsMaximum(symbol: Symbol, events: seq<Event>)
    ensures var last := SymbolAfter(symbol, events).state.lastIngestTime;
            && (last.Some? <==> events != [])
            && (forall i :: 0 <= i < |events| && Counted(symbol, events, i) ==> IngestTimeOf(events[i]) <= last.value)
            && (events != [] ==>
                  exists i :: 0 <= i < |events| && Counted(symbol, events, i) && IngestTimeOf(events[i]) == last.value)
  {
    if events != [] {
      hide SymbolAfter, IsStale;
      var n := |events| - 1;
      var front := events[..n];
      LastIngestTimeIsMaximum(symbol, front);
      LastEventTimeIsMaximum(symbol, front);
      CountedBefore(symbol, events);
      assert events == front + [events[n]];
      SymbolAfterAppend(symbol, front, events[n]);
      ClockStep(SymbolAfter(symbol, front), events[n]);
      if front == [] {
        FirstCounts(symbol, events);
      } else {
        var i :| 0 <= i < n && Counted(symbol, front, i)
                 && IngestTimeOf(front[i]) == SymbolAfter(symbol, front).state.lastIngestTime.value;
        assert Counted(symbol, events, i) && IngestTimeOf(events[i]) == SymbolAfter(symbol, front).state.lastIngestTime.value;
      }
    }
  }

  lemma FirstCounts(symbol: Symbol, events: seq<Event>)
    requires events != []
    ensures Counted(symbol, events, 0)
  {
    assert events[..0] == [];
  }

  lemma CountedBefore(symbol: Symbol, events: seq<Event>)
    requires events != []
    ensures var front := events[..|events| - 1];
            forall i :: 0 <= i < |front| ==> (Counted(symbol, events, i) <==> Counted(symbol, front, i)) && front[i] == events[i]
  {
    var front := events[..|events| - 1];
    forall i | 0 <= i < |front|
      ensures Counted(symbol, events, i) <==> Counted(symbol, front, i)
    {
      assert front[..i] == events[..i];
    }
  }

  lemma ClockStep(m: SymbolModel, event: Event)
    ensures var counted := event.DepthEvent? ==> !IsStale(m.book, event.depth);
            EventApplied(m, event).state.lastEventTime
            == (if counted then Later(m.state.lastEventTime, Some(TimeOf(event))) else m.state.lastEventTime)
            && EventApplied(m, event).state.lastIngestTime
            == (if counted then Later(m.state.lastIngestTime, Some(IngestTimeOf(event))) else m.state.lastIngestTime)
    ensures EventApplied(m, event).state.lastDepthEventTime
            == if event.DepthEvent? && !IsStale(m.book, event.depth) then Some(event.depth.eventTime)
               else m.state.lastDepthEventTime
  {
  }
}
