// The per-symbol order book: two trimmed sides, the last accepted update ids, and a count of
// sequence gaps.  Book is the value an OrderBook object denotes; ApplyUpdate is one accepted-or-dropped
// update on that value.
module Books {
  import opened Domain
  import opened BookSide

  const DEFAULT_RETAINED_DEPTH_LEVELS: nat := 50

  datatype Book = Book(
    bids: Side,
    asks: Side,
    retained: nat,
    lastDepthEventTime: Option<Millis>,
    lastDepthIngestTime: Option<Millis>,
    lastFirstUpdateId: Option<U64>,
    lastFinalUpdateId: Option<U64>,
    gapCount: nat)

  function NewBook(retained: nat): Book {
    Book(map[], map[], if retained < 1 then 1 else retained, None, None, None, None, 0)
  }

  predicate IsStale(book: Book, update: DepthUpdate) {
    && book.lastFinalUpdateId.Some?
    && update.firstUpdateId.Some?
    && update.finalUpdateId.Some?
    && update.finalUpdateId.value <= book.lastFinalUpdateId.value
  }

  // The expected next id does not exist once the last id is the largest 64-bit number.
  predicate HasSequenceGap(book: Book, update: DepthUpdate) {
    && book.lastFinalUpdateId.Some?
    && update.HasBothIds()
    && book.lastFinalUpdateId.value < U64_MAX
    && update.firstUpdateId.value > book.lastFinalUpdateId.value + 1
  }

  function RecordedFirst(book: Book, update: DepthUpdate): Option<U64> {
    match (update.firstUpdateId, update.finalUpdateId)
    case (Some(first), Some(_)) => Some(first)
    case (Some(first), None) =>
      if book.lastFirstUpdateId.None? || first >= book.lastFirstUpdateId.value then Some(first)
      else book.lastFirstUpdateId
    case (None, _) => book.lastFirstUpdateId
  }

  function RecordedFinal(book: Book, update: DepthUpdate): Option<U64> {
    match (update.firstUpdateId, update.finalUpdateId)
    case (Some(_), Some(final)) => Some(final)
    case (None, Some(final)) =>
      if book.lastFinalUpdateId.None? || final >= book.lastFinalUpdateId.value then Some(final)
      else book.lastFinalUpdateId
    case (_, None) => book.lastFinalUpdateId
  }

  function ApplyUpdate(book: Book, update: DepthUpdate): Book {
    if IsStale(book, update) then book
    else
      Book(
        TopN(LowestPrice, ApplyLevels(book.bids, update.bids), book.retained),
        TopN(HighestPrice, ApplyLevels(book.asks, update.asks), book.retained),
        book.retained,
        Some(update.eventTime),
        Some(update.ingestTime),
        RecordedFirst(book, update),
        RecordedFinal(book, update),
        if HasSequenceGap(book, update) then book.gapCount + 1 else book.gapCount)
  }

  // The book after a whole feed of updates.
  function BookAfter(retained: nat, feed: seq<DepthUpdate>): Book {
    if feed == [] then NewBook(retained)
    else ApplyUpdate(BookAfter(retained, feed[..|feed| - 1]), feed[|feed| - 1])
  }

  ghost predicate ValidFeed(feed: seq<DepthUpdate>) {
    forall i :: 0 <= i < |feed| ==> feed[i].Valid()
  }

  // Every counted gap skipped at least one id, so gaps are paid for by the growth of the last id.
  ghost predicate GapsPaidFor(book: Book) {
    match book.lastFinalUpdateId
    case None => book.gapCount == 0
    case Some(final) => 2 * book.gapCount <= final
  }

  ghost predicate SidesSane(book: Book) {
    && book.retained >= 1
    && Positive(book.bids) && Positive(book.asks)
    && |book.bids| <= book.retained && |book.asks| <= book.retained
  }

  ghost predicate BookInvariant(book: Book) {
    SidesSane(book) && GapsPaidFor(book)
  }

  lemma GapsStayPaidFor(book: Book, update: DepthUpdate)
    requires GapsPaidFor(book) && update.IdsValid()
    ensures GapsPaidFor(ApplyUpdate(book, update))
  {
  }

  lemma {:induction false} LevelsKeepPositive(side: Side, levels: seq<DepthLevel>)
    requires Positive(side)
    requires forall i :: 0 <= i < |levels| ==> levels[i].Valid()
    ensures Positive(ApplyLevels(side, levels))
  {
    if levels != [] {
      LevelsKeepPositive(side, levels[..|levels| - 1]);
    }
  }

  lemma UpdateKeepsInvariant(book: Book, update: DepthUpdate)
    requires BookInvariant(book) && update.Valid()
    ensures BookInvariant(ApplyUpdate(book, update))
  {
    GapsStayPaidFor(book, update);
    if !IsStale(book, update) {
      LevelsKeepPositive(book.bids, update.bids);
      LevelsKeepPositive(book.asks, update.asks);
      TopNSize(LowestPrice, ApplyLevels(book.bids, update.bids), book.retained);
      TopNSize(HighestPrice, ApplyLevels(book.asks, update.asks), book.retained);
    }
  }

  datatype Snapshot = Snapshot(
    bestBidPrice: Option<real>,
    bestBidQuantity: Option<real>,
    bestAskPrice: Option<real>,
    bestAskQuantity: Option<real>,
    topBidLiquidity: real,
    topAskLiquidity: real,
    imbalance: Option<real>,
    lastDepthEventTime: Option<Millis>,
    lastDepthIngestTime: Option<Millis>,
    lastFirstUpdateId: Option<U64>,
    lastFinalUpdateId: Option<U64>,
    gapCount: nat)

  function Imbalance(bid: real, ask: real): Option<real> {
    if bid + ask > 0.0 then Some((bid - ask) / (bid + ask)) else None
  }

  function SnapshotOf(book: Book): Snapshot {
    var bid, ask := Liquidity(book.bids), Liquidity(book.asks);
    Snapshot(
      PriceOf(Best(LowestPrice, book.bids)), QuantityOf(Best(LowestPrice, book.bids)),
      PriceOf(Best(HighestPrice, book.asks)), QuantityOf(Best(HighestPrice, book.asks)),
      bid, ask, Imbalance(bid, ask),
      book.lastDepthEventTime, book.lastDepthIngestTime,
      book.lastFirstUpdateId, book.lastFinalUpdateId, book.gapCount)
  }

  // What a snapshot shows, field by field: the highest bid and the lowest ask, the imbalance as the
  // difference of the two liquidities in parts of their sum, and the book's times, ids and gap count.
  lemma SnapshotShows(book: Book)
    ensures var s := SnapshotOf(book);
            && IsHighest(book.bids, s.bestBidPrice, s.bestBidQuantity)
            && IsLowest(book.asks, s.bestAskPrice, s.bestAskQuantity)
            && s.topBidLiquidity == Liquidity(book.bids) && s.topAskLiquidity == Liquidity(book.asks)
            && (s.imbalance.Some? ==>
                  s.imbalance.value * (s.topBidLiquidity + s.topAskLiquidity) == s.topBidLiquidity - s.topAskLiquidity)
            && s.lastDepthEventTime == book.lastDepthEventTime && s.lastDepthIngestTime == book.lastDepthIngestTime
            && s.lastFirstUpdateId == book.lastFirstUpdateId && s.lastFinalUpdateId == book.lastFinalUpdateId
            && s.gapCount == book.gapCount
  {
    hide Best, IsHighest, IsLowest, Liquidity;
    BestInPrices(book.bids);
    BestInPrices(book.asks);
  }

  // What an accepted update does to each side in prices, and which ids are remembered: its own if it has
  // both, otherwise the larger of its own and the old one.
  lemma UpdateInPricesAndIds(book: Book, update: DepthUpdate)
    requires !IsStale(book, update)
    ensures var after := ApplyUpdate(book, update);
            && KeepsBestPrices(LowestPrice, ApplyLevels(book.bids, update.bids), after.bids)
            && KeepsBestPrices(HighestPrice, ApplyLevels(book.asks, update.asks), after.asks)
    ensures var after := ApplyUpdate(book, update);
            && (update.HasBothIds() ==>
                  after.lastFirstUpdateId == update.firstUpdateId && after.lastFinalUpdateId == update.finalUpdateId)
            && (!update.HasBothIds() ==>
                  && after.lastFirstUpdateId == LargerId(book.lastFirstUpdateId, update.firstUpdateId)
                  && after.lastFinalUpdateId == LargerId(book.lastFinalUpdateId, update.finalUpdateId))
    ensures var after := ApplyUpdate(book, update);
            after.lastDepthEventTime == Some(update.eventTime) && after.lastDepthIngestTime == Some(update.ingestTime)
  {
    hide KeepsBestPrices, TopN, ApplyLevels;
    TopNKeepsBestPrices(LowestPrice, ApplyLevels(book.bids, update.bids), book.retained);
    TopNKeepsBestPrices(HighestPrice, ApplyLevels(book.asks, update.asks), book.retained);
  }

  // The larger of two ids; a missing one never wins.
  function LargerId(a: Option<U64>, b: Option<U64>): (r: Option<U64>)
    ensures r == a || r == b
    ensures r.None? <==> a.None? && b.None?
    ensures (a.Some? ==> r.value >= a.value) && (b.Some? ==> r.value >= b.value)
  {
    if a.None? || (b.Some? && b.value >= a.value) then b else a
  }

  lemma RatioInRange(bid: real, ask: real, ratio: real)
    requires bid >= 0.0 && ask >= 0.0 && bid + ask > 0.0
    requires ratio * (bid + ask) == bid - ask
    ensures -1.0 <= ratio <= 1.0
    ensures ratio == 1.0 <==> ask == 0.0
    ensures ratio == -1.0 <==> bid == 0.0
  {
    assert (1.0 - ratio) * (bid + ask) == 2.0 * ask;
    assert (1.0 + ratio) * (bid + ask) == 2.0 * bid;
    SignOfFactor(1.0 - ratio, bid + ask);
    SignOfFactor(1.0 + ratio, bid + ask);
  }

  lemma SignOfFactor(a: real, b: real)
    requires b > 0.0 && a * b >= 0.0
    ensures a >= 0.0
    ensures a * b == 0.0 <==> a == 0.0
  {
    if a < 0.0 { ProductPositive(-a, b); }
    if a > 0.0 { ProductPositive(a, b); }
  }

  lemma ImbalanceInRange(bid: real, ask: real)
    requires bid >= 0.0 && ask >= 0.0
    ensures Imbalance(bid, ask).None? <==> bid == 0.0 && ask == 0.0
    ensures Imbalance(bid, ask).Some? ==> -1.0 <= Imbalance(bid, ask).value <= 1.0
    ensures Imbalance(bid, ask) == Some(1.0) <==> bid > 0.0 && ask == 0.0
    ensures Imbalance(bid, ask) == Some(-1.0) <==> bid == 0.0 && ask > 0.0
  {
    if bid + ask > 0.0 {
      RatioInRange(bid, ask, (bid - ask) / (bid + ask));
    }
  }

  // The imbalance exists exactly when some level is retained, lies in [-1, 1], and reaches an end
  // exactly when the other side is empty.
  lemma SnapshotImbalance(book: Book)
    requires BookInvariant(book)
    ensures SnapshotOf(book).imbalance.None? <==> book.bids == map[] && book.asks == map[]
    ensures SnapshotOf(book).imbalance.Some? ==> -1.0 <= SnapshotOf(book).imbalance.value <= 1.0
    ensures SnapshotOf(book).imbalance == Some(1.0) <==> book.bids != map[] && book.asks == map[]
    ensures SnapshotOf(book).imbalance == Some(-1.0) <==> book.bids == map[] && book.asks != map[]
  {
    var bid, ask := Liquidity(book.bids), Liquidity(book.asks);
    assert bid >= 0.0 && (bid == 0.0 <==> book.bids == map[]) by { LiquidityPositive(book.bids); }
    assert ask >= 0.0 && (ask == 0.0 <==> book.asks == map[]) by { LiquidityPositive(book.asks); }
    assert SnapshotOf(book).imbalance == Imbalance(bid, ask);
    ImbalanceInRange(bid, ask);
  }

  class OrderBook {
    // The symbol the book belongs to; it keeps the books of different symbols apart.
    ghost const owner: Symbol
    var bids: Side
    var asks: Side
    var retainedDepthLevels: nat
    var lastDepthEventTime: Option<Millis>
    var lastDepthIngestTime: Option<Millis>
    var lastFirstUpdateId: Option<U64>
    var lastFinalUpdateId: Option<U64>
    var depthSequenceGapCount: U64

    ghost function Model(): Book
      reads this
    {
      Book(bids, asks, retainedDepthLevels, lastDepthEventTime, lastDepthIngestTime,
           lastFirstUpdateId, lastFinalUpdateId, depthSequenceGapCount)
    }

    ghost predicate Valid()
      reads this
    {
      GapsPaidFor(Model())
    }

    constructor (retained: nat, ghost owner: Symbol)
      ensures Valid() && Model() == NewBook(retained) && this.owner == owner
    {
      this.owner := owner;
      bids, asks := map[], map[];
      retainedDepthLevels := if retained < 1 then 1 else retained;
      lastDepthEventTime, lastDepthIngestTime := None, None;
      lastFirstUpdateId, lastFinalUpdateId := None, None;
      depthSequenceGapCount := 0;
    }

    // The 64-bit gap counter cannot overflow: Valid() bounds it by half the last id.
    method Apply(update: DepthUpdate) returns (accepted: bool)
      requires Valid() && update.Valid()
      modifies this
      ensures Valid() && Model() == ApplyUpdate(old(Model()), update)
      ensures accepted <==> !IsStale(old(Model()), update)
    {
      ghost var before := Model();
      var stale := IsStaleOrDuplicate(update);
      if !stale {
        ApplyAccepted(update);
      }
      GapsStayPaidFor(before, update);
      accepted := !stale;
    }

    method ApplyAccepted(update: DepthUpdate)
      requires !IsStale(Model(), update)
      requires depthSequenceGapCount < U64_MAX
      modifies this
      ensures Model() == ApplyUpdate(old(Model()), update)
    {
      var gap := DetectsGap(update);
      if gap {
        depthSequenceGapCount := depthSequenceGapCount + 1;
      }
      ApplySides(update.bids, update.asks);
      lastDepthEventTime := Some(update.eventTime);
      lastDepthIngestTime := Some(update.ingestTime);
      RecordUpdateIds(update);
    }

    // Both sides edited, then both trimmed.
    method ApplySides(bidLevels: seq<DepthLevel>, askLevels: seq<DepthLevel>)
      modifies `bids, `asks
      ensures bids == TopN(LowestPrice, ApplyLevels(old(bids), bidLevels), retainedDepthLevels)
      ensures asks == TopN(HighestPrice, ApplyLevels(old(asks), askLevels), retainedDepthLevels)
    {
      bids := EditSide(bids, bidLevels);
      asks := EditSide(asks, askLevels);
      bids := TrimSide(bids, retainedDepthLevels, LowestPrice);
      asks := TrimSide(asks, retainedDepthLevels, HighestPrice);
    }

    method IsStaleOrDuplicate(update: DepthUpdate) returns (stale: bool)
      ensures stale <==> IsStale(Model(), update)
    {
      if lastFinalUpdateId.None? {
        return false;
      }
      if update.firstUpdateId.None? {
        return false;
      }
      return update.finalUpdateId.Some? && update.finalUpdateId.value <= lastFinalUpdateId.value;
    }

    method DetectsGap(update: DepthUpdate) returns (gap: bool)
      ensures gap <==> HasSequenceGap(Model(), update)
    {
      if lastFinalUpdateId.None? || update.firstUpdateId.None? || update.finalUpdateId.None? {
        return false;
      }
      if lastFinalUpdateId.value == U64_MAX {
        return false;
      }
      var expectedNext: U64 := lastFinalUpdateId.value + 1;
      return update.firstUpdateId.value > expectedNext;
    }

    method RecordUpdateIds(update: DepthUpdate)
      modifies `lastFirstUpdateId, `lastFinalUpdateId
      ensures lastFirstUpdateId == RecordedFirst(old(Model()), update)
      ensures lastFinalUpdateId == RecordedFinal(old(Model()), update)
    {
      match (update.firstUpdateId, update.finalUpdateId)
      case (Some(first), Some(final)) =>
        lastFirstUpdateId := Some(first);
        lastFinalUpdateId := Some(final);
      case (Some(first), None) =>
        if lastFirstUpdateId.None? || first >= lastFirstUpdateId.value {
          lastFirstUpdateId := Some(first);
        }
      case (None, Some(final)) =>
        if lastFinalUpdateId.None? || final >= lastFinalUpdateId.value {
          lastFinalUpdateId := Some(final);
        }
      case (None, None) =>
    }

    method TakeSnapshot() returns (snapshot: Snapshot)
      ensures snapshot == SnapshotOf(Model())
    {
      var bid, ask := Liquidity(bids), Liquidity(asks);
      var bestBid, bestAsk := Best(LowestPrice, bids), Best(HighestPrice, asks);
      snapshot := Snapshot(
        PriceOf(bestBid), QuantityOf(bestBid), PriceOf(bestAsk), QuantityOf(bestAsk),
        bid, ask, Imbalance(bid, ask),
        lastDepthEventTime, lastDepthIngestTime, lastFirstUpdateId, lastFinalUpdateId,
        depthSequenceGapCount);
    }
  }

  // One side's levels applied in order.
  method EditSide(side: Side, levels: seq<DepthLevel>) returns (edited: Side)
    ensures edited == ApplyLevels(side, levels)
  {
    edited := side;
    for i := 0 to |levels|
      invariant edited == ApplyLevels(side, levels[..i])
    {
      assert levels[..i + 1][..i] == levels[..i];
      edited := ApplyLevel(edited, levels[i]);
    }
    assert levels[..|levels|] == levels;
  }
}
