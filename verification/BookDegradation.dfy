// How a trimmed side of the book relates to the untrimmed side it stands in for.  Trimming alone loses
// nothing from the top; only deleting a retained price costs one level of depth, because the level
// that should move up was thrown away earlier.
module BookDegradation {
  import opened Domain
  import opened BookSide
  import opened Books

  // The levels of one side, one entry per accepted update.
  type SideFeed = seq<seq<DepthLevel>>

  function Untrimmed(feed: SideFeed): Side {
    if feed == [] then map[]
    else ApplyLevels(Untrimmed(feed[..|feed| - 1]), feed[|feed| - 1])
  }

  function Retained(x: TrimExtreme, n: nat, feed: SideFeed): Side {
    if feed == [] then map[]
    else TopN(x, ApplyLevels(Retained(x, n, feed[..|feed| - 1]), feed[|feed| - 1]), n)
  }

  predicate Hits(side: Side, level: DepthLevel) {
    level.quantity == 0.0 && level.price in side
  }

  // Deletions that find their price on the side they are applied to.
  function HitCount(side: Side, levels: seq<DepthLevel>): nat {
    if levels == [] then 0
    else
      var front, last := levels[..|levels| - 1], levels[|levels| - 1];
      HitCount(side, front) + if Hits(ApplyLevels(side, front), last) then 1 else 0
  }

  function Losses(x: TrimExtreme, n: nat, feed: SideFeed): nat {
    if feed == [] then 0
    else
      var front := feed[..|feed| - 1];
      Losses(x, n, front) + HitCount(Retained(x, n, front), feed[|feed| - 1])
  }

  function ZeroLevels(levels: seq<DepthLevel>): nat {
    if levels == [] then 0
    else ZeroLevels(levels[..|levels| - 1]) + if levels[|levels| - 1].quantity == 0.0 then 1 else 0
  }

  function Deletions(feed: SideFeed): nat {
    if feed == [] then 0 else Deletions(feed[..|feed| - 1]) + ZeroLevels(feed[|feed| - 1])
  }

  // kept agrees with full wherever it has a price, and has every price ranked better than k.
  ghost predicate Tracks(x: TrimExtreme, full: Side, kept: Side, k: int) {
    && Submap(kept, full)
    && forall p :: p in full && |Ahead(x, full.Keys, p)| < k ==> p in kept
  }

  lemma SubmapKeys(a: Side, b: Side)
    requires Submap(a, b)
    ensures a.Keys <= b.Keys
    ensures b == map[] ==> a == map[]
  {
    forall p | p in a.Keys
      ensures p in b.Keys
    {
      assert p in a;
    }
  }

  lemma TracksInsertion(x: TrimExtreme, full: Side, kept: Side, k: int, level: DepthLevel)
    requires Tracks(x, full, kept, k) && level.quantity != 0.0
    ensures Tracks(x, ApplyLevel(full, level), ApplyLevel(kept, level), k)
  {
    var full', kept' := ApplyLevel(full, level), ApplyLevel(kept, level);
    forall p | p in full' && |Ahead(x, full'.Keys, p)| < k
      ensures p in kept'
    {
      if p != level.price {
        assert Ahead(x, full.Keys, p) <= Ahead(x, full'.Keys, p);
        SubsetSize(Ahead(x, full.Keys, p), Ahead(x, full'.Keys, p));
      }
    }
  }

  lemma TracksDeletion(x: TrimExtreme, full: Side, kept: Side, k: int, price: real)
    requires Tracks(x, full, kept, k)
    ensures Tracks(x, full - {price}, kept - {price}, if price in kept then k - 1 else k)
  {
    var k' := if price in kept then k - 1 else k;
    var s, s' := full.Keys, full.Keys - {price};
    assert (full - {price}).Keys == s';
    forall p | p in s' && |Ahead(x, s', p)| < k'
      ensures p in kept
    {
      RankAfterRemoval(x, s, price, p);
      if price in s && price !in kept {
        assert |Ahead(x, s, price)| >= k;
        if Better(x, price, p) {
          BetterMeansLowerRank(x, s, price, p);
        }
      }
    }
  }

  lemma RankAfterRemoval(x: TrimExtreme, s: set<real>, price: real, p: real)
    requires p in s && p != price
    ensures price in s && Better(x, price, p) ==> |Ahead(x, s, p)| == |Ahead(x, s - {price}, p)| + 1
    ensures !(price in s && Better(x, price, p)) ==> Ahead(x, s, p) == Ahead(x, s - {price}, p)
  {
    if price in s && Better(x, price, p) {
      assert Ahead(x, s, p) == Ahead(x, s - {price}, p) + {price};
    }
  }

  lemma TracksTrimming(x: TrimExtreme, full: Side, kept: Side, k: int, n: nat)
    requires Tracks(x, full, kept, k) && k <= n
    ensures Tracks(x, full, TopN(x, kept, n), k)
  {
    forall p | p in full && |Ahead(x, full.Keys, p)| < k
      ensures p in TopN(x, kept, n)
    {
      assert Ahead(x, kept.Keys, p) <= Ahead(x, full.Keys, p);
      SubsetSize(Ahead(x, kept.Keys, p), Ahead(x, full.Keys, p));
    }
  }

  lemma {:induction false} TracksLevels(x: TrimExtreme, full: Side, kept: Side, k: int, levels: seq<DepthLevel>)
    requires Tracks(x, full, kept, k)
    ensures Tracks(x, ApplyLevels(full, levels), ApplyLevels(kept, levels), k - HitCount(kept, levels))
  {
    if levels != [] {
      var front, last := levels[..|levels| - 1], levels[|levels| - 1];
      TracksLevels(x, full, kept, k, front);
      var full', kept', k' := ApplyLevels(full, front), ApplyLevels(kept, front), k - HitCount(kept, front);
      if last.quantity == 0.0 {
        TracksDeletion(x, full', kept', k', last.price);
      } else {
        TracksInsertion(x, full', kept', k', last);
      }
    }
  }

  lemma {:induction false} RetainedTracks(x: TrimExtreme, n: nat, feed: SideFeed)
    ensures Tracks(x, Untrimmed(feed), Retained(x, n, feed), n - Losses(x, n, feed))
  {
    if feed != [] {
      var front, last := feed[..|feed| - 1], feed[|feed| - 1];
      RetainedTracks(x, n, front);
      var k := n - Losses(x, n, front);
      TracksLevels(x, Untrimmed(front), Retained(x, n, front), k, last);
      TracksTrimming(x, Untrimmed(feed), ApplyLevels(Retained(x, n, front), last), n - Losses(x, n, feed), n);
    }
  }

  lemma {:induction false} HitsAreZeroLevels(side: Side, levels: seq<DepthLevel>)
    ensures HitCount(side, levels) <= ZeroLevels(levels)
  {
    if levels != [] {
      HitsAreZeroLevels(side, levels[..|levels| - 1]);
    }
  }

  lemma {:induction false} LossesAreDeletions(x: TrimExtreme, n: nat, feed: SideFeed)
    ensures Losses(x, n, feed) <= Deletions(feed)
  {
    if feed != [] {
      var front := feed[..|feed| - 1];
      LossesAreDeletions(x, n, front);
      HitsAreZeroLevels(Retained(x, n, front), feed[|feed| - 1]);
    }
  }

  // The better of two best prices: tracking down to rank one pins the top of the side.
  lemma TracksBest(x: TrimExtreme, full: Side, kept: Side, k: int)
    requires Tracks(x, full, kept, k) && k > 0
    ensures Best(x, kept) == Best(x, full)
  {
    if full == map[] {
      SubmapKeys(kept, full);
    } else {
      var p := Best(x, full).value.0;
      assert p in kept;
      assert Ahead(x, kept.Keys, p) <= Ahead(x, full.Keys, p);
      BestIsUnique(x, kept, p);
    }
  }

  // ----- The two sides of a book -----

  function SideOf(x: TrimExtreme, book: Book): Side {
    if x.LowestPrice? then book.bids else book.asks
  }

  function LevelsOf(x: TrimExtreme, update: DepthUpdate): seq<DepthLevel> {
    if x.LowestPrice? then update.bids else update.asks
  }

  function Width(retained: nat): nat {
    if retained < 1 then 1 else retained
  }

  // What the accepted updates of a feed do to one side.
  function AcceptedLevels(x: TrimExtreme, retained: nat, feed: seq<DepthUpdate>): SideFeed {
    if feed == [] then []
    else
      var front, last := feed[..|feed| - 1], feed[|feed| - 1];
      AcceptedLevels(x, retained, front)
      + if IsStale(BookAfter(retained, front), last) then [] else [LevelsOf(x, last)]
  }

  lemma {:induction false} BookSideIsRetained(x: TrimExtreme, retained: nat, feed: seq<DepthUpdate>)
    ensures BookAfter(retained, feed).retained == Width(retained)
    ensures SideOf(x, BookAfter(retained, feed)) == Retained(x, Width(retained), AcceptedLevels(x, retained, feed))
  {
    if feed != [] {
      var front, last := feed[..|feed| - 1], feed[|feed| - 1];
      BookSideIsRetained(x, retained, front);
      var before := AcceptedLevels(x, retained, front);
      if IsStale(BookAfter(retained, front), last) {
        assert before + [] == before;
      } else {
        assert (before + [LevelsOf(x, last)])[..|before|] == before;
      }
    }
  }

  // kept stands in for full with at most n levels, d of them lost: it is a part of full, it contains the
  // best n - d levels, with no loss it is exactly the top n, and the best price is exact while d < n.
  ghost predicate Degraded(x: TrimExtreme, full: Side, kept: Side, n: nat, d: nat) {
    && Submap(kept, full) && |kept| <= n
    && (d <= n ==> Submap(TopN(x, full, n - d), kept))
    && (d == 0 ==> kept == TopN(x, full, n))
    && (d < n ==> Best(x, kept) == Best(x, full))
  }

  lemma TracksAllOfTheTop(x: TrimExtreme, full: Side, kept: Side, n: nat)
    requires Tracks(x, full, kept, n) && |kept| <= n
    ensures kept == TopN(x, full, n)
  {
    var top := TopN(x, full, n);
    assert top.Keys <= kept.Keys;
    TopNSize(x, full, n);
    SubmapKeys(kept, full);
    SubsetSize(kept.Keys, full.Keys);
    SubsetSize(top.Keys, kept.Keys);
    assert |top| == |top.Keys| && |kept| == |kept.Keys| && |full| == |full.Keys|;
  }

  lemma TracksMeansDegraded(x: TrimExtreme, full: Side, kept: Side, n: nat, d: nat)
    requires Tracks(x, full, kept, n - d) && |kept| <= n
    ensures Degraded(x, full, kept, n, d)
  {
    hide Best;
    if d < n { TracksBest(x, full, kept, n - d); }
    if d == 0 { TracksAllOfTheTop(x, full, kept, n); }
    if d <= n {
      forall p | p in TopN(x, full, n - d)
        ensures p in kept && TopN(x, full, n - d)[p] == kept[p]
      {
      }
    }
  }

  lemma RetainedSize(x: TrimExtreme, n: nat, feed: SideFeed)
    ensures |Retained(x, n, feed)| <= n
  {
    if feed != [] {
      TopNSize(x, ApplyLevels(Retained(x, n, feed[..|feed| - 1]), feed[|feed| - 1]), n);
    }
  }

  // After any feed each side of the book is the untrimmed side degraded by the deletions that hit a
  // retained price.
  lemma TopLevelsSurvive(x: TrimExtreme, retained: nat, feed: seq<DepthUpdate>)
    ensures var levels := AcceptedLevels(x, retained, feed);
            Degraded(x, Untrimmed(levels), SideOf(x, BookAfter(retained, feed)),
                     Width(retained), Losses(x, Width(retained), levels))
  {
    hide Degraded, Tracks, SideOf, Retained, Untrimmed, Losses, Deletions, AcceptedLevels, BookAfter;
    var n, levels := Width(retained), AcceptedLevels(x, retained, feed);
    BookSideIsRetained(x, retained, feed);
    RetainedTracks(x, n, levels);
    RetainedSize(x, n, levels);
    TracksMeansDegraded(x, Untrimmed(levels), Retained(x, n, levels), n, Losses(x, n, levels));
  }

  // Those are at most the zero-quantity levels applied, so the same holds with d counted on the feed.
  lemma TopLevelsSurviveDeletions(x: TrimExtreme, retained: nat, feed: seq<DepthUpdate>)
    ensures var levels := AcceptedLevels(x, retained, feed);
            Degraded(x, Untrimmed(levels), SideOf(x, BookAfter(retained, feed)), Width(retained), Deletions(levels))
  {
    hide Degraded, Tracks, SideOf, Retained, Untrimmed, Losses, Deletions, AcceptedLevels, BookAfter;
    var n, levels := Width(retained), AcceptedLevels(x, retained, feed);
    BookSideIsRetained(x, retained, feed);
    RetainedTracks(x, n, levels);
    RetainedSize(x, n, levels);
    LossesAreDeletions(x, n, levels);
    TracksLess(x, Untrimmed(levels), Retained(x, n, levels), n - Losses(x, n, levels), n - Deletions(levels));
    TracksMeansDegraded(x, Untrimmed(levels), Retained(x, n, levels), n, Deletions(levels));
  }

  lemma TracksLess(x: TrimExtreme, full: Side, kept: Side, k: int, less: int)
    requires Tracks(x, full, kept, k) && less <= k
    ensures Tracks(x, full, kept, less)
  {
  }

  // The prices of a side above p, and those below it.
  function Above(side: Side, p: real): set<real> {
    set q | q in side && q > p
  }

  function Below(side: Side, p: real): set<real> {
    set q | q in side && q < p
  }

  // In prices.  A bid missing from the book has at least N - d bids above it, and with no loss it is below
  // every bid kept; the best bid is the highest of the untrimmed side while d < N.  Asks mirror this.
  lemma BestPricesSurvive(retained: nat, feed: seq<DepthUpdate>)
    ensures var book, n := BookAfter(retained, feed), Width(retained);
            var levels := AcceptedLevels(LowestPrice, retained, feed);
            var bids, d := Untrimmed(levels), Losses(LowestPrice, n, levels);
            && Submap(book.bids, bids) && |book.bids| <= n
            && (forall p :: p in bids && p !in book.bids ==> |Above(bids, p)| >= n - d)
            && (d == 0 ==> forall p, q :: p in book.bids && q in bids && q !in book.bids ==> p > q)
            && (d < n ==> IsHighest(bids, SnapshotOf(book).bestBidPrice, SnapshotOf(book).bestBidQuantity))
    ensures var book, n := BookAfter(retained, feed), Width(retained);
            var levels := AcceptedLevels(HighestPrice, retained, feed);
            var asks, d := Untrimmed(levels), Losses(HighestPrice, n, levels);
            && Submap(book.asks, asks) && |book.asks| <= n
            && (forall p :: p in asks && p !in book.asks ==> |Below(asks, p)| >= n - d)
            && (d == 0 ==> forall p, q :: p in book.asks && q in asks && q !in book.asks ==> p < q)
            && (d < n ==> IsLowest(asks, SnapshotOf(book).bestAskPrice, SnapshotOf(book).bestAskQuantity))
  {
    hide Degraded, Untrimmed, Losses, AcceptedLevels, BookAfter, Liquidity, Imbalance, Submap;
    var book, n := BookAfter(retained, feed), Width(retained);
    TopLevelsSurvive(LowestPrice, retained, feed);
    TopLevelsSurvive(HighestPrice, retained, feed);
    var bidLevels, askLevels := AcceptedLevels(LowestPrice, retained, feed), AcceptedLevels(HighestPrice, retained, feed);
    DegradedBids(Untrimmed(bidLevels), book.bids, n, Losses(LowestPrice, n, bidLevels));
    DegradedAsks(Untrimmed(askLevels), book.asks, n, Losses(HighestPrice, n, askLevels));
  }

  lemma DegradedBids(full: Side, kept: Side, n: nat, d: nat)
    requires Degraded(LowestPrice, full, kept, n, d)
    ensures Submap(kept, full) && |kept| <= n
    ensures forall p :: p in full && p !in kept ==> |Above(full, p)| >= n - d
    ensures d == 0 ==> forall p, q :: p in kept && q in full && q !in kept ==> p > q
    ensures d < n ==> var best := Best(LowestPrice, kept); IsHighest(full, PriceOf(best), QuantityOf(best))
  {
    hide Best;
    forall p | p in full && p !in kept
      ensures |Above(full, p)| >= n - d
    {
      assert Above(full, p) == Ahead(LowestPrice, full.Keys, p);
      if d <= n { assert p !in TopN(LowestPrice, full, n - d); }
    }
    TopNKeepsBestPrices(LowestPrice, full, n);
    BestInPrices(full);
  }

  lemma DegradedAsks(full: Side, kept: Side, n: nat, d: nat)
    requires Degraded(HighestPrice, full, kept, n, d)
    ensures Submap(kept, full) && |kept| <= n
    ensures forall p :: p in full && p !in kept ==> |Below(full, p)| >= n - d
    ensures d == 0 ==> forall p, q :: p in kept && q in full && q !in kept ==> p < q
    ensures d < n ==> var best := Best(HighestPrice, kept); IsLowest(full, PriceOf(best), QuantityOf(best))
  {
    hide Best;
    forall p | p in full && p !in kept
      ensures |Below(full, p)| >= n - d
    {
      assert Below(full, p) == Ahead(HighestPrice, full.Keys, p);
      if d <= n { assert p !in TopN(HighestPrice, full, n - d); }
    }
    TopNKeepsBestPrices(HighestPrice, full, n);
    BestInPrices(full);
  }

  // The quantity in the book is that of the last accepted level at its price: the j-th of the i-th accepted
  // update if nothing at that price follows.  A price whose last level has quantity zero is absent.
  lemma BookShowsLastQuantity(x: TrimExtreme, retained: nat, feed: seq<DepthUpdate>, i: nat, j: nat)
    requires var levels := AcceptedLevels(x, retained, feed);
             && i < |levels| && j < |levels[i]|
             && (forall k :: j < k < |levels[i]| ==> levels[i][k].price != levels[i][j].price)
             && forall k :: i < k < |levels| ==> !Touches(levels[k], levels[i][j].price)
    ensures var level := AcceptedLevels(x, retained, feed)[i][j];
            var kept := SideOf(x, BookAfter(retained, feed));
            level.price in kept ==> kept[level.price] == level.quantity != 0.0
  {
    var levels := AcceptedLevels(x, retained, feed);
    BookSideIsRetained(x, retained, feed);
    RetainedTracks(x, Width(retained), levels);
    LastQuantityStays(levels, i, j);
  }

  lemma {:induction false} LastQuantityStays(feed: SideFeed, i: nat, j: nat)
    requires i < |feed| && j < |feed[i]|
    requires forall k :: j < k < |feed[i]| ==> feed[i][k].price != feed[i][j].price
    requires forall k :: i < k < |feed| ==> !Touches(feed[k], feed[i][j].price)
    ensures var level := feed[i][j];
            if level.quantity == 0.0 then level.price !in Untrimmed(feed)
            else level.price in Untrimmed(feed) && Untrimmed(feed)[level.price] == level.quantity
  {
    var front, last := feed[..|feed| - 1], feed[|feed| - 1];
    if i < |front| {
      assert forall k :: 0 <= k < |front| ==> front[k] == feed[k];
      LastQuantityStays(front, i, j);
      OtherPricesStay(Untrimmed(front), last, feed[i][j].price);
    } else {
      LastLevelWins(Untrimmed(front), last, j);
    }
  }

  // ----- Recovery -----

  // The depth down to which the kept side agrees with the full one, after one more level: a deletion that
  // hits costs one, and quoting a price the kept side lacks, at most that deep, wins one back.
  function DepthAfterLevel(x: TrimExtreme, full: Side, kept: Side, k: int, level: DepthLevel): int {
    if Hits(kept, level) then k - 1
    else if level.quantity != 0.0 && level.price !in kept && |Ahead(x, full.Keys, level.price)| <= k then k + 1
    else k
  }

  function DepthAfterLevels(x: TrimExtreme, full: Side, kept: Side, k: int, levels: seq<DepthLevel>): int {
    if levels == [] then k
    else
      var front, last := levels[..|levels| - 1], levels[|levels| - 1];
      DepthAfterLevel(x, ApplyLevels(full, front), ApplyLevels(kept, front),
                      DepthAfterLevels(x, full, kept, k, front), last)
  }

  // Trimming caps the depth at N.
  function TrackedDepth(x: TrimExtreme, n: nat, feed: SideFeed): (k: int)
    ensures k <= n
  {
    if feed == [] then n
    else
      var front := feed[..|feed| - 1];
      var k := DepthAfterLevels(x, Untrimmed(front), Retained(x, n, front), TrackedDepth(x, n, front), feed[|feed| - 1]);
      if k > n then n else k
  }

  lemma TracksNewPrice(x: TrimExtreme, full: Side, kept: Side, k: int, level: DepthLevel)
    requires Tracks(x, full, kept, k) && level.quantity != 0.0
    requires level.price !in kept && |Ahead(x, full.Keys, level.price)| <= k
    ensures Tracks(x, ApplyLevel(full, level), ApplyLevel(kept, level), k + 1)
  {
    var full', kept', price := ApplyLevel(full, level), ApplyLevel(kept, level), level.price;
    assert full'.Keys == full.Keys + {price};
    forall p | p in full' && |Ahead(x, full'.Keys, p)| < k + 1
      ensures p in kept'
    {
      if p != price {
        if Better(x, p, price) {
          BetterMeansLowerRank(x, full.Keys, p, price);
        } else if price in full {
          assert full'.Keys == full.Keys;
          BetterMeansLowerRank(x, full.Keys, price, p);
        } else {
          RankAfterRemoval(x, full'.Keys, price, p);
          assert full'.Keys - {price} == full.Keys;
        }
      }
    }
  }

  lemma {:induction false} TracksLevelsDepth(
    x: TrimExtreme, full: Side, kept: Side, k: int, levels: seq<DepthLevel>)
    requires Tracks(x, full, kept, k)
    ensures Tracks(x, ApplyLevels(full, levels), ApplyLevels(kept, levels), DepthAfterLevels(x, full, kept, k, levels))
  {
    if levels != [] {
      var front, last := levels[..|levels| - 1], levels[|levels| - 1];
      TracksLevelsDepth(x, full, kept, k, front);
      var full', kept' := ApplyLevels(full, front), ApplyLevels(kept, front);
      var k' := DepthAfterLevels(x, full, kept, k, front);
      if last.quantity == 0.0 {
        TracksDeletion(x, full', kept', k', last.price);
      } else if last.price !in kept' && |Ahead(x, full'.Keys, last.price)| <= k' {
        TracksNewPrice(x, full', kept', k', last);
      } else {
        TracksInsertion(x, full', kept', k', last);
      }
    }
  }

  lemma {:induction false} RetainedTracksDepth(x: TrimExtreme, n: nat, feed: SideFeed)
    ensures Tracks(x, Untrimmed(feed), Retained(x, n, feed), TrackedDepth(x, n, feed))
  {
    if feed != [] {
      var front, last := feed[..|feed| - 1], feed[|feed| - 1];
      RetainedTracksDepth(x, n, front);
      var full, kept, k := Untrimmed(front), Retained(x, n, front), TrackedDepth(x, n, front);
      TracksLevelsDepth(x, full, kept, k, last);
      var k' := DepthAfterLevels(x, full, kept, k, last);
      TracksLess(x, Untrimmed(feed), ApplyLevels(kept, last), k', TrackedDepth(x, n, feed));
      TracksTrimming(x, Untrimmed(feed), ApplyLevels(kept, last), TrackedDepth(x, n, feed), n);
    }
  }

  lemma {:induction false} DepthLosesOnlyHits(x: TrimExtreme, full: Side, kept: Side, k: int, levels: seq<DepthLevel>)
    ensures DepthAfterLevels(x, full, kept, k, levels) >= k - HitCount(kept, levels)
  {
    if levels != [] { DepthLosesOnlyHits(x, full, kept, k, levels[..|levels| - 1]); }
  }

  lemma {:induction false} DepthIsSharper(x: TrimExtreme, n: nat, feed: SideFeed)
    ensures TrackedDepth(x, n, feed) >= n - Losses(x, n, feed)
  {
    if feed != [] {
      var front := feed[..|feed| - 1];
      DepthIsSharper(x, n, front);
      DepthLosesOnlyHits(x, Untrimmed(front), Retained(x, n, front), TrackedDepth(x, n, front), feed[|feed| - 1]);
    }
  }

  // A loss is not for ever: each side agrees with the untrimmed one down to a depth that falls by one
  // with each deletion that hits and rises by one, up to N, with each price newly quoted within it.
  lemma TopLevelsRecover(x: TrimExtreme, retained: nat, feed: seq<DepthUpdate>)
    ensures var n, levels := Width(retained), AcceptedLevels(x, retained, feed);
            && Degraded(x, Untrimmed(levels), SideOf(x, BookAfter(retained, feed)), n, n - TrackedDepth(x, n, levels))
            && n - TrackedDepth(x, n, levels) <= Losses(x, n, levels)
  {
    hide Degraded, Tracks, SideOf, Retained, Untrimmed, Losses, AcceptedLevels, BookAfter, TrackedDepth;
    var n, levels := Width(retained), AcceptedLevels(x, retained, feed);
    BookSideIsRetained(x, retained, feed);
    RetainedTracksDepth(x, n, levels);
    RetainedSize(x, n, levels);
    DepthIsSharper(x, n, levels);
    TracksMeansDegraded(x, Untrimmed(levels), Retained(x, n, levels), n, n - TrackedDepth(x, n, levels));
  }

  // ----- The exact set of missing prices -----

  predicate Touches(levels: seq<DepthLevel>, p: real) {
    exists i :: 0 <= i < |levels| && levels[i].price == p
  }

  // Trimming after the i-th accepted update threw p away.
  predicate TrimmedAt(x: TrimExtreme, n: nat, feed: SideFeed, i: nat, p: real)
    requires i < |feed|
  {
    p in ApplyLevels(Retained(x, n, feed[..i]), feed[i]) && p !in Retained(x, n, feed[..i + 1])
  }

  // ... and no later accepted update has a level at p.
  predicate StaysTrimmed(x: TrimExtreme, n: nat, feed: SideFeed, i: nat, p: real)
    requires i < |feed|
  {
    TrimmedAt(x, n, feed, i, p) && forall j :: i < j < |feed| ==> !Touches(feed[j], p)
  }

  predicate TrimmedSinceTouched(x: TrimExtreme, n: nat, feed: SideFeed, p: real) {
    exists i :: 0 <= i < |feed| && StaysTrimmed(x, n, feed, i, p)
  }

  // Once a price is touched, its presence depends on the levels alone, not on the side before.
  lemma {:induction false} LevelsOnThePrice(a: Side, b: Side, levels: seq<DepthLevel>, p: real)
    requires Touches(levels, p)
    ensures p in ApplyLevels(a, levels) <==> p in ApplyLevels(b, levels)
  {
    var front, last := levels[..|levels| - 1], levels[|levels| - 1];
    if last.price != p {
      var i :| 0 <= i < |levels| && levels[i].price == p;
      assert front[i] == levels[i];
      LevelsOnThePrice(a, b, front, p);
    }
  }

  lemma StaysTrimmedStep(x: TrimExtreme, n: nat, feed: SideFeed, i: nat, p: real)
    requires i < |feed| - 1
    ensures StaysTrimmed(x, n, feed, i, p)
            <==> StaysTrimmed(x, n, feed[..|feed| - 1], i, p) && !Touches(feed[|feed| - 1], p)
  {
    var front := feed[..|feed| - 1];
    assert front[..i] == feed[..i] && front[..i + 1] == feed[..i + 1] && front[i] == feed[i];
    if StaysTrimmed(x, n, front, i, p) && !Touches(feed[|feed| - 1], p) {
      forall j | i < j < |feed|
        ensures !Touches(feed[j], p)
      {
        assert j < |front| ==> front[j] == feed[j];
      }
    }
  }

  lemma TrimmedSinceStep(x: TrimExtreme, n: nat, feed: SideFeed, p: real)
    requires feed != []
    ensures var last := |feed| - 1;
            TrimmedSinceTouched(x, n, feed, p) <==>
            (TrimmedAt(x, n, feed, last, p)
             || (TrimmedSinceTouched(x, n, feed[..last], p) && !Touches(feed[last], p)))
  {
    var last := |feed| - 1;
    assert StaysTrimmed(x, n, feed, last, p) <==> TrimmedAt(x, n, feed, last, p);
    forall i | 0 <= i < last
      ensures StaysTrimmed(x, n, feed, i, p)
              <==> StaysTrimmed(x, n, feed[..last], i, p) && !Touches(feed[last], p)
    {
      StaysTrimmedStep(x, n, feed, i, p);
    }
  }

  // A price of the untrimmed side is missing from the retained one exactly when it was trimmed after
  // its last level update.
  lemma {:induction false} MissingExactlyWhenTrimmed(x: TrimExtreme, n: nat, feed: SideFeed, p: real)
    ensures p in Untrimmed(feed) && p !in Retained(x, n, feed) <==> TrimmedSinceTouched(x, n, feed, p)
  {
    if feed != [] {
      var last := |feed| - 1;
      var front, levels := feed[..last], feed[last];
      MissingExactlyWhenTrimmed(x, n, front, p);
      TrimmedSinceStep(x, n, feed, p);
      RetainedTracks(x, n, front);
      RetainedTracks(x, n, feed);
      if Touches(levels, p) {
        LevelsOnThePrice(Untrimmed(front), Retained(x, n, front), levels, p);
      } else {
        OtherPricesStay(Untrimmed(front), levels, p);
        OtherPricesStay(Retained(x, n, front), levels, p);
      }
      assert feed[..last + 1] == feed;
    }
  }

  lemma MissingFromTheBook(x: TrimExtreme, retained: nat, feed: seq<DepthUpdate>, p: real)
    ensures var levels := AcceptedLevels(x, retained, feed);
            p in Untrimmed(levels) && p !in SideOf(x, BookAfter(retained, feed))
            <==> TrimmedSinceTouched(x, Width(retained), levels, p)
  {
    BookSideIsRetained(x, retained, feed);
    MissingExactlyWhenTrimmed(x, Width(retained), AcceptedLevels(x, retained, feed), p);
  }

  // The retained side is the top N exactly when none of the N best prices was trimmed since its last
  // level update.
  lemma TopNExactlyWhen(x: TrimExtreme, retained: nat, feed: seq<DepthUpdate>)
    ensures var n, levels := Width(retained), AcceptedLevels(x, retained, feed);
            var kept, full := SideOf(x, BookAfter(retained, feed)), Untrimmed(levels);
            kept == TopN(x, full, n)
            <==> forall p :: p in full && |Ahead(x, full.Keys, p)| < n ==> !TrimmedSinceTouched(x, n, levels, p)
  {
    hide TrimmedSinceTouched;
    var n, levels := Width(retained), AcceptedLevels(x, retained, feed);
    var kept, full := Retained(x, n, levels), Untrimmed(levels);
    BookSideIsRetained(x, retained, feed);
    RetainedTracks(x, n, levels);
    RetainedSize(x, n, levels);
    forall p | p in full && |Ahead(x, full.Keys, p)| < n
      ensures p in kept <==> !TrimmedSinceTouched(x, n, levels, p)
    {
      MissingExactlyWhenTrimmed(x, n, levels, p);
    }
    if forall p :: p in full && |Ahead(x, full.Keys, p)| < n ==> p in kept {
      TracksAllOfTheTop(x, full, kept, n);
    } else {
      var p :| p in full && |Ahead(x, full.Keys, p)| < n && p !in kept;
      assert p in TopN(x, full, n);
    }
  }

  // ----- The bound is tight -----

  // m distinct prices, each quoted once.
  function Ladder(m: nat): (levels: seq<DepthLevel>)
    ensures |levels| == m
  {
    if m == 0 then [] else Ladder(m - 1) + [DepthLevel(m as real, 1.0)]
  }

  ghost predicate AllValid(levels: seq<DepthLevel>) {
    forall i :: 0 <= i < |levels| ==> levels[i].Valid()
  }

  lemma {:induction false} LadderSize(m: nat)
    ensures var side := ApplyLevels(map[], Ladder(m));
            |side| == m && forall p :: p in side ==> 0.0 < p <= m as real
    ensures AllValid(Ladder(m))
  {
    if m > 0 {
      LadderSize(m - 1);
      var side, level := ApplyLevels(map[], Ladder(m - 1)), DepthLevel(m as real, 1.0);
      assert Ladder(m)[..m - 1] == Ladder(m - 1);
      assert level.price !in side;
      assert ApplyLevel(side, level).Keys == side.Keys + {level.price};
    }
  }

  // kept is full without its worst price.
  ghost predicate LacksWorst(x: TrimExtreme, full: Side, kept: Side, gone: real) {
    kept.Keys == full.Keys - {gone} && IsWorst(x, full.Keys, gone)
  }

  lemma LacksWorstAfterCancel(x: TrimExtreme, full: Side, kept: Side, gone: real, level: DepthLevel)
    requires LacksWorst(x, full, kept, gone) && level.quantity == 0.0 && level.price in kept
    ensures LacksWorst(x, ApplyLevel(full, level), ApplyLevel(kept, level), gone)
  {
    var full', kept' := ApplyLevel(full, level), ApplyLevel(kept, level);
    assert full'.Keys == full.Keys - {level.price} && kept'.Keys == kept.Keys - {level.price};
    assert gone in full'.Keys;
  }

  // d cancellations that all hit, sparing the price kept lacks.
  lemma {:induction false} CancelSome(x: TrimExtreme, full: Side, kept: Side, gone: real, d: nat)
    returns (levels: seq<DepthLevel>)
    requires LacksWorst(x, full, kept, gone) && d <= |kept|
    requires forall p :: p in kept ==> p > 0.0
    ensures HitCount(kept, levels) == d && AllValid(levels)
    ensures LacksWorst(x, ApplyLevels(full, levels), ApplyLevels(kept, levels), gone)
    ensures |ApplyLevels(kept, levels)| == |kept| - d
    ensures forall p :: p in ApplyLevels(kept, levels) ==> p > 0.0
  {
    if d == 0 {
      levels := [];
    } else {
      var front := CancelSome(x, full, kept, gone, d - 1);
      var full', kept' := ApplyLevels(full, front), ApplyLevels(kept, front);
      var price := Pick(kept'.Keys);
      var last := DepthLevel(price, 0.0);
      levels := front + [last];
      assert levels[..|levels| - 1] == front;
      LacksWorstAfterCancel(x, full', kept', gone, last);
      assert (kept' - {price}).Keys == kept'.Keys - {price};
    }
  }

  lemma {:induction false} NoHitsOnAnEmptyLadder(m: nat)
    ensures HitCount(map[], Ladder(m)) == 0
  {
    if m > 0 {
      assert Ladder(m)[..m - 1] == Ladder(m - 1);
      NoHitsOnAnEmptyLadder(m - 1);
    }
  }

  lemma LadderLosesItsWorst(x: TrimExtreme, n: nat) returns (p: real)
    ensures var full := ApplyLevels(map[], Ladder(n + 1));
            |full| == n + 1 && LacksWorst(x, full, TopN(x, full, n), p) && |TopN(x, full, n)| == n
  {
    var full := ApplyLevels(map[], Ladder(n + 1));
    LadderSize(n + 1);
    assert full.Keys != {};
    p := WorstKey(x, full.Keys);
    var kept := full - {p};
    assert kept.Keys == full.Keys - {p};
    TopNDropsWorst(x, full, p, n);
    TopNSize(x, kept, n);
  }

  lemma FeedOfTwo(x: TrimExtreme, n: nat, first: seq<DepthLevel>, second: seq<DepthLevel>)
    ensures var feed := [first, second];
            var full, kept := ApplyLevels(map[], first), TopN(x, ApplyLevels(map[], first), n);
            && Untrimmed(feed) == ApplyLevels(full, second)
            && Retained(x, n, feed) == TopN(x, ApplyLevels(kept, second), n)
            && Losses(x, n, feed) == HitCount(map[], first) + HitCount(kept, second)
  {
    var feed := [first, second];
    var front := feed[..1];
    assert front == [first] && front[..0] == [];
    assert Untrimmed(front) == ApplyLevels(map[], first);
    assert Retained(x, n, front) == TopN(x, ApplyLevels(map[], first), n);
    assert Losses(x, n, front) == HitCount(map[], first);
  }

  // For every width n and every d <= n some feed of two updates loses exactly the level of rank
  // n - d: one level deeper than what TopLevelsSurvive promises.
  lemma DegradationIsTight(x: TrimExtreme, n: nat, d: nat) returns (feed: SideFeed, p: real)
    requires 1 <= n && d <= n
    ensures |feed| == 2 && AllValid(feed[0]) && AllValid(feed[1])
    ensures feed[0] != [] && (d > 0 ==> feed[1] != [])
    ensures Losses(x, n, feed) == d
    ensures p in Untrimmed(feed) && |Ahead(x, Untrimmed(feed).Keys, p)| == n - d
    ensures p !in Retained(x, n, feed)
  {
    p := LadderLosesItsWorst(x, n);
    var full := ApplyLevels(map[], Ladder(n + 1));
    var kept := TopN(x, full, n);
    LadderSize(n + 1);
    var cancels := CancelSome(x, full, kept, p, d);
    feed := [Ladder(n + 1), cancels];
    FeedOfTwo(x, n, Ladder(n + 1), cancels);
    NoHitsOnAnEmptyLadder(n + 1);
    TopNSize(x, ApplyLevels(kept, cancels), n);
    LacksWorstRank(x, ApplyLevels(full, cancels), ApplyLevels(kept, cancels), p);
  }

  lemma LacksWorstRank(x: TrimExtreme, full: Side, kept: Side, gone: real)
    requires LacksWorst(x, full, kept, gone)
    ensures gone in full && gone !in kept && |Ahead(x, full.Keys, gone)| == |kept|
  {
    assert Ahead(x, full.Keys, gone) == kept.Keys;
    assert |kept| == |kept.Keys|;
  }

  // An update without ids that touches one side.
  function OneSided(x: TrimExtreme, levels: seq<DepthLevel>): DepthUpdate {
    if x.LowestPrice? then DepthUpdate("", None, None, levels, [], 0, 0) else DepthUpdate("", None, None, [], levels, 0, 0)
  }

  lemma OneSidedFeed(x: TrimExtreme, n: nat, first: seq<DepthLevel>, second: seq<DepthLevel>)
    ensures AcceptedLevels(x, n, [OneSided(x, first), OneSided(x, second)]) == [first, second]
  {
    var feed := [OneSided(x, first), OneSided(x, second)];
    assert feed[..1] == [feed[0]] && feed[..1][..0] == [];
    assert AcceptedLevels(x, n, feed[..1]) == [] + [first];
  }

  // So it is for books: for every width n and every 1 <= d <= n two valid updates lead a book with d
  // losses to a side that lacks the level of rank n - d, hence is not the top n.
  lemma BookDegradesTightly(x: TrimExtreme, n: nat, d: nat) returns (feed: seq<DepthUpdate>, p: real)
    requires 1 <= d <= n
    ensures ValidFeed(feed) && |feed| == 2
    ensures var levels := AcceptedLevels(x, n, feed);
            var full, kept := Untrimmed(levels), SideOf(x, BookAfter(n, feed));
            && Losses(x, n, levels) == d
            && p in full && |Ahead(x, full.Keys, p)| == n - d && p !in kept
            && kept != TopN(x, full, n)
  {
    var levels;
    levels, p := DegradationIsTight(x, n, d);
    feed := [OneSided(x, levels[0]), OneSided(x, levels[1])];
    OneSidedFeed(x, n, levels[0], levels[1]);
    assert levels == [levels[0], levels[1]];
    BookSideIsRetained(x, n, feed);
    assert p in TopN(x, Untrimmed(levels), n);
  }
}
