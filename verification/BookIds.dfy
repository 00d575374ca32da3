// Update ids over whole feeds: the last id only grows, every counted gap is paid for by that growth,
// the counted gaps account for every id nobody covered, and replaying history changes nothing.
module BookIds {
  import opened Domain
  import opened BookSide
  import opened Books

  lemma {:induction false} FeedKeepsInvariant(n: nat, feed: seq<DepthUpdate>)
    requires ValidFeed(feed)
    ensures BookInvariant(BookAfter(n, feed))
  {
    if feed != [] {
      FeedKeepsInvariant(n, feed[..|feed| - 1]);
      UpdateKeepsInvariant(BookAfter(n, feed[..|feed| - 1]), feed[|feed| - 1]);
    }
  }

  lemma AfterAppend(n: nat, feed: seq<DepthUpdate>, update: DepthUpdate)
    ensures BookAfter(n, feed + [update]) == ApplyUpdate(BookAfter(n, feed), update)
  {
    assert (feed + [update])[..|feed|] == feed;
  }

  // The counter never outgrows half the last id, so a 64-bit counter never overflows.
  lemma {:induction false} GapCountNeverOverflows(n: nat, feed: seq<DepthUpdate>)
    requires ValidFeed(feed)
    ensures BookAfter(n, feed).lastFinalUpdateId.Some? ==>
              2 * BookAfter(n, feed).gapCount <= BookAfter(n, feed).lastFinalUpdateId.value
    ensures BookAfter(n, feed).lastFinalUpdateId.None? ==> BookAfter(n, feed).gapCount == 0
    ensures 2 * BookAfter(n, feed).gapCount <= U64_MAX
  {
    FeedKeepsInvariant(n, feed);
  }

  // later continues earlier: the last id and the gap count only grow, and new gaps are paid for.
  ghost predicate Continues(earlier: Book, later: Book) {
    && earlier.gapCount <= later.gapCount
    && (earlier.lastFinalUpdateId.Some? ==>
          && later.lastFinalUpdateId.Some?
          && 2 * (later.gapCount - earlier.gapCount)
             <= later.lastFinalUpdateId.value - earlier.lastFinalUpdateId.value)
  }

  lemma UpdateContinues(book: Book, update: DepthUpdate)
    requires update.IdsValid()
    ensures Continues(book, ApplyUpdate(book, update))
    ensures ApplyUpdate(book, update).gapCount <= book.gapCount + 1
  {
  }

  // Over any continuation of a feed the last id never decreases, each new gap consumes at least two
  // ids of its growth, and each update adds at most one gap.
  lemma {:induction false} LastIdOnlyGrows(n: nat, feed: seq<DepthUpdate>, more: seq<DepthUpdate>)
    requires ValidFeed(more)
    ensures Continues(BookAfter(n, feed), BookAfter(n, feed + more))
    ensures BookAfter(n, feed + more).gapCount <= BookAfter(n, feed).gapCount + |more|
  {
    if more == [] {
      assert feed + more == feed;
    } else {
      hide ApplyUpdate;
      var front, last := more[..|more| - 1], more[|more| - 1];
      LastIdOnlyGrows(n, feed, front);
      UpdateContinues(BookAfter(n, feed + front), last);
      assert feed + more == (feed + front) + [last];
      AfterAppend(n, feed + front, last);
      assert last.Valid();
    }
  }

  // ----- Coverage -----

  // A non-empty run of consecutive ids.
  datatype Span = Span(lo: nat, hi: nat) {
    predicate Has(id: nat) { lo <= id <= hi }
  }

  predicate AcceptedAt(n: nat, feed: seq<DepthUpdate>, i: nat)
    requires i < |feed|
  {
    !IsStale(BookAfter(n, feed[..i]), feed[i])
  }

  // The book carries the event and ingest time of the update it accepted last.
  lemma {:induction false} TimesOfLastAccepted(n: nat, feed: seq<DepthUpdate>, i: nat)
    requires i < |feed| && AcceptedAt(n, feed, i)
    requires forall j :: i < j < |feed| ==> !AcceptedAt(n, feed, j)
    ensures var book := BookAfter(n, feed);
            book.lastDepthEventTime == Some(feed[i].eventTime) && book.lastDepthIngestTime == Some(feed[i].ingestTime)
  {
    hide IsStale;
    var last := |feed| - 1;
    var front := feed[..last];
    if i < last {
      assert !AcceptedAt(n, feed, last);
      forall j | i <= j < last
        ensures AcceptedAt(n, front, j) <==> AcceptedAt(n, feed, j)
      {
        assert front[..j] == feed[..j];
      }
      TimesOfLastAccepted(n, front, i);
    }
  }

  predicate Covers(update: DepthUpdate, id: nat) {
    update.HasBothIds() && update.firstUpdateId.value <= id <= update.finalUpdateId.value
  }

  predicate CoveredBy(n: nat, feed: seq<DepthUpdate>, i: nat, id: nat)
    requires i < |feed|
  {
    AcceptedAt(n, feed, i) && Covers(feed[i], id)
  }

  predicate Covered(n: nat, feed: seq<DepthUpdate>, id: nat) {
    exists i :: 0 <= i < |feed| && CoveredBy(n, feed, i, id)
  }

  // The first id the book is accountable for: where its knowledge of the last id starts.
  function Anchor(feed: seq<DepthUpdate>): Option<nat> {
    if feed == [] then None
    else
      var before, last := Anchor(feed[..|feed| - 1]), feed[|feed| - 1];
      if before.Some? then before
      else match (last.firstUpdateId, last.finalUpdateId)
        case (Some(first), Some(_)) => Some(first)
        case (None, Some(final)) => Some((final as int) + 1)
        case (_, None) => None
  }

  // The ids the update is seen to skip.
  function NewGap(book: Book, update: DepthUpdate): seq<Span> {
    if HasSequenceGap(book, update)
    then [Span(book.lastFinalUpdateId.value + 1, update.firstUpdateId.value - 1)]
    else []
  }

  // The ids passed over because the update carries only its final id: these are never checked.
  function NewBlind(book: Book, update: DepthUpdate): seq<Span> {
    if update.firstUpdateId.None? && update.finalUpdateId.Some? && book.lastFinalUpdateId.Some?
       && update.finalUpdateId.value > book.lastFinalUpdateId.value
    then [Span(book.lastFinalUpdateId.value + 1, update.finalUpdateId.value)]
    else []
  }

  // One span per counted gap.
  function GapSpans(n: nat, feed: seq<DepthUpdate>): seq<Span> {
    if feed == [] then []
    else
      var front := feed[..|feed| - 1];
      GapSpans(n, front) + NewGap(BookAfter(n, front), feed[|feed| - 1])
  }

  function BlindSpans(n: nat, feed: seq<DepthUpdate>): seq<Span> {
    if feed == [] then []
    else
      var front := feed[..|feed| - 1];
      BlindSpans(n, front) + NewBlind(BookAfter(n, front), feed[|feed| - 1])
  }

  ghost predicate Inside(spans: seq<Span>, id: nat) {
    exists i :: 0 <= i < |spans| && spans[i].Has(id)
  }

  // Non-empty, in increasing order, pairwise disjoint, none above top.
  ghost predicate Ladderlike(spans: seq<Span>, top: nat) {
    && (forall i :: 0 <= i < |spans| ==> spans[i].lo <= spans[i].hi <= top)
    && (forall i, j :: 0 <= i < j < |spans| ==> spans[i].hi < spans[j].lo)
  }

  ghost predicate Apart(a: seq<Span>, b: seq<Span>) {
    forall i, j :: 0 <= i < |a| && 0 <= j < |b| ==> a[i].hi < b[j].lo || b[j].hi < a[i].lo
  }

  function LastId(book: Book): nat {
    if book.lastFinalUpdateId.Some? then book.lastFinalUpdateId.value else 0
  }

  lemma CoveredStep(n: nat, feed: seq<DepthUpdate>, id: nat)
    requires feed != []
    ensures Covered(n, feed, id)
            <==> Covered(n, feed[..|feed| - 1], id) || CoveredBy(n, feed, |feed| - 1, id)
  {
    var front := feed[..|feed| - 1];
    forall i | 0 <= i < |front|
      ensures CoveredBy(n, front, i, id) <==> CoveredBy(n, feed, i, id)
    {
      assert front[..i] == feed[..i] && front[i] == feed[i];
    }
  }

  lemma InsideAppend(spans: seq<Span>, more: seq<Span>, id: nat)
    ensures Inside(spans + more, id) <==> Inside(spans, id) || Inside(more, id)
  {
    var all := spans + more;
    if i :| 0 <= i < |spans| && spans[i].Has(id) { assert all[i].Has(id); }
    if i :| 0 <= i < |more| && more[i].Has(id) { assert all[|spans| + i].Has(id); }
    if i :| 0 <= i < |all| && all[i].Has(id) {
      assert if i < |spans| then spans[i].Has(id) else more[i - |spans|].Has(id);
    }
  }

  // At most one span, wholly between the two last ids.
  ghost predicate FitsBetween(spans: seq<Span>, top: nat, newTop: nat) {
    && |spans| <= 1
    && (|spans| == 1 ==> top < spans[0].lo <= spans[0].hi <= newTop)
  }

  lemma LadderlikeGrows(spans: seq<Span>, more: seq<Span>, top: nat, newTop: nat)
    requires Ladderlike(spans, top) && FitsBetween(more, top, newTop) && top <= newTop
    ensures Ladderlike(spans + more, newTop)
  {
  }

  lemma ApartGrows(a: seq<Span>, b: seq<Span>, moreA: seq<Span>, moreB: seq<Span>, top: nat, newTop: nat)
    requires Apart(a, b) && Ladderlike(a, top) && Ladderlike(b, top)
    requires FitsBetween(moreA, top, newTop) && FitsBetween(moreB, top, newTop)
    requires moreA == [] || moreB == []
    ensures Apart(a + moreA, b + moreB)
  {
  }

  lemma NewSpansFit(book: Book, update: DepthUpdate)
    requires update.Valid()
    ensures var top, newTop := LastId(book), LastId(ApplyUpdate(book, update));
            && top <= newTop
            && FitsBetween(NewGap(book, update), top, newTop)
            && FitsBetween(NewBlind(book, update), top, newTop)
            && (NewGap(book, update) == [] || NewBlind(book, update) == [])
            && ApplyUpdate(book, update).gapCount == book.gapCount + |NewGap(book, update)|
  {
  }

  // The gap counter counts the gap spans; gap spans and blind spans are all disjoint.
  lemma {:induction false} SpansAreDisjoint(n: nat, feed: seq<DepthUpdate>)
    requires ValidFeed(feed)
    ensures |GapSpans(n, feed)| == BookAfter(n, feed).gapCount
    ensures Ladderlike(GapSpans(n, feed), LastId(BookAfter(n, feed)))
    ensures Ladderlike(BlindSpans(n, feed), LastId(BookAfter(n, feed)))
    ensures Apart(GapSpans(n, feed), BlindSpans(n, feed))
  {
    if feed != [] {
      var front, last := feed[..|feed| - 1], feed[|feed| - 1];
      var book := BookAfter(n, front);
      var top, newTop := LastId(book), LastId(BookAfter(n, feed));
      SpansAreDisjoint(n, front);
      NewSpansFit(book, last);
      LadderlikeGrows(GapSpans(n, front), NewGap(book, last), top, newTop);
      LadderlikeGrows(BlindSpans(n, front), NewBlind(book, last), top, newTop);
      ApartGrows(GapSpans(n, front), BlindSpans(n, front), NewGap(book, last), NewBlind(book, last), top, newTop);
    }
  }

  lemma {:induction false} AnchoredOnceIdsAreKnown(n: nat, feed: seq<DepthUpdate>)
    ensures BookAfter(n, feed).lastFinalUpdateId.Some? <==> Anchor(feed).Some?
  {
    if feed != [] {
      AnchoredOnceIdsAreKnown(n, feed[..|feed| - 1]);
    }
  }

  lemma {:induction false} CoveredIsBelowLastId(n: nat, feed: seq<DepthUpdate>, id: nat)
    requires ValidFeed(feed) && Covered(n, feed, id)
    ensures BookAfter(n, feed).lastFinalUpdateId.Some? && id <= LastId(BookAfter(n, feed))
  {
    CoveredStep(n, feed, id);
    var front := feed[..|feed| - 1];
    if Covered(n, front, id) {
      CoveredIsBelowLastId(n, front, id);
      assert feed[|feed| - 1].Valid();
    }
  }

  // Every id from the anchor to the last id is covered by an accepted update, or lies in a counted
  // gap, or lies in a span no check ever saw.
  lemma {:induction false} EveryIdAccountedFor(n: nat, feed: seq<DepthUpdate>, id: nat)
    requires ValidFeed(feed)
    requires Anchor(feed).Some? && Anchor(feed).value <= id <= LastId(BookAfter(n, feed))
    ensures Covered(n, feed, id) || Inside(GapSpans(n, feed), id) || Inside(BlindSpans(n, feed), id)
  {
    var front, last := feed[..|feed| - 1], feed[|feed| - 1];
    var book := BookAfter(n, front);
    AnchoredOnceIdsAreKnown(n, front);
    CoveredStep(n, feed, id);
    InsideAppend(GapSpans(n, front), NewGap(book, last), id);
    InsideAppend(BlindSpans(n, front), NewBlind(book, last), id);
    if Anchor(front).Some? && id <= LastId(book) {
      EveryIdAccountedFor(n, front, id);
    } else {
      assert AcceptedAt(n, feed, |feed| - 1);
      NewIdsAccountedFor(book, last, id);
    }
  }

  // The ids by which one accepted update moves the last id on.
  lemma NewIdsAccountedFor(book: Book, update: DepthUpdate, id: nat)
    requires !IsStale(book, update)
    requires id <= LastId(ApplyUpdate(book, update))
    requires book.lastFinalUpdateId.Some? ==> LastId(book) < id
    requires book.lastFinalUpdateId.None? ==>
               update.HasBothIds() && update.firstUpdateId.value <= id
    ensures Covers(update, id) || Inside(NewGap(book, update), id) || Inside(NewBlind(book, update), id)
  {
    if update.HasBothIds() {
      assert Covers(update, id) || NewGap(book, update)[0].Has(id);
    } else {
      assert NewBlind(book, update)[0].Has(id);
    }
  }

  ghost predicate AllHaveBothIds(feed: seq<DepthUpdate>) {
    forall i :: 0 <= i < |feed| ==> feed[i].HasBothIds()
  }

  lemma {:induction false} NoBlindSpans(n: nat, feed: seq<DepthUpdate>)
    requires AllHaveBothIds(feed)
    ensures BlindSpans(n, feed) == []
  {
    if feed != [] {
      NoBlindSpans(n, feed[..|feed| - 1]);
      assert feed[|feed| - 1].HasBothIds();
    }
  }

  // When every update carries both ids, the uncovered ids lie in exactly gapCount disjoint spans; a
  // zero count means that nothing was missed.
  lemma UncoveredIdsAreCountedGaps(n: nat, feed: seq<DepthUpdate>, id: nat)
    requires ValidFeed(feed) && AllHaveBothIds(feed) && feed != []
    requires feed[0].firstUpdateId.value <= id <= LastId(BookAfter(n, feed))
    ensures |GapSpans(n, feed)| == BookAfter(n, feed).gapCount
    ensures Ladderlike(GapSpans(n, feed), LastId(BookAfter(n, feed)))
    ensures !Covered(n, feed, id) ==> Inside(GapSpans(n, feed), id)
    ensures BookAfter(n, feed).gapCount == 0 ==> Covered(n, feed, id)
  {
    SpansAreDisjoint(n, feed);
    AnchorIsFirstId(feed);
    EveryIdAccountedFor(n, feed, id);
    NoBlindSpans(n, feed);
  }

  lemma {:induction false} AnchorIsFirstId(feed: seq<DepthUpdate>)
    requires AllHaveBothIds(feed) && feed != []
    ensures Anchor(feed) == Some(feed[0].firstUpdateId.value)
  {
    assert feed[|feed| - 1].HasBothIds();
    if |feed| > 1 {
      AnchorIsFirstId(feed[..|feed| - 1]);
    } else {
      assert feed[..0] == [];
    }
  }

  // An id inside a gap is covered exactly when a later accepted update reaches back over it.
  lemma GapFilledOnlyFromLater(n: nat, feed: seq<DepthUpdate>, i: nat, id: nat)
    requires ValidFeed(feed) && i < |feed|
    requires HasSequenceGap(BookAfter(n, feed[..i]), feed[i])
    requires LastId(BookAfter(n, feed[..i])) < id < feed[i].firstUpdateId.value
    ensures Covered(n, feed, id) <==> exists j :: i < j < |feed| && CoveredBy(n, feed, j, id)
  {
    if j :| 0 <= j <= i && CoveredBy(n, feed, j, id) {
      if j < i {
        var front := feed[..i];
        assert front[..j] == feed[..j] && front[j] == feed[j];
        assert CoveredBy(n, front, j, id);
        CoveredIsBelowLastId(n, front, id);
      }
      assert false;
    }
  }

  // ----- Replay -----

  // Whatever follows, an update of the history is turned away exactly when it carries both ids.
  lemma HistoryIsStale(n: nat, feed: seq<DepthUpdate>, more: seq<DepthUpdate>, i: nat)
    requires ValidFeed(feed + more) && i < |feed|
    ensures IsStale(BookAfter(n, feed + more), feed[i]) <==> feed[i].HasBothIds()
  {
    if feed[i].HasBothIds() {
      var all := feed + more;
      var seen, rest := all[..i + 1], all[i + 1..];
      assert seen + rest == all && seen == all[..i] + [feed[i]];
      AfterAppend(n, all[..i], feed[i]);
      LastIdOnlyGrows(n, seen, rest);
    }
  }

  // Re-sending any updates of the history that carry both ids, in any order and any number of times,
  // leaves the whole book as it was.
  lemma {:induction false} ReplayChangesNothing(n: nat, feed: seq<DepthUpdate>, replay: seq<DepthUpdate>)
    requires ValidFeed(feed)
    requires forall k :: 0 <= k < |replay| ==> replay[k] in feed && replay[k].HasBothIds()
    ensures BookAfter(n, feed + replay) == BookAfter(n, feed)
  {
    if replay == [] {
      assert feed + replay == feed;
    } else {
      var front, last := replay[..|replay| - 1], replay[|replay| - 1];
      ReplayChangesNothing(n, feed, front);
      var i :| 0 <= i < |feed| && feed[i] == last;
      assert feed + replay == (feed + front) + [last];
      AfterAppend(n, feed + front, last);
      assert ValidFeed(feed + []) by { assert feed + [] == feed; }
      HistoryIsStale(n, feed, [], i);
      assert feed + [] == feed;
    }
  }

  // Without both ids an update is accepted again, and that can change the book: here it brings back a
  // level deleted since.
  lemma ReplayWithoutIdsChangesTheBook(n: nat)
    ensures var quote := DepthUpdate("", None, None, [DepthLevel(1.0, 1.0)], [], 0, 0);
            var cancel := DepthUpdate("", None, None, [DepthLevel(1.0, 0.0)], [], 0, 0);
            && ValidFeed([quote, cancel])
            && 1.0 in BookAfter(n, [quote, cancel, quote]).bids && 1.0 !in BookAfter(n, [quote, cancel]).bids
  {
    var quote := DepthUpdate("", None, None, [DepthLevel(1.0, 1.0)], [], 0, 0);
    var cancel := DepthUpdate("", None, None, [DepthLevel(1.0, 0.0)], [], 0, 0);
    assert [quote][..0] == [] && [quote] + [cancel] == [quote, cancel];
    assert [quote, cancel] + [quote] == [quote, cancel, quote];
    AfterAppend(n, [quote], cancel);
    AfterAppend(n, [quote, cancel], quote);
    OneBid(BookAfter(n, [quote]), cancel);
    OneBid(BookAfter(n, [quote, cancel]), quote);
    assert BookAfter(n, [quote]).retained >= 1;
  }

  lemma OneBid(book: Book, update: DepthUpdate)
    requires book.retained >= 1 && update.firstUpdateId.None? && |update.bids| == 1
    ensures var level, after := update.bids[0], ApplyUpdate(book, update);
            && after.retained == book.retained
            && (level.quantity == 0.0 ==> level.price !in after.bids)
            && (level.quantity != 0.0 && book.bids.Keys <= {level.price} ==>
                  after.bids.Keys == {level.price})
            && (level.quantity == 0.0 && book.bids.Keys <= {level.price} ==> after.bids.Keys == {})
  {
    var level := update.bids[0];
    var front := update.bids[..|update.bids| - 1];
    assert front == [] && ApplyLevels(book.bids, front) == book.bids;
    var side := ApplyLevels(book.bids, update.bids);
    assert side == ApplyLevel(book.bids, level);
    if level.quantity != 0.0 && book.bids.Keys <= {level.price} {
      assert side.Keys == {level.price};
      assert Ahead(LowestPrice, side.Keys, level.price) == {};
    }
  }
}
