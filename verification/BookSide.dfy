// One side of the order book: a map from price to quantity, edited level by level and trimmed to the
// best prices.  The two sides differ only in which end of the price order is trimmed away.
module BookSide {
  import opened Domain

  type Side = map<real, real>

  // The end of the price order that trimming removes: bids lose the lowest price, asks the highest.
  datatype TrimExtreme = LowestPrice | HighestPrice

  predicate Better(x: TrimExtreme, p: real, q: real) {
    if x.LowestPrice? then p > q else p < q
  }

  // The prices of s that outrank p; their number is the rank of p.
  function Ahead(x: TrimExtreme, s: set<real>, p: real): set<real> {
    set q | q in s && Better(x, q, p)
  }

  // The n best levels, defined by rank rather than by removal.
  function TopN(x: TrimExtreme, side: Side, n: nat): Side {
    map p | p in side && |Ahead(x, side.Keys, p)| < n :: side[p]
  }

  ghost predicate Submap(a: Side, b: Side) {
    forall p :: p in a ==> p in b && a[p] == b[p]
  }

  lemma SubsetSize(a: set<real>, b: set<real>)
    requires a <= b
    ensures |a| <= |b|
    ensures a != b ==> |a| < |b|
  {
    assert |b| == |a| + |b - a| by { assert b == a + (b - a); }
    if a != b { assert b - a != {}; }
  }

  predicate IsWorst(x: TrimExtreme, s: set<real>, w: real) {
    w in s && forall q :: q in s && q != w ==> Better(x, q, w)
  }

  lemma Pick<T>(s: set<T>) returns (t: T)
    requires s != {}
    ensures t in s
  {
    t :| t in s;
  }

  lemma {:induction false} WorstExists(x: TrimExtreme, s: set<real>)
    requires s != {}
    ensures exists w :: IsWorst(x, s, w)
  {
    var p := Pick(s);
    var rest := s - {p};
    if rest == {} {
      assert s == {p};
      assert IsWorst(x, s, p);
    } else {
      WorstExists(x, rest);
      var w :| IsWorst(x, rest, w);
      assert IsWorst(x, s, if Better(x, p, w) then w else p) by {
        assert forall q :: q in s ==> q == p || q in rest;
      }
    }
  }

  // The price the trimming loop removes next.
  function WorstKey(x: TrimExtreme, s: set<real>): (p: real)
    requires s != {}
    ensures IsWorst(x, s, p)
  {
    WorstExists(x, s);
    var p :| IsWorst(x, s, p);
    p
  }

  function Opposite(x: TrimExtreme): TrimExtreme {
    if x.LowestPrice? then HighestPrice else LowestPrice
  }

  // The top of the side: the price no other price outranks, with its quantity.
  function Best(x: TrimExtreme, side: Side): (r: Option<(real, real)>)
    ensures r.None? <==> side == map[]
    ensures r.Some? ==> r.value.0 in side && r.value.1 == side[r.value.0] && Ahead(x, side.Keys, r.value.0) == {}
  {
    if side == map[] then None
    else
      assert side.Keys != {};
      var p := WorstKey(Opposite(x), side.Keys);
      Some((p, side[p]))
  }

  lemma BestIsUnique(x: TrimExtreme, side: Side, p: real)
    requires p in side && Ahead(x, side.Keys, p) == {}
    ensures Best(x, side) == Some((p, side[p]))
  {
    var b := Best(x, side).value.0;
    assert Better(x, b, p) ==> b in Ahead(x, side.Keys, p);
    assert Better(x, p, b) ==> p in Ahead(x, side.Keys, b);
  }

  // In prices: the highest price of a side and its quantity, or none of an empty side.
  ghost predicate IsHighest(side: Side, price: Option<real>, quantity: Option<real>) {
    if side == map[] then price.None? && quantity.None?
    else price.Some? && price.value in side && quantity == Some(side[price.value])
         && forall p :: p in side ==> p <= price.value
  }

  ghost predicate IsLowest(side: Side, price: Option<real>, quantity: Option<real>) {
    if side == map[] then price.None? && quantity.None?
    else price.Some? && price.value in side && quantity == Some(side[price.value])
         && forall p :: p in side ==> p >= price.value
  }

  function PriceOf(best: Option<(real, real)>): Option<real> {
    if best.None? then None else Some(best.value.0)
  }

  function QuantityOf(best: Option<(real, real)>): Option<real> {
    if best.None? then None else Some(best.value.1)
  }

  // The best bid is the highest bid and the best ask the lowest ask.
  lemma BestInPrices(side: Side)
    ensures var bid := Best(LowestPrice, side); IsHighest(side, PriceOf(bid), QuantityOf(bid))
    ensures var ask := Best(HighestPrice, side); IsLowest(side, PriceOf(ask), QuantityOf(ask))
  {
    if side != map[] {
      NothingAhead(LowestPrice, side.Keys, Best(LowestPrice, side).value.0);
      NothingAhead(HighestPrice, side.Keys, Best(HighestPrice, side).value.0);
    }
  }

  lemma NothingAhead(x: TrimExtreme, s: set<real>, b: real)
    requires Ahead(x, s, b) == {}
    ensures forall p :: p in s ==> !Better(x, p, b)
  {
    forall p | p in s
      ensures !Better(x, p, b)
    {
      assert p !in Ahead(x, s, b);
    }
  }

  function ApplyLevel(side: Side, level: DepthLevel): Side {
    if level.quantity == 0.0 then side - {level.price} else side[level.price := level.quantity]
  }

  function ApplyLevels(side: Side, levels: seq<DepthLevel>): Side {
    if levels == [] then side
    else ApplyLevel(ApplyLevels(side, levels[..|levels| - 1]), levels[|levels| - 1])
  }

  // A price holds the quantity of the last level quoted at it, and is gone if that quantity is zero.
  lemma {:induction false} LastLevelWins(side: Side, levels: seq<DepthLevel>, i: nat)
    requires i < |levels|
    requires forall j :: i < j < |levels| ==> levels[j].price != levels[i].price
    ensures var after := ApplyLevels(side, levels);
            if levels[i].quantity == 0.0 then levels[i].price !in after
            else levels[i].price in after && after[levels[i].price] == levels[i].quantity
  {
    var front := levels[..|levels| - 1];
    if i < |front| {
      assert front[i] == levels[i];
      LastLevelWins(side, front, i);
    }
  }

  // A price at which no level is quoted stays as it was.
  lemma {:induction false} OtherPricesStay(side: Side, levels: seq<DepthLevel>, p: real)
    requires forall i :: 0 <= i < |levels| ==> levels[i].price != p
    ensures var after := ApplyLevels(side, levels);
            (p in after <==> p in side) && (p in side ==> after[p] == side[p])
  {
    if levels != [] {
      var front := levels[..|levels| - 1];
      assert forall i :: 0 <= i < |front| ==> front[i] == levels[i];
      OtherPricesStay(side, front, p);
    }
  }

  // A part of the side whose every price outranks every price left out.
  ghost predicate UpwardClosed(x: TrimExtreme, s: set<real>, part: set<real>) {
    && part <= s
    && forall p, q :: p in part && q in s && q !in part ==> Better(x, p, q)
  }

  lemma RankInUpwardClosed(x: TrimExtreme, s: set<real>, part: set<real>, p: real)
    requires UpwardClosed(x, s, part) && p in s
    ensures p in part ==> |Ahead(x, s, p)| < |part|
    ensures p !in part ==> |Ahead(x, s, p)| >= |part|
  {
    var ahead := Ahead(x, s, p);
    if p in part {
      forall q | q in ahead
        ensures q in part - {p}
      {
        assert q !in part ==> Better(x, p, q);
      }
      SubsetSize(ahead, part - {p});
    } else {
      assert forall q :: q in part ==> Better(x, q, p);
      SubsetSize(part, ahead);
    }
  }

  // An upward-closed part of the right size is exactly the n best levels.
  lemma UpwardClosedIsTopN(x: TrimExtreme, side: Side, part: Side, n: nat)
    requires Submap(part, side) && UpwardClosed(x, side.Keys, part.Keys)
    requires |part| <= n
    requires part == side || |part| == n
    ensures part == TopN(x, side, n)
  {
    assert |part| == |part.Keys|;
    forall p | p in side
      ensures p in part <==> p in TopN(x, side, n)
    {
      RankInUpwardClosed(x, side.Keys, part.Keys, p);
    }
  }

  lemma DropWorst(x: TrimExtreme, side: Side, part: Side, w: real)
    requires Submap(part, side) && UpwardClosed(x, side.Keys, part.Keys) && IsWorst(x, part.Keys, w)
    ensures Submap(part - {w}, side) && UpwardClosed(x, side.Keys, (part - {w}).Keys)
    ensures |part - {w}| == |part| - 1
  {
    assert (part - {w}).Keys == part.Keys - {w};
  }

  // Trimming in prices: every bid kept is above every bid dropped, every ask kept below.
  ghost predicate KeepsBestPrices(x: TrimExtreme, side: Side, part: Side) {
    && Submap(part, side)
    && (x.LowestPrice? ==> forall p, q :: p in part && q in side && q !in part ==> p > q)
    && (x.HighestPrice? ==> forall p, q :: p in part && q in side && q !in part ==> p < q)
  }

  // The trimming loop: drop the worst price until at most n remain.
  method TrimSide(side: Side, n: nat, x: TrimExtreme) returns (r: Side)
    ensures r == TopN(x, side, n)
    ensures KeepsBestPrices(x, side, r) && |r| == if |side| <= n then |side| else n
  {
    hide TopN, KeepsBestPrices;
    r := side;
    while |r| > n
      invariant Submap(r, side) && UpwardClosed(x, side.Keys, r.Keys)
      invariant r == side || |r| >= n
    {
      assert r.Keys != {};
      var price := WorstKey(x, r.Keys);
      DropWorst(x, side, r, price);
      r := r - {price};
    }
    UpwardClosedIsTopN(x, side, r, n);
    UpwardClosedInPrices(x, side, r);
    TopNSize(x, side, n);
  }

  lemma UpwardClosedInPrices(x: TrimExtreme, side: Side, part: Side)
    requires Submap(part, side) && UpwardClosed(x, side.Keys, part.Keys)
    ensures KeepsBestPrices(x, side, part)
  {
  }

  // Trimming keeps min(n, size) levels.
  lemma {:induction false} TopNSize(x: TrimExtreme, side: Side, n: nat)
    ensures |TopN(x, side, n)| == if |side| <= n then |side| else n
    ensures |side| <= n ==> TopN(x, side, n) == side
    decreases |side|
  {
    if |side| <= n {
      UpwardClosedIsTopN(x, side, side, n);
    } else {
      assert side.Keys != {};
      var w := WorstKey(x, side.Keys);
      var rest := side - {w};
      assert rest.Keys == side.Keys - {w};
      TopNSize(x, rest, n);
      TopNDropsWorst(x, side, w, n);
    }
  }

  lemma BetterMeansLowerRank(x: TrimExtreme, s: set<real>, p: real, q: real)
    requires p in s && Better(x, p, q)
    ensures |Ahead(x, s, p)| < |Ahead(x, s, q)|
  {
    assert Ahead(x, s, p) + {p} <= Ahead(x, s, q);
    SubsetSize(Ahead(x, s, p) + {p}, Ahead(x, s, q));
  }

  lemma TopNKeepsBestPrices(x: TrimExtreme, side: Side, n: nat)
    ensures KeepsBestPrices(x, side, TopN(x, side, n))
  {
    var top := TopN(x, side, n);
    forall p, q | p in top && q in side && q !in top
      ensures Better(x, p, q)
    {
      if Better(x, q, p) { BetterMeansLowerRank(x, side.Keys, q, p); }
    }
  }

  lemma TopNDropsWorst(x: TrimExtreme, side: Side, w: real, n: nat)
    requires |side| > n
    requires IsWorst(x, side.Keys, w)
    ensures TopN(x, side, n) == TopN(x, side - {w}, n)
  {
    var rest := side - {w};
    assert rest.Keys == side.Keys - {w};
    assert Ahead(x, side.Keys, w) == rest.Keys;
    assert |rest.Keys| == |side.Keys| - 1;
    forall p | p in rest
      ensures Ahead(x, side.Keys, p) == Ahead(x, rest.Keys, p)
    {
    }
  }

  // Quantity-weighted size of a side, summed from the lowest price up.
  function Liquidity(side: Side): real
    decreases |side|
  {
    if side == map[] then 0.0
    else
      assert side.Keys != {};
      var p := WorstKey(LowestPrice, side.Keys);
      assert (side - {p}).Keys == side.Keys - {p};
      Liquidity(side - {p}) + p * side[p]
  }

  // The order of summation does not matter: any level may be taken out first.
  lemma {:induction false} LiquidityTakeOut(side: Side, p: real)
    requires p in side
    ensures Liquidity(side) == Liquidity(side - {p}) + p * side[p]
    decreases |side|
  {
    assert side.Keys != {};
    var w := WorstKey(LowestPrice, side.Keys);
    if p != w {
      var withoutW, withoutP := side - {w}, side - {p};
      assert withoutW.Keys == side.Keys - {w} && withoutP.Keys == side.Keys - {p};
      assert withoutW - {p} == withoutP - {w};
      LiquidityTakeOut(withoutW, p);
      LiquidityTakeOut(withoutP, w);
    }
  }

  ghost predicate Positive(side: Side) {
    forall p :: p in side ==> p > 0.0 && side[p] > 0.0
  }

  lemma ProductPositive(a: real, b: real)
    requires a > 0.0 && b > 0.0
    ensures a * b > 0.0
  {
  }

  lemma {:induction false} LiquidityPositive(side: Side)
    requires Positive(side)
    ensures Liquidity(side) >= 0.0
    ensures Liquidity(side) == 0.0 <==> side == map[]
    decreases |side|
  {
    if side != map[] {
      assert side.Keys != {};
      var p := WorstKey(LowestPrice, side.Keys);
      assert (side - {p}).Keys == side.Keys - {p};
      LiquidityPositive(side - {p});
      ProductPositive(p, side[p]);
    }
  }
}
