// The sliding window of trades.  Samples are inserted after every sample that is not later, and
// dropped from the front once older than the newest instant minus the window size.
module Windows {
  import opened Domain

  datatype Sample = Sample(eventTime: Millis, price: real)

  datatype Window = Window(samples: seq<Sample>, latest: Option<Millis>, size: int)

  predicate Sorted(xs: seq<Sample>) {
    forall i, j :: 0 <= i < j < |xs| ==> xs[i].eventTime <= xs[j].eventTime
  }

  // The first position holding a strictly later sample, or the end.
  function InsertPoint(xs: seq<Sample>, t: Millis): (p: nat)
    ensures p <= |xs|
    ensures forall i :: 0 <= i < p ==> xs[i].eventTime <= t
    ensures p < |xs| ==> xs[p].eventTime > t
  {
    if xs == [] || xs[0].eventTime > t then 0 else 1 + InsertPoint(xs[1..], t)
  }

  function Insert(xs: seq<Sample>, s: Sample): seq<Sample> {
    var p := InsertPoint(xs, s.eventTime);
    xs[..p] + [s] + xs[p..]
  }

  function DropBefore(xs: seq<Sample>, cutoff: Millis): seq<Sample> {
    if xs == [] || xs[0].eventTime >= cutoff then xs else DropBefore(xs[1..], cutoff)
  }

  function EmptyWindow(size: int): Window {
    Window([], None, size)
  }

  function PushSample(w: Window, s: Sample): (r: Window)
    ensures r.latest.Some?
  {
    var latest := match w.latest
                  case None => s.eventTime
                  case Some(current) => if current < s.eventTime then s.eventTime else current;
    Window(DropBefore(Insert(w.samples, s), latest - w.size), Some(latest), w.size)
  }

  function WindowAfter(size: int, pushed: seq<Sample>): Window {
    if pushed == [] then EmptyWindow(size)
    else PushSample(WindowAfter(size, pushed[..|pushed| - 1]), pushed[|pushed| - 1])
  }

  // ----- What the window is: stable sort, then cut by age -----

  // The samples with instant t, in their given order.
  function At(xs: seq<Sample>, t: Millis): seq<Sample> {
    if xs == [] then []
    else At(xs[..|xs| - 1], t) + if xs[|xs| - 1].eventTime == t then [xs[|xs| - 1]] else []
  }

  // The samples no older than the cutoff, in their given order.
  function Since(xs: seq<Sample>, cutoff: Millis): seq<Sample> {
    if xs == [] then []
    else Since(xs[..|xs| - 1], cutoff) + if xs[|xs| - 1].eventTime >= cutoff then [xs[|xs| - 1]] else []
  }

  function StableSort(xs: seq<Sample>): seq<Sample> {
    if xs == [] then [] else Insert(StableSort(xs[..|xs| - 1]), xs[|xs| - 1])
  }

  function Newest(xs: seq<Sample>): Option<Millis> {
    if xs == [] then None else Later(Newest(xs[..|xs| - 1]), Some(xs[|xs| - 1].eventTime))
  }

  lemma InsertKeepsSorted(xs: seq<Sample>, s: Sample)
    requires Sorted(xs)
    ensures Sorted(Insert(xs, s))
  {
  }

  lemma {:induction false} AtConcat(a: seq<Sample>, b: seq<Sample>, t: Millis)
    ensures At(a + b, t) == At(a, t) + At(b, t)
  {
    if b == [] {
      assert a + b == a;
    } else {
      assert (a + b)[..|a + b| - 1] == a + b[..|b| - 1];
      AtConcat(a, b[..|b| - 1], t);
    }
  }

  lemma {:induction false} SinceConcat(a: seq<Sample>, b: seq<Sample>, cutoff: Millis)
    ensures Since(a + b, cutoff) == Since(a, cutoff) + Since(b, cutoff)
  {
    if b == [] {
      assert a + b == a;
    } else {
      assert (a + b)[..|a + b| - 1] == a + b[..|b| - 1];
      SinceConcat(a, b[..|b| - 1], cutoff);
    }
  }

  lemma Singletons(s: Sample, t: Millis)
    ensures At([s], t) == if s.eventTime == t then [s] else []
    ensures Since([s], t) == if s.eventTime >= t then [s] else []
  {
    assert [s][..0] == [];
  }

  lemma {:induction false} SinceMembers(xs: seq<Sample>, cutoff: Millis)
    ensures forall s :: s in Since(xs, cutoff) <==> s in xs && s.eventTime >= cutoff
    ensures Sorted(xs) ==> Sorted(Since(xs, cutoff))
  {
    if xs != [] {
      var front, last := xs[..|xs| - 1], xs[|xs| - 1];
      SinceMembers(front, cutoff);
      assert xs == front + [last];
      if Sorted(xs) {
        forall i | 0 <= i < |Since(front, cutoff)|
          ensures Since(front, cutoff)[i].eventTime <= last.eventTime
        {
          assert Since(front, cutoff)[i] in front;
        }
      }
    }
  }

  lemma {:induction false} AtMembers(xs: seq<Sample>, t: Millis)
    ensures forall s :: s in At(xs, t) <==> s in xs && s.eventTime == t
  {
    if xs != [] {
      AtMembers(xs[..|xs| - 1], t);
      assert xs == xs[..|xs| - 1] + [xs[|xs| - 1]];
    }
  }

  lemma {:induction false} NothingAt(xs: seq<Sample>, t: Millis)
    requires forall i :: 0 <= i < |xs| ==> xs[i].eventTime != t
    ensures At(xs, t) == []
  {
    if xs != [] { NothingAt(xs[..|xs| - 1], t); }
  }

  lemma AtBetween(before: seq<Sample>, s: Sample, after: seq<Sample>, t: Millis)
    requires forall i :: 0 <= i < |after| ==> after[i].eventTime > s.eventTime
    ensures At(before + [s] + after, t) == At(before + after, t) + if s.eventTime == t then [s] else []
  {
    AtConcat(before + [s], after, t);
    AtConcat(before, [s], t);
    AtConcat(before, after, t);
    Singletons(s, t);
    if s.eventTime == t { NothingAt(after, t); }
  }

  lemma AllLater(xs: seq<Sample>, p: nat, t: Millis)
    requires Sorted(xs) && p <= |xs| && (p < |xs| ==> xs[p].eventTime > t)
    ensures forall i :: 0 <= i < |xs[p..]| ==> xs[p..][i].eventTime > t
  {
  }

  // Inserting puts the new sample last among those of its own instant.
  lemma InsertAt(xs: seq<Sample>, s: Sample, t: Millis)
    requires Sorted(xs)
    ensures At(Insert(xs, s), t) == At(xs, t) + if s.eventTime == t then [s] else []
  {
    var p := InsertPoint(xs, s.eventTime);
    assert xs == xs[..p] + xs[p..];
    AllLater(xs, p, s.eventTime);
    AtBetween(xs[..p], s, xs[p..], t);
  }

  // The sort is sorted and keeps, instant by instant, the order of arrival.
  lemma {:induction false} StableSortIsStable(xs: seq<Sample>, t: Millis)
    ensures Sorted(StableSort(xs))
    ensures At(StableSort(xs), t) == At(xs, t)
  {
    if xs != [] {
      StableSortIsStable(xs[..|xs| - 1], t);
      InsertKeepsSorted(StableSort(xs[..|xs| - 1]), xs[|xs| - 1]);
      InsertAt(StableSort(xs[..|xs| - 1]), xs[|xs| - 1], t);
    }
  }

  ghost predicate SameAtEachInstant(a: seq<Sample>, b: seq<Sample>) {
    forall t :: At(a, t) == At(b, t)
  }

  lemma SameInstantsSameMembers(a: seq<Sample>, b: seq<Sample>)
    requires SameAtEachInstant(a, b)
    ensures forall s :: s in a ==> s in b
  {
    forall s | s in a
      ensures s in b
    {
      AtMembers(a, s.eventTime);
      AtMembers(b, s.eventTime);
      assert At(a, s.eventTime) == At(b, s.eventTime);
    }
  }

  lemma {:induction false} NewestIsMaximum(xs: seq<Sample>)
    ensures Newest(xs).None? <==> xs == []
    ensures xs != [] ==> exists s :: s in xs && s.eventTime == Newest(xs).value
    ensures forall s :: s in xs ==> s.eventTime <= Newest(xs).value
  {
    if xs != [] {
      NewestIsMaximum(xs[..|xs| - 1]);
      assert xs == xs[..|xs| - 1] + [xs[|xs| - 1]];
    }
  }

  lemma SameInstantsSameNewest(a: seq<Sample>, b: seq<Sample>)
    requires SameAtEachInstant(a, b)
    ensures Newest(a) == Newest(b) && (a == [] <==> b == [])
  {
    SameInstantsSameMembers(a, b);
    SameInstantsSameMembers(b, a);
    SameMembersSameNewest(a, b);
  }

  lemma SameMembersSameNewest(a: seq<Sample>, b: seq<Sample>)
    requires forall s :: s in a <==> s in b
    ensures Newest(a) == Newest(b) && (a == [] <==> b == [])
  {
    NewestIsMaximum(a);
    NewestIsMaximum(b);
    assert a != [] ==> a[0] in b;
    assert b != [] ==> b[0] in a;
  }

  lemma LastOfSorted(xs: seq<Sample>)
    requires Sorted(xs) && xs != []
    ensures forall s :: s in xs ==> s.eventTime <= xs[|xs| - 1].eventTime
  {
  }

  // Those two facts determine the sort.
  lemma {:induction false} StableSortIsUnique(a: seq<Sample>, b: seq<Sample>)
    requires Sorted(a) && Sorted(b) && SameAtEachInstant(a, b)
    ensures a == b
    decreases |a| + |b|
  {
    SameInstantsSameNewest(a, b);
    if a != [] {
      LastInstantsAgree(a, b);
      LastInstantsAgree(b, a);
      var a', x, b', y := a[..|a| - 1], a[|a| - 1], b[..|b| - 1], b[|b| - 1];
      assert x == y by {
        assert At(a, x.eventTime) == At(a', x.eventTime) + [x];
        assert At(b, x.eventTime) == At(b', x.eventTime) + [y];
        assert At(a, x.eventTime) == At(b, x.eventTime);
        assert (At(a', x.eventTime) + [x])[|At(a', x.eventTime)|] == x;
      }
      forall t
        ensures At(a', t) == At(b', t)
      {
        assert At(a, t) == At(b, t);
        if t == x.eventTime {
          SameFront(At(a', t), At(b', t), x);
        } else {
          assert At(a, t) == At(a', t) + [] == At(a', t);
          assert At(b, t) == At(b', t) + [] == At(b', t);
        }
      }
      StableSortIsUnique(a', b');
      assert a == a' + [x] && b == b' + [y];
    }
  }

  lemma SameFront(a: seq<Sample>, b: seq<Sample>, x: Sample)
    requires a + [x] == b + [x]
    ensures a == b
  {
    assert a == (a + [x])[..|a + [x]| - 1];
    assert b == (b + [x])[..|b + [x]| - 1];
  }

  lemma LastInstantsAgree(a: seq<Sample>, b: seq<Sample>)
    requires Sorted(a) && Sorted(b) && SameAtEachInstant(a, b) && a != [] && b != []
    ensures b[|b| - 1].eventTime <= a[|a| - 1].eventTime
  {
    var y := b[|b| - 1];
    AtMembers(a, y.eventTime);
    AtMembers(b, y.eventTime);
    assert At(a, y.eventTime) == At(b, y.eventTime);
    LastOfSorted(a);
    assert y in a;
  }

  lemma {:induction false} InsertPointIs(xs: seq<Sample>, t: Millis, p: nat)
    requires p <= |xs|
    requires forall i :: 0 <= i < p ==> xs[i].eventTime <= t
    requires p < |xs| ==> xs[p].eventTime > t
    ensures InsertPoint(xs, t) == p
  {
    if p > 0 {
      InsertPointIs(xs[1..], t, p - 1);
    }
  }

  lemma SinceAround(before: seq<Sample>, s: Sample, after: seq<Sample>, cutoff: Millis)
    ensures Since(before + [s] + after, cutoff)
            == Since(before, cutoff) + (if s.eventTime >= cutoff then [s] else []) + Since(after, cutoff)
  {
    SinceConcat(before + [s], after, cutoff);
    SinceConcat(before, [s], cutoff);
    Singletons(s, cutoff);
  }

  lemma SinceBetween(before: seq<Sample>, s: Sample, after: seq<Sample>, cutoff: Millis)
    requires forall i :: 0 <= i < |before| ==> before[i].eventTime <= s.eventTime
    requires forall i :: 0 <= i < |after| ==> after[i].eventTime > s.eventTime
    ensures Since(before + [s] + after, cutoff)
            == if s.eventTime >= cutoff then Insert(Since(before + after, cutoff), s) else Since(before + after, cutoff)
  {
    SinceAround(before, s, after, cutoff);
    SinceConcat(before, after, cutoff);
    if s.eventTime >= cutoff {
      SplitStays(before, after, s, cutoff);
    } else {
      assert Since(before, cutoff) + [] + Since(after, cutoff) == Since(before, cutoff) + Since(after, cutoff);
    }
  }

  lemma SinceInsert(xs: seq<Sample>, s: Sample, cutoff: Millis)
    requires Sorted(xs)
    ensures Since(Insert(xs, s), cutoff)
            == if s.eventTime >= cutoff then Insert(Since(xs, cutoff), s) else Since(xs, cutoff)
  {
    var p := InsertPoint(xs, s.eventTime);
    assert xs == xs[..p] + xs[p..];
    AllLater(xs, p, s.eventTime);
    SinceBetween(xs[..p], s, xs[p..], cutoff);
  }

  lemma SplitStays(before: seq<Sample>, after: seq<Sample>, s: Sample, cutoff: Millis)
    requires forall i :: 0 <= i < |before| ==> before[i].eventTime <= s.eventTime
    requires forall i :: 0 <= i < |after| ==> after[i].eventTime > s.eventTime
    ensures var older, newer := Since(before, cutoff), Since(after, cutoff);
            Insert(older + newer, s) == older + [s] + newer
  {
    var older: seq<Sample>, newer: seq<Sample> := Since(before, cutoff), Since(after, cutoff);
    SinceMembers(before, cutoff);
    SinceMembers(after, cutoff);
    var all := older + newer;
    forall i | 0 <= i < |older|
      ensures all[i].eventTime <= s.eventTime
    {
      assert older[i] in before;
    }
    if newer != [] {
      assert newer[0] in after;
    }
    InsertPointIs(all, s.eventTime, |older|);
  }

  lemma {:induction false} SinceTwice(xs: seq<Sample>, c: Millis, c': Millis)
    requires c <= c'
    ensures Since(Since(xs, c), c') == Since(xs, c')
  {
    if xs != [] {
      var front, last := xs[..|xs| - 1], xs[|xs| - 1];
      SinceTwice(front, c, c');
      if last.eventTime >= c {
        SinceConcat(Since(front, c), [last], c');
        Singletons(last, c');
      } else {
        assert Since(xs, c) == Since(front, c) + [] == Since(front, c);
        assert Since(xs, c') == Since(front, c') + [] == Since(front, c');
      }
    }
  }

  lemma {:induction false} SinceAll(xs: seq<Sample>, cutoff: Millis)
    requires forall i :: 0 <= i < |xs| ==> xs[i].eventTime >= cutoff
    ensures Since(xs, cutoff) == xs
  {
    if xs != [] { SinceAll(xs[..|xs| - 1], cutoff); }
  }

  // On a sorted window, dropping from the front is the same as filtering by age.
  lemma {:induction false} DropBeforeIsSince(xs: seq<Sample>, cutoff: Millis)
    requires Sorted(xs)
    ensures DropBefore(xs, cutoff) == Since(xs, cutoff)
  {
    if xs != [] {
      if xs[0].eventTime >= cutoff {
        SinceAll(xs, cutoff);
      } else {
        DropBeforeIsSince(xs[1..], cutoff);
        assert xs == [xs[0]] + xs[1..];
        SinceConcat([xs[0]], xs[1..], cutoff);
      }
    }
  }

  lemma DropFromCutSort(sorted: seq<Sample>, s: Sample, cutoff: Millis, cutoff': Millis)
    requires Sorted(sorted) && cutoff <= cutoff'
    ensures DropBefore(Insert(Since(sorted, cutoff), s), cutoff') == Since(Insert(sorted, s), cutoff')
  {
    var window := Since(sorted, cutoff);
    SinceMembers(sorted, cutoff);
    InsertKeepsSorted(window, s);
    DropBeforeIsSince(Insert(window, s), cutoff');
    SinceInsert(window, s, cutoff');
    SinceTwice(sorted, cutoff, cutoff');
    SinceInsert(sorted, s, cutoff');
  }

  // w is the given sorted history cut by age (an empty window stands for an empty history).
  ghost predicate IsCut(w: Window, sorted: seq<Sample>) {
    if w.latest.None? then w.samples == [] && sorted == []
    else w.samples == Since(sorted, w.latest.value - w.size)
  }

  lemma PushKeepsCut(w: Window, sorted: seq<Sample>, s: Sample)
    requires Sorted(sorted) && IsCut(w, sorted)
    ensures IsCut(PushSample(w, s), Insert(sorted, s))
    ensures PushSample(w, s).latest == Later(w.latest, Some(s.eventTime)) && PushSample(w, s).size == w.size
  {
    var cutoff' := PushSample(w, s).latest.value - w.size;
    DropFromCutSort(sorted, s, if w.latest.None? then cutoff' else w.latest.value - w.size, cutoff');
  }

  // After any pushes in any order of time the window holds the stable sort of everything ever pushed,
  // cut to the samples no older than the newest instant minus the window size.
  lemma {:induction false} WindowIsRecentStableSort(size: int, pushed: seq<Sample>)
    ensures WindowAfter(size, pushed).latest == Newest(pushed)
    ensures WindowAfter(size, pushed).size == size
    ensures IsCut(WindowAfter(size, pushed), StableSort(pushed))
  {
    if pushed != [] {
      var front, last := pushed[..|pushed| - 1], pushed[|pushed| - 1];
      WindowIsRecentStableSort(size, front);
      StableSortIsStable(front, 0);
      PushKeepsCut(WindowAfter(size, front), StableSort(front), last);
    }
  }

  lemma SameInstantsSameSort(a: seq<Sample>, b: seq<Sample>)
    requires SameAtEachInstant(a, b)
    ensures StableSort(a) == StableSort(b)
  {
    forall t
      ensures At(StableSort(a), t) == At(StableSort(b), t)
    {
      StableSortIsStable(a, t);
      StableSortIsStable(b, t);
      assert At(a, t) == At(b, t);
    }
    StableSortIsStable(a, 0);
    StableSortIsStable(b, 0);
    StableSortIsUnique(StableSort(a), StableSort(b));
  }

  // Two arrival orders that agree on the order of samples of the same instant give the same window.
  lemma ArrivalOrderIsIrrelevant(size: int, a: seq<Sample>, b: seq<Sample>)
    requires SameAtEachInstant(a, b)
    ensures WindowAfter(size, a) == WindowAfter(size, b)
  {
    SameInstantsSameNewest(a, b);
    SameInstantsSameSort(a, b);
    WindowIsRecentStableSort(size, a);
    WindowIsRecentStableSort(size, b);
    SameCutsSameWindows(WindowAfter(size, a), WindowAfter(size, b), StableSort(a));
  }

  lemma SameCutsSameWindows(v: Window, w: Window, sorted: seq<Sample>)
    requires v.latest == w.latest && v.size == w.size && IsCut(v, sorted) && IsCut(w, sorted)
    ensures v == w
  {
  }

  lemma SortEndsAtNewest(pushed: seq<Sample>)
    requires pushed != []
    ensures var sorted := StableSort(pushed);
            sorted != [] && sorted[|sorted| - 1].eventTime == Newest(pushed).value
  {
    var sorted, top := StableSort(pushed), Newest(pushed).value;
    NewestIsMaximum(pushed);
    var s :| s in pushed && s.eventTime == top;
    StableSortIsStable(pushed, top);
    AtMembers(pushed, top);
    AtMembers(sorted, top);
    assert s in sorted;
    LastOfSorted(sorted);
    var last := sorted[|sorted| - 1];
    StableSortIsStable(pushed, last.eventTime);
    AtMembers(sorted, last.eventTime);
    AtMembers(pushed, last.eventTime);
    assert last in pushed;
  }

  // A window of non-negative size is never empty after a push; its back is the latest arrival among
  // the samples of the newest instant.
  lemma BackIsLastOfNewest(size: int, pushed: seq<Sample>)
    requires pushed != [] && size >= 0
    ensures var w := WindowAfter(size, pushed);
            var newest := At(pushed, Newest(pushed).value);
            && w.samples != [] && newest != []
            && w.samples[|w.samples| - 1] == newest[|newest| - 1]
  {
    hide WindowAfter, StableSort, Newest;
    NewestIsMaximum(pushed);
    var top, sorted := Newest(pushed).value, StableSort(pushed);
    WindowIsRecentStableSort(size, pushed);
    SortEndsAtNewest(pushed);
    StableSortIsStable(pushed, top);
    LastSurvives(sorted, top, top - size);
  }

  lemma LastSurvives(sorted: seq<Sample>, top: Millis, cutoff: Millis)
    requires sorted != [] && sorted[|sorted| - 1].eventTime == top && cutoff <= top
    ensures var last, at, since := sorted[|sorted| - 1], At(sorted, top), Since(sorted, cutoff);
            && at != [] && since != [] && at[|at| - 1] == last && since[|since| - 1] == last
  {
    var front, last := sorted[..|sorted| - 1], sorted[|sorted| - 1];
    assert At(sorted, top) == At(front, top) + [last];
    assert Since(sorted, cutoff) == Since(front, cutoff) + [last];
  }

  class TradeWindow {
    // The symbol the window belongs to; it keeps the windows of different symbols apart.
    ghost const owner: Symbol
    var samples: seq<Sample>
    var latestEventTime: Option<Millis>
    const windowSize: int

    function Model(): Window
      reads this
    {
      Window(samples, latestEventTime, windowSize)
    }

    constructor (size: int, ghost owner: Symbol)
      ensures Model() == EmptyWindow(size) && this.owner == owner
    {
      this.owner := owner;
      samples, latestEventTime, windowSize := [], None, size;
    }

    method Push(sample: Sample)
      modifies this
      ensures Model() == PushSample(old(Model()), sample)
    {
      latestEventTime := Some(
        match latestEventTime
        case None => sample.eventTime
        case Some(current) => if current < sample.eventTime then sample.eventTime else current);
      var insertAt := InsertPoint(samples, sample.eventTime);
      samples := samples[..insertAt] + [sample] + samples[insertAt..];
      EvictStale();
    }

    method EvictBefore(cutoff: Millis)
      modifies `samples
      ensures samples == DropBefore(old(samples), cutoff)
    {
      while samples != []
        invariant DropBefore(samples, cutoff) == DropBefore(old(samples), cutoff)
        decreases |samples|
      {
        if samples[0].eventTime >= cutoff {
          break;
        }
        samples := samples[1..];
      }
    }

    method EvictStale()
      modifies `samples
      ensures samples == if latestEventTime.None? then old(samples)
                         else DropBefore(old(samples), latestEventTime.value - windowSize)
    {
      if latestEventTime.None? {
        return;
      }
      EvictBefore(latestEventTime.value - windowSize);
    }
  }
}
