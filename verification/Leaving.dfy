/**
 A caller may leave a read before any of its requests. What it then has is what the requests so far brought: page by page,
 with nothing dropped and nothing added, and always the newest part of what it would have had by staying.
 */
module Leaving {
  import opened Wrappers
  import opened History

  /** A caller who stays for `n` requests. */
  function Until(n: nat): nat -> bool { i => i < n }

  // ---- which callers there are -----------------------------------------------------------------------------------

  lemma {:induction false} LeftIsUntil(s: seq<Bar>, q: Query, wanted: nat -> bool, p: Progress)
    requires Ascending(s) && Pages(s, q, wanted, p).1 == Unwanted
    ensures p.requests <= Pages(s, q, wanted, p).0.requests
    ensures Pages(s, q, Until(Pages(s, q, wanted, p).0.requests), p) == Pages(s, q, wanted, p)
    decreases Left(s, p)
  {
    if |p.collected| < q.bars && wanted(p.requests) {
      PagesNext(s, q, wanted, p);
      var page := Page(s, q, p);
      hide Page, Left, FloorReached;
      LeftIsUntil(s, q, wanted, Progress(p.collected + page, p.requests + 1, Some(page[0].ts)));
    }
  }

  lemma {:induction false} NotLeftIsStaying(s: seq<Bar>, q: Query, wanted: nat -> bool, p: Progress)
    requires Ascending(s) && Pages(s, q, wanted, p).1 != Unwanted
    ensures Pages(s, q, STAYS, p) == Pages(s, q, wanted, p)
    decreases Left(s, p)
  {
    if |p.collected| < q.bars && wanted(p.requests) && !FloorReached(q, p) {
      PagesNext(s, q, wanted, p);
      var page := Page(s, q, p);
      hide Page, Left, FloorReached;
      if GoesOn(q, p, page) {
        NotLeftIsStaying(s, q, wanted, Progress(p.collected + page, p.requests + 1, Some(page[0].ts)));
      }
    }
  }

  /** Every read is that of a caller who leaves after so many requests, or of one who stays to the end. */
  lemma LeavesOrStays(s: seq<Bar>, q: Query, wanted: nat -> bool)
    requires Ascending(s)
    ensures var left := Pages(s, q, wanted, START).1 == Unwanted;
      CollectSpec(s, q, wanted) == CollectSpec(s, q, if left then Until(CollectSpec(s, q, wanted).requests) else STAYS)
  {
    if Pages(s, q, wanted, START).1 == Unwanted {
      LeftIsUntil(s, q, wanted, START);
    } else {
      NotLeftIsStaying(s, q, wanted, START);
    }
    hide Pages, Sorted, Unique, NotBefore, Newest;
  }

  // ---- where a caller who left stands ----------------------------------------------------------------------------

  lemma {:induction false} LeftHolds(s: seq<Bar>, q: Query, wanted: nat -> bool, p: Progress, low: nat) returns (end: nat)
    requires Ascending(s) && Holds(s, q, p, low) && Pages(s, q, wanted, p).1 == Unwanted
    ensures var last := Pages(s, q, wanted, p).0; Holds(s, q, last, end) && |last.collected| < q.bars
    decreases Left(s, p)
  {
    end := low;
    if |p.collected| < q.bars && wanted(p.requests) {
      PagesNext(s, q, wanted, p);
      hide Pages, Page, Left, EndedAs, Held, Holds, Ascending, FloorReached;
      var page := Page(s, q, p);
      end := OneMoreRequest(s, q, wanted, p, low);
      end := LeftHolds(s, q, wanted, Progress(p.collected + page, p.requests + 1, Some(page[0].ts)), end);
    }
  }

  /** One more request of a caller who would have left: he starts it where he stood. */
  lemma {:induction false} StaysOneMore(s: seq<Bar>, q: Query, n: nat, p: Progress)
    requires Ascending(s) && p.requests <= n
    ensures var (last, ending) := Pages(s, q, Until(n), p);
      if ending == Unwanted then last.requests == n && Pages(s, q, Until(n + 1), p) == Pages(s, q, Until(n + 1), last)
      else Pages(s, q, Until(n + 1), p) == (last, ending)
    decreases Left(s, p)
  {
    if |p.collected| < q.bars && p.requests < n && !FloorReached(q, p) {
      PagesNext(s, q, Until(n), p);
      PagesNext(s, q, Until(n + 1), p);
      var page := Page(s, q, p);
      hide Page, Left, FloorReached;
      if GoesOn(q, p, page) {
        StaysOneMore(s, q, n, Progress(p.collected + page, p.requests + 1, Some(page[0].ts)));
      }
    }
  }

  /** Whatever the request brings, it is kept, and then the caller leaves or the paging is over. */
  lemma LastRequest(s: seq<Bar>, q: Query, n: nat, p: Progress)
    requires Ascending(s) && p.requests == n && |p.collected| < q.bars && !FloorReached(q, p)
    ensures var last := Pages(s, q, Until(n + 1), p).0;
      last.collected == p.collected + Page(s, q, p) && last.requests == n + 1
  {
    PagesNext(s, q, Until(n + 1), p);
    hide Page, Left, FloorReached, EndingOf;
  }

  // ---- the first page --------------------------------------------------------------------------------------------

  lemma FirstHeld(s: seq<Bar>, q: Query) returns (m: nat)
    requires Ascending(s) && q.bars > 0 && !FloorReached(q, START)
    ensures m <= Top(s, q) <= |s| && Page(s, q, START) == s[m..Top(s, q)]
    ensures Held(s, q, Pages(s, q, Until(1), START).0, m) && Pages(s, q, Until(1), START).0.requests == 1
  {
    assert Top(s, q) <= |s|;
    hide Pages, Query.WindowSeconds, Query.PageSize, Before, Top, GoesOn, Page, FloorReached;
    m := FirstPage(s, q);
    LastRequest(s, q, 0, START);
    FirstPageHeld(s, q, m, Page(s, q, START));
    hide Holds, Held;
    HeldAs(s, q, Page(s, q, START), Pages(s, q, Until(1), START).0, m);
  }

  lemma HeldAs(s: seq<Bar>, q: Query, page: seq<Bar>, p: Progress, m: nat)
    requires Ascending(s) && Held(s, q, Progress(page, 1, None), m) && p.collected == [] + page && p.requests == 1
    ensures Held(s, q, p, m)
  {
    assert p.collected == page;
    hide Top;
  }

  /** Left after one request, a read answers the newest candles of its first window: of the whole series, where it was given
      no moment to read from. */
  lemma FirstPageIs(s: seq<Bar>, q: Query)
    requires Ascending(s) && q.bars > 0 && !(q.anchor.Some? && q.after.Some? && q.after.value >= q.anchor.value)
    ensures
      var window := match q.anchor { case Some(to) => Some(q.WindowStart(to)) case None => None };
      var answer := CollectSpec(s, q, Until(1));
      answer.requests == 1 && answer.candles == NotBefore(FetchPage(s, window, q.anchor, q.PageSize()), q.after)
  {
    var m := FirstHeld(s, q);
    PageAtStart(s, q);
    hide Pages, Query.WindowStart, Query.PageSize, Before, Top, Held, Finish, FetchPage, Page, NotBefore;
    HeldIs(s, q, Pages(s, q, Until(1), START).0, m, Pages(s, q, Until(1), START).1, Page(s, q, START));
  }

  lemma PageAtStart(s: seq<Bar>, q: Query)
    requires Ascending(s)
    ensures Page(s, q, START) ==
            FetchPage(s, match q.anchor { case Some(to) => Some(q.WindowStart(to)) case None => None }, q.anchor, q.PageSize())
    ensures |Page(s, q, START)| <= q.bars
  {
    hide Between, Query.WindowStart;
  }

  /** What is left of candles held, when there are no more of them than were asked for. */
  lemma HeldIs(s: seq<Bar>, q: Query, p: Progress, low: nat, ending: Ending, held: seq<Bar>)
    requires Ascending(s) && Held(s, q, p, low) && held == s[low..Top(s, q)]
    ensures Finish(q, p, ending).candles == Newest(NotBefore(held, q.after), q.bars)
    ensures |held| <= q.bars ==> Finish(q, p, ending).candles == NotBefore(held, q.after)
    ensures Finish(q, p, ending).requests == p.requests
  {
    FinishedIs(s, q, p, low, ending);
    SliceNotBefore(s, q, low, Top(s, q));
    FinishCounts(q, p, ending);
    hide Before, Finish, Top, FloorIndex, NotBefore;
  }

  lemma FinishCounts(q: Query, p: Progress, ending: Ending)
    ensures Finish(q, p, ending).requests == p.requests
  {
  }

  // ---- the next page ---------------------------------------------------------------------------------------------

  /** A caller who left after a request has all the candles held, and one more request would be made from the oldest. */
  lemma StoodAt(s: seq<Bar>, q: Query, n: nat) returns (p: Progress, low: nat)
    requires Ascending(s) && n > 0 && Pages(s, q, Until(n), START).1 == Unwanted
    ensures p == Pages(s, q, Until(n), START).0 && p.requests == n && |p.collected| < q.bars
    ensures Holds(s, q, p, low) && low < Top(s, q) && p.cursor == Some(s[low].ts) && !FloorReached(q, p)
    ensures CollectSpec(s, q, Until(n)).candles == s[low..Top(s, q)] && FloorIndex(s, q) <= low
    ensures Pages(s, q, Until(n + 1), START) == Pages(s, q, Until(n + 1), p)
  {
    p := Pages(s, q, Until(n), START).0;
    StaysOneMore(s, q, n, START);
    low := LeftHolds(s, q, Until(n), START, Top(s, q));
    hide Pages, Finish;
    FinishedIs(s, q, p, low, Unwanted);
    FloorBelow(s, q, low);
    hide Before;
  }

  /** The same caller one request later: he has read down to `m`, in one page more. */
  lemma ReadsOnTo(s: seq<Bar>, q: Query, n: nat) returns (low: nat, m: nat)
    requires Ascending(s) && n > 0 && Pages(s, q, Until(n), START).1 == Unwanted
    ensures m <= low < Top(s, q) <= |s| && FloorIndex(s, q) <= low
    ensures CollectSpec(s, q, Until(n)).candles == s[low..Top(s, q)] && Top(s, q) - low <= q.bars
    ensures FetchPage(s, Some(q.WindowStart(s[low].ts)), Some(s[low].ts), q.PageSize()) == s[m..low + 1]
    ensures Held(s, q, Pages(s, q, Until(n + 1), START).0, m) && Pages(s, q, Until(n + 1), START).0.requests == n + 1
  {
    var p;
    p, low := StoodAt(s, q, n);
    hide Pages, Query.WindowSeconds, Query.PageSize, Before, Top, GoesOn, FetchPage, Page, FloorReached, CollectSpec;
    LastRequest(s, q, n, p);
    m := PageBelow(s, q, p, low);
    LaterWindow(s, q, p, low);
    LaterPageHeld(s, q, p, low, m, Page(s, q, p));
  }

  /** Left one request later, a read answers what it would have answered before, with the newest candles of the window below
      its oldest put in front, as far as the floor and the number asked for allow. */
  lemma NextPageIs(s: seq<Bar>, q: Query, n: nat)
    requires Ascending(s) && n > 0 && Pages(s, q, Until(n), START).1 == Unwanted
    ensures
      var had, next := CollectSpec(s, q, Until(n)).candles, CollectSpec(s, q, Until(n + 1));
      && had != [] && next.requests == n + 1
      && next.candles == Newest(NotBefore(
           FetchPage(s, Some(q.WindowStart(had[0].ts)), Some(had[0].ts), q.PageSize()) + had[1..], q.after), q.bars)
  {
    var low, m := ReadsOnTo(s, q, n);
    hide Pages, Query.WindowStart, Query.PageSize, Before, Top, Held, Finish, FetchPage, FloorIndex, Newest, NotBefore;
    JoinsBelow(s, m, low, Top(s, q));
    HeldIs(s, q, Pages(s, q, Until(n + 1), START).0, m, Pages(s, q, Until(n + 1), START).1,
           s[m..low + 1] + s[low..Top(s, q)][1..]);
  }

  lemma JoinsBelow(s: seq<Bar>, m: nat, low: nat, top: nat)
    requires m <= low < top <= |s|
    ensures s[m..low + 1] + s[low..top][1..] == s[m..top]
  {
  }

  /** A caller who would not have been there to leave gets what he had. */
  lemma NoNextPage(s: seq<Bar>, q: Query, n: nat)
    requires Ascending(s) && Pages(s, q, Until(n), START).1 != Unwanted
    ensures CollectSpec(s, q, Until(n + 1)) == CollectSpec(s, q, Until(n)) == CollectSpec(s, q, STAYS)
  {
    StaysOneMore(s, q, n, START);
    NotLeftIsStaying(s, q, Until(n), START);
    hide Pages, Finish;
  }

  // ---- leaving early ---------------------------------------------------------------------------------------------

  lemma SuffixOfSuffix<T>(a: seq<T>, b: seq<T>, c: seq<T>)
    requires Suffix(a, b) && Suffix(b, c)
    ensures Suffix(a, c)
  {
  }

  lemma OneMoreIsASuffix(s: seq<Bar>, q: Query, n: nat)
    requires Ascending(s)
    ensures Suffix(CollectSpec(s, q, Until(n)).candles, CollectSpec(s, q, Until(n + 1)).candles)
  {
    if Pages(s, q, Until(n), START).1 != Unwanted {
      NoNextPage(s, q, n);
    } else if n == 0 {
      NotBeforeIs([], q.after);
      assert CollectSpec(s, q, Until(0)).candles == [];
    } else {
      var low, m := ReadsOnTo(s, q, n);
      hide Pages, Before, Top, Held, Finish, FetchPage, FloorIndex, Query.WindowStart, Suffix, Newest;
      FinishedIs(s, q, Pages(s, q, Until(n + 1), START).0, m, Pages(s, q, Until(n + 1), START).1);
      NewestCovers(s, if m <= FloorIndex(s, q) then FloorIndex(s, q) else m, low, Top(s, q), q.bars);
    }
  }

  lemma NewestCovers(s: seq<Bar>, from: nat, low: nat, top: nat, n: nat)
    requires from <= low <= top <= |s| && top - low <= n
    ensures Suffix(s[low..top], Newest(s[from..top], n))
  {
    var k := if top - from <= n then from else top - n;
    TailOfSlice(s, from, k, top);
    assert Newest(s[from..top], n) == s[k..top];
    SliceIsSuffix(s, k, low, top);
    hide Suffix, Newest;
  }

  lemma {:induction false} StayingEnds(s: seq<Bar>, q: Query, p: Progress, n: nat)
    requires Ascending(s) && n > Pages(s, q, STAYS, p).0.requests
    ensures p.requests <= Pages(s, q, STAYS, p).0.requests && Pages(s, q, Until(n), p) == Pages(s, q, STAYS, p)
    decreases Left(s, p)
  {
    if |p.collected| < q.bars && !FloorReached(q, p) {
      PagesNext(s, q, STAYS, p);
      var page := Page(s, q, p);
      hide Page, Left, FloorReached;
      if GoesOn(q, p, page) {
        StayingEnds(s, q, Progress(p.collected + page, p.requests + 1, Some(page[0].ts)), n);
        PagesNext(s, q, Until(n), p);
      }
    }
  }

  /** The candles a caller has by leaving are the newest of those he has by leaving later. */
  lemma {:induction false} LeavingEarlierIsASuffix(s: seq<Bar>, q: Query, n: nat, later: nat)
    requires Ascending(s) && n <= later
    ensures Suffix(CollectSpec(s, q, Until(n)).candles, CollectSpec(s, q, Until(later)).candles)
    decreases later
  {
    hide CollectSpec;
    if n < later {
      LeavingEarlierIsASuffix(s, q, n, later - 1);
      OneMoreIsASuffix(s, q, later - 1);
      SuffixOfSuffix(CollectSpec(s, q, Until(n)).candles, CollectSpec(s, q, Until(later - 1)).candles,
                     CollectSpec(s, q, Until(later)).candles);
    }
  }

  /** Whoever leaves, and whenever: what he has is the newest of what he would have by staying. */
  lemma LeavingIsASuffix(s: seq<Bar>, q: Query, wanted: nat -> bool)
    requires Ascending(s)
    ensures Suffix(CollectSpec(s, q, wanted).candles, CollectSpec(s, q, STAYS).candles)
  {
    hide CollectSpec, Pages;
    LeavesOrStays(s, q, wanted);
    var n := CollectSpec(s, q, wanted).requests;
    var later := StaysUntil(s, q, n);
    LeavingEarlierIsASuffix(s, q, n, later);
  }

  /** Staying is leaving after enough requests. */
  lemma StaysUntil(s: seq<Bar>, q: Query, n: nat) returns (later: nat)
    requires Ascending(s)
    ensures n <= later && CollectSpec(s, q, Until(later)) == CollectSpec(s, q, STAYS)
  {
    later := n + Pages(s, q, STAYS, START).0.requests + 1;
    StayingEnds(s, q, START, later);
    hide Finish, Pages;
  }
}
