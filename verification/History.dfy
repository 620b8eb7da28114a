/**
 Reading further back than one provider request reaches. The provider is a series of candles by time, of which one
 request answers the newest few in a closed window; times are whole seconds, the precision a window is asked with.
 */
module History {
  import opened Wrappers
  import opened Rollups

  const MAX_BARS_PER_REQUEST: nat := 1000

  datatype Bar = Bar(ts: int, mid: real)

  predicate Ascending(s: seq<Bar>) {
    forall i, j :: 0 <= i < j < |s| ==> s[i].ts < s[j].ts
  }

  /** What a caller asks for: how many bars, the newest moment wanted, and the oldest. */
  datatype Query = Query(resolution: Resolution, bars: nat, anchor: Option<int>, after: Option<int>) {
    function PageSize(): nat { if bars < MAX_BARS_PER_REQUEST then bars else MAX_BARS_PER_REQUEST }

    /** One period short of the page: the provider's window counts both edges. */
    function WindowSeconds(): int { (PageSize() - 1) * PeriodSeconds(resolution) }

    function WindowStart(edge: int): int {
      var start := edge - WindowSeconds();
      if after.Some? && after.value > start then after.value else start
    }

    predicate OnTheFloor(edge: int) { after.Some? && edge - WindowSeconds() <= after.value }
  }

  // ---- the provider ----------------------------------------------------------------------------------------------

  /** How many of the series are older than `t`. */
  function Before(s: seq<Bar>, t: int): (n: nat)
    requires Ascending(s)
    ensures n <= |s|
    ensures forall i :: 0 <= i < n ==> s[i].ts < t
    ensures forall i :: n <= i < |s| ==> s[i].ts >= t
  {
    if s == [] || s[|s| - 1].ts < t then |s| else Before(s[..|s| - 1], t)
  }

  /** The candles of the closed window, oldest first. */
  function Between(s: seq<Bar>, from: Option<int>, to: Option<int>): seq<Bar>
    requires Ascending(s)
  {
    var low := if from.Some? then Before(s, from.value) else 0;
    var high := if to.Some? then Before(s, to.value + 1) else |s|;
    if low <= high then s[low..high] else []
  }

  function Newest(s: seq<Bar>, n: nat): seq<Bar> {
    if |s| <= n then s else s[|s| - n..]
  }

  /** One request: the newest `limit` candles of the window; nothing, where the provider has none there. */
  function FetchPage(s: seq<Bar>, from: Option<int>, to: Option<int>, limit: nat): seq<Bar>
    requires Ascending(s)
  {
    Newest(Between(s, from, to), limit)
  }

  // ---- paging backwards ------------------------------------------------------------------------------------------

  datatype Progress = Progress(collected: seq<Bar>, requests: nat, cursor: Option<int>)

  /** Why the paging stopped. */
  datatype Ending = Quota | Unwanted | Floor | NothingOlder

  const START := Progress([], 0, None)

  function Edge(q: Query, p: Progress): Option<int> {
    if p.cursor.Some? then p.cursor else q.anchor
  }

  function Page(s: seq<Bar>, q: Query, p: Progress): seq<Bar>
    requires Ascending(s)
  {
    var edge := Edge(q, p);
    FetchPage(s, if edge.Some? then Some(q.WindowStart(edge.value)) else None, edge, q.PageSize())
  }

  predicate FloorReached(q: Query, p: Progress) {
    Edge(q, p).Some? && q.after.Some? && q.after.value >= Edge(q, p).value
  }

  /** Whether a page leaves anything to ask for below it. */
  predicate GoesOn(q: Query, p: Progress, page: seq<Bar>) {
    && page != []
    && !(q.after.Some? && page[0].ts <= q.after.value)
    && (p.cursor.None? || page[0].ts < p.cursor.value)
  }

  function EndingOf(q: Query, p: Progress, page: seq<Bar>): Ending {
    if page != [] && q.after.Some? && page[0].ts <= q.after.value then Floor
    else if Edge(q, p).Some? && q.OnTheFloor(Edge(q, p).value) then Floor
    else NothingOlder
  }

  function Left(s: seq<Bar>, p: Progress): nat
    requires Ascending(s)
  {
    if p.cursor.None? then |s| + 1 else Before(s, p.cursor.value)
  }

  lemma CursorFalls(s: seq<Bar>, q: Query, p: Progress)
    requires Ascending(s)
    ensures var page := Page(s, q, p);
      GoesOn(q, p, page) ==> Left(s, Progress(p.collected + page, p.requests + 1, Some(page[0].ts))) < Left(s, p)
  {
  }

  /** The paging from where it stands to its end. `wanted(n)` is the caller's answer before request `n`. */
  function Pages(s: seq<Bar>, q: Query, wanted: nat -> bool, p: Progress): (Progress, Ending)
    requires Ascending(s)
    decreases Left(s, p)
  {
    if |p.collected| >= q.bars then (p, Quota)
    else if !wanted(p.requests) then (p, Unwanted)
    else if FloorReached(q, p) then (p, Floor)
    else
      var page := Page(s, q, p);
      CursorFalls(s, q, p);
      if GoesOn(q, p, page)
      then Pages(s, q, wanted, Progress(p.collected + page, p.requests + 1, Some(page[0].ts)))
      else (Progress(p.collected + page, p.requests + 1, p.cursor), EndingOf(q, p, page))
  }

  // ---- one ordered series ----------------------------------------------------------------------------------------

  function Insert(c: Bar, s: seq<Bar>): seq<Bar> {
    if s == [] || c.ts <= s[0].ts then [c] + s else [s[0]] + Insert(c, s[1..])
  }

  /** By time, candles of the same time in the order they came. */
  function Sorted(s: seq<Bar>): seq<Bar> {
    if s == [] then [] else Insert(s[0], Sorted(s[1..]))
  }

  /** The first of each run of equal times. */
  function Unique(s: seq<Bar>): (u: seq<Bar>)
    ensures |u| <= |s|
  {
    if |s| <= 1 then s
    else
      var before := Unique(s[..|s| - 1]);
      if s[|s| - 1].ts == s[|s| - 2].ts then before else before + [s[|s| - 1]]
  }

  function NotBefore(s: seq<Bar>, floor: Option<int>): seq<Bar> {
    if s == [] then []
    else
      var rest := NotBefore(s[..|s| - 1], floor);
      if floor.Some? && s[|s| - 1].ts < floor.value then rest else rest + [s[|s| - 1]]
  }

  datatype Collected = Collected(candles: seq<Bar>, requests: nat, historyEnded: bool)

  function Finish(q: Query, p: Progress, ending: Ending): Collected {
    var trimmed := Newest(NotBefore(Unique(Sorted(p.collected)), q.after), q.bars);
    Collected(trimmed, p.requests, ending == NothingOlder && p.collected != [] && |trimmed| < q.bars)
  }

  function CollectSpec(s: seq<Bar>, q: Query, wanted: nat -> bool): Collected
    requires Ascending(s)
  {
    var (p, ending) := Pages(s, q, wanted, START);
    Finish(q, p, ending)
  }

  method Collect(s: seq<Bar>, q: Query, wanted: nat -> bool) returns (answer: Collected)
    requires Ascending(s)
    ensures answer == CollectSpec(s, q, wanted)
  {
    hide FetchPage, Before, Between, Newest, Sorted, Unique, NotBefore, Left, Query.WindowSeconds, Query.PageSize;
    var collected: seq<Bar> := [];
    var requests: nat := 0;
    var cursor: Option<int> := None;
    var historyEnded, reachedFloor := false, false;
    ghost var ending := Quota;
    while |collected| < q.bars
      invariant !historyEnded && !reachedFloor
      invariant Pages(s, q, wanted, Progress(collected, requests, cursor)) == Pages(s, q, wanted, START)
      decreases Left(s, Progress(collected, requests, cursor))
    {
      ghost var p := Progress(collected, requests, cursor);
      if !wanted(requests) {
        ending := Unwanted;
        break;
      }
      var edge := if cursor.Some? then cursor else q.anchor;
      var from: Option<int> := None;
      if edge.Some? {
        if q.after.Some? && q.after.value >= edge.value {
          reachedFloor, ending := true, Floor;
          break;
        }
        from := Some(q.WindowStart(edge.value));
      }
      var onTheFloor := q.after.Some? && edge.Some? && edge.value - q.WindowSeconds() <= q.after.value;
      requests := requests + 1;
      var page := FetchPage(s, from, edge, q.PageSize());
      assert page == Page(s, q, p);
      CursorFalls(s, q, p);
      if page != [] {
        collected := collected + page;
        var oldest := page[0].ts;
        if q.after.Some? && oldest <= q.after.value {
          reachedFloor, ending := true, Floor;
          break;
        }
        if cursor.None? || oldest < cursor.value {
          cursor := Some(oldest);
          continue;
        }
      }
      assert collected == p.collected + page;
      if onTheFloor {
        reachedFloor, ending := true, Floor;
      } else {
        ending := NothingOlder;
        if collected != [] {
          historyEnded := true;
        }
      }
      break;
    }
    assert Pages(s, q, wanted, START) == (Progress(collected, requests, cursor), ending);
    var trimmed := Newest(NotBefore(Unique(Sorted(collected)), q.after), q.bars);
    return Collected(trimmed, requests, historyEnded && !reachedFloor && |trimmed| < q.bars);
  }

  // ---- what the sorting and trimming leave -----------------------------------------------------------------------

  predicate InTimeOrder(s: seq<Bar>) {
    forall i, j :: 0 <= i < j < |s| ==> s[i].ts <= s[j].ts
  }

  lemma {:induction false} InsertKeepsOrder(c: Bar, s: seq<Bar>)
    requires InTimeOrder(s)
    ensures InTimeOrder(Insert(c, s))
    ensures forall b :: b in Insert(c, s) <==> b == c || b in s
  {
    if !(s == [] || c.ts <= s[0].ts) {
      InsertKeepsOrder(c, s[1..]);
      assert s == [s[0]] + s[1..];
      assert forall b :: b in Insert(c, s[1..]) ==> s[0].ts <= b.ts;
    } else {
      assert forall b :: b in s ==> c.ts <= b.ts;
    }
  }

  lemma {:induction false} SortedIsOrdered(s: seq<Bar>)
    ensures InTimeOrder(Sorted(s))
    ensures forall b :: b in Sorted(s) <==> b in s
  {
    if s != [] {
      SortedIsOrdered(s[1..]);
      InsertKeepsOrder(s[0], Sorted(s[1..]));
      assert s == [s[0]] + s[1..];
    }
  }

  ghost predicate OneAtATime(s: seq<Bar>) {
    forall b, c :: b in s && c in s && b.ts == c.ts ==> b == c
  }

  lemma LastInOrder(s: seq<Bar>)
    requires |s| > 1 && InTimeOrder(s) && OneAtATime(s)
    ensures InTimeOrder(s[..|s| - 1]) && OneAtATime(s[..|s| - 1]) && s[|s| - 2].ts <= s[|s| - 1].ts
    ensures s[|s| - 1].ts == s[|s| - 2].ts ==> s[|s| - 1] == s[|s| - 2]
  {
    assert s[|s| - 1] in s && s[|s| - 2] in s;
  }

  lemma UniqueLast(s: seq<Bar>)
    requires |s| > 1
    ensures Unique(s) == Unique(s[..|s| - 1]) + if s[|s| - 1].ts == s[|s| - 2].ts then [] else [s[|s| - 1]]
  {
  }

  ghost predicate SameMembers(a: seq<Bar>, b: seq<Bar>) { forall x :: x in a <==> x in b }

  lemma OneMoreMember(u: seq<Bar>, before: seq<Bar>, last: Bar)
    requires SameMembers(u, before)
    ensures SameMembers(u + [last], before + [last])
    ensures last in before ==> SameMembers(u, before + [last])
  {
  }

  lemma {:induction false} UniqueIsAscending(s: seq<Bar>)
    requires InTimeOrder(s) && OneAtATime(s)
    ensures Ascending(Unique(s)) && SameMembers(Unique(s), s)
  {
    if |s| > 1 {
      var before, last := s[..|s| - 1], s[|s| - 1];
      LastInOrder(s);
      UniqueLast(s);
      assert s == before + [last] && before[|before| - 1] == s[|s| - 2];
      hide InTimeOrder, Ascending, OneAtATime, Unique, SameMembers;
      UniqueIsAscending(before);
      OneMoreMember(Unique(before), before, last);
      if last.ts != s[|s| - 2].ts {
        AppendKeepsAscending(Unique(before), before, last);
      } else {
        assert last in before by { assert before[|before| - 1] in before; }
        assert Unique(s) == Unique(before);
      }
    } else {
      assert Ascending(s);
    }
  }

  lemma AppendKeepsAscending(u: seq<Bar>, before: seq<Bar>, c: Bar)
    requires Ascending(u) && InTimeOrder(before) && before != [] && before[|before| - 1].ts < c.ts
    requires SameMembers(u, before)
    ensures Ascending(u + [c])
  {
    forall i | 0 <= i < |u| ensures u[i].ts < c.ts {
      assert u[i] in before;
    }
  }

  lemma HasAMember(s: seq<Bar>)
    requires s != []
    ensures exists x :: x in s
  {
    assert s[0] in s;
  }

  lemma {:induction false} AscendingIsDetermined(a: seq<Bar>, b: seq<Bar>)
    requires Ascending(a) && Ascending(b)
    requires forall x :: x in a <==> x in b
    ensures a == b
  {
    if a == [] {
      if b != [] { HasAMember(b); }
    } else {
      assert a[0] in b && b != [];
      assert b[0] in a;
      assert a[0] == b[0];
      forall x ensures x in a[1..] <==> x in b[1..] {
        assert x in a <==> x == a[0] || x in a[1..];
        assert x in b <==> x == b[0] || x in b[1..];
      }
      AscendingIsDetermined(a[1..], b[1..]);
      assert a == [a[0]] + a[1..] && b == [b[0]] + b[1..];
    }
  }

  lemma SortedUniqueIs(collected: seq<Bar>, t: seq<Bar>)
    requires Ascending(t)
    requires forall b :: b in collected <==> b in t
    ensures Unique(Sorted(collected)) == t
  {
    SortedIsOrdered(collected);
    UniqueIsAscending(Sorted(collected));
    AscendingIsDetermined(Unique(Sorted(collected)), t);
  }

  lemma BeforeLast(t: seq<Bar>, floor: int)
    requires Ascending(t) && t != []
    ensures t[|t| - 1].ts >= floor ==> Before(t, floor) == Before(t[..|t| - 1], floor)
    ensures t[|t| - 1].ts < floor ==> Before(t, floor) == |t| && Before(t[..|t| - 1], floor) == |t| - 1
  {
    if t[|t| - 1].ts < floor { BeforeIs(t[..|t| - 1], floor, |t| - 1); }
  }

  lemma NotBeforeLast(t: seq<Bar>, most: seq<Bar>, last: Bar, floor: Option<int>)
    requires t == most + [last]
    ensures NotBefore(t, floor) == NotBefore(most, floor) + (if floor.Some? && last.ts < floor.value then [] else [last])
  {
    assert t[..|t| - 1] == most;
  }

  /** What `NotBefore` leaves of an ascending sequence: all of it from some place on. */
  lemma NotBeforeMore(t: seq<Bar>, most: seq<Bar>, last: Bar, floor: int, k: nat)
    requires t == most + [last] && k <= |most| && NotBefore(most, Some(floor)) == most[k..]
    requires last.ts < floor ==> k == |most|
    ensures NotBefore(t, Some(floor)) == t[if last.ts < floor then |t| else k..]
  {
    NotBeforeLast(t, most, last, Some(floor));
    hide NotBefore;
    assert t[k..] == most[k..] + [last];
  }

  lemma {:induction false} NotBeforeIs(t: seq<Bar>, floor: Option<int>)
    requires Ascending(t)
    ensures NotBefore(t, floor) == if floor.Some? then t[Before(t, floor.value)..] else t
  {
    if t != [] {
      var most, last := t[..|t| - 1], t[|t| - 1];
      assert Ascending(most);
      hide Ascending, NotBefore, Before;
      assert t == most + [last];
      NotBeforeIs(most, floor);
      NotBeforeLast(t, most, last, floor);
      if floor.Some? {
        BeforeLast(t, floor.value);
        NotBeforeMore(t, most, last, floor.value, Before(most, floor.value));
      }
    }
  }

  lemma BeforeIs(s: seq<Bar>, t: int, n: nat)
    requires Ascending(s) && n <= |s|
    requires n > 0 ==> s[n - 1].ts < t
    requires n < |s| ==> s[n].ts >= t
    ensures Before(s, t) == n
  {
  }

  // ---- what has been read at any point ---------------------------------------------------------------------------

  function Top(s: seq<Bar>, q: Query): nat
    requires Ascending(s)
  {
    if q.anchor.Some? then Before(s, q.anchor.value + 1) else |s|
  }

  /** Everything from `low` up to the anchor has been read, each page after the first repeating one candle. */
  ghost predicate Holds(s: seq<Bar>, q: Query, p: Progress, low: nat)
    requires Ascending(s)
  {
    && low <= Top(s, q) <= |s|
    && (forall b :: b in p.collected <==> b in s[low..Top(s, q)])
    && (p.cursor.None? ==> p.collected == [] && low == Top(s, q) && p.requests == 0)
    && (p.cursor.Some? ==>
          && low < Top(s, q) && p.cursor == Some(s[low].ts) && p.requests >= 1
          && |p.collected| == Top(s, q) - low + p.requests - 1
          && (q.after.Some? ==> q.after.value < s[low].ts))
  }

  /** The same once the paging is over: the last request may have brought nothing new. */
  ghost predicate Held(s: seq<Bar>, q: Query, p: Progress, low: nat)
    requires Ascending(s)
  {
    && low <= Top(s, q) <= |s|
    && (forall b :: b in p.collected <==> b in s[low..Top(s, q)])
    && |p.collected| <= Top(s, q) - low + (if p.requests == 0 then 0 else p.requests - 1)
  }

  /** Nothing lies in the full-width window below `low`. */
  ghost predicate GapBelow(s: seq<Bar>, q: Query, low: nat, edge: int)
    requires low <= |s|
  {
    low == 0 || s[low - 1].ts < edge - q.WindowSeconds()
  }

  ghost predicate EndedAs(s: seq<Bar>, q: Query, wanted: nat -> bool, p: Progress, low: nat, ending: Ending)
    requires Ascending(s) && low <= Top(s, q) <= |s|
  {
    match ending
    case Quota => |p.collected| >= q.bars && (low < Top(s, q) && q.after.Some? ==> q.after.value < s[low].ts)
    case Unwanted => Top(s, q) - low < q.bars && !wanted(p.requests)
    case Floor =>
      && q.after.Some?
      && (if p.requests == 0 then q.anchor.Some? && q.anchor.value <= q.after.value
          else low <= Before(s, q.after.value))
    case NothingOlder =>
      && Top(s, q) - low < q.bars
      && (low < Top(s, q) ==> GapBelow(s, q, low, s[low].ts)
                              && (q.after.Some? ==> q.after.value < s[low].ts - q.WindowSeconds()))
      && (low == Top(s, q) && q.anchor.Some? ==> GapBelow(s, q, low, q.anchor.value))
      && (low == Top(s, q) && q.anchor.None? ==> s == [])
  }

  lemma WindowIsForward(q: Query)
    requires q.bars > 0
    ensures q.PageSize() >= 1 && q.WindowSeconds() >= 0
  {
  }

  lemma BeforeInOrder(s: seq<Bar>, t: int, u: int)
    requires Ascending(s) && t <= u
    ensures Before(s, t) <= Before(s, u)
  {
  }

  lemma NewestOfWindow(s: seq<Bar>, from: Option<int>, to: Option<int>, limit: nat) returns (m: nat)
    requires Ascending(s) && limit >= 1 && (from.Some? && to.Some? ==> from.value <= to.value)
    ensures
      var top := if to.Some? then Before(s, to.value + 1) else |s|;
      var start := if from.Some? then Before(s, from.value) else 0;
      && start <= m <= top && FetchPage(s, from, to, limit) == s[m..top]
      && (m > start ==> top - m == limit)
  {
    var top := if to.Some? then Before(s, to.value + 1) else |s|;
    var start := if from.Some? then Before(s, from.value) else 0;
    if from.Some? && to.Some? { BeforeInOrder(s, from.value, to.value + 1); }
    m := if top - start <= limit then start else top - limit;
  }

  /** Where a request after the first is made from. */
  lemma LaterWindow(s: seq<Bar>, q: Query, p: Progress, low: nat)
    requires Ascending(s) && Holds(s, q, p, low) && q.bars > 0 && !FloorReached(q, p) && p.cursor.Some?
    ensures low < |s| && p.cursor.value == s[low].ts && q.WindowStart(s[low].ts) <= s[low].ts && q.PageSize() >= 1
    ensures Page(s, q, p) == FetchPage(s, Some(q.WindowStart(s[low].ts)), Some(s[low].ts), q.PageSize())
  {
    WindowIsForward(q);
    hide Query.WindowSeconds, Query.PageSize, FetchPage, Before;
  }

  /** One request reads downward from the oldest candle held, leaving no hole. */
  lemma PageBelow(s: seq<Bar>, q: Query, p: Progress, low: nat) returns (m: nat)
    requires Ascending(s) && Holds(s, q, p, low) && q.bars > 0 && !FloorReached(q, p) && p.cursor.Some?
    ensures m <= low && Page(s, q, p) == s[m..low + 1]
    ensures m == low && q.PageSize() > 1 ==> low == 0 || s[low - 1].ts < q.WindowStart(s[low].ts)
  {
    LaterWindow(s, q, p, low);
    hide Query.WindowStart, Query.PageSize, FetchPage, Before, Holds, Page, FloorReached;
    var edge := s[low].ts;
    m := NewestOfWindow(s, Some(q.WindowStart(edge)), Some(edge), q.PageSize());
    BeforeIs(s, edge + 1, low + 1);
    BeforeIs(s, edge, low);
    BeforeInOrder(s, q.WindowStart(edge), edge);
  }

  lemma FirstPage(s: seq<Bar>, q: Query) returns (m: nat)
    requires Ascending(s) && q.bars > 0 && !FloorReached(q, START)
    ensures m <= Top(s, q) && Page(s, q, START) == s[m..Top(s, q)]
    ensures m == Top(s, q) ==>
            if q.anchor.Some? then m == 0 || s[m - 1].ts < q.WindowStart(q.anchor.value) else s == []
  {
    WindowIsForward(q);
    hide Query.WindowSeconds, Query.PageSize, FetchPage;
    var edge := q.anchor;
    assert edge.Some? ==> q.WindowStart(edge.value) <= edge.value;
    m := NewestOfWindow(s, if edge.Some? then Some(q.WindowStart(edge.value)) else None, edge, q.PageSize());
  }

  lemma BeforeAtLeast(s: seq<Bar>, t: int, n: nat)
    requires Ascending(s) && n <= |s| && (n > 0 ==> s[n - 1].ts < t)
    ensures n <= Before(s, t)
  {
  }

  lemma LaterPageHeld(s: seq<Bar>, q: Query, p: Progress, low: nat, m: nat, page: seq<Bar>)
    requires Ascending(s) && Holds(s, q, p, low) && p.cursor.Some?
    requires m <= low && page == s[m..low + 1]
    ensures Held(s, q, Progress(p.collected + page, p.requests + 1, p.cursor), m)
    ensures GoesOn(q, p, page) ==> Holds(s, q, Progress(p.collected + page, p.requests + 1, Some(page[0].ts)), m)
  {
  }

  lemma LaterPageEnds(s: seq<Bar>, q: Query, wanted: nat -> bool, p: Progress, low: nat, m: nat, page: seq<Bar>)
    requires Ascending(s) && low < Top(s, q) <= |s| && p.cursor == Some(s[low].ts)
    requires m <= low && page == s[m..low + 1] && !GoesOn(q, p, page) && !FloorReached(q, p)
    requires Top(s, q) - low < q.bars
    requires m == low ==> low == 0 || s[low - 1].ts < q.WindowStart(s[low].ts)
    ensures EndedAs(s, q, wanted, Progress(p.collected + page, p.requests + 1, p.cursor), m, EndingOf(q, p, page))
  {
    hide Query.WindowSeconds, Before, Top;
    assert page[0] == s[m];
    if q.after.Some? && page[0].ts <= q.after.value {
      BeforeAtLeast(s, q.after.value, m);
    } else {
      assert m == low by { assert s[m].ts >= s[low].ts; }
      if q.OnTheFloor(p.cursor.value) { BeforeAtLeast(s, q.after.value, m); }
    }
  }

  /** Where a request after the first leads. */
  lemma LaterRequest(s: seq<Bar>, q: Query, wanted: nat -> bool, p: Progress, low: nat) returns (m: nat)
    requires Ascending(s) && Holds(s, q, p, low) && |p.collected| < q.bars && !FloorReached(q, p) && p.cursor.Some?
    ensures
      var page := Page(s, q, p);
      && page != []
      && (GoesOn(q, p, page) ==> Holds(s, q, Progress(p.collected + page, p.requests + 1, Some(page[0].ts)), m))
      && (!GoesOn(q, p, page) ==>
            && Held(s, q, Progress(p.collected + page, p.requests + 1, p.cursor), m)
            && EndedAs(s, q, wanted, Progress(p.collected + page, p.requests + 1, p.cursor), m, EndingOf(q, p, page)))
  {
    m := PageBelow(s, q, p, low);
    var page := Page(s, q, p);
    assert |p.collected| >= 1 && q.PageSize() > 1;
    LaterPageHeld(s, q, p, low, m, page);
    hide Query.WindowSeconds, Query.PageSize, Page, Before, EndedAs, Held;
    if !GoesOn(q, p, page) {
      LaterPageEnds(s, q, wanted, p, low, m, page);
    }
  }

  lemma FirstPageHeld(s: seq<Bar>, q: Query, m: nat, page: seq<Bar>)
    requires Ascending(s) && m <= Top(s, q) <= |s| && page == s[m..Top(s, q)]
    ensures Held(s, q, Progress(page, 1, None), m)
    ensures GoesOn(q, START, page) ==> Holds(s, q, Progress(page, 1, Some(page[0].ts)), m)
  {
    hide Before, Top;
    if page != [] { assert page[0] == s[m]; }
  }

  lemma FirstRequest(s: seq<Bar>, q: Query, wanted: nat -> bool) returns (m: nat)
    requires Ascending(s) && q.bars > 0 && !FloorReached(q, START)
    ensures
      var page := Page(s, q, START);
      && (GoesOn(q, START, page) ==> Holds(s, q, Progress(page, 1, Some(page[0].ts)), m))
      && (!GoesOn(q, START, page) ==>
            && Held(s, q, Progress(page, 1, None), m)
            && EndedAs(s, q, wanted, Progress(page, 1, None), m, EndingOf(q, START, page)))
  {
    m := FirstPage(s, q);
    var page := Page(s, q, START);
    assert Top(s, q) <= |s|;
    hide Query.WindowSeconds, Query.PageSize, Page, Before, Top, EndedAs, Holds, Held;
    FirstPageHeld(s, q, m, page);
    if !GoesOn(q, START, page) {
      FirstEnds(s, q, wanted, m, page);
    }
  }

  lemma FirstEnds(s: seq<Bar>, q: Query, wanted: nat -> bool, m: nat, page: seq<Bar>)
    requires Ascending(s) && q.bars > 0 && m <= Top(s, q) <= |s| && page == s[m..Top(s, q)]
    requires m == Top(s, q) ==>
      if q.anchor.Some? then m == 0 || s[m - 1].ts < q.WindowStart(q.anchor.value) else s == []
    requires !GoesOn(q, START, page)
    ensures EndedAs(s, q, wanted, Progress(page, 1, None), m, EndingOf(q, START, page))
  {
    hide Query.WindowSeconds, Query.PageSize, Before;
    if page != [] || (q.anchor.Some? && q.OnTheFloor(q.anchor.value)) {
      BeforeAtLeast(s, q.after.value, m);
    }
  }

  /** One more request, whether it is the first or a later one. */
  lemma OneMoreRequest(s: seq<Bar>, q: Query, wanted: nat -> bool, p: Progress, low: nat) returns (m: nat)
    requires Ascending(s) && Holds(s, q, p, low) && |p.collected| < q.bars && !FloorReached(q, p)
    ensures
      var page := Page(s, q, p);
      && (GoesOn(q, p, page) ==> page != [] && Holds(s, q, Progress(p.collected + page, p.requests + 1, Some(page[0].ts)), m))
      && (!GoesOn(q, p, page) ==>
            && Held(s, q, Progress(p.collected + page, p.requests + 1, p.cursor), m)
            && EndedAs(s, q, wanted, Progress(p.collected + page, p.requests + 1, p.cursor), m, EndingOf(q, p, page)))
  {
    if p.cursor.Some? {
      m := LaterRequest(s, q, wanted, p, low);
    } else {
      NothingHeld(s, q, p, low);
      hide Page, Holds, Held, EndedAs, EndingOf, Before, Query.PageSize, Query.WindowSeconds;
      m := FirstRequest(s, q, wanted);
      assert [] + Page(s, q, p) == Page(s, q, p);
    }
  }

  lemma PagesNext(s: seq<Bar>, q: Query, wanted: nat -> bool, p: Progress)
    requires Ascending(s) && |p.collected| < q.bars && wanted(p.requests) && !FloorReached(q, p)
    ensures
      var page := Page(s, q, p);
      if GoesOn(q, p, page) then
        var next := Progress(p.collected + page, p.requests + 1, Some(page[0].ts));
        Pages(s, q, wanted, p) == Pages(s, q, wanted, next) && Left(s, next) < Left(s, p)
      else Pages(s, q, wanted, p) == (Progress(p.collected + page, p.requests + 1, p.cursor), EndingOf(q, p, page))
  {
  }

  lemma {:induction false} PagesHold(s: seq<Bar>, q: Query, wanted: nat -> bool, p: Progress, low: nat)
    returns (end: nat)
    requires Ascending(s) && Holds(s, q, p, low)
    ensures var (last, ending) := Pages(s, q, wanted, p);
      Held(s, q, last, end) && EndedAs(s, q, wanted, last, end, ending)
    decreases Left(s, p)
  {
    if |p.collected| >= q.bars || !wanted(p.requests) || FloorReached(q, p) {
      end := low;
    } else {
      PagesNext(s, q, wanted, p);
      hide Pages, Page, Left, EndedAs, Held, Holds, EndingOf, Ascending, FloorReached;
      var page := Page(s, q, p);
      end := OneMoreRequest(s, q, wanted, p, low);
      if GoesOn(q, p, page) {
        end := PagesHold(s, q, wanted, Progress(p.collected + page, p.requests + 1, Some(page[0].ts)), end);
      }
    }
  }

  lemma NothingHeld(s: seq<Bar>, q: Query, p: Progress, low: nat)
    requires Ascending(s) && Holds(s, q, p, low) && p.cursor.None?
    ensures p == START
  {
  }

  // ---- what a read answers ---------------------------------------------------------------------------------------

  function FloorIndex(s: seq<Bar>, q: Query): nat
    requires Ascending(s)
  {
    if q.after.Some? then Before(s, q.after.value) else 0
  }

  lemma TailOfSlice<T>(s: seq<T>, from: nat, k: nat, top: nat)
    requires from <= k <= top <= |s|
    ensures s[from..top][k - from..] == s[k..top]
  {
  }

  lemma SliceAscends(s: seq<Bar>, from: nat, top: nat)
    requires Ascending(s) && from <= top <= |s|
    ensures Ascending(s[from..top])
  {
  }

  /** How many of a slice are older than a moment: those of the series that are, less what the slice leaves out. */
  lemma BeforeInSlice(s: seq<Bar>, floor: int, low: nat, top: nat)
    requires Ascending(s) && low <= top <= |s|
    ensures Ascending(s[low..top])
    ensures
      var f := Before(s, floor);
      Before(s[low..top], floor) == if f <= low then 0 else if f <= top then f - low else top - low
  {
    var f := Before(s, floor);
    BeforeIs(s[low..top], floor, if f <= low then 0 else if f <= top then f - low else top - low);
  }

  lemma SliceNotBefore(s: seq<Bar>, q: Query, low: nat, top: nat)
    requires Ascending(s) && low <= top <= |s|
    ensures
      var from := if low <= FloorIndex(s, q) then FloorIndex(s, q) else low;
      NotBefore(s[low..top], q.after) == if from <= top then s[from..top] else []
  {
    var t, f := s[low..top], FloorIndex(s, q);
    SliceAscends(s, low, top);
    NotBeforeIs(t, q.after);
    if q.after.Some? {
      assert f == Before(s, q.after.value);
      BeforeInSlice(s, q.after.value, low, top);
      TailOfSlice(s, low, low + Before(t, q.after.value), top);
      hide *;
    }
  }

  lemma FinishedIs(s: seq<Bar>, q: Query, p: Progress, low: nat, ending: Ending)
    requires Ascending(s) && Held(s, q, p, low)
    ensures
      var from := if low <= FloorIndex(s, q) then FloorIndex(s, q) else low;
      Finish(q, p, ending).candles == Newest(if from <= Top(s, q) then s[from..Top(s, q)] else [], q.bars)
  {
    hide Before, FloorIndex, Top;
    SortedUniqueIs(p.collected, s[low..Top(s, q)]);
    SliceNotBefore(s, q, low, Top(s, q));
  }

  predicate Suffix<T(==)>(tail: seq<T>, whole: seq<T>) {
    |tail| <= |whole| && tail == whole[|whole| - |tail|..]
  }

  function Slice(s: seq<Bar>, from: nat, top: nat): seq<Bar>
    requires top <= |s|
  {
    if from <= top then s[from..top] else []
  }

  /** The newest of a slice are a slice themselves. */
  lemma NewestIsSlice(s: seq<Bar>, from: nat, top: nat, n: nat) returns (k: nat)
    requires from <= top <= |s|
    ensures from <= k <= top && Newest(Slice(s, from, top), n) == s[k..top]
  {
    k := if top - from <= n then from else top - n;
    TailOfSlice(s, from, k, top);
  }

  lemma SliceIsSuffix<T>(s: seq<T>, from: nat, k: nat, top: nat)
    requires from <= k <= top <= |s|
    ensures Suffix(s[k..top], s[from..top])
  {
    TailOfSlice(s, from, k, top);
  }

  lemma NewestOfSlice(s: seq<Bar>, f: nat, from: nat, top: nat, n: nat)
    requires Ascending(s) && f <= from && top <= |s|
    ensures Suffix(Newest(Slice(s, from, top), n), Slice(s, f, top))
    ensures Ascending(Newest(Slice(s, from, top), n))
  {
    if from <= top {
      var k := NewestIsSlice(s, from, top, n);
      SliceIsSuffix(s, f, k, top);
      SliceAscends(s, k, top);
      assert Slice(s, f, top) == s[f..top];
      hide *;
    } else {
      assert Newest(Slice(s, from, top), n) == [];
    }
  }

  lemma BetweenIsSlice(s: seq<Bar>, q: Query)
    requires Ascending(s)
    ensures Between(s, q.after, q.anchor) == Slice(s, FloorIndex(s, q), Top(s, q))
  {
  }

  /** Whatever the series and whenever the caller leaves, a read answers a hole-free tail of the candles between the
      floor and the anchor: in time order, each once, never more than was asked for. */
  lemma CollectIsSuffix(s: seq<Bar>, q: Query, wanted: nat -> bool)
    requires Ascending(s)
    ensures
      var answer := CollectSpec(s, q, wanted);
      && Suffix(answer.candles, Between(s, q.after, q.anchor))
      && Ascending(answer.candles) && |answer.candles| <= q.bars
  {
    var low := PagesHold(s, q, wanted, START, Top(s, q));
    var (p, ending) := Pages(s, q, wanted, START);
    FinishedIs(s, q, p, low, ending);
    BetweenIsSlice(s, q);
    hide Before, Pages, Finish, Between, FloorIndex, Top, EndedAs, Ascending, Suffix;
    var from := if low <= FloorIndex(s, q) then FloorIndex(s, q) else low;
    NewestOfSlice(s, FloorIndex(s, q), from, Top(s, q), q.bars);
  }

  ghost predicate NothingJustBelow(s: seq<Bar>, q: Query, oldest: Bar) {
    forall b :: b in s && b.ts < oldest.ts ==> b.ts < oldest.ts - q.WindowSeconds()
  }

  /** The first window has no candle: none of the width below the anchor, or, without an anchor, none at all. */
  ghost predicate FirstWindowEmpty(s: seq<Bar>, q: Query) {
    forall b :: b in s ==> q.anchor.Some? && !(q.anchor.value - q.WindowSeconds() <= b.ts <= q.anchor.value)
  }

  lemma FloorBelow(s: seq<Bar>, q: Query, low: nat)
    requires Ascending(s) && low < |s| && (q.after.Some? ==> q.after.value < s[low].ts)
    ensures FloorIndex(s, q) <= low
  {
  }

  lemma QuotaEnds(s: seq<Bar>, q: Query, wanted: nat -> bool, p: Progress, low: nat)
    requires Ascending(s) && Held(s, q, p, low) && EndedAs(s, q, wanted, p, low, Quota)
    ensures q.bars <= |Finish(q, p, Quota).candles| + (if p.requests == 0 then 0 else p.requests - 1)
  {
    FinishedIs(s, q, p, low, Quota);
    if low < Top(s, q) { FloorBelow(s, q, low); }
    hide Before, Top, FloorIndex;
  }

  lemma UnwantedEnds(s: seq<Bar>, q: Query, wanted: nat -> bool, p: Progress, low: nat)
    requires Ascending(s) && Held(s, q, p, low) && EndedAs(s, q, wanted, p, low, Unwanted)
    ensures |Finish(q, p, Unwanted).candles| < q.bars && !wanted(Finish(q, p, Unwanted).requests)
  {
    FinishedIs(s, q, p, low, Unwanted);
    hide Before, Top, FloorIndex, Sorted, Unique, NotBefore;
  }

  lemma FloorEnds(s: seq<Bar>, q: Query, wanted: nat -> bool, p: Progress, low: nat)
    requires Ascending(s) && Held(s, q, p, low) && EndedAs(s, q, wanted, p, low, Floor)
    ensures p.requests > 0 ==> Finish(q, p, Floor).candles == Newest(Between(s, q.after, q.anchor), q.bars)
  {
    FinishedIs(s, q, p, low, Floor);
    BetweenIsSlice(s, q);
    hide Before, Top, Between;
  }

  lemma NothingBelowAnchor(s: seq<Bar>, q: Query, top: nat)
    requires Ascending(s) && top == Top(s, q)
    requires if q.anchor.Some? then GapBelow(s, q, top, q.anchor.value) else s == []
    ensures FirstWindowEmpty(s, q)
  {
    hide Query.WindowSeconds;
  }

  lemma NothingOlderEnds(s: seq<Bar>, q: Query, wanted: nat -> bool, p: Progress, low: nat)
    requires Ascending(s) && Held(s, q, p, low) && EndedAs(s, q, wanted, p, low, NothingOlder)
    ensures
      var answer := Finish(q, p, NothingOlder);
      && |answer.candles| < q.bars
      && (answer.historyEnded <==> answer.candles != [])
      && (if answer.candles != [] then NothingJustBelow(s, q, answer.candles[0]) else FirstWindowEmpty(s, q))
  {
    var top := Top(s, q);
    FinishedIs(s, q, p, low, NothingOlder);
    if low < top {
      WindowIsForward(q);
      FloorBelow(s, q, low);
      hide Before, Top, Query.WindowSeconds, FloorIndex;
      assert s[low] in s[low..top];
      assert Finish(q, p, NothingOlder).candles == s[low..top];
      forall b | b in s && b.ts < s[low].ts ensures b.ts < s[low].ts - q.WindowSeconds() {
        var i :| 0 <= i < |s| && s[i] == b;
        assert i < low;
      }
    } else {
      NothingBelowAnchor(s, q, top);
      hide Before, Top, Query.WindowSeconds;
      assert s[low..top] == [];
      if p.collected != [] { HasAMember(p.collected); }
    }
  }

  /** Why a read is short, by how the paging ended. With the quota met it misses at most the candles repeated at the page
      edges; it leaves only where the caller said so; at the floor it misses nothing; where nothing older was found, it holds
      all there was above a full-width window without a candle, or the first window had none, and only with a candle in hand
      is the history then said to have ended. */
  lemma CollectEnds(s: seq<Bar>, q: Query, wanted: nat -> bool)
    requires Ascending(s)
    ensures
      var (p, ending) := Pages(s, q, wanted, START);
      var answer := CollectSpec(s, q, wanted);
      && (ending == Quota ==> q.bars <= |answer.candles| + (if answer.requests == 0 then 0 else answer.requests - 1))
      && (ending == Unwanted ==> |answer.candles| < q.bars && !wanted(answer.requests))
      && (ending == Floor ==>
            && q.after.Some?
            && (if answer.requests == 0 then q.anchor.Some? && q.anchor.value <= q.after.value
                else answer.candles == Newest(Between(s, q.after, q.anchor), q.bars)))
      && (ending == NothingOlder ==>
            && |answer.candles| < q.bars
            && (if answer.candles != [] then NothingJustBelow(s, q, answer.candles[0]) else FirstWindowEmpty(s, q)))
      && (answer.historyEnded <==> ending == NothingOlder && answer.candles != [])
  {
    var low := PagesHold(s, q, wanted, START, Top(s, q));
    var (p, ending) := Pages(s, q, wanted, START);
    match ending {
      case Quota => QuotaEnds(s, q, wanted, p, low);
      case Unwanted => UnwantedEnds(s, q, wanted, p, low);
      case Floor => FloorEnds(s, q, wanted, p, low);
      case NothingOlder => NothingOlderEnds(s, q, wanted, p, low);
    }
    hide Held, Pages, Before, Between, Newest, Unique, Sorted, NotBefore, NothingJustBelow, FirstWindowEmpty;
  }

  /** What a claimed end of history rests on: nothing of the series lies within one window below the oldest candle. */
  lemma ClaimedEndIsAGap(s: seq<Bar>, q: Query, wanted: nat -> bool)
    requires Ascending(s) && CollectSpec(s, q, wanted).historyEnded
    ensures CollectSpec(s, q, wanted).candles != []
    ensures exists i :: 0 <= i < |s| && s[i] == CollectSpec(s, q, wanted).candles[0]
                        && (i > 0 ==> s[i].ts - s[i - 1].ts > q.WindowSeconds())
  {
    CollectEnds(s, q, wanted);
    CollectIsSuffix(s, q, wanted);
    hide CollectSpec, Pages, Query.WindowSeconds;
    var oldest := CollectSpec(s, q, wanted).candles[0];
    SuffixIsOf(s, q, CollectSpec(s, q, wanted).candles);
    var i :| 0 <= i < |s| && s[i] == oldest;
    assert i > 0 ==> s[i - 1] in s;
  }

  lemma SuffixIsOf(s: seq<Bar>, q: Query, tail: seq<Bar>)
    requires Ascending(s) && Suffix(tail, Between(s, q.after, q.anchor)) && tail != []
    ensures tail[0] in s
  {
  }

  const STAYS: nat -> bool := n => true

  /** The end of history this read claims, if it claims one, is the series' own. */
  ghost predicate ClaimIsTrue(s: seq<Bar>, q: Query)
    requires Ascending(s)
  {
    var answer := CollectSpec(s, q, STAYS);
    answer.historyEnded ==> answer.candles != [] && s != [] && answer.candles[0] == s[0]
  }

  /** No two neighbours of the series are further apart than one window. */
  ghost predicate Close(s: seq<Bar>, window: int) {
    forall i :: 0 < i < |s| ==> s[i].ts - s[i - 1].ts <= window
  }

  /** A read that starts at the candle above a hole wider than a window takes the hole for the end. */
  lemma HoleReadsAsTheEnd(s: seq<Bar>, r: Resolution, bars: nat, i: nat)
    requires Ascending(s) && bars >= 2 && 0 < i < |s|
    requires s[i].ts - s[i - 1].ts > Query(r, bars, Some(s[i].ts), None).WindowSeconds()
    ensures CollectSpec(s, Query(r, bars, Some(s[i].ts), None), STAYS) == Collected([s[i]], 2, true)
  {
    var q := Query(r, bars, Some(s[i].ts), None);
    var p := Progress([] + [s[i]], 1, Some(s[i].ts));
    var last := Progress(p.collected + [s[i]], 2, Some(s[i].ts));
    WindowIsForward(q);
    HolePage(s, q, START, i);
    HolePage(s, q, p, i);
    hide Before, Between, Page, Query.WindowSeconds, Query.PageSize, Ascending, Pages, Left;
    PagesNext(s, q, STAYS, START);
    PagesNext(s, q, STAYS, p);
    assert Pages(s, q, STAYS, START) == (last, NothingOlder);
    assert Ascending([s[i]]) by { OneAscends(s[i]); }
    SortedUniqueIs(last.collected, [s[i]]);
    NotBeforeIs([s[i]], None);
  }

  lemma OneAscends(c: Bar)
    ensures Ascending([c])
  {
  }

  /** The window below the candle above the hole holds that candle alone. */
  lemma HolePage(s: seq<Bar>, q: Query, p: Progress, i: nat)
    requires Ascending(s) && q.bars >= 2 && q.after == None && 0 < i < |s| && Edge(q, p) == Some(s[i].ts)
    requires s[i].ts - s[i - 1].ts > q.WindowSeconds()
    ensures Page(s, q, p) == [s[i]]
  {
    WindowIsForward(q);
    var window := q.WindowSeconds();
    hide Query.WindowSeconds;
    BeforeIs(s, s[i].ts + 1, i + 1);
    BeforeIs(s, s[i].ts - window, i);
    hide Before;
    assert Between(s, Some(s[i].ts - window), Some(s[i].ts)) == s[i..i + 1] == [s[i]];
    hide Between;
  }

  /** Every end of history a read without a floor may claim, from whatever anchor, is the provider's own exactly when no
      two neighbouring candles of its series are further apart than one window. */
  lemma HistoryEndedIsTrueExactly(s: seq<Bar>, r: Resolution, bars: nat)
    requires Ascending(s) && bars >= 2
    ensures (forall anchor {:trigger ClaimIsTrue(s, Query(r, bars, anchor, None))} ::
               ClaimIsTrue(s, Query(r, bars, anchor, None)))
       <==> Close(s, Query(r, bars, None, None).WindowSeconds())
  {
    var window := Query(r, bars, None, None).WindowSeconds();
    if Close(s, window) {
      forall anchor ensures ClaimIsTrue(s, Query(r, bars, anchor, None)) {
        CloseClaimsAreTrue(s, Query(r, bars, anchor, None), STAYS);
      }
    } else {
      var i :| 0 < i < |s| && s[i].ts - s[i - 1].ts > window;
      HoleReadsAsTheEnd(s, r, bars, i);
      assert !ClaimIsTrue(s, Query(r, bars, Some(s[i].ts), None));
    }
  }

  /** Over a series without such a hole no claim is ever wrong, with a floor or without, whenever the caller leaves. */
  lemma CloseClaimsAreTrue(s: seq<Bar>, q: Query, wanted: nat -> bool)
    requires Ascending(s) && Close(s, q.WindowSeconds())
    ensures var answer := CollectSpec(s, q, wanted);
      answer.historyEnded ==> answer.candles != [] && s != [] && answer.candles[0] == s[0]
  {
    if CollectSpec(s, q, wanted).historyEnded {
      ClaimedEndIsAGap(s, q, wanted);
    }
  }

  const SHUT := [Bar(0, 1.0), Bar(600, 1.0), Bar(660, 1.0)]
  const ASKED := Query(Minute, 3, Some(660), None)

  lemma ClosurePages(p: Progress)
    requires p.cursor == Some(600)
    ensures Ascending(SHUT) && Page(SHUT, ASKED, START) == SHUT[1..] && Page(SHUT, ASKED, p) == [SHUT[1]]
  {
    BeforeIs(SHUT, 661, 3);
    BeforeIs(SHUT, 540, 1);
    BeforeIs(SHUT, 601, 2);
    BeforeIs(SHUT, 480, 1);
    hide Before;
  }

  const UPPER := [Bar(600, 1.0), Bar(660, 1.0)]
  const READ := Progress([Bar(600, 1.0), Bar(660, 1.0), Bar(600, 1.0)], 2, Some(600))

  const HALFWAY := Progress([Bar(600, 1.0), Bar(660, 1.0)], 1, Some(600))

  lemma FirstClosurePage()
    requires Ascending(SHUT)
    ensures Pages(SHUT, ASKED, STAYS, START) == Pages(SHUT, ASKED, STAYS, HALFWAY)
  {
    ClosurePages(HALFWAY);
    assert HALFWAY.collected == [] + SHUT[1..];
    hide Before, Between, Page, Query.WindowSeconds, Query.PageSize, Pages, Left, Ascending;
    PagesNext(SHUT, ASKED, STAYS, START);
  }

  lemma SecondClosurePage()
    requires Ascending(SHUT)
    ensures Pages(SHUT, ASKED, STAYS, HALFWAY) == (READ, NothingOlder)
  {
    ClosurePages(HALFWAY);
    assert READ.collected == HALFWAY.collected + [SHUT[1]];
    hide Before, Between, Page, Query.WindowSeconds, Query.PageSize, Pages, Left, Ascending;
    PagesNext(SHUT, ASKED, STAYS, HALFWAY);
  }

  lemma ClosureIsAnswered()
    ensures Finish(ASKED, READ, NothingOlder) == Collected(UPPER, 2, true)
  {
    hide Sorted, Unique, NotBefore;
    SortedUniqueIs(READ.collected, UPPER);
    NotBeforeIs(UPPER, None);
  }

  /** A market shut for longer than a window reads as the end of its history. */
  lemma LongClosureReadsAsTheEnd()
    ensures Ascending(SHUT) && CollectSpec(SHUT, ASKED, STAYS) == Collected(SHUT[1..], 2, true)
  {
    assert Ascending(SHUT) && SHUT[1..] == UPPER;
    hide Pages, Finish, Ascending;
    FirstClosurePage();
    SecondClosurePage();
    ClosureIsAnswered();
  }

  // ---- how wide a window is --------------------------------------------------------------------------------------

  /** No two candles are closer than a period. */
  ghost predicate PeriodApart(s: seq<Bar>, r: Resolution) {
    forall i :: 0 < i < |s| ==> s[i].ts - s[i - 1].ts >= PeriodSeconds(r)
  }

  lemma {:induction false} StretchAtLeast(s: seq<Bar>, r: Resolution, i: nat, j: nat)
    requires PeriodApart(s, r) && i <= j < |s|
    ensures s[j].ts - s[i].ts >= (j - i) * PeriodSeconds(r)
    decreases j
  {
    if i < j {
      StretchAtLeast(s, r, i, j - 1);
      hide PeriodSeconds;
      assert s[j].ts - s[j - 1].ts >= PeriodSeconds(r);
      assert (j - i) * PeriodSeconds(r) == (j - 1 - i) * PeriodSeconds(r) + PeriodSeconds(r);
    }
  }

  lemma FewerPeriods(n: int, m: int, period: int)
    requires period > 0 && n * period <= m * period
    ensures n <= m
  {
  }

  lemma PeriodsBetween(k: int, n: int, period: int)
    ensures (k + 1 - n) * period == k * period - (n - 1) * period
  {
  }

  lemma FewInAWindow(s: seq<Bar>, q: Query, low: nat, last: nat)
    requires Ascending(s) && PeriodApart(s, q.resolution) && q.bars > 0
    requires low <= last < |s| && s[last].ts - s[low].ts <= q.WindowSeconds()
    ensures last - low + 1 <= q.PageSize()
  {
    StretchAtLeast(s, q.resolution, low, last);
    hide PeriodSeconds, PeriodApart, Ascending;
    FewerPeriods(last - low, q.PageSize() - 1, PeriodSeconds(q.resolution));
  }

  /** A window never holds more than a page: what a request asks for, it gets whole. */
  lemma WindowFitsAPage(s: seq<Bar>, q: Query, edge: int)
    requires Ascending(s) && PeriodApart(s, q.resolution) && q.bars > 0
    ensures FetchPage(s, Some(q.WindowStart(edge)), Some(edge), q.PageSize()) == Between(s, Some(q.WindowStart(edge)), Some(edge))
  {
    hide Query.WindowSeconds, Query.PageSize, PeriodSeconds, PeriodApart;
    var low, high := Before(s, q.WindowStart(edge)), Before(s, edge + 1);
    if low < high {
      FewInAWindow(s, q, low, high - 1);
    }
    hide Before, Query.WindowStart;
  }

  lemma PageBegins(s: seq<Bar>, q: Query, k: nat)
    requires q.bars > 0 && k < |s| && k + 1 >= q.PageSize()
    requires forall i :: 0 <= i < |s| ==> s[i].ts == s[0].ts + i * PeriodSeconds(q.resolution)
    ensures s[k].ts - q.WindowSeconds() == s[k + 1 - q.PageSize()].ts
  {
    hide PeriodSeconds;
    PeriodsBetween(k, q.PageSize(), PeriodSeconds(q.resolution));
    assert s[k + 1 - q.PageSize()].ts == s[0].ts + (k + 1 - q.PageSize()) * PeriodSeconds(q.resolution);
    hide Query.PageSize;
  }

  /** And over a series with a candle in every period it holds just a page: a thousand candles, or as many as were asked
      for. */
  lemma WindowFillsAPage(s: seq<Bar>, q: Query, k: nat)
    requires Ascending(s) && q.bars > 0 && q.after == None && k < |s| && k + 1 >= (if q.bars < 1000 then q.bars else 1000)
    requires forall i :: 0 <= i < |s| ==> s[i].ts == s[0].ts + i * PeriodSeconds(q.resolution)
    ensures |FetchPage(s, Some(q.WindowStart(s[k].ts)), Some(s[k].ts), q.PageSize())| == if q.bars < 1000 then q.bars else 1000
  {
    PageBegins(s, q, k);
    PageFrom(s, q, k, k + 1 - q.PageSize());
    hide Query.WindowSeconds, PeriodSeconds, FetchPage;
  }

  lemma PageFrom(s: seq<Bar>, q: Query, k: nat, first: nat)
    requires Ascending(s) && q.after == None && first <= k < |s| && s[k].ts - q.WindowSeconds() == s[first].ts
    requires k + 1 - first == q.PageSize()
    ensures |FetchPage(s, Some(q.WindowStart(s[k].ts)), Some(s[k].ts), q.PageSize())| == q.PageSize()
  {
    hide Query.WindowSeconds, Query.PageSize;
    BeforeIs(s, s[k].ts + 1, k + 1);
    BeforeIs(s, s[first].ts, first);
    hide Before;
  }
}
