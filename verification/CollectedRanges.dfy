/**
 What has been collected of each outcome's prices. One statement merges one window into the ranges of many outcomes; the
 tick of the sampling loop is what calls it, with windows made to touch while the loop runs without a break.
 */
module CollectedRanges {
  import opened Coverage
  import opened Wrappers

  type OutcomeId = nat

  /** The table knows no boundary: only from when to when. */
  function Window(start: Moment, end: Moment): Range { Range(start, end, false, None) }

  ghost predicate Plain(rows: set<Range>) { Apart(rows) && forall r :: r in rows ==> !r.historyEnded && r.endsAt == None }

  /** One outcome's part of the statement: what touches the window is deleted, and the stretch they make together put in its
      place — unless that runs backwards, which the table refuses. */
  ghost function MergeOne(rows: set<Range>, w: Range): Option<set<Range>> {
    var near := Neighbours(rows, w);
    var merged := Hull(near + {w});
    if merged.end < merged.start then None else Some(rows - near + {merged})
  }

  function RowsOf(table: map<OutcomeId, set<Range>>, o: OutcomeId): set<Range> {
    if o in table then table[o] else {}
  }

  ghost predicate Refuses(table: map<OutcomeId, set<Range>>, outcomes: seq<OutcomeId>, w: Range) {
    exists o :: o in outcomes && MergeOne(RowsOf(table, o), w).None?
  }

  /** The one statement over all of them: refused whole if any part is. */
  ghost function Batch(table: map<OutcomeId, set<Range>>, outcomes: seq<OutcomeId>, w: Range)
    : Option<map<OutcomeId, set<Range>>>
  {
    if Refuses(table, outcomes, w) then None
    else Some(map o | o in table.Keys + (set x | x in outcomes) ::
                if o in outcomes then MergeOne(RowsOf(table, o), w).value else RowsOf(table, o))
  }

  /** The same window recorded for one outcome after another, with a statement each. */
  ghost function OneByOne(table: map<OutcomeId, set<Range>>, outcomes: seq<OutcomeId>, w: Range)
    : Option<map<OutcomeId, set<Range>>>
  {
    if outcomes == [] then Some(table)
    else
      var before := OneByOne(table, outcomes[..|outcomes| - 1], w);
      if before.None? then None
      else
        var o := outcomes[|outcomes| - 1];
        var rows := MergeOne(RowsOf(before.value, o), w);
        if rows.None? then None else Some(before.value[o := rows.value])
  }

  // ---- the merge is the coverage table's -------------------------------------------------------------------------

  lemma HullOfPlain(near: set<Range>, w: Range)
    requires w == Window(w.start, w.end) && forall r :: r in near ==> !r.historyEnded && r.endsAt == None
    ensures !Hull(near + {w}).historyEnded && Hull(near + {w}).endsAt == None
  {
  }

  /** A window that runs forwards is merged as a verified stretch is, and is never refused. */
  lemma MergeIsRecord(rows: set<Range>, w: Range)
    requires Plain(rows) && w == Window(w.start, w.end) && w.start <= w.end
    ensures MergeOne(rows, w).Some? && Record(rows, w) == Success(MergeOne(rows, w).value)
    ensures Plain(MergeOne(rows, w).value)
  {
    var near := Neighbours(rows, w);
    HullOfPlain(near, w);
    assert w in near + {w};
    assert Record(rows, w) == Success(MergeOne(rows, w).value);
    RecordKeepsSound(rows, w);
  }

  /** A window that runs backwards changes nothing where one stored range holds both its ends, and is refused everywhere
      else. */
  lemma BackwardsWindow(rows: set<Range>, w: Range)
    requires Plain(rows) && w == Window(w.start, w.end) && w.end < w.start
    ensures MergeOne(rows, w) ==
      if exists r :: r in rows && r.start <= w.end && w.start <= r.end then Some(rows) else None
  {
    var near := Neighbours(rows, w);
    if r :| r in rows && r.start <= w.end && w.start <= r.end {
      forall q | q in near ensures q == r {
        assert q.Touches(r);
      }
      assert near == {r};
      assert IsHull(r, near + {w}) by { assert r in near + {w}; }
      HullIsUnique(Hull(near + {w}), r, near + {w});
      assert rows - near + {r} == rows;
    } else {
      assert near == {};
      assert {} + {w} == {w};
      assert IsHull(w, {w}) by { assert w in {w}; }
      HullIsUnique(Hull(near + {w}), w, {w});
    }
  }

  /** Recording a window again changes nothing. */
  lemma MergeAgain(rows: set<Range>, w: Range)
    requires Plain(rows) && w == Window(w.start, w.end) && MergeOne(rows, w).Some?
    ensures MergeOne(MergeOne(rows, w).value, w) == MergeOne(rows, w) && Plain(MergeOne(rows, w).value)
  {
    if w.end < w.start {
      BackwardsWindow(rows, w);
    } else {
      MergeIsRecord(rows, w);
      var near := Neighbours(rows, w);
      var m, after := Hull(near + {w}), MergeOne(rows, w).value;
      assert w in near + {w} && m in after && m.Touches(w);
      forall r | r in Neighbours(after, w) ensures r == m {
        assert r.Touches(m);
      }
      assert Neighbours(after, w) == {m};
      assert IsHull(m, {m} + {w}) by {
        HullOfPlain(near, w);
        assert m in {m} + {w};
      }
      HullIsUnique(Hull({m} + {w}), m, {m} + {w});
      assert after - {m} + {m} == after;
    }
  }

  // ---- one statement for many is one for each --------------------------------------------------------------------

  /** The batch does to each outcome what a statement of its own would, however often it is named and in whatever order;
      and it is refused exactly when one of those would be. */
  lemma {:induction false} BatchIsOneByOne(table: map<OutcomeId, set<Range>>, outcomes: seq<OutcomeId>, w: Range)
    requires (forall o :: o in table ==> Plain(table[o])) && w == Window(w.start, w.end)
    ensures Batch(table, outcomes, w) == OneByOne(table, outcomes, w)
  {
    if outcomes == [] {
      assert Batch(table, [], w).value == table;
    } else {
      var most, last := outcomes[..|outcomes| - 1], outcomes[|outcomes| - 1];
      assert outcomes == most + [last];
      BatchIsOneByOne(table, most, w);
      RefusesMore(table, most, last, w);
      hide MergeOne;
      if !Refuses(table, most, w) {
        OneMore(table, most, last, w);
      }
    }
  }

  lemma RefusesMore(table: map<OutcomeId, set<Range>>, most: seq<OutcomeId>, last: OutcomeId, w: Range)
    ensures Refuses(table, most + [last], w) <==> Refuses(table, most, w) || MergeOne(RowsOf(table, last), w).None?
  {
  }

  lemma BatchMore(table: map<OutcomeId, set<Range>>, most: seq<OutcomeId>, last: OutcomeId, w: Range)
    requires !Refuses(table, most + [last], w) && !Refuses(table, most, w)
    requires last in most ==> MergeOne(MergeOne(RowsOf(table, last), w).value, w) == MergeOne(RowsOf(table, last), w)
    ensures var rows := MergeOne(RowsOf(Batch(table, most, w).value, last), w);
      rows.Some? && Batch(table, most + [last], w) == Some(Batch(table, most, w).value[last := rows.value])
  {
    hide MergeOne;
    assert last in most + [last];
    var rows := MergeOne(RowsOf(Batch(table, most, w).value, last), w);
    assert rows == MergeOne(RowsOf(table, last), w);
    assert Batch(table, most + [last], w).value == Batch(table, most, w).value[last := rows.value];
  }

  lemma OneMore(table: map<OutcomeId, set<Range>>, most: seq<OutcomeId>, last: OutcomeId, w: Range)
    requires (forall o :: o in table ==> Plain(table[o])) && w == Window(w.start, w.end)
    requires !Refuses(table, most, w)
    ensures var rows := MergeOne(RowsOf(Batch(table, most, w).value, last), w);
      Batch(table, most + [last], w) == if rows.None? then None else Some(Batch(table, most, w).value[last := rows.value])
  {
    RefusesMore(table, most, last, w);
    if last in most {
      MergeAgain(RowsOf(table, last), w);
    }
    hide MergeOne;
    if Refuses(table, most + [last], w) {
      assert RowsOf(Batch(table, most, w).value, last) == RowsOf(table, last);
    } else {
      BatchMore(table, most, last, w);
    }
  }

  // ---- the ticks of a loop that does not stop are one range ------------------------------------------------------

  const CONTINUITY_PASSES := 10.0

  function CoveredFrom(previous: Option<Moment>, at: Moment, interval: Moment): Moment {
    if previous.None? then at - interval
    else if at - previous.value > interval * CONTINUITY_PASSES then at - interval
    else if previous.value <= at - interval then previous.value else at - interval
  }

  /** The ranges after ticks at these times, each window reaching back as the tick before it lets it. */
  ghost function AfterTicks(ticks: seq<Moment>, interval: Moment): Option<set<Range>> {
    if ticks == [] then Some({})
    else
      var before, at := AfterTicks(ticks[..|ticks| - 1], interval), ticks[|ticks| - 1];
      var previous := if |ticks| == 1 then None else Some(ticks[|ticks| - 2]);
      if before.None? then None else MergeOne(before.value, Window(CoveredFrom(previous, at, interval), at))
  }

  /** No silence between two ticks was long enough to be a stall. */
  ghost predicate Unbroken(ticks: seq<Moment>, interval: Moment) {
    forall i :: 0 < i < |ticks| ==> ticks[i - 1] <= ticks[i] <= ticks[i - 1] + interval * CONTINUITY_PASSES
  }

  /** While the loop runs without a stall, everything since one interval before its first tick is one range, up to its last
      tick. */
  lemma {:induction false} TicksAreOneRange(ticks: seq<Moment>, interval: Moment) returns (r: Range)
    requires ticks != [] && interval > 0.0 && Unbroken(ticks, interval)
    ensures AfterTicks(ticks, interval).Some? && Plain(AfterTicks(ticks, interval).value)
    ensures r in AfterTicks(ticks, interval).value && r.start <= ticks[0] - interval && ticks[|ticks| - 1] <= r.end
    ensures ticks[0] <= ticks[|ticks| - 1]
    decreases |ticks|
  {
    var most, at := ticks[..|ticks| - 1], ticks[|ticks| - 1];
    if most == [] {
      var w := Window(at - interval, at);
      assert AfterTicks([], interval) == Some({});
      MergeIsRecord({}, w);
      r := Hull(Neighbours({}, w) + {w});
      assert w in Neighbours({}, w) + {w};
    } else {
      forall i | 0 < i < |most| ensures most[i - 1] <= most[i] <= most[i - 1] + interval * CONTINUITY_PASSES {
        assert ticks[i - 1] <= ticks[i] <= ticks[i - 1] + interval * CONTINUITY_PASSES;
      }
      var q := TicksAreOneRange(most, interval);
      var rows := AfterTicks(most, interval).value;
      var w := Window(CoveredFrom(Some(ticks[|ticks| - 2]), at, interval), at);
      assert w.start <= ticks[|ticks| - 2] <= q.end;
      MergeIsRecord(rows, w);
      assert q.WellFormed();
      var near := Neighbours(rows, w);
      r := Hull(near + {w});
      assert q.start <= ticks[0] <= w.end;
      assert q in near + {w} && w in near + {w};
    }
  }

  /** A window reaches the tick before it exactly when the silence between them was no stall. */
  lemma AfterAStall(previous: Moment, at: Moment, interval: Moment)
    requires interval > 0.0 && previous <= at
    ensures CoveredFrom(Some(previous), at, interval) <= previous <==> at - previous <= interval * CONTINUITY_PASSES
  {
  }

  ghost predicate InOrder(ticks: seq<Moment>) { forall i :: 0 < i < |ticks| ==> ticks[i - 1] <= ticks[i] }

  /** The tick vouches for the interval before it, and for all since the tick before it where ten intervals or fewer lie
      between them. */
  ghost predicate Vouches(ticks: seq<Moment>, i: nat, interval: Moment, t: Moment)
    requires i < |ticks|
  {
    && t <= ticks[i]
    && (ticks[i] - interval <= t || (i > 0 && ticks[i] - ticks[i - 1] <= 10.0 * interval && ticks[i - 1] <= t))
  }

  ghost predicate Vouched(ticks: seq<Moment>, interval: Moment, t: Moment) {
    exists i :: 0 <= i < |ticks| && Vouches(ticks, i, interval, t)
  }

  lemma OneMoreTick(rows: set<Range>, ticks: seq<Moment>, interval: Moment, t: Moment)
    requires ticks != [] && interval > 0.0 && InOrder(ticks) && Plain(rows)
    requires AfterTicks(ticks[..|ticks| - 1], interval) == Some(rows)
    ensures AfterTicks(ticks, interval).Some? && Plain(AfterTicks(ticks, interval).value)
    ensures Covers(AfterTicks(ticks, interval).value, t) <==> Covers(rows, t) || Vouches(ticks, |ticks| - 1, interval, t)
  {
    var last := |ticks| - 1;
    var previous := if last == 0 then None else Some(ticks[last - 1]);
    var w := Window(CoveredFrom(previous, ticks[last], interval), ticks[last]);
    assert AfterTicks(ticks, interval) == MergeOne(rows, w);
    assert w.Contains(t) <==> Vouches(ticks, last, interval, t);
    assert w.start <= w.end;
    assert forall r :: r in rows ==> r.WellFormed();
    hide AfterTicks, CoveredFrom, Vouches, InOrder;
    MergeIsRecord(rows, w);
    RecordAddsExactly(rows, w, t);
    hide MergeOne, Record, Plain, Covers;
  }

  lemma OneMoreVouches(ticks: seq<Moment>, interval: Moment, t: Moment)
    requires ticks != []
    ensures Vouched(ticks, interval, t) <==>
      Vouched(ticks[..|ticks| - 1], interval, t) || Vouches(ticks, |ticks| - 1, interval, t)
  {
    var most := ticks[..|ticks| - 1];
    forall i | 0 <= i < |most| ensures Vouches(ticks, i, interval, t) <==> Vouches(most, i, interval, t) {
    }
    hide Vouches;
  }

  /** After any ticks, stalled or not, exactly the moments that some tick vouches for are collected: nothing from more than an
      interval before the first, and nothing of a stall but the interval before the tick that ended it. */
  lemma {:induction false} TicksCoverExactly(ticks: seq<Moment>, interval: Moment, t: Moment)
    requires interval > 0.0 && InOrder(ticks)
    ensures AfterTicks(ticks, interval).Some? && Plain(AfterTicks(ticks, interval).value)
    ensures Covers(AfterTicks(ticks, interval).value, t) <==> Vouched(ticks, interval, t)
  {
    if ticks == [] {
      NothingIsPlain();
    } else {
      var most := ticks[..|ticks| - 1];
      TicksCoverExactly(most, interval, t);
      hide Plain, Covers, Vouched, Vouches;
      OneMoreTick(AfterTicks(most, interval).value, ticks, interval, t);
      OneMoreVouches(ticks, interval, t);
    }
  }

  // ---- the table as the source updates it ------------------------------------------------------------------------

  class RangeTable {
    var table: map<OutcomeId, set<Range>>

    ghost predicate Valid()
      reads this
    {
      forall o :: o in table ==> Plain(table[o])
    }

    /** All that touches the window, and the window, as one stretch. */
    method Merged(rows: set<Range>, w: Range) returns (merged: Range)
      ensures merged == Hull(Neighbours(rows, w) + {w})
    {
      var near := Neighbours(rows, w);
      var todo := near;
      merged := w;
      while todo != {}
        invariant todo <= near && IsHull(merged, near - todo + {w})
        decreases todo
      {
        var r :| r in todo;
        AbsorbExtendsHull(merged, near - todo + {w}, r);
        assert near - todo + {w} + {r} == near - (todo - {r}) + {w};
        merged, todo := Absorb(merged, r), todo - {r};
      }
      assert near - todo + {w} == near + {w};
      HullIsUnique(merged, Hull(near + {w}), near + {w});
    }

    /** One outcome's ranges with the window among them, unless together they would run backwards. */
    method WithWindow(rows: set<Range>, w: Range) returns (after: Option<set<Range>>)
      ensures after == MergeOne(rows, w)
    {
      var merged := Merged(rows, w);
      after := if merged.end < merged.start then None else Some(rows - Neighbours(rows, w) + {merged});
    }

    /** The window against every outcome named, in one statement: all of it or nothing. */
    method RecordCollectedMany(outcomes: seq<OutcomeId>, start: Moment, end: Moment) returns (done: bool)
      requires Valid()
      modifies this
      ensures Valid()
      ensures match Batch(old(table), outcomes, Window(start, end))
        case Some(next) => done && table == next
        case None => !done && table == old(table)
    {
      var w := Window(start, end);
      BatchIsOneByOne(table, outcomes, w);
      NoneByOne(table, outcomes, w);
      hide Batch, MergeOne, Plain, OneByOne;
      var next := table;
      for i := 0 to |outcomes|
        invariant table == old(table) && OneByOne(table, outcomes[..i], w) == Some(next)
        invariant forall o :: o in next ==> Plain(next[o])
      {
        var o := outcomes[i];
        assert Plain(RowsOf(next, o)) by { NothingIsPlain(); }
        NextByOne(table, outcomes, i, w, next);
        var rows := WithWindow(RowsOf(next, o), w);
        if rows.None? {
          RefusedOnce(table, outcomes, i + 1, w);
          return false;
        }
        MergeAgain(RowsOf(next, o), w);
        next := next[o := rows.value];
      }
      assert outcomes[..|outcomes|] == outcomes;
      table := next;
      done := true;
    }
  }

  lemma NoneByOne(table: map<OutcomeId, set<Range>>, outcomes: seq<OutcomeId>, w: Range)
    ensures OneByOne(table, outcomes[..0], w) == Some(table)
  {
  }

  lemma NextByOne(table: map<OutcomeId, set<Range>>, outcomes: seq<OutcomeId>, i: nat, w: Range, next: map<OutcomeId, set<Range>>)
    requires i < |outcomes| && OneByOne(table, outcomes[..i], w) == Some(next)
    ensures
      var rows := MergeOne(RowsOf(next, outcomes[i]), w);
      OneByOne(table, outcomes[..i + 1], w) == if rows.None? then None else Some(next[outcomes[i] := rows.value])
  {
    hide MergeOne;
    assert outcomes[..i + 1][..i] == outcomes[..i];
  }

  lemma NothingIsPlain()
    ensures Plain({})
  {
  }

  lemma {:induction false} RefusedOnce(table: map<OutcomeId, set<Range>>, outcomes: seq<OutcomeId>, n: nat, w: Range)
    requires n <= |outcomes| && OneByOne(table, outcomes[..n], w).None?
    ensures OneByOne(table, outcomes, w).None?
    decreases |outcomes|
  {
    if n < |outcomes| {
      var most := outcomes[..|outcomes| - 1];
      assert most[..n] == outcomes[..n];
      RefusedOnce(table, most, n, w);
    } else {
      assert outcomes[..n] == outcomes;
    }
  }
}
