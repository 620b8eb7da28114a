/**
 What the archive has verified, as a set of closed stretches of time per pair. Time is dense: two stretches touch
 when they share an endpoint, and anything less leaves a moment between them that nobody looked at.
 */
module Coverage {
  import opened Wrappers

  type Moment = real

  /** One stored row: a verified stretch, and where the provider's history was found to end, if it was. */
  datatype Range = Range(start: Moment, end: Moment, historyEnded: bool, endsAt: Option<Moment>) {
    predicate Contains(t: Moment) { start <= t <= end }

    /** Overlapping or sharing an endpoint. */
    predicate Touches(other: Range) { start <= other.end && end >= other.start }

    predicate Within(outer: Range) { outer.start <= start && end <= outer.end }

    /** What the table's own checks demand of a row. */
    predicate WellFormed() { start <= end && (historyEnded <==> endsAt.Some?) }
  }

  datatype Refusal =
    | BoundaryWithoutPlace
    | Inverted
    | PlaceWithoutBoundary
    | SecondBoundary

  ghost predicate Covers(rows: set<Range>, t: Moment) {
    exists r :: r in rows && r.Contains(t)
  }

  /** The form the single-pass merge relies on: well-formed rows, no two of which touch. */
  ghost predicate Apart(rows: set<Range>) {
    && (forall r :: r in rows ==> r.WellFormed())
    && (forall r, q :: r in rows && q in rows && r != q ==> !r.Touches(q))
  }

  /** The unique index: at most one row names the end of the provider's history. */
  ghost predicate OneEnd(rows: set<Range>) {
    forall r, q :: r in rows && q in rows && r.historyEnded && q.historyEnded ==> r == q
  }

  ghost predicate Sound(rows: set<Range>) { Apart(rows) && OneEnd(rows) }

  // ---- the merge -------------------------------------------------------------------------------------------------

  ghost predicate EarliestOf(b: Option<Moment>, rows: set<Range>) {
    && (b.None? ==> forall r :: r in rows ==> r.endsAt.None?)
    && (b.Some? ==> (exists r :: r in rows && r.endsAt == b)
                    && forall r :: r in rows && r.endsAt.Some? ==> b.value <= r.endsAt.value)
  }

  /** `m` is the hull of `members` and keeps the deepest boundary any of them names. */
  ghost predicate IsHull(m: Range, members: set<Range>) {
    && (forall r :: r in members ==> m.start <= r.start && r.end <= m.end)
    && (exists r :: r in members && r.start == m.start)
    && (exists r :: r in members && r.end == m.end)
    && (m.historyEnded <==> exists r :: r in members && r.historyEnded)
    && EarliestOf(m.endsAt, members)
  }

  function Absorb(m: Range, r: Range): Range {
    Range(
      if r.start < m.start then r.start else m.start,
      if r.end > m.end then r.end else m.end,
      m.historyEnded || r.historyEnded,
      if m.endsAt.None? || (r.endsAt.Some? && r.endsAt.value < m.endsAt.value) then r.endsAt else m.endsAt)
  }

  lemma AbsorbExtendsHull(m: Range, members: set<Range>, r: Range)
    requires IsHull(m, members)
    ensures IsHull(Absorb(m, r), members + {r})
  {
  }

  ghost function Hull(members: set<Range>): (m: Range)
    requires members != {}
    ensures IsHull(m, members)
  {
    var r :| r in members;
    if members == {r} then r
    else
      AbsorbExtendsHull(Hull(members - {r}), members - {r}, r);
      assert members - {r} + {r} == members;
      Absorb(Hull(members - {r}), r)
  }

  lemma HullIsUnique(m: Range, other: Range, members: set<Range>)
    requires IsHull(m, members) && IsHull(other, members)
    ensures m == other
  {
  }

  function Neighbours(rows: set<Range>, offered: Range): set<Range> {
    set r | r in rows && r.Touches(offered)
  }

  /** What the table holds after one offer, or why it is refused with nothing changed. */
  ghost function Record(rows: set<Range>, offered: Range): Result<set<Range>, Refusal> {
    if offered.historyEnded && offered.endsAt.None? then Failure(BoundaryWithoutPlace)
    else if offered.end < offered.start then Failure(Inverted)
    else
      var near := Neighbours(rows, offered);
      var merged := Hull(near + {offered});
      if merged.historyEnded != merged.endsAt.Some? then Failure(PlaceWithoutBoundary)
      else if merged.historyEnded && exists r :: r in rows - near && r.historyEnded then Failure(SecondBoundary)
      else Success(rows - near + {merged})
  }

  /** One pass over the neighbours of what was offered is enough, because nothing stored touches. */
  lemma RecordKeepsSound(rows: set<Range>, offered: Range)
    requires Sound(rows) && Record(rows, offered).Success?
    ensures Sound(Record(rows, offered).value)
  {
    var near := Neighbours(rows, offered);
    var merged := Hull(near + {offered});
    var first :| first in near + {offered} && first.start == merged.start;
    var last :| last in near + {offered} && last.end == merged.end;
    forall r | r in rows - near
      ensures !r.Touches(merged) && !merged.Touches(r)
    {
      assert !r.Touches(offered);
      assert first != offered ==> !r.Touches(first);
      assert last != offered ==> !r.Touches(last);
    }
  }

  /** Recording adds exactly the stretch offered: no moment is lost, and none is claimed that nobody verified. */
  lemma RecordAddsExactly(rows: set<Range>, offered: Range, t: Moment)
    requires Record(rows, offered).Success?
    requires forall r :: r in rows ==> r.start <= r.end
    ensures Covers(Record(rows, offered).value, t) <==> Covers(rows, t) || offered.Contains(t)
  {
  }

  // ---- a set of separate stretches is determined by its points ---------------------------------------------------

  ghost function NextAfter(rows: set<Range>, t: Moment): (r: Range)
    requires exists q :: q in rows && q.start > t
    ensures r in rows && r.start > t
    ensures forall q :: q in rows && q.start > t ==> r.start <= q.start
  {
    var q :| q in rows && q.start > t;
    if exists p :: p in rows - {q} && p.start > t then
      var p := NextAfter(rows - {q}, t);
      if p.start < q.start then p else q
    else q
  }

  /** Between a row and anything covered beyond it lies a moment nobody looked at. */
  lemma UnseenBeyond(rows: set<Range>, r: Range, y: Moment) returns (t: Moment)
    requires Apart(rows) && r in rows && r.end < y && Covers(rows, y)
    ensures r.end < t < y && !Covers(rows, t)
  {
    var q :| q in rows && q.Contains(y);
    assert !q.Touches(r);
    var next := NextAfter(rows, r.end);
    t := (r.end + if next.start < y then next.start else y) / 2.0;
    forall p | p in rows ensures !p.Contains(t) {
      assert p == r || !p.Touches(r);
    }
  }

  /** A stretch covered throughout is covered by one row. */
  lemma ConnectedLiesInOne(rows: set<Range>, x: Moment, y: Moment) returns (r: Range)
    requires Apart(rows) && x <= y
    requires forall t :: x <= t <= y ==> Covers(rows, t)
    ensures r in rows && r.Contains(x) && r.Contains(y)
  {
    assert Covers(rows, x);
    r :| r in rows && r.Contains(x);
    if r.end < y {
      var t := UnseenBeyond(rows, r, y);
    }
  }

  lemma SameMomentsGiveSameSpan(rows: set<Range>, others: set<Range>, r: Range) returns (q: Range)
    requires Apart(rows) && Apart(others)
    requires forall t :: Covers(rows, t) <==> Covers(others, t)
    requires r in rows
    ensures q in others && q.start == r.start && q.end == r.end
  {
    forall t | r.start <= t <= r.end ensures Covers(others, t) {
      assert r.Contains(t);
      assert Covers(rows, t);
    }
    q := ConnectedLiesInOne(others, r.start, r.end);
    forall t | q.start <= t <= q.end ensures Covers(rows, t) {
      assert q.Contains(t);
      assert Covers(others, t);
    }
    var back := ConnectedLiesInOne(rows, q.start, q.end);
    assert back.Touches(r);
  }

  // ---- over any sequence of calls --------------------------------------------------------------------------------

  /** The table and the offers it took, after `offers` arrived one by one at an empty table. A refused call is a
      transaction rolled back: it changes nothing and verifies nothing. */
  ghost function Replay(offers: seq<Range>): (set<Range>, set<Range>) {
    if offers == [] then ({}, {})
    else
      var (rows, taken) := Replay(offers[..|offers| - 1]);
      var offered := offers[|offers| - 1];
      match Record(rows, offered)
      case Success(next) => (next, taken + {offered})
      case Failure(_) => (rows, taken)
  }

  /** The row names a boundary exactly when an offer inside it did, and then the earliest of those. */
  ghost predicate EarliestInside(r: Range, taken: set<Range>) {
    if r.endsAt.None? then forall o :: o in taken && o.Within(r) ==> o.endsAt.None?
    else
      && (exists o :: o in taken && o.Within(r) && o.endsAt == r.endsAt)
      && (forall o :: o in taken && o.Within(r) && o.endsAt.Some? ==> r.endsAt.value <= o.endsAt.value)
  }

  ghost predicate Inside(o: Range, rows: set<Range>) {
    o.start <= o.end && exists r :: r in rows && o.Within(r)
  }

  ghost predicate Provenance(rows: set<Range>, taken: set<Range>) {
    && (forall o {:trigger Inside(o, rows)} :: o in taken ==> Inside(o, rows))
    && (forall r {:trigger EarliestInside(r, taken)} :: r in rows ==> EarliestInside(r, taken))
  }

  lemma MergedKeepsEarliest(rows: set<Range>, taken: set<Range>, offered: Range)
    requires Sound(rows) && Provenance(rows, taken) && Record(rows, offered).Success?
    ensures EarliestInside(Hull(Neighbours(rows, offered) + {offered}), taken + {offered})
  {
    var near := Neighbours(rows, offered);
    var members := near + {offered};
    var merged := Hull(members);
    RecordKeepsSound(rows, offered);
    var after := Record(rows, offered).value;
    forall o | o in taken && o.Within(merged)
      ensures exists n :: n in near && o.Within(n)
    {
      assert Inside(o, rows);
      var n :| n in rows && o.Within(n);
      assert n in near || n in after;
      assert merged in after && n.Touches(merged);
    }
    if merged.endsAt.Some? {
      var m :| m in members && m.endsAt == merged.endsAt;
      if m != offered {
        assert EarliestInside(m, taken);
      }
    }
    forall o | o in taken && o.Within(merged) && o.endsAt.Some?
      ensures merged.endsAt.Some? && merged.endsAt.value <= o.endsAt.value
    {
      var n :| n in near && o.Within(n);
      assert EarliestInside(n, taken) && n in members;
    }
    assert offered in members;
  }

  lemma RecordKeepsProvenance(rows: set<Range>, taken: set<Range>, offered: Range)
    requires Sound(rows) && Provenance(rows, taken) && Record(rows, offered).Success?
    ensures Provenance(Record(rows, offered).value, taken + {offered})
  {
    var near := Neighbours(rows, offered);
    var members := near + {offered};
    var merged := Hull(members);
    var after := Record(rows, offered).value;
    RecordKeepsSound(rows, offered);
    MergedKeepsEarliest(rows, taken, offered);
    assert offered in members && merged in after && offered.Within(merged);
    forall o | o in taken ensures Inside(o, after) {
      assert Inside(o, rows);
      var r :| r in rows && o.Within(r);
      assert if r in near then r in members && o.Within(merged) else r in after;
    }
    forall r | r in after && r != merged ensures EarliestInside(r, taken + {offered}) {
      assert !r.Touches(merged);
      assert EarliestInside(r, taken);
      assert !offered.Within(r);
    }
  }

  lemma {:induction false} ReplayInvariant(offers: seq<Range>)
    ensures var (rows, taken) := Replay(offers); Sound(rows) && Provenance(rows, taken)
  {
    if offers != [] {
      var before := offers[..|offers| - 1];
      ReplayInvariant(before);
      var (rows, taken) := Replay(before);
      var offered := offers[|offers| - 1];
      if Record(rows, offered).Success? {
        RecordKeepsSound(rows, offered);
        RecordKeepsProvenance(rows, taken, offered);
      }
    }
  }

  /** The table's points are exactly the union of everything it took. */
  lemma {:induction false} ReplayCoversUnion(offers: seq<Range>, t: Moment)
    ensures var (rows, taken) := Replay(offers); Covers(rows, t) <==> Covers(taken, t)
  {
    if offers != [] {
      var before := offers[..|offers| - 1];
      ReplayCoversUnion(before, t);
      ReplayInvariant(before);
      var (rows, taken) := Replay(before);
      var offered := offers[|offers| - 1];
      if Record(rows, offered).Success? {
        RecordAddsExactly(rows, offered, t);
        assert offered in taken + {offered};
        assert Covers(taken, t) ==> Covers(taken + {offered}, t);
      }
    }
  }

  /** Two histories that took the same moments hold the same stretches, whatever the order or repetition. */
  lemma StretchesDependOnUnionAlone(offers: seq<Range>, others: seq<Range>, r: Range) returns (q: Range)
    requires forall t :: Covers(Replay(offers).1, t) <==> Covers(Replay(others).1, t)
    requires r in Replay(offers).0
    ensures q in Replay(others).0 && q.start == r.start && q.end == r.end
  {
    ReplayInvariant(offers);
    ReplayInvariant(others);
    forall t ensures Covers(Replay(offers).0, t) <==> Covers(Replay(others).0, t) {
      ReplayCoversUnion(offers, t);
      ReplayCoversUnion(others, t);
    }
    q := SameMomentsGiveSameSpan(Replay(offers).0, Replay(others).0, r);
  }

  lemma SameOffersGiveSameRow(offers: seq<Range>, others: seq<Range>, r: Range)
    requires Replay(offers).1 == Replay(others).1
    requires r in Replay(offers).0
    ensures r in Replay(others).0
  {
    ReplayInvariant(offers);
    ReplayInvariant(others);
    var taken := Replay(offers).1;
    var q := StretchesDependOnUnionAlone(offers, others, r);
    RowIsItsSpan(Replay(offers).0, Replay(others).0, taken, r, q);
  }

  lemma RowIsItsSpan(rows: set<Range>, others: set<Range>, taken: set<Range>, r: Range, q: Range)
    requires Apart(rows) && Apart(others) && Provenance(rows, taken) && Provenance(others, taken)
    requires r in rows && q in others && q.start == r.start && q.end == r.end
    ensures r == q
  {
    assert EarliestInside(r, taken) && EarliestInside(q, taken);
    assert forall o :: o in taken ==> (o.Within(r) <==> o.Within(q));
  }

  /** The whole table, boundaries included, is a function of the set of offers it took. */
  lemma TableDependsOnOffersTaken(offers: seq<Range>, others: seq<Range>)
    requires Replay(offers).1 == Replay(others).1
    ensures Replay(offers).0 == Replay(others).0
  {
    forall r ensures r in Replay(offers).0 <==> r in Replay(others).0 {
      if r in Replay(offers).0 { SameOffersGiveSameRow(offers, others, r); }
      if r in Replay(others).0 { SameOffersGiveSameRow(others, offers, r); }
    }
  }

  lemma RecordIs(rows: set<Range>, offered: Range, near: set<Range>, merged: Range, after: set<Range>)
    requires near == Neighbours(rows, offered) && IsHull(merged, near + {offered})
    requires offered.WellFormed() && merged.WellFormed() && after == rows - near + {merged}
    requires forall r :: r in rows - near ==> !r.historyEnded
    ensures Record(rows, offered) == Success(after)
  {
    HullIsUnique(Hull(near + {offered}), merged, near + {offered});
  }

  lemma ReplayNext(offers: seq<Range>, offered: Range)
    ensures Replay(offers + [offered]) ==
      match Record(Replay(offers).0, offered)
      case Success(next) => (next, Replay(offers).1 + {offered})
      case Failure(_) => Replay(offers)
  {
  }

  const DEEP := Range(0.0, 1.0, true, Some(0.0))
  const LATE := Range(2.0, 3.0, true, Some(2.0))
  const BRIDGE := Range(1.0, 2.0, false, None)

  lemma DeepFirst()
    ensures Replay([DEEP]) == ({DEEP}, {DEEP})
  {
    RecordIs({}, DEEP, {}, DEEP, {DEEP});
    ReplayNext([], DEEP);
    assert [] + [DEEP] == [DEEP];
  }

  lemma LateRightAfterDeep()
    ensures LATE !in Replay([DEEP, LATE]).1
  {
    DeepFirst();
    ReplayNext([DEEP], LATE);
    assert [DEEP] + [LATE] == [DEEP, LATE];
    assert Neighbours({DEEP}, LATE) == {} && DEEP in {DEEP} - {};
    assert LATE in {} + {LATE};
  }

  const JOINED := Range(0.0, 2.0, true, Some(0.0))

  lemma BridgedReplay()
    ensures Replay([DEEP, BRIDGE]).0 == {JOINED}
  {
    DeepFirst();
    var members := {DEEP} + {BRIDGE};
    assert DEEP in members && BRIDGE in members;
    RecordIs({DEEP}, BRIDGE, {DEEP}, JOINED, {JOINED});
    ReplayNext([DEEP], BRIDGE);
    assert [DEEP] + [BRIDGE] == [DEEP, BRIDGE];
  }

  lemma LateAfterBridge()
    ensures LATE in Replay([DEEP, BRIDGE, LATE]).1
  {
    BridgedReplay();
    var whole := Range(0.0, 3.0, true, Some(0.0));
    assert JOINED in {JOINED} + {LATE} && LATE in {JOINED} + {LATE};
    RecordIs({JOINED}, LATE, {JOINED}, whole, {whole});
    ReplayNext([DEEP, BRIDGE], LATE);
    assert [DEEP, BRIDGE] + [LATE] == [DEEP, BRIDGE, LATE];
  }

  /** Which offers are taken does depend on the order, once two of them name a boundary: the index allows one per pair,
      so the second is refused unless a fill has already joined the two stretches. */
  lemma OrderDecidesWhatIsTaken()
    ensures LATE !in Replay([DEEP, LATE, BRIDGE]).1
    ensures LATE in Replay([DEEP, BRIDGE, LATE]).1
  {
    LateRightAfterDeep();
    assert [DEEP, LATE] + [BRIDGE] == [DEEP, LATE, BRIDGE];
    ReplayNext([DEEP, LATE], BRIDGE);
    assert BRIDGE.start != LATE.start;
    LateAfterBridge();
  }

  // ---- which offers are taken --------------------------------------------------------------------------------------

  /** Whether a table takes an offer, from its rows as they stand: an end of history goes in where no row names one but a
      row it touches, and a place for it only with such a row. */
  ghost predicate Accepts(rows: set<Range>, offered: Range) {
    && offered.start <= offered.end
    && (offered.historyEnded ==> offered.endsAt.Some? && forall r :: r in rows && r.historyEnded ==> r.Touches(offered))
    && (offered.endsAt.Some? && !offered.historyEnded ==> exists r :: r in rows && r.historyEnded && r.Touches(offered))
  }

  lemma TakenExactly(rows: set<Range>, offered: Range)
    requires Sound(rows)
    ensures Record(rows, offered).Success? <==> Accepts(rows, offered)
  {
    var near := Neighbours(rows, offered);
    var members := near + {offered};
    var merged := Hull(members);
    assert offered in members;
    if merged.endsAt.Some? {
      var m :| m in members && m.endsAt == merged.endsAt;
      assert m != offered ==> m in rows && m.historyEnded;
    }
    forall r | r in near && r.historyEnded ensures merged.historyEnded && merged.endsAt.Some? {
      assert r in members && r.endsAt.Some?;
    }
    if merged.historyEnded {
      var m :| m in members && m.historyEnded;
    }
  }

  function Elements(offers: seq<Range>): set<Range> { set o | o in offers }

  ghost predicate WellFormedOffers(offers: seq<Range>) { forall o :: o in offers ==> o.WellFormed() }

  /** Every prefix of the offers is taken whole. */
  ghost predicate TakenWhole(offers: seq<Range>) {
    forall n :: 0 <= n <= |offers| ==> Replay(offers[..n]).1 == Elements(offers[..n])
  }

  predicate Lies(t: Moment, x: Moment, y: Moment) { x <= t <= y || y <= t <= x }

  /** Between any two offers that name an end of history, every moment has been offered. */
  ghost predicate Joined(offers: seq<Range>) {
    forall o, b, t :: o in offers && b in offers && o.historyEnded && b.historyEnded && Lies(t, o.start, b.start) ==>
      Covers(Elements(offers), t)
  }

  ghost predicate EveryPrefixJoined(offers: seq<Range>) { forall n :: 0 <= n <= |offers| ==> Joined(offers[..n]) }

  /** What a row's end of history was offered as. */
  lemma OfferOfAnEnd(rows: set<Range>, taken: set<Range>, r: Range) returns (b: Range)
    requires Sound(rows) && Provenance(rows, taken) && r in rows && r.historyEnded
    requires forall o :: o in taken ==> o.WellFormed()
    ensures b in taken && b.historyEnded && b.Within(r)
  {
    assert EarliestInside(r, taken);
    b :| b in taken && b.Within(r) && b.endsAt == r.endsAt;
  }

  /** The row an offered end of history went into. */
  lemma RowOfAnEnd(rows: set<Range>, taken: set<Range>, o: Range) returns (r: Range)
    requires Sound(rows) && Provenance(rows, taken) && o in taken && o.WellFormed() && o.historyEnded
    ensures r in rows && r.historyEnded && o.Within(r)
  {
    assert Inside(o, rows);
    r :| r in rows && o.Within(r);
    assert EarliestInside(r, taken);
  }

  lemma TakenWholeIsJoined(offers: seq<Range>)
    requires WellFormedOffers(offers) && Replay(offers).1 == Elements(offers)
    ensures Joined(offers)
  {
    ReplayInvariant(offers);
    var (rows, taken) := Replay(offers);
    forall o, b, t | o in offers && b in offers && o.historyEnded && b.historyEnded && Lies(t, o.start, b.start)
      ensures Covers(Elements(offers), t)
    {
      var r := RowOfAnEnd(rows, taken, o);
      var q := RowOfAnEnd(rows, taken, b);
      assert r == q && r.Contains(t);
      ReplayCoversUnion(offers, t);
    }
  }

  /** An end of history offered where everything up to the other one has been offered touches the row that names it. */
  lemma JoinedTouches(rows: set<Range>, r: Range, b: Range, o: Range)
    requires Sound(rows) && r in rows && b.Within(r) && b.start <= b.end && o.start <= o.end
    requires forall t :: Lies(t, o.start, b.start) ==> Covers(rows, t) || o.Contains(t)
    ensures r.Touches(o)
  {
    var plain := Range(o.start, o.end, false, None);
    TakenExactly(rows, plain);
    RecordKeepsSound(rows, plain);
    var after := Record(rows, plain).value;
    forall t | Lies(t, o.start, b.start) ensures Covers(after, t) {
      RecordAddsExactly(rows, plain, t);
    }
    var q := ConnectedLiesInOne(after, Min(o.start, b.start), Max(o.start, b.start));
    assert q.Contains(o.start) && q.Contains(b.start);
    assert !r.Touches(o) ==> r in after && q.Touches(r);
  }

  lemma {:induction false} JoinedIsTakenWhole(offers: seq<Range>, n: nat)
    requires WellFormedOffers(offers) && EveryPrefixJoined(offers) && n <= |offers|
    ensures Replay(offers[..n]).1 == Elements(offers[..n])
  {
    if n > 0 {
      JoinedIsTakenWhole(offers, n - 1);
      var before, o := offers[..n - 1], offers[n - 1];
      assert offers[..n] == before + [o] && o in offers;
      var (rows, taken) := Replay(before);
      ReplayInvariant(before);
      forall r | r in rows && r.historyEnded && o.historyEnded ensures r.Touches(o) {
        var b := OfferOfAnEnd(rows, taken, r);
        forall t | Lies(t, o.start, b.start) ensures Covers(rows, t) || o.Contains(t) {
          assert Joined(offers[..n]) && o in offers[..n] && b in offers[..n];
          assert Covers(Elements(offers[..n]), t);
          CoversOneMore(before, o, t);
          ReplayCoversUnion(before, t);
        }
        JoinedTouches(rows, r, b, o);
      }
      TakenExactly(rows, o);
      ReplayNext(before, o);
      assert Elements(offers[..n]) == Elements(before) + {o};
    }
  }

  lemma CoversOneMore(before: seq<Range>, o: Range, t: Moment)
    requires Covers(Elements(before + [o]), t)
    ensures Covers(Elements(before), t) || o.Contains(t)
  {
    var r :| r in Elements(before + [o]) && r.Contains(t);
    assert r == o || r in Elements(before);
  }

  /** Every offer is taken, at whatever point the run is looked at, exactly when no two ends of history are ever offered
      with a moment between them that was not. */
  lemma EveryOfferTakenExactly(offers: seq<Range>)
    requires WellFormedOffers(offers)
    ensures TakenWhole(offers) <==> EveryPrefixJoined(offers)
  {
    if TakenWhole(offers) {
      forall n | 0 <= n <= |offers| ensures Joined(offers[..n]) {
        TakenWholeIsJoined(offers[..n]);
      }
    }
    if EveryPrefixJoined(offers) {
      forall n | 0 <= n <= |offers| ensures Replay(offers[..n]).1 == Elements(offers[..n]) {
        JoinedIsTakenWhole(offers, n);
      }
    }
  }

  /** So offers of which one at most names an end of history are all taken. */
  lemma OneEndIsAlwaysTaken(offers: seq<Range>)
    requires WellFormedOffers(offers)
    requires forall o, b :: o in offers && b in offers && o.historyEnded && b.historyEnded ==> o == b
    ensures TakenWhole(offers)
  {
    forall n | 0 <= n <= |offers| ensures Joined(offers[..n]) {
      forall o, b, t | o in offers[..n] && b in offers[..n] && o.historyEnded && b.historyEnded && Lies(t, o.start, b.start)
        ensures Covers(Elements(offers[..n]), t)
      {
        assert o in offers && b in offers;
        assert o.WellFormed() && o.Contains(t) && o in Elements(offers[..n]);
      }
    }
    EveryOfferTakenExactly(offers);
  }

  /** Two ways of offering the same moments, neither of them refused anything, leave the same stretches. */
  lemma StretchesDependOnOffersUnion(offers: seq<Range>, others: seq<Range>, r: Range) returns (q: Range)
    requires WellFormedOffers(offers) && EveryPrefixJoined(offers) && WellFormedOffers(others) && EveryPrefixJoined(others)
    requires forall t :: Covers(Elements(offers), t) <==> Covers(Elements(others), t)
    requires r in Replay(offers).0
    ensures q in Replay(others).0 && q.start == r.start && q.end == r.end
  {
    JoinedIsTakenWhole(offers, |offers|);
    JoinedIsTakenWhole(others, |others|);
    assert offers[..|offers|] == offers && others[..|others|] == others;
    q := StretchesDependOnUnionAlone(offers, others, r);
  }

  /** And the same offers, in whatever order and however often, leave the same table, boundaries included. */
  lemma TableDependsOnOffers(offers: seq<Range>, others: seq<Range>)
    requires WellFormedOffers(offers) && EveryPrefixJoined(offers) && WellFormedOffers(others) && EveryPrefixJoined(others)
    requires Elements(offers) == Elements(others)
    ensures Replay(offers).0 == Replay(others).0
  {
    JoinedIsTakenWhole(offers, |offers|);
    JoinedIsTakenWhole(others, |others|);
    assert offers[..|offers|] == offers && others[..|others|] == others;
    TableDependsOnOffersTaken(offers, others);
  }

  // ---- the table as the source updates it ------------------------------------------------------------------------

  class CoverageTable<K(==)> {
    var rows: map<K, set<Range>>

    constructor ()
      ensures rows == map[]
    {
      rows := map[];
    }

    function Of(pair: K): set<Range>
      reads this
    {
      if pair in rows then rows[pair] else {}
    }

    method RecordCoverage(pair: K, start: Moment, end: Moment, historyEnded: bool, endsAt: Option<Moment>)
      returns (outcome: Result<Range, Refusal>)
      modifies this
      ensures
        var offered := Range(start, end, historyEnded, endsAt);
        match Record(old(Of(pair)), offered)
        case Success(next) =>
          && rows == old(rows)[pair := next]
          && outcome == Success(Hull(Neighbours(old(Of(pair)), offered) + {offered}))
        case Failure(why) => rows == old(rows) && outcome == Failure(why)
    {
      if historyEnded && endsAt.None? {
        return Failure(BoundaryWithoutPlace);
      }
      var offered := Range(start, end, historyEnded, endsAt);
      if offered.end < offered.start {
        return Failure(Inverted);
      }
      var held := Of(pair);
      var near := Neighbours(held, offered);
      var merged, todo := offered, near;
      while todo != {}
        invariant rows == old(rows) && todo <= near
        invariant IsHull(merged, near - todo + {offered})
        decreases todo
      {
        var r :| r in todo;
        AbsorbExtendsHull(merged, near - todo + {offered}, r);
        assert near - todo + {offered} + {r} == near - (todo - {r}) + {offered};
        merged, todo := Absorb(merged, r), todo - {r};
      }
      assert near - todo + {offered} == near + {offered};
      HullIsUnique(merged, Hull(near + {offered}), near + {offered});
      if merged.historyEnded != merged.endsAt.Some? {
        return Failure(PlaceWithoutBoundary);
      }
      if merged.historyEnded && exists r :: r in held - near && r.historyEnded {
        return Failure(SecondBoundary);
      }
      rows := rows[pair := held - near + {merged}];
      return Success(merged);
    }

    method DeleteAllCoverage(pair: K)
      modifies this
      ensures rows == old(rows) - {pair}
    {
      rows := rows - {pair};
    }

    /** Everything verified for one pair, oldest first. */
    method ReadCoverage(pair: K) returns (ordered: seq<Range>)
      ensures multiset(ordered) == multiset(Of(pair))
      ensures forall i, j :: 0 <= i < j < |ordered| ==> ordered[i].start <= ordered[j].start
    {
      ordered := [];
      var todo := Of(pair);
      while todo != {}
        invariant multiset(ordered) + multiset(todo) == multiset(Of(pair))
        invariant forall i, j :: 0 <= i < j < |ordered| ==> ordered[i].start <= ordered[j].start
        invariant forall r, i :: r in todo && 0 <= i < |ordered| ==> ordered[i].start <= r.start
        decreases todo
      {
        EarliestExists(todo);
        var r :| r in todo && forall q :: q in todo ==> r.start <= q.start;
        ordered, todo := ordered + [r], todo - {r};
      }
    }
  }

  lemma EarliestExists(rows: set<Range>)
    requires rows != {}
    ensures exists r :: r in rows && forall q :: q in rows ==> r.start <= q.start
  {
    var m := Hull(rows);
    var r :| r in rows && r.start == m.start;
  }

  // ---- what nobody has looked at ---------------------------------------------------------------------------------

  /** `gaps` are ordered, non-empty and inside the window; nothing inside one is covered; nothing uncovered is
      outside them. */
  ghost predicate AreGaps(gaps: seq<(Moment, Moment)>, ordered: seq<Range>, start: Moment, end: Moment) {
    && (forall i :: 0 <= i < |gaps| ==> start <= gaps[i].0 < gaps[i].1 <= end)
    && (forall i, j :: 0 <= i < j < |gaps| ==> gaps[i].1 <= gaps[j].0)
    && (forall i, t :: 0 <= i < |gaps| && gaps[i].0 < t < gaps[i].1 ==> Unseen(ordered, t))
    && (forall t :: start <= t <= end && start < end && Unseen(ordered, t) ==> InAGap(gaps, t))
  }

  ghost predicate Unseen(ordered: seq<Range>, t: Moment) {
    forall i :: 0 <= i < |ordered| ==> !ordered[i].Contains(t)
  }

  ghost predicate InAGap(gaps: seq<(Moment, Moment)>, t: Moment) {
    exists i :: 0 <= i < |gaps| && gaps[i].0 <= t <= gaps[i].1
  }

  ghost predicate Outside(r: Range, gap: (Moment, Moment)) { r.end <= gap.0 || gap.1 <= r.start }

  /** Where the walk stands: `edge` is how far it has seen, and `gaps` says everything about the time before it. */
  ghost predicate Walked(ordered: seq<Range>, i: nat, gaps: seq<(Moment, Moment)>, edge: Moment, start: Moment, end: Moment) {
    && i <= |ordered| && start <= edge
    && (forall k :: 0 <= k < i ==> ordered[k].end <= edge)
    && (forall k :: 0 <= k < |gaps| ==> start <= gaps[k].0 < gaps[k].1 <= end && gaps[k].1 <= edge)
    && (forall k, l :: 0 <= k < l < |gaps| ==> gaps[k].1 <= gaps[l].0)
    && (forall k, j :: 0 <= k < |gaps| && 0 <= j < |ordered| ==> Outside(ordered[j], gaps[k]))
    && (forall t :: start <= t <= end && t < edge && Unseen(ordered, t) ==> InAGap(gaps, t))
  }

  ghost predicate ByStart(ordered: seq<Range>) {
    && (forall i, j :: 0 <= i < j < |ordered| ==> ordered[i].start <= ordered[j].start)
    && (forall i :: 0 <= i < |ordered| ==> ordered[i].start <= ordered[i].end)
  }

  function Min(x: Moment, y: Moment): Moment { if x < y then x else y }

  function Max(x: Moment, y: Moment): Moment { if x > y then x else y }

  lemma OpenAGap(ordered: seq<Range>, i: nat, gaps: seq<(Moment, Moment)>, edge: Moment, next: Moment, start: Moment, end: Moment)
    requires ByStart(ordered) && Walked(ordered, i, gaps, edge, start, end) && edge < next <= end
    requires forall j :: i <= j < |ordered| ==> next <= ordered[j].start
    ensures Walked(ordered, i, gaps + [(edge, next)], next, start, end)
  {
    var more := gaps + [(edge, next)];
    forall t | start <= t <= end && t < next && Unseen(ordered, t) ensures InAGap(more, t) {
      if t < edge {
        assert InAGap(gaps, t);
        var k :| 0 <= k < |gaps| && gaps[k].0 <= t <= gaps[k].1;
        assert more[k] == gaps[k];
      } else {
        assert more[|gaps|] == (edge, next);
      }
    }
  }

  lemma PassARow(ordered: seq<Range>, i: nat, gaps: seq<(Moment, Moment)>, edge: Moment, start: Moment, end: Moment)
    requires Walked(ordered, i, gaps, edge, start, end) && i < |ordered| && ordered[i].start <= edge
    ensures Walked(ordered, i + 1, gaps, Max(edge, ordered[i].end), start, end)
  {
  }

  lemma WalkDone(ordered: seq<Range>, i: nat, gaps: seq<(Moment, Moment)>, edge: Moment, start: Moment, end: Moment)
    requires Walked(ordered, i, gaps, edge, start, end)
    requires end <= edge && (end < edge || !Unseen(ordered, end) || InAGap(gaps, end) || start == end)
    ensures AreGaps(gaps, ordered, start, end)
  {
  }

  /** `ordered` is any reading of the table by start; the rows may overlap or touch. An empty answer means the whole
      window was verified — unless the window is a single moment, for which nothing is ever reported. */
  method UncoveredWithin(ordered: seq<Range>, start: Moment, end: Moment)
    returns (answer: Result<seq<(Moment, Moment)>, Refusal>)
    requires ByStart(ordered)
    ensures answer.Failure? <==> end < start
    ensures answer.Success? ==> AreGaps(answer.value, ordered, start, end)
    ensures start == end ==> answer == Success([])
  {
    if end < start {
      return Failure(Inverted);
    }
    var gaps: seq<(Moment, Moment)> := [];
    var edge := start;
    var i := 0;
    while i < |ordered|
      invariant Walked(ordered, i, gaps, edge, start, end)
      invariant edge < end || (edge == start == end && gaps == [])
    {
      var covered := ordered[i];
      if covered.end < start {
        PassARow(ordered, i, gaps, edge, start, end);
        i := i + 1;
        continue;
      }
      if covered.start > end {
        break;
      }
      if covered.start > edge {
        OpenAGap(ordered, i, gaps, edge, covered.start, start, end);
        gaps := gaps + [(edge, Min(covered.start, end))];
        PassARow(ordered, i, gaps, covered.start, start, end);
      } else {
        PassARow(ordered, i, gaps, edge, start, end);
      }
      edge := Max(edge, covered.end);
      i := i + 1;
      if edge >= end {
        assert covered == ordered[i - 1] && (covered.Contains(end) || start == end);
        WalkDone(ordered, i, gaps, edge, start, end);
        return Success(gaps);
      }
    }
    if edge < end {
      OpenAGap(ordered, i, gaps, edge, end, start, end);
      gaps := gaps + [(edge, end)];
      assert gaps[|gaps| - 1] == (edge, end);
      WalkDone(ordered, i, gaps, end, start, end);
    } else {
      WalkDone(ordered, i, gaps, edge, start, end);
    }
    return Success(gaps);
  }

  /** What an empty answer promises holds for every window but a single unseen moment. */
  lemma EmptyAnswerMeansVerified(ordered: seq<Range>, start: Moment, end: Moment)
    requires start <= end && AreGaps([], ordered, start, end)
    ensures (forall t :: start <= t <= end ==> !Unseen(ordered, t)) <==> start < end || !Unseen(ordered, start)
  {
  }
}
