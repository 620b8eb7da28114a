/** The archive's tables as the process updates them in place, each method tied to the step it is in `Archive`. */
module ArchiveStore {
  import opened Wrappers
  import opened Rollups
  import opened Archive
  import Coverage

  datatype Refusal = FormingCandle | UncoveredStretch(why: Coverage.Refusal) | BadWindow(what: RefreshRefusal)

  /** What one deletion removed; the bounds are absent together, when there was nothing. */
  datatype PairDeletion = PairDeletion(pair: Pair, removed: nat, earliest: Option<int>, latest: Option<int>)

  function PeriodsOf(candles: CandleTable, pair: Pair): set<int> {
    set k | k in candles && k.symbol == pair.symbol && k.resolution == pair.resolution :: k.at
  }

  ghost predicate Describes(d: PairDeletion, candles: CandleTable, pair: Pair) {
    var periods := PeriodsOf(candles, pair);
    && d.pair == pair && d.removed == |periods|
    && (if periods == {} then d.earliest == d.latest == None
        else
          && d.earliest.Some? && d.earliest.value in periods && (forall t :: t in periods ==> d.earliest.value <= t)
          && d.latest.Some? && d.latest.value in periods && (forall t :: t in periods ==> t <= d.latest.value))
  }

  /** An empty batch leaves the table as it was. */
  lemma NothingTaken(held: CandleTable)
    ensures Taken(held, map[]) == map[] && held + map[] == held && Written(held, []) == held
  {
    assert Taken(held, map[]) == map[];
  }

  /** A commit whose process lives to its end, refusal by refusal. */
  lemma FullCommit(st: State, batch: seq<Candle>, pair: Pair, offered: Coverage.Range)
    ensures
      var after := AfterCommit(st, Commit(batch, pair, offered, COMMIT_STEPS));
      var recorded := Coverage.Record(RowsOf(st.coverage, pair), offered);
      if AnyForming(batch) then after == st
      else
        && after.candles == Written(st.candles, batch)
        && (recorded.Failure? ==> after.coverage == st.coverage && after.derived == st.derived)
        && (recorded.Success? ==> after.coverage == st.coverage[pair := recorded.value])
        && (recorded.Success? && pair.resolution == Minute && Ascends(batch) ==>
              after.derived == RefreshedFirst(|DERIVABLE|, after.candles, st.derived, pair.symbol, batch[0].periodStart,
                                              batch[|batch| - 1].periodStart))
        && (pair.resolution != Minute || !Ascends(batch) ==> after.derived == st.derived)
  {
    hide RefreshedFirst, Written, Coverage.Record;
  }

  class Store {
    var candles: CandleTable
    var derived: DerivedTable
    var deletions: seq<PairDeletion>
    const coverage: Coverage.CoverageTable<Pair>

    constructor ()
      ensures fresh(coverage) && Snapshot() == EMPTY && deletions == []
    {
      candles, derived, deletions := map[], map[], [];
      coverage := new Coverage.CoverageTable<Pair>();
    }

    ghost function Snapshot(): State
      reads this, coverage
    {
      State(candles, derived, coverage.rows)
    }

    /** Stores closed candles and says how many the table took; with a forming one among them, none. */
    method WriteCandles(batch: seq<Candle>) returns (written: Result<nat, Refusal>)
      modifies this`candles
      ensures candles == Written(old(candles), batch)
      ensures written == if AnyForming(batch) then Failure(FormingCandle)
                         else Success(|RowsTaken(old(candles), batch)|)
    {
      TakenCounts(candles, batch);
      hide Taken, Blocked, RowsTaken;
      var kept: CandleTable := map[];
      for i := 0 to |batch|
        invariant candles == old(candles)
        invariant kept == Kept(batch[..i])
        invariant forall j :: 0 <= j < i ==> !batch[j].forming
      {
        if batch[i].forming {
          return Failure(FormingCandle);
        }
        kept := kept[KeyOf(batch[i]) := batch[i]];
        assert batch[..i + 1][..i] == batch[..i];
      }
      assert batch[..|batch|] == batch;
      if kept == map[] {
        NothingTaken(candles);
        return Success(0);
      }
      var taken := Taken(candles, kept);
      candles := candles + taken;
      return Success(|taken|);
    }

    method Refresh(symbol: string, r: Resolution, since: int, until: int) returns (outcome: Result<nat, Refusal>)
      modifies this`derived
      ensures match Refreshed(candles, old(derived), symbol, r, since, until)
              case Success(next) => derived == next && outcome.Success?
              case Failure(why) => derived == old(derived) && outcome == Failure(BadWindow(why))
    {
      RefreshedCases(candles, derived, symbol, r, since, until);
      hide *;
      if until < since {
        return Failure(BadWindow(Backwards));
      }
      var low := BucketStart(since, r);
      var high := BucketStart(until, r);
      if low.None? || high.None? {
        return Failure(BadWindow(NotDerivable));
      }
      var count := RebuildWindow(symbol, r, low.value, high.value + Period(r));
      return Success(count);
    }

    /** The window's rows cleared, and written again from the minutes. */
    method RebuildWindow(symbol: string, r: Resolution, from: int, to: int) returns (count: nat)
      modifies this`derived
      ensures derived == Cleared(old(derived), symbol, r, from, to) + Rebuilt(candles, symbol, r, from, to)
    {
      hide *;
      derived := Cleared(derived, symbol, r, from, to);
      var rebuilt := Rebuilt(candles, symbol, r, from, to);
      derived := derived + rebuilt;
      count := |rebuilt|;
    }

    method RefreshAll(symbol: string, since: int, until: int) returns (outcome: Result<(), Refusal>)
      modifies this`derived
      ensures outcome == if until < since then Failure(BadWindow(Backwards)) else Success(())
      ensures derived == if until < since then old(derived)
                         else RefreshedFirst(|DERIVABLE|, candles, old(derived), symbol, since, until)
    {
      for i := 0 to |DERIVABLE|
        invariant i > 0 ==> since <= until
        invariant derived == if since <= until then RefreshedFirst(i, candles, old(derived), symbol, since, until)
                             else old(derived)
      {
        hide BucketStart, Rebuilt, Cleared;
        var one := Refresh(symbol, DERIVABLE[i], since, until);
        if one.Failure? {
          return Failure(one.error);
        }
      }
      return Success(());
    }

    /** The one way candles enter: stored, the stretch recorded as verified, the rollups rebuilt over what arrived. What
        was done before a step refused stays done. */
    method CommitCandles(batch: seq<Candle>, pair: Pair, from: real, to: real, historyEnded: bool, endsAt: Option<real>)
      returns (outcome: Result<nat, Refusal>)
      modifies this`candles, this`derived, coverage
      ensures Snapshot() == AfterCommit(old(Snapshot()),
                                        Commit(batch, pair, Coverage.Range(from, to, historyEnded, endsAt), COMMIT_STEPS))
      ensures outcome.Success? <==>
        && !AnyForming(batch)
        && Coverage.Record(old(coverage.Of(pair)), Coverage.Range(from, to, historyEnded, endsAt)).Success?
        && (batch != [] && pair.resolution == Minute ==> Ascends(batch))
      ensures outcome.Success? ==>
        outcome.value == |RowsTaken(old(candles), batch)|
    {
      hide RefreshedFirst, Coverage.Record, Taken, Kept, AfterCommit;
      FullCommit(Snapshot(), batch, pair, Coverage.Range(from, to, historyEnded, endsAt));
      var written := 0;
      if batch != [] {
        var stored := WriteCandles(batch);
        if stored.Failure? {
          return Failure(stored.error);
        }
        written := stored.value;
      } else {
        NothingTaken(candles);
        TakenCounts(candles, batch);
        assert !AnyForming(batch);
      }
      var recorded := coverage.RecordCoverage(pair, from, to, historyEnded, endsAt);
      if recorded.Failure? {
        return Failure(UncoveredStretch(recorded.error));
      }
      if batch != [] && pair.resolution == Minute {
        var rebuilt := RefreshAll(pair.symbol, batch[0].periodStart, batch[|batch| - 1].periodStart);
        if rebuilt.Failure? {
          return Failure(rebuilt.error);
        }
      }
      return Success(written);
    }

    method DeletePairData(pair: Pair) returns (d: PairDeletion)
      modifies this, coverage
      ensures Snapshot() == AfterDelete(old(Snapshot()), pair)
      ensures Describes(d, old(candles), pair) && deletions == old(deletions) + [d]
    {
      var periods := PeriodsOf(candles, pair);
      var earliest, latest := None, None;
      if periods != {} {
        earliest, latest := Some(Least(periods)), Some(Greatest(periods));
        candles := WithoutPair(candles, pair);
      } else {
        NothingToDelete(candles, pair);
      }
      coverage.DeleteAllCoverage(pair);
      if pair.resolution == Minute {
        derived := WithoutSymbol(derived, pair.symbol);
      }
      d := PairDeletion(pair, |periods|, earliest, latest);
      deletions := deletions + [d];
    }
  }

  lemma RefreshedCases(candles: CandleTable, derived: DerivedTable, symbol: string, r: Resolution, since: int, until: int)
    ensures until < since ==> Refreshed(candles, derived, symbol, r, since, until) == Failure(Backwards)
    ensures since <= until && r !in DERIVABLE ==> Refreshed(candles, derived, symbol, r, since, until) == Failure(NotDerivable)
    ensures since <= until && r in DERIVABLE ==>
      var from, to := BucketStart(since, r).value, BucketStart(until, r).value + Period(r);
      Refreshed(candles, derived, symbol, r, since, until) ==
      Success(Cleared(derived, symbol, r, from, to) + Rebuilt(candles, symbol, r, from, to))
  {
    hide BucketStart, Period, Cleared, Rebuilt;
  }

  lemma NothingToDelete(candles: CandleTable, pair: Pair)
    requires PeriodsOf(candles, pair) == {}
    ensures WithoutPair(candles, pair) == candles
  {
    forall k | k in candles ensures !(k.symbol == pair.symbol && k.resolution == pair.resolution) {
      assert k.at !in PeriodsOf(candles, pair);
    }
  }

  function Greatest(s: set<int>): (t: int)
    requires s != {}
    ensures t in s && forall u :: u in s ==> u <= t
  {
    var first := Least(s);
    var rest := s - {first};
    assert forall u :: u in s ==> u == first || u in rest;
    if rest == {} then first else Greatest(rest)
  }
}
