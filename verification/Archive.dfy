/**
 The one way candles enter and leave the archive, and what must survive it: the derived resolutions always say what the
 stored minutes say. Each database statement or transaction is one step; a run may stop after any of them.
 */
module Archive {
  import opened Wrappers
  import opened Rollups
  import Coverage

  datatype Pair = Pair(symbol: string, resolution: Resolution)

  type CoverageRows = map<Pair, set<Coverage.Range>>

  datatype State = State(candles: CandleTable, derived: DerivedTable, coverage: CoverageRows)

  const EMPTY := State(map[], map[], map[])

  function KeyOf(c: Candle): Key { Key(c.symbol, c.resolution, c.periodStart) }

  // ---- writing ---------------------------------------------------------------------------------------------------

  /** The last offer for each row, as the batch's dictionary keeps it. */
  function Kept(batch: seq<Candle>): CandleTable {
    if batch == [] then map[]
    else Kept(batch[..|batch| - 1])[KeyOf(batch[|batch| - 1]) := batch[|batch| - 1]]
  }

  /** The authority rule: a streamed value never displaces a stored history one. */
  predicate Blocked(held: CandleTable, k: Key, offer: Candle) {
    k in held && held[k].source == History && offer.source == Stream
  }

  function Taken(held: CandleTable, kept: CandleTable): CandleTable {
    map k | k in kept && !Blocked(held, k, kept[k]) :: kept[k]
  }

  predicate AnyForming(batch: seq<Candle>) { exists i :: 0 <= i < |batch| && batch[i].forming }

  function Written(held: CandleTable, batch: seq<Candle>): CandleTable {
    if AnyForming(batch) then held else held + Taken(held, Kept(batch))
  }

  /** Of the offers for one row, the batch's last is the one kept. */
  lemma {:induction false} KeptIsLast(batch: seq<Candle>, k: Key)
    ensures k in Kept(batch) <==> exists i :: 0 <= i < |batch| && KeyOf(batch[i]) == k
    ensures k in Kept(batch) ==>
      exists i :: 0 <= i < |batch| && KeyOf(batch[i]) == k && Kept(batch)[k] == batch[i]
                  && forall j :: i < j < |batch| ==> KeyOf(batch[j]) != k
  {
    if batch != [] {
      var n := |batch| - 1;
      KeptIsLast(batch[..n], k);
      if KeyOf(batch[n]) != k && k in Kept(batch[..n]) {
        var i :| 0 <= i < n && KeyOf(batch[..n][i]) == k && Kept(batch[..n])[k] == batch[..n][i]
                 && forall j :: i < j < n ==> KeyOf(batch[..n][j]) != k;
        assert forall j :: i < j < n ==> batch[j] == batch[..n][j];
        assert batch[i] == batch[..n][i];
      }
      forall i | 0 <= i < |batch| && KeyOf(batch[i]) == k ensures k in Kept(batch) {
        if i < n { assert KeyOf(batch[..n][i]) == k; }
      }
    }
  }

  /** A stored row of history stays history: it changes only for an offer of the batch that is history too. */
  lemma HistoryOutranksStream(held: CandleTable, batch: seq<Candle>, k: Key)
    requires k in held && held[k].source == History
    ensures k in Written(held, batch) && Written(held, batch)[k].source == History
    ensures Written(held, batch)[k] != held[k] ==>
      exists i :: 0 <= i < |batch| && batch[i] == Written(held, batch)[k]
  {
    KeptIsLast(batch, k);
  }

  /** What a batch leaves in a row it has an offer for, exactly: the last of those offers, unless that is streamed and the
      row was history. So the row is history afterwards exactly when it was before, or the last offer for it is. */
  lemma WrittenExactly(held: CandleTable, batch: seq<Candle>, i: nat)
    requires !AnyForming(batch) && i < |batch|
    requires forall j :: i < j < |batch| ==> KeyOf(batch[j]) != KeyOf(batch[i])
    ensures
      var k := KeyOf(batch[i]);
      var wasHistory := k in held && held[k].source == History;
      && k in Written(held, batch)
      && Written(held, batch)[k] == (if wasHistory && batch[i].source == Stream then held[k] else batch[i])
      && (Written(held, batch)[k].source == History <==> wasHistory || batch[i].source == History)
  {
    KeptIsLast(batch, KeyOf(batch[i]));
  }

  /** The batch names this row for the last time. */
  predicate LastOffer(batch: seq<Candle>, i: nat)
    requires i < |batch|
  {
    forall j :: i < j < |batch| ==> KeyOf(batch[j]) != KeyOf(batch[i])
  }

  /** The rows a batch changes: each that it names, unless it was history and the last the batch says of it is streamed. */
  function RowsTaken(held: CandleTable, batch: seq<Candle>): set<Key> {
    set i | 0 <= i < |batch| && LastOffer(batch, i)
            && !(KeyOf(batch[i]) in held && held[KeyOf(batch[i])].source == History && batch[i].source == Stream)
      :: KeyOf(batch[i])
  }

  /** The count the statement answers is the number of those rows. */
  lemma TakenCounts(held: CandleTable, batch: seq<Candle>)
    ensures |Taken(held, Kept(batch))| == |RowsTaken(held, batch)|
  {
    var taken := Taken(held, Kept(batch));
    forall k ensures k in taken.Keys <==> k in RowsTaken(held, batch) {
      KeptIsLast(batch, k);
      if k in Kept(batch) {
        var i :| 0 <= i < |batch| && KeyOf(batch[i]) == k && Kept(batch)[k] == batch[i]
                 && forall j :: i < j < |batch| ==> KeyOf(batch[j]) != k;
        assert LastOffer(batch, i);
      }
      if k in RowsTaken(held, batch) {
        var i :| 0 <= i < |batch| && LastOffer(batch, i) && KeyOf(batch[i]) == k
                 && !(k in held && held[k].source == History && batch[i].source == Stream);
        assert Kept(batch)[k] == batch[i];
      }
    }
    assert taken.Keys == RowsTaken(held, batch);
  }

  const EARLY := Candle("US500", Minute, 0, None, None, None, None, None, History, false)

  /** The rule is kept against what is stored, not inside one batch: a stream candle offered after a history one for the
      same row is the one stored. */
  lemma StreamDisplacesHistoryInOneBatch()
    ensures Written(map[], [EARLY, EARLY.(source := Stream)]) == map[KeyOf(EARLY) := EARLY.(source := Stream)]
  {
    var batch := [EARLY, EARLY.(source := Stream)];
    assert batch[..1] == [EARLY] && [EARLY][..0] == [];
    assert Kept([EARLY]) == map[KeyOf(EARLY) := EARLY];
    assert Kept(batch) == map[KeyOf(EARLY) := EARLY.(source := Stream)];
  }

  // ---- refreshing every derivable resolution ---------------------------------------------------------------------

  /** The first `n` of the five refreshes, in order, each its own transaction. */
  function RefreshedFirst(n: nat, candles: CandleTable, derived: DerivedTable, symbol: string, since: int, until: int)
    : DerivedTable
    requires n <= |DERIVABLE| && since <= until
  {
    if n == 0 then derived
    else
      var before := RefreshedFirst(n - 1, candles, derived, symbol, since, until);
      Refreshed(candles, before, symbol, DERIVABLE[n - 1], since, until).value
  }

  predicate InWindow(k: Key, symbol: string, since: int, until: int) {
    && k.symbol == symbol && k.resolution in DERIVABLE
    && BucketStart(since, k.resolution).value <= k.at < BucketStart(until, k.resolution).value + Period(k.resolution)
  }

  lemma {:induction false} RefreshedFirstAt(n: nat, candles: CandleTable, derived: DerivedTable, symbol: string,
                                            since: int, until: int, k: Key)
    requires n <= |DERIVABLE| && since <= until
    ensures Lookup(RefreshedFirst(n, candles, derived, symbol, since, until), k) ==
            if InWindow(k, symbol, since, until) && k.resolution in DERIVABLE[..n]
            then Rollup(MinutesOf(candles, symbol), k.resolution, k.at) else Lookup(derived, k)
  {
    hide BucketStart, Period, Rollup, MinutesOf, Refreshed;
    if n > 0 {
      RefreshedFirstAt(n - 1, candles, derived, symbol, since, until, k);
      var before := RefreshedFirst(n - 1, candles, derived, symbol, since, until);
      RefreshRebuildsWindow(candles, before, symbol, DERIVABLE[n - 1], since, until, k);
      assert DERIVABLE[..n] == DERIVABLE[..n - 1] + [DERIVABLE[n - 1]];
    }
  }

  // ---- the steps of a run ----------------------------------------------------------------------------------------

  /** A commit is at most seven database steps; `stop` says how many of them the process lived to make. */
  datatype Step =
    | Commit(batch: seq<Candle>, pair: Pair, offered: Coverage.Range, stop: nat)
    | Delete(pair: Pair)

  const COMMIT_STEPS: nat := 2 + |DERIVABLE|

  function RowsOf(coverage: CoverageRows, pair: Pair): set<Coverage.Range> {
    if pair in coverage then coverage[pair] else {}
  }

  predicate Ascends(batch: seq<Candle>) {
    batch != [] && batch[0].periodStart <= batch[|batch| - 1].periodStart
  }

  /** Whether the commit lived to its end and none of its steps refused. */
  ghost predicate Completes(st: State, c: Step)
    requires c.Commit?
  {
    && c.stop >= COMMIT_STEPS
    && Coverage.Record(RowsOf(st.coverage, c.pair), c.offered).Success?
    && c.pair.resolution == Minute && Ascends(c.batch)
  }

  /** The second step: the stretch recorded as verified, unless the coverage table refuses it. */
  ghost predicate Covers(st: State, c: Step)
    requires c.Commit?
  {
    c.stop >= 2 && Coverage.Record(RowsOf(st.coverage, c.pair), c.offered).Success?
  }

  ghost function CoverageAfter(st: State, c: Step): CoverageRows
    requires c.Commit?
  {
    if Covers(st, c) then st.coverage[c.pair := Coverage.Record(RowsOf(st.coverage, c.pair), c.offered).value] else st.coverage
  }

  /** The last five, over minutes alone: the refreshes the process lived to make. */
  ghost function DerivedAfter(st: State, c: Step): DerivedTable
    requires c.Commit?
  {
    if !Covers(st, c) || c.pair.resolution != Minute || !Ascends(c.batch) then st.derived
    else
      RefreshedFirst(if c.stop >= COMMIT_STEPS then |DERIVABLE| else c.stop - 2, Written(st.candles, c.batch), st.derived,
                     c.pair.symbol, c.batch[0].periodStart, c.batch[|c.batch| - 1].periodStart)
  }

  ghost function AfterCommit(st: State, c: Step): State
    requires c.Commit?
  {
    if AnyForming(c.batch) || c.stop == 0 then st
    else State(Written(st.candles, c.batch), DerivedAfter(st, c), CoverageAfter(st, c))
  }

  function WithoutPair(candles: CandleTable, pair: Pair): CandleTable {
    map k | k in candles && !(k.symbol == pair.symbol && k.resolution == pair.resolution) :: candles[k]
  }

  function WithoutSymbol(derived: DerivedTable, symbol: string): DerivedTable {
    map k | k in derived && k.symbol != symbol :: derived[k]
  }

  function AfterDelete(st: State, pair: Pair): State {
    State(
      WithoutPair(st.candles, pair),
      if pair.resolution == Minute then WithoutSymbol(st.derived, pair.symbol) else st.derived,
      st.coverage - {pair})
  }

  ghost function After(st: State, step: Step): State {
    if step.Commit? then AfterCommit(st, step) else AfterDelete(st, step.pair)
  }

  // ---- what the derived table owes the minutes -------------------------------------------------------------------

  function Expected(candles: CandleTable, k: Key): Option<Derived> {
    if k.resolution in DERIVABLE then Rollup(MinutesOf(candles, k.symbol), k.resolution, k.at) else None
  }

  ghost predicate RightAt(st: State, k: Key) { Lookup(st.derived, k) == Expected(st.candles, k) }

  /** Every one of the five series, row for row, is what recomputing it from every stored minute gives. */
  ghost predicate Fresh(st: State) { forall k :: RightAt(st, k) }

  /** `k` is not the bucket of any minute in `doubtful`. */
  ghost predicate Clear(k: Key, doubtful: set<Key>) {
    k.resolution in DERIVABLE ==>
      forall m :: m in doubtful && m.symbol == k.symbol ==> DateBin(m.at, k.resolution) != k.at
  }

  ghost predicate FreshExcept(st: State, doubtful: set<Key>) {
    forall k {:trigger RightAt(st, k)} :: Clear(k, doubtful) ==> RightAt(st, k)
  }

  /** The minutes a batch may have changed. */
  function Touched(batch: seq<Candle>): set<Key> {
    set i | 0 <= i < |batch| && batch[i].resolution == Minute :: KeyOf(batch[i])
  }

  /** A minute all five of whose buckets a full refresh rebuilds. */
  ghost predicate Healed(m: Key, symbol: string, since: int, until: int) {
    m.symbol == symbol && forall r :: r in DERIVABLE ==> InWindow(Key(symbol, r, DateBin(m.at, r)), symbol, since, until)
  }

  /** The minutes whose buckets may be out of date: those an interrupted commit wrote, until a commit that lives to its
      end rebuilds them or the pair is deleted. */
  ghost function DoubtAfter(st: State, doubtful: set<Key>, step: Step): set<Key> {
    match step
    case Delete(pair) =>
      if pair.resolution == Minute then set m | m in doubtful && m.symbol != pair.symbol else doubtful
    case Commit(batch, pair, offered, stop) =>
      if AnyForming(batch) || stop == 0 then doubtful
      else if !Completes(st, step) then doubtful + Touched(batch)
      else set m | m in doubtful + Touched(batch)
                   && !Healed(m, pair.symbol, batch[0].periodStart, batch[|batch| - 1].periodStart)
  }

  lemma {:induction false} RowsAgree(minutes: map<int, Candle>, others: map<int, Candle>, times: set<int>)
    requires times <= minutes.Keys && times <= others.Keys
    requires forall t :: t in times ==> minutes[t] == others[t]
    ensures Rows(minutes, times) == Rows(others, times)
  {
    if times != {} { RowsAgree(minutes, others, times - {Least(times)}); }
  }

  lemma SameTimes(minutes: map<int, Candle>, others: map<int, Candle>, from: int, end: int)
    requires forall t :: from <= t < end ==> Lookup(minutes, t) == Lookup(others, t)
    ensures TimesIn(minutes, from, end) == TimesIn(others, from, end)
    ensures TimesIn(minutes, from, end) <= minutes.Keys && TimesIn(minutes, from, end) <= others.Keys
    ensures forall t :: t in TimesIn(minutes, from, end) ==> minutes[t] == others[t]
  {
    forall t | from <= t < end ensures (t in minutes <==> t in others) && (t in minutes ==> minutes[t] == others[t]) {
      assert Lookup(minutes, t) == Lookup(others, t);
    }
  }

  lemma SameRollup(minutes: map<int, Candle>, others: map<int, Candle>, r: Resolution, bucket: int)
    requires
      var times := TimesIn(minutes, bucket, bucket + Period(r));
      && times == TimesIn(others, bucket, bucket + Period(r))
      && times <= minutes.Keys && times <= others.Keys && Rows(minutes, times) == Rows(others, times)
    ensures Rollup(minutes, r, bucket) == Rollup(others, r, bucket)
  {
    hide IsStart, Period, Aggregate, MinutesPerPeriod, Rows, TimesIn;
  }

  /** A bucket's candle depends on nothing outside the bucket. */
  lemma RollupIsLocal(minutes: map<int, Candle>, others: map<int, Candle>, r: Resolution, bucket: int)
    requires forall t :: bucket <= t < bucket + Period(r) ==> Lookup(minutes, t) == Lookup(others, t)
    ensures Rollup(minutes, r, bucket) == Rollup(others, r, bucket)
  {
    hide *;
    SameTimes(minutes, others, bucket, bucket + Period(r));
    RowsAgree(minutes, others, TimesIn(minutes, bucket, bucket + Period(r)));
    SameRollup(minutes, others, r, bucket);
  }

  lemma MinutesLookup(candles: CandleTable, symbol: string, t: int)
    ensures Lookup(MinutesOf(candles, symbol), t) == Lookup(candles, Key(symbol, Minute, t))
  {
  }

  lemma UntouchedRow(held: CandleTable, batch: seq<Candle>, k: Key)
    requires k.resolution == Minute && k !in Touched(batch)
    ensures Lookup(Written(held, batch), k) == Lookup(held, k)
  {
    KeptIsLast(batch, k);
    forall i | 0 <= i < |batch| ensures KeyOf(batch[i]) != k {
      if batch[i].resolution == Minute { assert KeyOf(batch[i]) in Touched(batch); }
    }
  }

  lemma ExpectedUnlessTouched(held: CandleTable, batch: seq<Candle>, k: Key)
    requires Clear(k, Touched(batch))
    ensures Expected(Written(held, batch), k) == Expected(held, k)
  {
    if k.resolution in DERIVABLE && IsStart(k.at, k.resolution) {
      var minutes, others := MinutesOf(Written(held, batch), k.symbol), MinutesOf(held, k.symbol);
      forall t | k.at <= t < k.at + Period(k.resolution) ensures Lookup(minutes, t) == Lookup(others, t) {
        BinOf(t, k.at, k.resolution);
        MinutesLookup(held, k.symbol, t);
        MinutesLookup(Written(held, batch), k.symbol, t);
        UntouchedRow(held, batch, Key(k.symbol, Minute, t));
      }
      RollupIsLocal(minutes, others, k.resolution, k.at);
    }
  }

  lemma RefreshingKeepsRight(n: nat, candles: CandleTable, derived: DerivedTable, symbol: string, since: int, until: int,
                             k: Key)
    requires n <= |DERIVABLE| && since <= until
    requires Lookup(derived, k) == Expected(candles, k) ||
             (n == |DERIVABLE| && InWindow(k, symbol, since, until))
    ensures Lookup(RefreshedFirst(n, candles, derived, symbol, since, until), k) == Expected(candles, k)
  {
    hide BucketStart, Period, Rollup, MinutesOf, Refreshed, RefreshedFirst;
    RefreshedFirstAt(n, candles, derived, symbol, since, until, k);
    assert DERIVABLE[..|DERIVABLE|] == DERIVABLE;
  }

  lemma InterruptedCommitKeepsFresh(st: State, doubtful: set<Key>, c: Step, k: Key)
    requires c.Commit? && !AnyForming(c.batch) && c.stop > 0 && !Completes(st, c)
    requires FreshExcept(st, doubtful) && Clear(k, doubtful + Touched(c.batch))
    ensures RightAt(AfterCommit(st, c), k)
  {
    hide DateBin, Expected, Kept, RefreshedFirst, Written;
    var after := AfterCommit(st, c);
    assert RightAt(st, k) by { assert Clear(k, doubtful); }
    assert Clear(k, Touched(c.batch));
    ExpectedUnlessTouched(st.candles, c.batch, k);
    if after.derived != st.derived {
      RefreshingKeepsRight(if c.stop >= COMMIT_STEPS then |DERIVABLE| else c.stop - 2, after.candles, st.derived,
                           c.pair.symbol, c.batch[0].periodStart, c.batch[|c.batch| - 1].periodStart, k);
    }
  }

  lemma CompletedCommitKeepsFresh(st: State, doubtful: set<Key>, c: Step, k: Key)
    requires c.Commit? && !AnyForming(c.batch) && Completes(st, c)
    requires FreshExcept(st, doubtful) && Clear(k, DoubtAfter(st, doubtful, c))
    ensures RightAt(AfterCommit(st, c), k)
  {
    hide DateBin, Kept, RefreshedFirst, Written, InWindow, Rollup, MinutesOf;
    var since, until := c.batch[0].periodStart, c.batch[|c.batch| - 1].periodStart;
    var after := AfterCommit(st, c);
    if !InWindow(k, c.pair.symbol, since, until) && k.resolution in DERIVABLE {
      OutsideIsClear(doubtful + Touched(c.batch), DoubtAfter(st, doubtful, c), c.pair.symbol, since, until, k);
    }
    if !InWindow(k, c.pair.symbol, since, until) {
      assert RightAt(st, k) by { assert Clear(k, doubtful); }
      assert Clear(k, Touched(c.batch));
      ExpectedUnlessTouched(st.candles, c.batch, k);
    }
    RefreshingKeepsRight(|DERIVABLE|, after.candles, st.derived, c.pair.symbol, since, until, k);
  }

  lemma DeleteKeepsFresh(st: State, doubtful: set<Key>, pair: Pair, k: Key)
    requires FreshExcept(st, doubtful) && Clear(k, DoubtAfter(st, doubtful, Delete(pair)))
    ensures RightAt(AfterDelete(st, pair), k)
  {
    var after := AfterDelete(st, pair);
    if pair.resolution == Minute && k.symbol == pair.symbol {
      DeletedMinutes(st, pair);
    } else {
      assert RightAt(st, k) by { assert Clear(k, doubtful); }
      OtherMinutesStay(st, pair, k.symbol);
      hide MinutesOf, Clear, DoubtAfter, FreshExcept;
    }
  }

  lemma DeletedMinutes(st: State, pair: Pair)
    requires pair.resolution == Minute
    ensures MinutesOf(AfterDelete(st, pair).candles, pair.symbol) == map[]
  {
  }

  lemma OtherMinutesStay(st: State, pair: Pair, symbol: string)
    requires pair.resolution != Minute || symbol != pair.symbol
    ensures MinutesOf(AfterDelete(st, pair).candles, symbol) == MinutesOf(st.candles, symbol)
  {
  }

  // ---- over any run ----------------------------------------------------------------------------------------------

  /** The archive after a run from empty, with the minutes whose buckets are in doubt. */
  ghost function Run(steps: seq<Step>): (State, set<Key>) {
    if steps == [] then (EMPTY, {})
    else
      var (st, doubtful) := Run(steps[..|steps| - 1]);
      var step := steps[|steps| - 1];
      (After(st, step), DoubtAfter(st, doubtful, step))
  }

  /** However a run's commits were cut short or refused, every bucket none of whose minutes is in doubt is right. */
  lemma {:induction false} EveryRunIsFreshExcept(steps: seq<Step>)
    ensures FreshExcept(Run(steps).0, Run(steps).1)
  {
    hide Expected, DateBin, AfterCommit, AfterDelete, DoubtAfter, Clear;
    if steps == [] {
      forall k ensures RightAt(EMPTY, k) {
        assert Expected(EMPTY.candles, k) == None by { NothingFromNothing(k); }
      }
    } else {
      var (st, doubtful) := Run(steps[..|steps| - 1]);
      var step := steps[|steps| - 1];
      EveryRunIsFreshExcept(steps[..|steps| - 1]);
      forall k | Clear(k, DoubtAfter(st, doubtful, step)) ensures RightAt(After(st, step), k) {
        StepKeepsFresh(st, doubtful, step, k);
      }
    }
  }

  lemma NothingFromNothing(k: Key)
    ensures Expected(map[], k) == None
  {
  }

  lemma StepKeepsFresh(st: State, doubtful: set<Key>, step: Step, k: Key)
    requires FreshExcept(st, doubtful) && Clear(k, DoubtAfter(st, doubtful, step))
    ensures RightAt(After(st, step), k)
  {
    hide Expected, DateBin, RefreshedFirst, Written;
    if step.Delete? {
      DeleteKeepsFresh(st, doubtful, step.pair, k);
    } else if AnyForming(step.batch) || step.stop == 0 {
      assert RightAt(st, k);
    } else if Completes(st, step) {
      CompletedCommitKeepsFresh(st, doubtful, step, k);
    } else {
      InterruptedCommitKeepsFresh(st, doubtful, step, k);
    }
  }

  /** A bucket no refresh reached, of which no doubt is left, had none to begin with. */
  lemma OutsideIsClear(before: set<Key>, doubt: set<Key>, symbol: string, since: int, until: int, k: Key)
    requires doubt == set m | m in before && !Healed(m, symbol, since, until)
    requires !InWindow(k, symbol, since, until) && Clear(k, doubt) && k.resolution in DERIVABLE
    ensures Clear(k, before)
  {
  }

  // ---- runs in which every commit goes through -------------------------------------------------------------------

  /** What the callers hand over: candles of one pair, oldest first. */
  predicate Orderly(batch: seq<Candle>, pair: Pair) {
    && (forall i :: 0 <= i < |batch| ==> batch[i].symbol == pair.symbol && batch[i].resolution == pair.resolution)
    && (forall i, j :: 0 <= i <= j < |batch| ==> batch[i].periodStart <= batch[j].periodStart)
  }

  /** Both floors agree on `moment`, for every derivable resolution. */
  predicate Floored(moment: int) {
    forall r :: r in DERIVABLE ==> BucketStart(moment, r).value == DateBin(moment, r)
  }

  predicate Unfloored(moment: int, r: Resolution) {
    r in DERIVABLE && BucketStart(moment, r).value != DateBin(moment, r)
  }

  lemma FinerStartsDivide(seconds: int, r: Resolution)
    requires r in DERIVABLE && seconds % PeriodSeconds(r) == 0
    ensures seconds % 300 == 0
  {
    var fives := if r == Minute15 then 3 else if r == Minute30 then 6 else if r == Hour then 12 else if r == Hour4 then 48 else 1;
    assert PeriodSeconds(r) == 300 * fives;
    hide PeriodSeconds;
    StartOnAFiner(seconds, PeriodSeconds(r), 300, fives);
  }

  /** The only moments the two floors disagree on: fractions of a second just short of a five-minute mark, before 1970. */
  lemma FlooredExactly(moment: int)
    ensures Floored(moment) <==> moment >= 0 || moment % SECOND == 0 || WholeSeconds(moment) % 300 != 0
  {
    forall r | r in DERIVABLE
      ensures BucketStart(moment, r).value == DateBin(moment, r) <==>
              moment >= 0 || moment % SECOND == 0 || WholeSeconds(moment) % PeriodSeconds(r) != 0
    {
      FloorsAgree(moment, r);
    }
    hide BucketStart, DateBin;
    assert Minute5 in DERIVABLE && PeriodSeconds(Minute5) == 300;
    if WholeSeconds(moment) % 300 != 0 {
      forall r | r in DERIVABLE ensures WholeSeconds(moment) % PeriodSeconds(r) != 0 {
        if WholeSeconds(moment) % PeriodSeconds(r) == 0 { FinerStartsDivide(WholeSeconds(moment), r); }
      }
    }
  }

  /** A commit that is handed what its callers promise and lives to its end. */
  ghost predicate GoesThrough(st: State, step: Step) {
    step.Commit? ==>
      || AnyForming(step.batch)
      || (&& Orderly(step.batch, step.pair)
          && (step.pair.resolution == Minute && step.batch != [] ==>
                Completes(st, step) && Floored(step.batch[0].periodStart)))
  }

  lemma BinsAscend(t: int, u: int, r: Resolution)
    requires t <= u
    ensures DateBin(t, r) <= DateBin(u, r)
  {
    BinOf(t, DateBin(t, r), r);
    BinOf(u, DateBin(u, r), r);
    if DateBin(u, r) < DateBin(t, r) { StartsApart(DateBin(u, r), DateBin(t, r), Period(r)); }
  }

  lemma BetweenIsHealed(m: Key, since: int, until: int)
    requires Floored(since) && since <= m.at <= until
    ensures Healed(m, m.symbol, since, until)
  {
    forall r | r in DERIVABLE
      ensures InWindow(Key(m.symbol, r, DateBin(m.at, r)), m.symbol, since, until)
    {
      BinsAscend(since, m.at, r);
      BinsAscend(m.at, until, r);
      FloorsAgree(until, r);
      hide BucketStart, DateBin;
      assert Period(r) > 0;
    }
  }

  lemma NoDoubtLeft(st: State, step: Step)
    requires GoesThrough(st, step)
    ensures DoubtAfter(st, {}, step) == {}
  {
    if step.Commit? && !AnyForming(step.batch) && step.stop > 0 {
      var batch := step.batch;
      forall m | m in Touched(batch)
        ensures Completes(st, step) && Healed(m, step.pair.symbol, batch[0].periodStart, batch[|batch| - 1].periodStart)
      {
        var i :| 0 <= i < |batch| && batch[i].resolution == Minute && KeyOf(batch[i]) == m;
        BetweenIsHealed(m, batch[0].periodStart, batch[|batch| - 1].periodStart);
      }
    }
  }

  ghost predicate AllGoThrough(steps: seq<Step>) {
    forall i :: 0 <= i < |steps| ==> GoesThrough(Run(steps[..i]).0, steps[i])
  }

  /** After any run whose commits go through, all five series equal their recomputation over all stored minutes. */
  lemma {:induction false} EveryRunIsFresh(steps: seq<Step>)
    requires AllGoThrough(steps)
    ensures Run(steps).1 == {} && Fresh(Run(steps).0)
  {
    hide GoesThrough, DoubtAfter, After, RightAt;
    if steps != [] {
      var n := |steps| - 1;
      forall i | 0 <= i < n ensures GoesThrough(Run(steps[..n][..i]).0, steps[..n][i]) {
        assert steps[..n][..i] == steps[..i];
        assert GoesThrough(Run(steps[..i]).0, steps[i]);
      }
      EveryRunIsFresh(steps[..n]);
      assert GoesThrough(Run(steps[..n]).0, steps[n]);
      NoDoubtLeft(Run(steps[..n]).0, steps[n]);
    }
    EveryRunIsFreshExcept(steps);
    forall k ensures RightAt(Run(steps).0, k) {
      assert Clear(k, {});
    }
  }

  // ---- when a commit does not go through -------------------------------------------------------------------------

  /** What a batch leaves of the minutes: all that were there, and the one it begins with. */
  lemma NewMinutesWritten(held: CandleTable, batch: seq<Candle>)
    requires !AnyForming(batch) && batch != [] && batch[0].resolution == Minute && KeyOf(batch[0]) !in held
    ensures
      var minutes, more := MinutesOf(held, batch[0].symbol), MinutesOf(Written(held, batch), batch[0].symbol);
      minutes.Keys <= more.Keys && batch[0].periodStart in more && batch[0].periodStart !in minutes
  {
    var symbol := batch[0].symbol;
    var minutes, more := MinutesOf(held, symbol), MinutesOf(Written(held, batch), symbol);
    KeptIsLast(batch, KeyOf(batch[0]));
    assert KeyOf(batch[0]) in Kept(batch);
    forall t | t in minutes || t == batch[0].periodStart ensures t in more {
      MinutesLookup(held, symbol, t);
      MinutesLookup(Written(held, batch), symbol, t);
    }
    MinutesLookup(held, symbol, batch[0].periodStart);
  }

  /** A minute that was not there makes every bucket it lies in another candle. */
  lemma NewMinutesCount(held: CandleTable, batch: seq<Candle>, r: Resolution)
    requires r in DERIVABLE
    requires !AnyForming(batch) && batch != [] && batch[0].resolution == Minute && KeyOf(batch[0]) !in held
    ensures
      var k := Key(batch[0].symbol, r, DateBin(batch[0].periodStart, r));
      Expected(Written(held, batch), k) != Expected(held, k)
  {
    var t := batch[0].periodStart;
    BinOf(t, DateBin(t, r), r);
    NewMinutesWritten(held, batch);
    hide DateBin, MinutesOf, Rollup, IsStart, Period, Written;
    MoreInBucket(MinutesOf(held, batch[0].symbol), MinutesOf(Written(held, batch), batch[0].symbol), t, r, DateBin(t, r));
  }

  lemma MoreInBucket(minutes: map<int, Candle>, more: map<int, Candle>, t: int, r: Resolution, bucket: int)
    requires minutes.Keys <= more.Keys && t in more && t !in minutes
    requires IsStart(bucket, r) && bucket <= t < bucket + Period(r)
    ensures Rollup(more, r, bucket) != Rollup(minutes, r, bucket)
  {
    RollupCounts(minutes, r, bucket);
    RollupCounts(more, r, bucket);
    hide Rollup, IsStart, Period;
    MoreTimes(minutes, more, t, bucket, bucket + Period(r));
    hide TimesIn;
  }

  lemma MoreTimes(minutes: map<int, Candle>, more: map<int, Candle>, t: int, from: int, end: int)
    requires minutes.Keys <= more.Keys && t in more && t !in minutes && from <= t < end
    ensures |TimesIn(more, from, end)| > |TimesIn(minutes, from, end)| && TimesIn(more, from, end) != {}
  {
    var times, all := TimesIn(minutes, from, end), TimesIn(more, from, end);
    assert times <= all && t in all - times;
    assert all == times + (all - times);
  }

  lemma RollupCounts(minutes: map<int, Candle>, r: Resolution, bucket: int)
    requires IsStart(bucket, r)
    ensures
      var times := TimesIn(minutes, bucket, bucket + Period(r));
      && (Rollup(minutes, r, bucket).Some? <==> times != {})
      && (times != {} ==> Rollup(minutes, r, bucket).value.minutesPresent == |times|)
  {
    hide IsStart, Period, MinutesPerPeriod, Highest, Lowest, SumVolumes, CountVolumes;
  }

  /** An orderly batch of minutes that begins with one new to an archive whose derived series are right leaves them right
      exactly when nothing stopped the commit: the process lived to its end, the coverage table took the stretch, and the two
      floors agree on the first minute. Coverage is recorded after the candles are stored and before the rollups are rebuilt,
      so a refused stretch leaves them stale. */
  lemma NewMinutesAreFreshExactly(st: State, batch: seq<Candle>, pair: Pair, offered: Coverage.Range, stop: nat)
    requires Fresh(st) && pair.resolution == Minute && Orderly(batch, pair)
    requires batch != [] && KeyOf(batch[0]) !in st.candles
    requires Coverage.Sound(RowsOf(st.coverage, pair))
    ensures
      Fresh(After(st, Commit(batch, pair, offered, stop))) <==>
        || AnyForming(batch) || stop == 0
        || (stop >= COMMIT_STEPS && Coverage.Accepts(RowsOf(st.coverage, pair), offered) && Floored(batch[0].periodStart))
  {
    var commit := Commit(batch, pair, offered, stop);
    Coverage.TakenExactly(RowsOf(st.coverage, pair), offered);
    if !AnyForming(batch) && stop > 0 {
      assert Ascends(batch);
      if Completes(st, commit) && Floored(batch[0].periodStart) {
        assert GoesThrough(st, commit);
        GoneThroughIsFresh(st, commit);
      } else {
        NewMinutesStale(st, batch, pair, offered, stop);
      }
    }
  }

  lemma GoneThroughIsFresh(st: State, step: Step)
    requires Fresh(st) && GoesThrough(st, step)
    ensures Fresh(After(st, step))
  {
    NoDoubtLeft(st, step);
    hide DoubtAfter, GoesThrough, After, RightAt;
    forall k ensures RightAt(After(st, step), k) {
      assert RightAt(st, k) && Clear(k, {});
      StepKeepsFresh(st, {}, step, k);
    }
  }

  /** A bucket that a completed commit's refreshes missed. */
  lemma CompletedMisses(st: State, c: Step, r: Resolution)
    requires c.Commit? && c.pair.resolution == Minute && Ascends(c.batch) && !AnyForming(c.batch) && c.stop > 0
    requires Completes(st, c) && Unfloored(c.batch[0].periodStart, r)
    ensures
      var k := Key(c.pair.symbol, r, DateBin(c.batch[0].periodStart, r));
      Lookup(After(st, c).derived, k) == Lookup(st.derived, k)
  {
    var since, until := c.batch[0].periodStart, c.batch[|c.batch| - 1].periodStart;
    CommitInOrder(c.batch);
    hide *;
    CommitDerives(st, c);
    BucketMissed(Written(st.candles, c.batch), st.derived, c.pair.symbol, since, until, r);
  }

  /** And the last one's bucket, which an interrupted commit's never come to. */
  lemma InterruptedMisses(st: State, c: Step)
    requires c.Commit? && c.pair.resolution == Minute && Ascends(c.batch) && !AnyForming(c.batch) && c.stop > 0
    requires !Completes(st, c)
    ensures
      var k := Key(c.pair.symbol, Hour4, DateBin(c.batch[0].periodStart, Hour4));
      Lookup(After(st, c).derived, k) == Lookup(st.derived, k)
  {
    var since, until := c.batch[0].periodStart, c.batch[|c.batch| - 1].periodStart;
    CommitInOrder(c.batch);
    var n := CommitCutShort(st, c);
    hide *;
    LastRefreshMissing(Written(st.candles, c.batch), st.derived, c.pair.symbol, since, until, n);
  }

  lemma NewMinutesStale(st: State, batch: seq<Candle>, pair: Pair, offered: Coverage.Range, stop: nat)
    requires Fresh(st) && pair.resolution == Minute && Orderly(batch, pair) && batch != [] && Ascends(batch)
    requires !AnyForming(batch) && stop > 0 && KeyOf(batch[0]) !in st.candles
    requires !(Completes(st, Commit(batch, pair, offered, stop)) && Floored(batch[0].periodStart))
    ensures !Fresh(After(st, Commit(batch, pair, offered, stop)))
  {
    var commit := Commit(batch, pair, offered, stop);
    assert batch[0].symbol == pair.symbol && batch[0].resolution == Minute;
    hide DateBin, Expected, Completes, After, Floored, RightAt, Orderly, Ascends, AnyForming, BucketStart, KeyOf, Written,
      RefreshedFirst;
    var r := if Completes(st, commit) then UnflooredAt(batch[0].periodStart) else Hour4;
    var k := Key(pair.symbol, r, DateBin(batch[0].periodStart, r));
    assert RightAt(st, k);
    if Completes(st, commit) {
      CompletedMisses(st, commit, r);
    } else {
      InterruptedMisses(st, commit);
    }
    NewMinutesCount(st.candles, batch, r);
    CommitDerives(st, commit);
    NotRight(st, After(st, commit), k);
    assert !RightAt(After(st, commit), k);
  }

  lemma NotRight(st: State, after: State, k: Key)
    requires RightAt(st, k) && Lookup(after.derived, k) == Lookup(st.derived, k)
    requires Expected(after.candles, k) != Expected(st.candles, k)
    ensures !RightAt(after, k)
  {
    hide Expected;
  }

  lemma CommitInOrder(batch: seq<Candle>)
    requires Ascends(batch)
    ensures batch[0].periodStart <= batch[|batch| - 1].periodStart
  {
  }

  /** What a completed commit of minutes in order leaves of the two tables: the candles written, and all five refreshes done. */
  lemma CommitDerives(st: State, c: Step)
    requires c.Commit? && c.pair.resolution == Minute && Ascends(c.batch) && !AnyForming(c.batch) && c.stop > 0
    ensures
      var after, candles := After(st, c), Written(st.candles, c.batch);
      var since, until := c.batch[0].periodStart, c.batch[|c.batch| - 1].periodStart;
      && after.candles == candles
      && (Completes(st, c) ==>
            after.derived == RefreshedFirst(|DERIVABLE|, candles, st.derived, c.pair.symbol, since, until))
  {
    hide RefreshedFirst, Written, Coverage.Record, AnyForming;
  }

  /** And one cut short or refused the stretch: the first few refreshes, or none. */
  lemma CommitCutShort(st: State, c: Step) returns (n: nat)
    requires c.Commit? && c.pair.resolution == Minute && Ascends(c.batch) && !AnyForming(c.batch) && c.stop > 0
    requires !Completes(st, c)
    ensures n < |DERIVABLE|
    ensures
      var since, until := c.batch[0].periodStart, c.batch[|c.batch| - 1].periodStart;
      After(st, c).derived == RefreshedFirst(n, Written(st.candles, c.batch), st.derived, c.pair.symbol, since, until)
  {
    hide Written, Coverage.Record, RefreshedFirst, AnyForming;
    assert Covers(st, c) ==> c.stop < COMMIT_STEPS;
    assert After(st, c).derived == DerivedAfter(st, c) by { hide DerivedAfter, CoverageAfter; }
    NothingRefreshed(Written(st.candles, c.batch), st.derived, c.pair.symbol, c.batch[0].periodStart,
                     c.batch[|c.batch| - 1].periodStart);
    hide Completes, Covers, After, AfterCommit;
    n := if Covers(st, c) then c.stop - 2 else 0;
  }

  lemma NothingRefreshed(candles: CandleTable, derived: DerivedTable, symbol: string, since: int, until: int)
    requires since <= until
    ensures RefreshedFirst(0, candles, derived, symbol, since, until) == derived
  {
  }

  /** A bucket the window was not widened to is left as it was. */
  lemma BucketMissed(candles: CandleTable, derived: DerivedTable, symbol: string, since: int, until: int, r: Resolution)
    requires since <= until && Unfloored(since, r)
    ensures
      var k := Key(symbol, r, DateBin(since, r));
      Lookup(RefreshedFirst(|DERIVABLE|, candles, derived, symbol, since, until), k) == Lookup(derived, k)
  {
    FloorsAgree(since, r);
    hide DateBin, BucketStart, Period, RefreshedFirst, Rollup, MinutesOf;
    RefreshedFirstAt(|DERIVABLE|, candles, derived, symbol, since, until, Key(symbol, r, DateBin(since, r)));
  }

  lemma LastRefreshMissing(candles: CandleTable, derived: DerivedTable, symbol: string, since: int, until: int, n: nat)
    requires since <= until && n < |DERIVABLE|
    ensures
      var k := Key(symbol, Hour4, DateBin(since, Hour4));
      Lookup(RefreshedFirst(n, candles, derived, symbol, since, until), k) == Lookup(derived, k)
  {
    hide DateBin, BucketStart, Period, RefreshedFirst, Rollup, MinutesOf;
    RefreshedFirstAt(n, candles, derived, symbol, since, until, Key(symbol, Hour4, DateBin(since, Hour4)));
    assert Hour4 !in DERIVABLE[..n];
  }

  ghost function UnflooredAt(moment: int): (r: Resolution)
    requires !Floored(moment)
    ensures Unfloored(moment, r)
  {
    var r :| Unfloored(moment, r);
    r
  }
}
