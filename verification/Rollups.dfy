/**
 The derived resolutions, aggregated from the minute series. Times are microseconds since the epoch, the precision a
 period start is stored with.
 */
module Rollups {
  import opened Wrappers

  datatype Resolution = Minute | Minute5 | Minute15 | Minute30 | Hour | Hour4 | Day | Week

  const SECOND: int := 1_000_000
  const MINUTE: int := 60 * SECOND

  const DERIVABLE: seq<Resolution> := [Minute5, Minute15, Minute30, Hour, Hour4]

  function PeriodSeconds(r: Resolution): int {
    match r
    case Minute => 60
    case Minute5 => 300
    case Minute15 => 900
    case Minute30 => 1_800
    case Hour => 3_600
    case Hour4 => 14_400
    case Day => 86_400
    case Week => 604_800
  }

  function Period(r: Resolution): int { PeriodSeconds(r) * SECOND }

  predicate IsStart(t: int, r: Resolution) { t % Period(r) == 0 }

  function MinutesPerPeriod(r: Resolution): int { PeriodSeconds(r) / 60 }

  // ---- flooring --------------------------------------------------------------------------------------------------

  /** `int(...)` of a timestamp: toward zero, not down. */
  function WholeSeconds(moment: int): int {
    if moment >= 0 then moment / SECOND else -((-moment) / SECOND)
  }

  function BucketStart(moment: int, r: Resolution): (start: Option<int>)
    ensures start.Some? <==> r in DERIVABLE
  {
    if r !in DERIVABLE then None
    else
      var seconds := WholeSeconds(moment);
      Some((seconds - seconds % PeriodSeconds(r)) * SECOND)
  }

  /** What the SQL statement does: down to the period's start, on either side of the epoch. */
  function DateBin(moment: int, r: Resolution): int { moment - moment % Period(r) }

  /** The two floors differ only for a fraction of a second just before a period that starts before the epoch. */
  lemma FloorsAgree(moment: int, r: Resolution)
    requires r in DERIVABLE
    ensures BucketStart(moment, r).value >= DateBin(moment, r)
    ensures BucketStart(moment, r).value == DateBin(moment, r) <==>
            moment >= 0 || moment % SECOND == 0 || WholeSeconds(moment) % PeriodSeconds(r) != 0
    ensures BucketStart(moment, r).value % Period(r) == 0
  {
    var p := PeriodSeconds(r);
    var s := WholeSeconds(moment);
    var f := moment / SECOND;
    FloorOfFloor(moment, p);
    assert moment == f * SECOND + moment % SECOND;
    assert s == if moment >= 0 || moment % SECOND == 0 then f else f + 1;
    ScaledMultiple(s / p, p);
    assert s - s % p == p * (s / p);
    assert f - f % p == p * (f / p);
    if s == f + 1 {
      NextFloor(f, p);
    }
  }

  lemma ScaledMultiple(k: int, p: int)
    requires p > 0
    ensures (p * k * SECOND) % (p * SECOND) == 0
  {
    assert p * k * SECOND == (p * SECOND) * k;
    MultipleMod(p * SECOND, k);
  }

  lemma MultipleMod(p: int, k: int)
    requires p > 0
    ensures (p * k) % p == 0
  {
    QuotientIs(p * k, p, k);
  }

  lemma FloorOfFloor(moment: int, p: int)
    requires p > 0
    ensures moment - moment % (p * SECOND) == (moment / SECOND - (moment / SECOND) % p) * SECOND
  {
    var f := moment / SECOND;
    var k := f / p;
    var low := (p * SECOND) * k;
    assert f == p * k + f % p;
    assert f - f % p == p * k;
    assert low == (p * k) * SECOND;
    assert moment == f * SECOND + moment % SECOND;
    assert moment - low == (f % p) * SECOND + moment % SECOND;
    assert (f % p) * SECOND <= (p - 1) * SECOND;
    assert 0 <= moment - low < p * SECOND;
    QuotientIs(moment, p * SECOND, k);
  }

  lemma AtLeastOnce(p: int, d: int)
    requires p > 0 && d >= 1
    ensures p * d >= p
  {
  }

  lemma OneMultipleApart(p: int, k: int, q: int)
    requires p > 0 && k < q
    ensures p * k + p <= p * q
  {
    AtLeastOnce(p, q - k);
    assert p * (q - k) == p * q - p * k;
  }

  lemma QuotientUnique(p: int, q: int, m: int, k: int, n: int)
    requires p > 0 && p * q + m == p * k + n && 0 <= m < p && 0 <= n < p
    ensures q == k && m == n
  {
    if q > k {
      OneMultipleApart(p, k, q);
    } else if q < k {
      OneMultipleApart(p, q, k);
    }
  }

  lemma QuotientIs(x: int, p: int, k: int)
    requires p > 0 && 0 <= x - p * k < p
    ensures x / p == k && x % p == x - p * k
  {
    QuotientUnique(p, x / p, x % p, k, x - p * k);
  }

  lemma NextFloor(f: int, p: int)
    requires p > 1
    ensures p * ((f + 1) / p) == p * (f / p) + (if (f + 1) % p == 0 then p else 0)
  {
    var k, m := f / p, f % p;
    if m + 1 == p {
      assert p * (k + 1) == p * k + p;
      QuotientIs(f + 1, p, k + 1);
    } else {
      QuotientIs(f + 1, p, k);
    }
  }

  /** Two period starts in order are a whole period apart. */
  lemma StartsApart(x: int, y: int, p: int)
    requires p > 0 && x % p == 0 && y % p == 0 && x < y
    ensures x + p <= y
  {
    assert x == p * (x / p) && y == p * (y / p);
    if x / p >= y / p {
      if x / p > y / p { OneMultipleApart(p, y / p, x / p); }
      assert false;
    }
    OneMultipleApart(p, x / p, y / p);
  }

  lemma BinOf(moment: int, bucket: int, r: Resolution)
    ensures DateBin(moment, r) == bucket <==> bucket % Period(r) == 0 && bucket <= moment < bucket + Period(r)
    ensures DateBin(moment, r) % Period(r) == 0
  {
    var p := Period(r);
    var k := moment / p;
    assert moment == p * k + moment % p;
    MultipleMod(p, k);
    if bucket % p == 0 && bucket <= moment < bucket + p {
      assert bucket == p * (bucket / p);
      QuotientIs(moment, p, bucket / p);
    }
  }

  // ---- the minute series -----------------------------------------------------------------------------------------

  datatype Source = History | Stream

  datatype Candle = Candle(
    symbol: string, resolution: Resolution, periodStart: int,
    open: Option<real>, high: Option<real>, low: Option<real>, close: Option<real>, volume: Option<real>,
    source: Source, forming: bool)

  datatype Derived = Derived(
    open: Option<real>, high: Option<real>, low: Option<real>, close: Option<real>, volume: Option<real>,
    minutesPresent: nat, complete: bool)

  datatype Key = Key(symbol: string, resolution: Resolution, at: int)

  type CandleTable = map<Key, Candle>
  type DerivedTable = map<Key, Derived>

  function MinutesOf(candles: CandleTable, symbol: string): map<int, Candle> {
    map k | k in candles && k.symbol == symbol && k.resolution == Minute :: k.at := candles[k]
  }

  // ---- aggregation -----------------------------------------------------------------------------------------------

  lemma {:induction false} LeastExists(s: set<int>)
    requires s != {}
    ensures exists t :: t in s && forall u :: u in s ==> t <= u
  {
    var x := Pick(s);
    var rest := s - {x};
    if rest != {} {
      LeastExists(rest);
      var t :| t in rest && forall u :: u in rest ==> t <= u;
      var least := if x < t then x else t;
      assert forall u :: u in s ==> u == x || u in rest;
      assert least in s && forall u :: u in s ==> least <= u;
    } else {
      assert forall u :: u in s ==> u == x || u in rest;
      assert x in s && forall u :: u in s ==> x <= u;
    }
  }

  function Least(s: set<int>): (t: int)
    requires s != {}
    ensures t in s && forall u :: u in s ==> t <= u
  {
    LeastExists(s);
    var t :| t in s && forall u :: u in s ==> t <= u;
    t
  }

  /** The rows at `times`, `ORDER BY period_start`. */
  function Rows(minutes: map<int, Candle>, times: set<int>): (rows: seq<Candle>)
    requires times <= minutes.Keys
    ensures |rows| == |times|
  {
    if times == {} then []
    else
      var t := Least(times);
      [minutes[t]] + Rows(minutes, times - {t})
  }

  /** `max`: nulls are passed over, and nothing but nulls is null. */
  function Highest(rows: seq<Candle>): Option<real> {
    if rows == [] then None
    else
      var rest := Highest(rows[1..]);
      var mine := rows[0].high;
      if mine.None? then rest
      else if rest.None? || mine.value > rest.value then mine
      else rest
  }

  function Lowest(rows: seq<Candle>): Option<real> {
    if rows == [] then None
    else
      var rest := Lowest(rows[1..]);
      var mine := rows[0].low;
      if mine.None? then rest
      else if rest.None? || mine.value < rest.value then mine
      else rest
  }

  function CountVolumes(rows: seq<Candle>): nat {
    if rows == [] then 0
    else (if rows[0].volume.Some? then 1 else 0) + CountVolumes(rows[1..])
  }

  /** `sum`, which skips nulls. */
  function SumVolumes(rows: seq<Candle>): real {
    if rows == [] then 0.0
    else (if rows[0].volume.Some? then rows[0].volume.value else 0.0) + SumVolumes(rows[1..])
  }

  function Aggregate(rows: seq<Candle>, full: int): Derived
    requires rows != []
  {
    Derived(
      rows[0].open,
      Highest(rows),
      Lowest(rows),
      rows[|rows| - 1].close,
      if CountVolumes(rows) == |rows| then Some(SumVolumes(rows)) else None,
      |rows|,
      |rows| == full)
  }

  function TimesIn(minutes: map<int, Candle>, from: int, until: int): set<int> {
    set t | t in minutes.Keys && from <= t < until
  }

  /** One bucket's candle as recomputed from everything the minute series holds; none for a bucket without a minute. */
  function Rollup(minutes: map<int, Candle>, r: Resolution, bucket: int): Option<Derived> {
    var times := TimesIn(minutes, bucket, bucket + Period(r));
    if !IsStart(bucket, r) || times == {} then None
    else Some(Aggregate(Rows(minutes, times), MinutesPerPeriod(r)))
  }

  // ---- the refresh -----------------------------------------------------------------------------------------------

  function Cleared(derived: DerivedTable, symbol: string, r: Resolution, from: int, until: int): DerivedTable {
    map k | k in derived && !(k.symbol == symbol && k.resolution == r && from <= k.at < until) :: derived[k]
  }

  /** The aggregation statement: minutes inside the window, grouped by the bucket they fall in. */
  function Rebuilt(candles: CandleTable, symbol: string, r: Resolution, from: int, until: int): DerivedTable {
    var minutes := MinutesOf(candles, symbol);
    var inWindow := TimesIn(minutes, from, until);
    map t | t in inWindow ::
      Key(symbol, r, DateBin(t, r)) :=
        var group := set u | u in inWindow && DateBin(u, r) == DateBin(t, r);
        assert t in group;
        Aggregate(Rows(minutes, group), MinutesPerPeriod(r))
  }

  datatype RefreshRefusal = NotDerivable | Backwards

  function Refreshed(candles: CandleTable, derived: DerivedTable, symbol: string, r: Resolution, since: int, until: int)
    : Result<DerivedTable, RefreshRefusal>
  {
    if until < since then Failure(Backwards)
    else if r !in DERIVABLE then Failure(NotDerivable)
    else
      var from, to := BucketStart(since, r).value, BucketStart(until, r).value + Period(r);
      Success(Cleared(derived, symbol, r, from, to) + Rebuilt(candles, symbol, r, from, to))
  }

  function Lookup<K, V>(table: map<K, V>, k: K): Option<V> {
    if k in table then Some(table[k]) else None
  }

  /** A minute is in a window of whole buckets exactly when its bucket is. */
  lemma BucketInWindow(t: int, r: Resolution, from: int, until: int)
    requires IsStart(from, r) && IsStart(until, r)
    ensures from <= t < until <==> from <= DateBin(t, r) < until
  {
    var b := DateBin(t, r);
    BinOf(t, b, r);
    if b < from { StartsApart(b, from, Period(r)); }
    if b < until { StartsApart(b, until, Period(r)); }
  }

  lemma BinIs(t: int, bucket: int, r: Resolution)
    ensures DateBin(t, r) == bucket <==> IsStart(bucket, r) && bucket <= t < bucket + Period(r)
  {
    BinOf(t, bucket, r);
    hide DateBin, Period;
  }

  /** The minutes the statement groups into a bucket are all the minutes the bucket has. */
  lemma GroupIsWholeBucket(minutes: map<int, Candle>, r: Resolution, from: int, until: int, bucket: int)
    requires IsStart(from, r) && IsStart(until, r)
    ensures (set u | u in TimesIn(minutes, from, until) && DateBin(u, r) == bucket) ==
            if IsStart(bucket, r) && from <= bucket < until then TimesIn(minutes, bucket, bucket + Period(r)) else {}
  {
    hide DateBin, Period, IsStart;
    var group := set u | u in TimesIn(minutes, from, until) && DateBin(u, r) == bucket;
    var whole := TimesIn(minutes, bucket, bucket + Period(r));
    forall t: int
      ensures t in group <==> IsStart(bucket, r) && from <= bucket < until && t in whole
    {
      BucketInWindow(t, r, from, until);
      BinIs(t, bucket, r);
    }
  }

  lemma RebuiltAt(candles: CandleTable, symbol: string, r: Resolution, from: int, until: int, bucket: int)
    ensures
      var minutes := MinutesOf(candles, symbol);
      var group := set u | u in TimesIn(minutes, from, until) && DateBin(u, r) == bucket;
      Lookup(Rebuilt(candles, symbol, r, from, until), Key(symbol, r, bucket)) ==
      if group == {} then None else Some(Aggregate(Rows(minutes, group), MinutesPerPeriod(r)))
  {
    var minutes := MinutesOf(candles, symbol);
    var inWindow := TimesIn(minutes, from, until);
    var group := set u | u in inWindow && DateBin(u, r) == bucket;
    var rebuilt := Rebuilt(candles, symbol, r, from, until);
    if group != {} {
      var t := Pick(group);
      assert Key(symbol, r, DateBin(t, r)) in rebuilt;
      assert group == set u | u in inWindow && DateBin(u, r) == DateBin(t, r);
    } else {
      forall t | t in inWindow ensures DateBin(t, r) != bucket {
        assert t !in group;
      }
    }
  }

  lemma RebuiltIsRollup(candles: CandleTable, symbol: string, r: Resolution, from: int, until: int, bucket: int)
    requires IsStart(from, r) && IsStart(until, r)
    ensures Lookup(Rebuilt(candles, symbol, r, from, until), Key(symbol, r, bucket)) ==
            if from <= bucket < until then Rollup(MinutesOf(candles, symbol), r, bucket) else None
  {
    RebuiltAt(candles, symbol, r, from, until, bucket);
    GroupIsWholeBucket(MinutesOf(candles, symbol), r, from, until, bucket);
  }

  lemma RebuiltElsewhere(candles: CandleTable, symbol: string, r: Resolution, from: int, until: int, k: Key)
    requires k.symbol != symbol || k.resolution != r
    ensures k !in Rebuilt(candles, symbol, r, from, until)
  {
  }

  lemma WindowStarts(m: int, r: Resolution)
    requires r in DERIVABLE
    ensures IsStart(BucketStart(m, r).value, r) && IsStart(BucketStart(m, r).value + Period(r), r)
  {
    FloorsAgree(m, r);
    var b := BucketStart(m, r).value;
    assert b == Period(r) * (b / Period(r));
    assert b + Period(r) == Period(r) * (b / Period(r) + 1);
    MultipleMod(Period(r), b / Period(r) + 1);
  }

  lemma WindowRebuilt(candles: CandleTable, derived: DerivedTable, symbol: string, r: Resolution,
                      from: int, to: int, k: Key)
    requires IsStart(from, r) && IsStart(to, r)
    ensures
      Lookup(Cleared(derived, symbol, r, from, to) + Rebuilt(candles, symbol, r, from, to), k) ==
      if k.symbol == symbol && k.resolution == r && from <= k.at < to then Rollup(MinutesOf(candles, symbol), r, k.at)
      else Lookup(derived, k)
  {
    if k.symbol == symbol && k.resolution == r {
      RebuiltIsRollup(candles, symbol, r, from, to, k.at);
    } else {
      RebuiltElsewhere(candles, symbol, r, from, to, k);
    }
  }

  /** One refresh leaves every bucket of its widened window equal to a full recomputation, whatever the table held
      there before, and leaves every other row alone. */
  lemma RefreshRebuildsWindow(candles: CandleTable, derived: DerivedTable, symbol: string, r: Resolution,
                              since: int, until: int, k: Key)
    requires since <= until && r in DERIVABLE
    ensures
      var from, to := BucketStart(since, r).value, BucketStart(until, r).value + Period(r);
      Lookup(Refreshed(candles, derived, symbol, r, since, until).value, k) ==
      if k.symbol == symbol && k.resolution == r && from <= k.at < to then Rollup(MinutesOf(candles, symbol), r, k.at)
      else Lookup(derived, k)
  {
    hide BucketStart, Period, IsStart, Rollup, MinutesOf, Lookup, Cleared, Rebuilt;
    WindowStarts(since, r);
    WindowStarts(until, r);
    var from, to := BucketStart(since, r).value, BucketStart(until, r).value + Period(r);
    WindowRebuilt(candles, derived, symbol, r, from, to, k);
  }

  // ---- what a rollup says ----------------------------------------------------------------------------------------

  ghost predicate IsHighest(high: Option<real>, minutes: map<int, Candle>, times: set<int>)
    requires times <= minutes.Keys
  {
    && (high.None? ==> forall t :: t in times ==> minutes[t].high.None?)
    && (high.Some? ==> (exists t :: t in times && minutes[t].high == high)
                       && forall t :: t in times && minutes[t].high.Some? ==> minutes[t].high.value <= high.value)
  }

  ghost predicate IsLowest(low: Option<real>, minutes: map<int, Candle>, times: set<int>)
    requires times <= minutes.Keys
  {
    && (low.None? ==> forall t :: t in times ==> minutes[t].low.None?)
    && (low.Some? ==> (exists t :: t in times && minutes[t].low == low)
                      && forall t :: t in times && minutes[t].low.Some? ==> minutes[t].low.value >= low.value)
  }

  lemma RowsSplit(minutes: map<int, Candle>, times: set<int>)
    requires times <= minutes.Keys && times != {}
    ensures Rows(minutes, times)[0] == minutes[Least(times)]
    ensures Rows(minutes, times)[1..] == Rows(minutes, times - {Least(times)})
  {
  }

  lemma {:induction false} HighestOf(minutes: map<int, Candle>, times: set<int>)
    requires times <= minutes.Keys
    ensures IsHighest(Highest(Rows(minutes, times)), minutes, times)
  {
    if times != {} {
      var t := Least(times);
      HighestOf(minutes, times - {t});
      RowsSplit(minutes, times);
    }
  }

  lemma {:induction false} LowestOf(minutes: map<int, Candle>, times: set<int>)
    requires times <= minutes.Keys
    ensures IsLowest(Lowest(Rows(minutes, times)), minutes, times)
  {
    if times != {} {
      var t := Least(times);
      LowestOf(minutes, times - {t});
      RowsSplit(minutes, times);
    }
  }

  function VolumeOf(c: Candle): real { if c.volume.Some? then c.volume.value else 0.0 }

  function Carries(c: Candle): nat { if c.volume.Some? then 1 else 0 }

  lemma LeastWithout(times: set<int>, t: int)
    requires t in times && Least(times) != t
    ensures times - {t} != {}
    ensures Least(times - {t}) == Least(times)
  {
    assert Least(times) in times - {t};
  }

  /** Summing is independent of the order: any one minute can be taken out and its volume with it. */
  lemma {:induction false} VolumesSplit(minutes: map<int, Candle>, times: set<int>, t: int)
    requires times <= minutes.Keys && t in times
    ensures SumVolumes(Rows(minutes, times)) == SumVolumes(Rows(minutes, times - {t})) + VolumeOf(minutes[t])
    ensures CountVolumes(Rows(minutes, times)) == CountVolumes(Rows(minutes, times - {t})) + Carries(minutes[t])
  {
    var first := Least(times);
    RowsSplit(minutes, times);
    if first != t {
      VolumesSplit(minutes, times - {first}, t);
      LeastWithout(times, t);
      RowsSplit(minutes, times - {t});
      assert times - {t} - {first} == times - {first} - {t};
    }
  }

  /** What the minutes of a stretch of time carried between them, moment by moment. */
  function VolumeBetween(minutes: map<int, Candle>, from: int, until: int): real
    decreases until - from
  {
    if from >= until then 0.0
    else VolumeBetween(minutes, from, until - 1) + if until - 1 in minutes then VolumeOf(minutes[until - 1]) else 0.0
  }

  lemma NoVolume(minutes: map<int, Candle>)
    ensures SumVolumes(Rows(minutes, {})) == 0.0
  {
  }

  lemma {:induction false} TotalIsBetween(minutes: map<int, Candle>, from: int, until: int)
    ensures SumVolumes(Rows(minutes, TimesIn(minutes, from, until))) == VolumeBetween(minutes, from, until)
    decreases until - from
  {
    hide Rows, SumVolumes, VolumeOf;
    var times := TimesIn(minutes, from, until);
    if from < until {
      TotalIsBetween(minutes, from, until - 1);
      assert times - {until - 1} == TimesIn(minutes, from, until - 1);
      if until - 1 in minutes {
        VolumesSplit(minutes, times, until - 1);
      } else {
        assert times - {until - 1} == times;
      }
    } else {
      assert times == {};
      NoVolume(minutes);
    }
  }

  lemma {:induction false} EveryVolume(minutes: map<int, Candle>, times: set<int>)
    requires times <= minutes.Keys
    ensures CountVolumes(Rows(minutes, times)) <= |times|
    ensures CountVolumes(Rows(minutes, times)) == |times| <==> forall t :: t in times ==> minutes[t].volume.Some?
  {
    if times != {} {
      var t := Least(times);
      EveryVolume(minutes, times - {t});
      RowsSplit(minutes, times);
    }
  }

  lemma {:induction false} LatestRow(minutes: map<int, Candle>, times: set<int>) returns (t: int)
    requires times <= minutes.Keys && times != {}
    ensures t in times && (forall u :: u in times ==> u <= t)
    ensures Rows(minutes, times)[|times| - 1] == minutes[t]
  {
    t := Least(times);
    RowsSplit(minutes, times);
    var rest := times - {t};
    assert forall u :: u in times ==> u == t || u in rest;
    if rest != {} {
      assert |rest| == |times| - 1;
      var last := LatestRow(minutes, rest);
      assert Rows(minutes, times)[1..][|rest| - 1] == Rows(minutes, times)[|times| - 1];
      t := last;
    }
  }

  ghost predicate Opens(c: Option<real>, minutes: map<int, Candle>, times: set<int>)
    requires times <= minutes.Keys
  {
    exists t :: t in times && (forall u :: u in times ==> t <= u) && c == minutes[t].open
  }

  ghost predicate Closes(c: Option<real>, minutes: map<int, Candle>, times: set<int>)
    requires times <= minutes.Keys
  {
    exists t :: t in times && (forall u :: u in times ==> u <= t) && c == minutes[t].close
  }

  lemma EndsOf(minutes: map<int, Candle>, times: set<int>)
    requires times <= minutes.Keys && times != {}
    ensures var rows := Rows(minutes, times);
      rows != [] && Opens(rows[0].open, minutes, times) && Closes(rows[|rows| - 1].close, minutes, times)
  {
    RowsSplit(minutes, times);
    var last := LatestRow(minutes, times);
    hide Rows;
  }

  /** A bucket has a candle exactly when it has a minute; the candle opens with the earliest and closes with the latest,
      spans them all, totals their volume only when every one carried it, and counts them. */
  lemma RollupMeans(minutes: map<int, Candle>, r: Resolution, bucket: int)
    requires IsStart(bucket, r)
    ensures
      var times := TimesIn(minutes, bucket, bucket + Period(r));
      && (Rollup(minutes, r, bucket).Some? <==> times != {})
      && (times != {} ==>
           var d := Rollup(minutes, r, bucket).value;
           && Opens(d.open, minutes, times)
           && Closes(d.close, minutes, times)
           && IsHighest(d.high, minutes, times)
           && IsLowest(d.low, minutes, times)
           && (d.volume.Some? <==> forall t :: t in times ==> minutes[t].volume.Some?)
           && (d.volume.Some? ==> d.volume.value == VolumeBetween(minutes, bucket, bucket + Period(r)))
           && d.minutesPresent == |times|
           && (d.complete <==> |times| == MinutesPerPeriod(r)))
  {
    hide Period, IsStart, MinutesPerPeriod, VolumeBetween, Rows, Highest, Lowest, CountVolumes, SumVolumes, Opens, Closes,
      IsHighest, IsLowest;
    var times := TimesIn(minutes, bucket, bucket + Period(r));
    if times != {} {
      assert times <= minutes.Keys;
      hide TimesIn;
      HighestOf(minutes, times);
      LowestOf(minutes, times);
      EveryVolume(minutes, times);
      TotalIsBetween(minutes, bucket, bucket + Period(r));
      EndsOf(minutes, times);
    }
  }

  // ---- what completeness means -----------------------------------------------------------------------------------

  function Mark(bucket: int, i: int): int { bucket + MINUTE * i }

  function Marks(bucket: int, n: nat): (marks: set<int>)
    ensures forall t :: t in marks ==> bucket <= t < Mark(bucket, n) && (t - bucket) % MINUTE == 0
    ensures forall i :: 0 <= i < n ==> Mark(bucket, i) in marks
    ensures |marks| == n
  {
    if n == 0 then {}
    else
      MultipleMod(MINUTE, n - 1);
      Marks(bucket, n - 1) + {Mark(bucket, n - 1)}
  }

  lemma SameSizeSubset<T>(s: set<T>, whole: set<T>)
    requires s <= whole
    ensures |s| <= |whole|
    ensures |s| == |whole| ==> s == whole
  {
    assert |whole - s| == |whole| - |s|;
  }

  lemma BucketOnAMark(bucket: int, r: Resolution)
    requires IsStart(bucket, r)
    ensures bucket % MINUTE == 0
    ensures Mark(bucket, MinutesPerPeriod(r)) == bucket + Period(r)
  {
    PeriodInMinutes(r);
    hide Period, MinutesPerPeriod, PeriodSeconds;
    StartOnAFiner(bucket, Period(r), MINUTE, MinutesPerPeriod(r));
  }

  lemma PeriodInMinutes(r: Resolution)
    ensures Period(r) == MINUTE * MinutesPerPeriod(r) && MinutesPerPeriod(r) > 0
  {
  }

  lemma StartOnAFiner(t: int, period: int, finer: int, n: int)
    requires finer > 0 && n > 0 && period == finer * n && period > 0 && t % period == 0
    ensures t % finer == 0
  {
    var k := t / period;
    assert t == period * k;
    assert period * k == finer * (n * k);
    MultipleMod(finer, n * k);
  }

  lemma MarkOf(t: int, bucket: int, n: nat) returns (i: int)
    requires bucket % MINUTE == 0 && t % MINUTE == 0 && bucket <= t < Mark(bucket, n)
    ensures 0 <= i < n && t == Mark(bucket, i)
  {
    i := (t - bucket) / MINUTE;
  }

  lemma TimesAreMarks(minutes: map<int, Candle>, bucket: int, n: nat)
    requires forall t :: t in minutes ==> t % MINUTE == 0
    requires bucket % MINUTE == 0
    ensures TimesIn(minutes, bucket, Mark(bucket, n)) <= Marks(bucket, n)
    ensures TimesIn(minutes, bucket, Mark(bucket, n)) == Marks(bucket, n) <==>
            forall i :: 0 <= i < n ==> Mark(bucket, i) in minutes
  {
    var times, marks := TimesIn(minutes, bucket, Mark(bucket, n)), Marks(bucket, n);
    forall t | t in times ensures t in marks {
      var i := MarkOf(t, bucket, n);
    }
    if forall i :: 0 <= i < n ==> Mark(bucket, i) in minutes {
      forall t | t in marks ensures t in times {
        var i := MarkOf(t, bucket, n);
      }
    }
  }

  /** With every stored minute on a minute mark, `complete` says the bucket misses none of its marks. */
  lemma CompleteMeansEveryMinute(minutes: map<int, Candle>, r: Resolution, bucket: int)
    requires forall t :: t in minutes ==> t % MINUTE == 0
    requires Rollup(minutes, r, bucket).Some?
    ensures Rollup(minutes, r, bucket).value.minutesPresent <= MinutesPerPeriod(r)
    ensures Rollup(minutes, r, bucket).value.complete <==>
            forall i :: 0 <= i < MinutesPerPeriod(r) ==> Mark(bucket, i) in minutes
  {
    var n := MinutesPerPeriod(r);
    BucketOnAMark(bucket, r);
    TimesAreMarks(minutes, bucket, n);
    SameSizeSubset(TimesIn(minutes, bucket, bucket + Period(r)), Marks(bucket, MinutesPerPeriod(r)));
  }
}
