/**
 Old samples kept one to an hour. A pass thins an outcome chunk by chunk and only then moves its boundary; meanwhile the
 sampler writes new samples and a backfill may write old ones, and moves the boundary back to what it wrote.
 */
module Thinning {
  import opened Wrappers

  /** Whole units of time since a fixed hour. */
  type Time = int

  const HOUR: int := 3_600_000_000
  const DAY: int := 24 * HOUR
  const CHUNK: int := 7 * DAY
  const AGE: int := 30 * DAY

  datatype Sample = Sample(midpoint: Option<int>, lastTrade: Option<int>)

  function HourOf(t: Time): Time { t - t % HOUR }

  predicate OnTheHour(t: Time) { t % HOUR == 0 }

  // ---- thinning a stretch ----------------------------------------------------------------------------------------

  predicate Within(t: Time, start: Time, end: Time) { start <= t < end }

  /** A later sample of the same hour, in the stretch. */
  ghost predicate Outlived(samples: map<Time, Sample>, t: Time, start: Time, end: Time) {
    exists u :: u in samples && Within(u, start, end) && HourOf(u) == HourOf(t) && u > t
  }

  ghost function Thin(samples: map<Time, Sample>, start: Time, end: Time): map<Time, Sample> {
    map t | t in samples && !(Within(t, start, end) && Outlived(samples, t, start, end)) :: samples[t]
  }

  lemma HoursDoNotStraddle(t: Time, u: Time, mark: Time)
    requires OnTheHour(mark) && HourOf(t) == HourOf(u)
    ensures t < mark <==> u < mark
    ensures t < mark <==> HourOf(t) < mark
    ensures HourOf(t) <= t < HourOf(t) + HOUR && OnTheHour(HourOf(t))
  {
  }

  /** A stretch thinned hour by hour, in chunks that end on the hour, is the stretch thinned at once. */
  lemma ChunksAreOnePass(samples: map<Time, Sample>, start: Time, mark: Time, end: Time)
    requires start <= mark <= end && OnTheHour(mark)
    ensures Thin(Thin(samples, start, mark), mark, end) == Thin(samples, start, end)
  {
  }

  /** Thinning again deletes nothing more. */
  lemma ThinAgain(samples: map<Time, Sample>, start: Time, end: Time)
    ensures Thin(Thin(samples, start, end), start, end) == Thin(samples, start, end)
  {
  }

  /** The last sample of an hour is the one that stays. */
  lemma {:induction false} LastStays(samples: map<Time, Sample>, t: Time, start: Time, end: Time) returns (last: Time)
    requires t in samples && Within(t, start, end)
    ensures last in Thin(samples, start, end) && Within(last, start, end) && HourOf(last) == HourOf(t) && last >= t
    ensures !Outlived(samples, last, start, end) && Thin(samples, start, end)[last] == samples[last]
    decreases HourOf(t) + HOUR - t
  {
    HoursDoNotStraddle(t, t, 0);
    if Outlived(samples, t, start, end) {
      var u :| u in samples && Within(u, start, end) && HourOf(u) == HourOf(t) && u > t;
      HoursDoNotStraddle(u, u, 0);
      last := LastStays(samples, u, start, end);
    } else {
      last := t;
    }
  }

  // ---- an outcome, and everything that happens to it -------------------------------------------------------------

  /** A pass over the outcome: its boundary as it was listed, and how far the chunks have come once they have begun. */
  datatype Pass = Listed(was: Option<Time>, cutoff: Time) | Running(was: Option<Time>, cutoff: Time, start: Time)

  /** `owing` holds the oldest sample of every backfill that has written and not yet moved the boundary. */
  datatype Outcome = Outcome(
    samples: map<Time, Sample>, boundary: Option<Time>, pass: Option<Pass>, owing: multiset<Time>, clock: Time)

  datatype Step =
    | Tick(to: Time, sample: Sample)
    | Write(points: map<Time, Sample>, oldest: Time)
    | Unthin(moment: Time)
    | Die(moment: Time)
    | List
    | Start
    | Chunk
    | Note
    | Abort

  /** A later write wins only on what it carries. */
  function Merge(was: Sample, now: Sample): Sample {
    Sample(if now.midpoint.Some? then now.midpoint else was.midpoint,
           if now.lastTrade.Some? then now.lastTrade else was.lastTrade)
  }

  function Written(samples: map<Time, Sample>, points: map<Time, Sample>): map<Time, Sample> {
    map t | t in samples.Keys + points.Keys ::
      if t !in points then samples[t] else if t !in samples then points[t] else Merge(samples[t], points[t])
  }

  ghost predicate Oldest(samples: map<Time, Sample>, t: Time) { t in samples && forall u :: u in samples ==> t <= u }

  function Cutoff(clock: Time): Time { HourOf(clock - AGE) }

  ghost function StartOf(s: Outcome, was: Option<Time>, cutoff: Time): Time {
    if was.Some? then was.value
    else if t :| Oldest(s.samples, t) then HourOf(t)
    else cutoff
  }

  function ChunkEnd(start: Time, cutoff: Time): Time { if start + CHUNK < cutoff then start + CHUNK else cutoff }

  ghost predicate Enabled(s: Outcome, step: Step) {
    match step
    case Tick(to, sample) => to >= s.clock
    case Write(points, oldest) => Oldest(points, oldest)
    case Unthin(moment) => moment in s.owing
    case Die(moment) => moment in s.owing
    case List => s.pass == None && (s.boundary.None? || s.boundary.value < Cutoff(s.clock))
    case Start => s.pass.Some? && s.pass.value.Listed?
    case Chunk => s.pass.Some? && s.pass.value.Running? && s.pass.value.start < s.pass.value.cutoff
    case Note => s.pass.Some? && s.pass.value.Running? && s.pass.value.start >= s.pass.value.cutoff
    case Abort => s.pass.Some?
  }

  ghost function After(s: Outcome, step: Step): Outcome
    requires Enabled(s, step)
  {
    match step
    case Tick(to, sample) => s.(clock := to, samples := Written(s.samples, map[to := sample]))
    case Write(points, oldest) => s.(samples := Written(s.samples, points), owing := s.owing + multiset{oldest})
    case Unthin(moment) =>
      s.(owing := s.owing - multiset{moment},
         boundary := if s.boundary.Some? && s.boundary.value > moment then Some(HourOf(moment)) else s.boundary)
    case Die(moment) => s.(owing := s.owing - multiset{moment})
    case List => s.(pass := Some(Listed(s.boundary, Cutoff(s.clock))))
    case Start =>
      var p := s.pass.value;
      s.(pass := Some(Running(p.was, p.cutoff, StartOf(s, p.was, p.cutoff))))
    case Chunk =>
      var p := s.pass.value;
      s.(samples := Thin(s.samples, p.start, ChunkEnd(p.start, p.cutoff)), pass := Some(p.(start := ChunkEnd(p.start, p.cutoff))))
    case Note => s.(pass := None, boundary := if s.boundary == s.pass.value.was then Some(s.pass.value.cutoff) else s.boundary)
    case Abort => s.(pass := None)
  }

  // ---- what every step keeps -------------------------------------------------------------------------------------

  /** A backfill still owes the boundary a move back to this hour or an earlier one. */
  ghost predicate Owed(owing: multiset<Time>, hour: Time) { exists m :: m in owing && HourOf(m) <= hour }

  /** Every hour before `b` holds at most one sample, but for those a backfill has still to answer for. */
  ghost predicate OneAnHour(samples: map<Time, Sample>, b: Time, owing: multiset<Time>) {
    forall t, u :: t in samples && u in samples && t != u && HourOf(t) == HourOf(u) ==>
      HourOf(t) >= b || Owed(owing, HourOf(t))
  }

  ghost predicate BoundaryHolds(s: Outcome) {
    s.boundary.Some? ==>
      OnTheHour(s.boundary.value) && s.boundary.value <= s.clock && OneAnHour(s.samples, s.boundary.value, s.owing)
  }

  /** How far a running pass has come, of what it set out to do. */
  function Behind(p: Pass): Time
    requires p.Running?
  {
    if p.start < p.cutoff then p.start else p.cutoff
  }

  /** While the boundary is what the pass read, everything behind the pass is thin. */
  ghost predicate PassHolds(s: Outcome) {
    s.pass.Some? ==>
      && OnTheHour(s.pass.value.cutoff) && s.pass.value.cutoff <= s.clock
      && (s.pass.value.was.Some? ==> OnTheHour(s.pass.value.was.value))
      && (s.pass.value.was.None? ==> s.boundary.None?)
      && (s.boundary.Some? && s.pass.value.was.Some? ==> s.boundary.value <= s.pass.value.was.value)
      && (s.pass.value.was.Some? ==> s.pass.value.was.value <= s.pass.value.cutoff)
      && (s.pass.value.Running? && s.pass.value.was.Some? ==> s.pass.value.was.value <= s.pass.value.start)
      && (s.pass.value.Running? ==>
            && OnTheHour(s.pass.value.start)
            && (s.boundary == s.pass.value.was ==> OneAnHour(s.samples, Behind(s.pass.value), s.owing)))
  }

  ghost predicate Invariant(s: Outcome) { BoundaryHolds(s) && PassHolds(s) }

  /** An hour is before a mark on the hour as its samples are. */
  lemma HourBefore(t: Time, mark: Time)
    requires OnTheHour(mark)
    ensures HourOf(t) < mark <==> t < mark
    ensures HourOf(t) >= mark <==> t >= mark
  {
  }

  lemma HoursInOrder(t: Time, u: Time)
    requires t <= u
    ensures HourOf(t) <= HourOf(u) && OnTheHour(HourOf(t))
  {
  }

  /** More samples, none of them before the mark, leave it as it was. */
  lemma LaterSamples(samples: map<Time, Sample>, points: map<Time, Sample>, b: Time, owing: multiset<Time>, since: Time)
    requires OneAnHour(samples, b, owing) && OnTheHour(b) && b <= since && forall t :: t in points ==> t >= since
    ensures OneAnHour(Written(samples, points), b, owing)
  {
    var more := Written(samples, points);
    forall t | t in points ensures HourOf(t) >= b { HourBefore(t, b); }
    hide HourOf, OnTheHour, Owed;
    forall t, u | t in more && u in more && t != u && HourOf(t) == HourOf(u)
      ensures HourOf(t) >= b || Owed(owing, HourOf(t))
    {
      assert t in points || t in samples;
      assert u in points || u in samples;
    }
  }

  /** Samples a backfill answers for leave it as it was. */
  lemma AnsweredFor(samples: map<Time, Sample>, points: map<Time, Sample>, b: Time, owing: multiset<Time>, oldest: Time)
    requires OneAnHour(samples, b, owing) && Oldest(points, oldest)
    ensures OneAnHour(Written(samples, points), b, owing + multiset{oldest})
  {
    var more, owe := Written(samples, points), owing + multiset{oldest};
    forall t, u | t in more && u in more && t != u && HourOf(t) == HourOf(u) ensures HourOf(t) >= b || Owed(owe, HourOf(t)) {
      if t in samples && u in samples {
        if Owed(owing, HourOf(t)) {
          var m :| m in owing && HourOf(m) <= HourOf(t);
          assert m in owe;
        }
      } else {
        HoursInOrder(oldest, if t in samples then u else t);
        assert oldest in owe;
      }
    }
  }

  lemma TickKeeps(s: Outcome, to: Time, sample: Sample)
    requires Invariant(s) && Enabled(s, Tick(to, sample))
    ensures Invariant(After(s, Tick(to, sample)))
  {
    hide OneAnHour, OnTheHour, HourOf, Written;
    if s.boundary.Some? {
      LaterSamples(s.samples, map[to := sample], s.boundary.value, s.owing, to);
    }
    if s.pass.Some? && s.pass.value.Running? && s.boundary == s.pass.value.was {
      LaterSamples(s.samples, map[to := sample], Behind(s.pass.value), s.owing, to);
    }
  }

  lemma WriteKeeps(s: Outcome, points: map<Time, Sample>, oldest: Time)
    requires Invariant(s) && Enabled(s, Write(points, oldest))
    ensures Invariant(After(s, Write(points, oldest)))
  {
    hide OneAnHour, OnTheHour, HourOf, Written;
    if s.boundary.Some? {
      AnsweredFor(s.samples, points, s.boundary.value, s.owing, oldest);
    }
    if s.pass.Some? && s.pass.value.Running? && s.boundary == s.pass.value.was {
      AnsweredFor(s.samples, points, Behind(s.pass.value), s.owing, oldest);
    }
  }

  lemma StartKeeps(s: Outcome)
    requires Invariant(s) && Enabled(s, Start)
    ensures Invariant(After(s, Start))
  {
    var p, t := s.pass.value, After(s, Start);
    var start := t.pass.value.start;
    if s.samples.Keys != {} {
      OldestExists(s.samples);
    }
    if p.was.None? {
      if first :| Oldest(s.samples, first) {
        assert start == HourOf(first);
        forall u | u in s.samples ensures HourOf(u) >= start {
          HoursInOrder(first, u);
        }
        HoursInOrder(first, first);
      }
    }
    hide HourOf;
    if s.boundary == p.was && p.was.Some? {
      assert OneAnHour(s.samples, start, s.owing);
    }
  }

  lemma OldestExists(samples: map<Time, Sample>)
    requires samples.Keys != {}
    ensures exists t :: Oldest(samples, t)
  {
    var t := Smallest(samples.Keys);
    assert Oldest(samples, t);
  }

  lemma {:induction false} Smallest(ts: set<Time>) returns (t: Time)
    requires ts != {}
    ensures t in ts && forall u :: u in ts ==> t <= u
    decreases |ts|
  {
    t := Pick(ts);
    if ts != {t} {
      var rest := ts - {t};
      assert rest != {} by {
        assert rest + {t} == ts;
      }
      var u := Smallest(rest);
      assert ts == rest + {t};
      t := if u < t then u else t;
    }
  }

  lemma ChunkKeeps(s: Outcome)
    requires Invariant(s) && Enabled(s, Chunk)
    ensures Invariant(After(s, Chunk))
  {
    var p := s.pass.value;
    var end := ChunkEnd(p.start, p.cutoff);
    var left := Thin(s.samples, p.start, end);
    assert OnTheHour(end);
    if s.boundary.Some? {
      FewerSamples(s.samples, left, s.boundary.value, s.owing);
    }
    if s.boundary == p.was {
      ThinnedChunk(s.samples, p.start, end, s.owing);
    }
  }

  lemma FewerSamples(samples: map<Time, Sample>, left: map<Time, Sample>, b: Time, owing: multiset<Time>)
    requires OneAnHour(samples, b, owing) && left.Keys <= samples.Keys
    ensures OneAnHour(left, b, owing)
  {
  }

  lemma ThinnedChunk(samples: map<Time, Sample>, start: Time, end: Time, owing: multiset<Time>)
    requires OneAnHour(samples, start, owing) && OnTheHour(start) && OnTheHour(end)
    ensures OneAnHour(Thin(samples, start, end), end, owing)
  {
    var left := Thin(samples, start, end);
    forall t, u | t in samples && u in samples && t < u && HourOf(t) == HourOf(u) && start <= HourOf(t) < end
      ensures t !in left {
      HourBefore(t, start);
      HourBefore(u, start);
      HourBefore(t, end);
      HourBefore(u, end);
      assert Outlived(samples, t, start, end);
    }
    forall t, u | t in left && u in left && t != u && HourOf(t) == HourOf(u) && HourOf(t) < start
      ensures Owed(owing, HourOf(t)) {
    }
  }

  lemma ListNoteAbortKeep(s: Outcome, step: Step)
    requires Invariant(s) && Enabled(s, step) && (step == List || step == Note || step == Abort)
    ensures Invariant(After(s, step))
  {
  }

  /** Some hour the pass has been through, and that no other backfill answers for, holds more than one sample. */
  ghost predicate CrowdedBehind(s: Outcome, moment: Time) {
    && s.pass.Some? && s.pass.value.Running? && s.boundary == s.pass.value.was
    && !OneAnHour(s.samples, Behind(s.pass.value), s.owing - multiset{moment})
  }

  /** A backfill that has written may move the boundary at any time, except that one ahead of the boundary moves nothing: then
      all is well exactly when it crowded no hour that a pass still under way has already been through. */
  lemma UnthinKeepsExactly(s: Outcome, moment: Time)
    requires Invariant(s) && Enabled(s, Unthin(moment))
    ensures Invariant(After(s, Unthin(moment))) <==>
      (s.boundary.Some? && s.boundary.value > moment) || !CrowdedBehind(s, moment)
  {
    var t := After(s, Unthin(moment));
    HoursInOrder(moment, moment);
    if s.boundary.Some? {
      HourBefore(moment, s.boundary.value);
      AnsweredOnce(s.samples, s.boundary.value, s.owing, moment, t.boundary.value);
    }
    hide OneAnHour, HourOf;
  }

  /** One debt fewer, with the mark no later than the hour it was for. */
  lemma AnsweredOnce(samples: map<Time, Sample>, b: Time, owing: multiset<Time>, moment: Time, lower: Time)
    requires OneAnHour(samples, b, owing) && lower <= b && lower <= HourOf(moment)
    ensures OneAnHour(samples, lower, owing - multiset{moment})
  {
  }

  /** No pass still under way, its boundary where it found it, has been through the hour of this moment. */
  ghost predicate AheadOfPass(s: Outcome, moment: Time) {
    s.pass.Some? && s.pass.value.Running? && s.boundary == s.pass.value.was ==> Behind(s.pass.value) <= HourOf(moment)
  }

  /** What the boundary's promise rests on: a backfill ahead of the boundary is ahead of the pass too, and one behind it lives
      to move it. */
  ghost predicate Careful(s: Outcome, step: Step) {
    && (step.Unthin? ==> (s.boundary.Some? && s.boundary.value > step.moment) || AheadOfPass(s, step.moment))
    && (step.Die? ==> (s.boundary.Some? ==> s.boundary.value <= step.moment) && AheadOfPass(s, step.moment))
  }

  lemma DieKeeps(s: Outcome, moment: Time)
    requires Invariant(s) && Enabled(s, Die(moment)) && Careful(s, Die(moment))
    ensures Invariant(After(s, Die(moment)))
  {
    if s.boundary.Some? {
      HourBefore(moment, s.boundary.value);
      AnsweredOnce(s.samples, s.boundary.value, s.owing, moment, s.boundary.value);
    }
    if s.pass.Some? && s.pass.value.Running? && s.boundary == s.pass.value.was {
      AnsweredOnce(s.samples, Behind(s.pass.value), s.owing, moment, Behind(s.pass.value));
    }
    hide OneAnHour, HourOf;
  }

  lemma StepKeeps(s: Outcome, step: Step)
    requires Invariant(s) && Enabled(s, step) && Careful(s, step)
    ensures Invariant(After(s, step))
  {
    match step
    case Tick(to, sample) => TickKeeps(s, to, sample);
    case Write(points, oldest) => WriteKeeps(s, points, oldest);
    case Unthin(moment) =>
      UnthinKeepsExactly(s, moment);
      if s.pass.Some? && s.pass.value.Running? && s.boundary == s.pass.value.was && Behind(s.pass.value) <= HourOf(moment) {
        AnsweredOnce(s.samples, Behind(s.pass.value), s.owing, moment, Behind(s.pass.value));
      }
    case Die(moment) => DieKeeps(s, moment);
    case Start => StartKeeps(s);
    case Chunk => ChunkKeeps(s);
    case _ => ListNoteAbortKeep(s, step);
  }

  // ---- whole runs ------------------------------------------------------------------------------------------------

  ghost predicate Reaches(s: Outcome, steps: seq<Step>, t: Outcome)
    decreases |steps|
  {
    if steps == [] then t == s else Enabled(s, steps[0]) && Reaches(After(s, steps[0]), steps[1..], t)
  }

  ghost predicate AllCareful(s: Outcome, steps: seq<Step>)
    decreases |steps|
  {
    steps == [] || (Enabled(s, steps[0]) && Careful(s, steps[0]) && AllCareful(After(s, steps[0]), steps[1..]))
  }

  lemma {:induction false} RunKeeps(s: Outcome, steps: seq<Step>, t: Outcome)
    requires Invariant(s) && Reaches(s, steps, t) && AllCareful(s, steps)
    ensures Invariant(t)
    decreases |steps|
  {
    hide Invariant, Enabled, After, Careful;
    if steps != [] {
      StepKeeps(s, steps[0]);
      RunKeeps(After(s, steps[0]), steps[1..], t);
    }
  }

  /** Over any run of ticks, passes and backfills that keep ahead of a pass, once every backfill has moved the boundary each
      hour before it holds at most one sample. */
  lemma OneSampleAnHour(clock: Time, steps: seq<Step>, t: Outcome, early: Time, late: Time)
    requires Reaches(Outcome(map[], None, None, multiset{}, clock), steps, t)
    requires AllCareful(Outcome(map[], None, None, multiset{}, clock), steps)
    requires t.owing == multiset{} && t.boundary.Some? && early < t.boundary.value && late < t.boundary.value
    requires early in t.samples && late in t.samples && HourOf(early) == HourOf(late)
    ensures early == late
  {
    RunKeeps(Outcome(map[], None, None, multiset{}, clock), steps, t);
    HourBefore(early, t.boundary.value);
  }

  // ---- what no run takes away -------------------------------------------------------------------------------------

  /** Every pass stops a whole thirty days ago. */
  ghost predicate PassIsOld(s: Outcome) { s.pass.Some? ==> s.pass.value.cutoff <= s.clock - 30 * 24 * HOUR }

  lemma StepKeepsOld(s: Outcome, step: Step)
    requires PassIsOld(s) && Enabled(s, step)
    ensures PassIsOld(After(s, step))
  {
    HoursDoNotStraddle(s.clock - AGE, s.clock - AGE, 0);
    hide Written, Thin, StartOf;
  }

  /** What a step takes away is more than thirty days old, and a later sample of its hour stays. */
  lemma StepTakesOnlyOld(s: Outcome, step: Step, t: Time)
    requires PassIsOld(s) && Enabled(s, step) && t in s.samples && t !in After(s, step).samples
    ensures t < s.clock - 30 * 24 * HOUR
    ensures exists u :: u in After(s, step).samples && HourOf(u) == HourOf(t) && u > t
  {
    assert step.Chunk?;
    var p := s.pass.value;
    var last := LastStays(s.samples, t, p.start, ChunkEnd(p.start, p.cutoff));
    hide Thin, HourOf;
    assert last in After(s, step).samples;
  }

  /** A later write takes nothing back: what was known of a moment is known of it as long as its sample stays. */
  lemma StepKeepsKnown(s: Outcome, step: Step, t: Time)
    requires Enabled(s, step) && t in s.samples && t in After(s, step).samples
    ensures s.samples[t].midpoint.Some? ==> After(s, step).samples[t].midpoint.Some?
    ensures s.samples[t].lastTrade.Some? ==> After(s, step).samples[t].lastTrade.Some?
  {
  }

  /** Over any run: an hour that holds a sample goes on holding one, as late as any it held; and a sample that was not thirty
      days old at the end is still there, with all that was known of it. */
  lemma {:induction false} NothingRecentIsLost(s: Outcome, steps: seq<Step>, end: Outcome, t: Time)
    requires PassIsOld(s) && Reaches(s, steps, end) && t in s.samples
    ensures PassIsOld(end) && s.clock <= end.clock
    ensures exists u :: u in end.samples && HourOf(u) == HourOf(t) && u >= t
    ensures t >= end.clock - 30 * 24 * HOUR ==>
      && t in end.samples && (s.samples[t].midpoint.Some? ==> end.samples[t].midpoint.Some?)
      && (s.samples[t].lastTrade.Some? ==> end.samples[t].lastTrade.Some?)
    decreases |steps|
  {
    if steps != [] {
      var next := After(s, steps[0]);
      ClockRises(s, steps[0]);
      StepKeepsOld(s, steps[0]);
      hide After, PassIsOld, HourOf, Enabled;
      if t in next.samples {
        StepKeepsKnown(s, steps[0], t);
        NothingRecentIsLost(next, steps[1..], end, t);
      } else {
        StepTakesOnlyOld(s, steps[0], t);
        var u :| u in next.samples && HourOf(u) == HourOf(t) && u > t;
        NothingRecentIsLost(next, steps[1..], end, u);
      }
    }
  }

  lemma ClockRises(s: Outcome, step: Step)
    requires Enabled(s, step)
    ensures After(s, step).clock >= s.clock
  {
    hide Written, Thin, StartOf;
  }

  // ---- a pass thrown off -----------------------------------------------------------------------------------------

  /** Somebody moved the boundary back since the pass read it. */
  ghost predicate ThrownOff(s: Outcome) {
    s.pass.Some? && s.pass.value.was.Some? && s.boundary.Some? && s.boundary.value < s.pass.value.was.value
  }

  /** From then on nothing the pass does moves the boundary: it stays thrown off until it ends, and ends without a word. */
  lemma ThrownOffSaysNothing(s: Outcome, step: Step)
    requires ThrownOff(s) && Enabled(s, step)
    ensures var t := After(s, step);
      if t.pass.Some? then ThrownOff(t) && t.boundary.value <= s.boundary.value else t.boundary == s.boundary
  {
  }

  // ---- what a backfill may write ---------------------------------------------------------------------------------

  /** What readers of the boundary are promised. */
  ghost predicate Promise(s: Outcome) {
    s.boundary.Some? ==> OneAnHour(s.samples, s.boundary.value, s.owing)
  }

  /** Some point to be written shares its hour, before the mark, with another point or a stored sample, and no other backfill
      answers for that hour. */
  ghost predicate Crowds(samples: map<Time, Sample>, points: map<Time, Sample>, b: Time, owing: multiset<Time>) {
    exists p, u :: p in points && (u in points || u in samples) && u != p && HourOf(u) == HourOf(p)
                   && HourOf(p) < b && !Owed(owing, HourOf(p))
  }

  lemma WrittenIsThinExactly(samples: map<Time, Sample>, points: map<Time, Sample>, b: Time, owing: multiset<Time>)
    requires OneAnHour(samples, b, owing)
    ensures OneAnHour(Written(samples, points), b, owing) <==> !Crowds(samples, points, b, owing)
  {
    hide HourOf, Owed;
    var more := Written(samples, points);
    if Crowds(samples, points, b, owing) {
      var p, u :| p in points && (u in points || u in samples) && u != p && HourOf(u) == HourOf(p)
                  && HourOf(p) < b && !Owed(owing, HourOf(p));
      assert p in more && u in more;
    }
  }

  /** A backfill that dies before it moves the boundary keeps the promise exactly when nothing it wrote shares an hour behind
      the boundary with anything. */
  lemma CutShortKeepsExactly(s: Outcome, points: map<Time, Sample>, oldest: Time)
    requires Invariant(s) && Oldest(points, oldest)
    ensures
      var written := After(s, Write(points, oldest));
      Promise(After(written, Die(oldest))) <==>
        !(s.boundary.Some? && Crowds(s.samples, points, s.boundary.value, s.owing))
  {
    assert s.owing + multiset{oldest} - multiset{oldest} == s.owing;
    if s.boundary.Some? {
      WrittenIsThinExactly(s.samples, points, s.boundary.value, s.owing);
    }
    hide Crowds, OneAnHour;
  }

  /** The pass under way, taken to its end with nothing else happening. */
  ghost function Ended(s: Outcome): Outcome
    requires s.pass.Some? && s.pass.value.Running?
    decreases s.pass.value.cutoff - s.pass.value.start
  {
    if s.pass.value.start < s.pass.value.cutoff then Ended(After(s, Chunk)) else After(s, Note)
  }

  lemma {:induction false} EndedKeeps(s: Outcome)
    requires Invariant(s) && s.pass.Some? && s.pass.value.Running?
    ensures Invariant(Ended(s))
    decreases s.pass.value.cutoff - s.pass.value.start
  {
    hide Invariant;
    if s.pass.value.start < s.pass.value.cutoff {
      StepKeeps(s, Chunk);
      EndedKeeps(After(s, Chunk));
    } else {
      StepKeeps(s, Note);
    }
  }

  /** What lies behind the pass it never comes back to; and it sets the boundary to where it set out to go. */
  lemma {:induction false} EndedLeavesBehind(s: Outcome, t: Time)
    requires s.pass.Some? && s.pass.value.Running? && s.boundary == s.pass.value.was && t in s.samples
    requires OnTheHour(s.pass.value.start) && OnTheHour(s.pass.value.cutoff) && HourOf(t) < Behind(s.pass.value)
    ensures t in Ended(s).samples && Ended(s).boundary == Some(s.pass.value.cutoff) && Ended(s).owing == s.owing
    decreases s.pass.value.cutoff - s.pass.value.start
  {
    if s.pass.value.start < s.pass.value.cutoff {
      HourBefore(t, s.pass.value.start);
      EndedLeavesBehind(After(s, Chunk), t);
    }
  }

  /** What a backfill that left the boundary where it was left: because it lay ahead of it, or because it died. */
  ghost predicate Unmoved(s: Outcome, last: Step, oldest: Time) {
    last == Die(oldest) || (last == Unthin(oldest) && (s.boundary.Some? ==> s.boundary.value <= oldest))
  }

  /** A backfill that writes while a pass is under way and leaves the boundary alone keeps the promise, once the pass has ended,
      exactly when nothing it wrote shares an hour the pass had been through with anything. */
  lemma BehindAPassKeepsExactly(s: Outcome, points: map<Time, Sample>, oldest: Time, last: Step)
    requires Invariant(s) && Oldest(points, oldest) && Unmoved(s, last, oldest)
    requires s.pass.Some? && s.pass.value.Running? && s.boundary == s.pass.value.was
    ensures
      var written := After(s, Write(points, oldest));
      Promise(Ended(After(written, last))) <==> !Crowds(s.samples, points, Behind(s.pass.value), s.owing)
  {
    var t := After(After(s, Write(points, oldest)), last);
    assert s.owing + multiset{oldest} - multiset{oldest} == s.owing;
    assert t == s.(samples := Written(s.samples, points));
    WrittenIsThinExactly(s.samples, points, Behind(s.pass.value), s.owing);
    if Crowds(s.samples, points, Behind(s.pass.value), s.owing) {
      CrowdStays(s, t, points);
    } else {
      hide HourOf, Written, Crowds;
      assert Invariant(t);
      hide Invariant, OneAnHour;
      EndedKeeps(t);
      assert Promise(Ended(t)) by { KeptIsPromised(Ended(t)); }
    }
  }

  lemma KeptIsPromised(s: Outcome)
    requires Invariant(s)
    ensures Promise(s)
  {
  }

  lemma CrowdStays(s: Outcome, t: Outcome, points: map<Time, Sample>)
    requires Invariant(s) && s.pass.Some? && s.pass.value.Running? && s.boundary == s.pass.value.was
    requires t == s.(samples := Written(s.samples, points)) && Crowds(s.samples, points, Behind(s.pass.value), s.owing)
    ensures !Promise(Ended(t))
  {
    var p, u :| p in points && (u in points || u in s.samples) && u != p && HourOf(u) == HourOf(p)
                && HourOf(p) < Behind(s.pass.value) && !Owed(s.owing, HourOf(p));
    EndedLeavesBehind(t, p);
    EndedLeavesBehind(t, u);
    assert !OneAnHour(Ended(t).samples, s.pass.value.cutoff, s.owing);
  }

  // ---- the two ways it fails -------------------------------------------------------------------------------------

  const NOW: Time := AGE + 10 * DAY
  const EMPTY := Outcome(map[], None, None, multiset{}, NOW)
  const PRICE := Sample(Some(1), None)
  const TWO := map[0 := PRICE, 1 := PRICE]

  lemma Extend(s: Outcome, step: Step, steps: seq<Step>, t: Outcome)
    requires Enabled(s, step) && Reaches(After(s, step), steps, t)
    ensures Reaches(s, [step] + steps, t)
  {
  }

  /** A backfill of an outcome never thinned, while the pass that found it empty is still under way: the boundary it cannot
      move is then set over it. */
  lemma BackfillBehindAPass() returns (steps: seq<Step>)
    ensures Reaches(EMPTY, steps, Outcome(TWO, Some(10 * DAY), None, multiset{}, NOW))
    ensures HourOf(0) == HourOf(1) < 10 * DAY
  {
    var s1 := After(EMPTY, List);
    assert s1.pass == Some(Listed(None, 10 * DAY));
    var s2 := After(s1, Start);
    assert s2.pass == Some(Running(None, 10 * DAY, 10 * DAY));
    assert Oldest(TWO, 0);
    var s3 := After(s2, Write(TWO, 0));
    assert s3.samples == TWO && s3.owing == multiset{0};
    var s4 := After(s3, Unthin(0));
    var s5 := After(s4, Note);
    assert s4.owing == multiset{};
    assert s5 == Outcome(TWO, Some(10 * DAY), None, multiset{}, NOW);
    steps := [];
    Extend(s4, Note, steps, s5); steps := [Note] + steps;
    Extend(s3, Unthin(0), steps, s5); steps := [Unthin(0)] + steps;
    Extend(s2, Write(TWO, 0), steps, s5); steps := [Write(TWO, 0)] + steps;
    Extend(s1, Start, steps, s5); steps := [Start] + steps;
    Extend(EMPTY, List, steps, s5); steps := [List] + steps;
  }

  /** A backfill that dies between writing its samples and moving the boundary leaves them behind it for good. */
  lemma BackfillCutShort() returns (steps: seq<Step>)
    ensures Reaches(EMPTY, steps, Outcome(TWO, Some(10 * DAY), None, multiset{}, NOW))
    ensures forall i :: 0 <= i < |steps| ==> !steps[i].Unthin?
  {
    var s1 := After(EMPTY, List);
    var s2 := After(s1, Start);
    assert s2.pass == Some(Running(None, 10 * DAY, 10 * DAY));
    var s3 := After(s2, Note);
    assert s3 == EMPTY.(boundary := Some(10 * DAY));
    assert Oldest(TWO, 0);
    var s4 := After(s3, Write(TWO, 0));
    assert s4.samples == TWO && s4.owing == multiset{0};
    var s5 := After(s4, Die(0));
    assert s5.owing == multiset{};
    assert s5 == Outcome(TWO, Some(10 * DAY), None, multiset{}, NOW);
    steps := [];
    Extend(s4, Die(0), steps, s5); steps := [Die(0)] + steps;
    Extend(s3, Write(TWO, 0), steps, s5); steps := [Write(TWO, 0)] + steps;
    Extend(s2, Note, steps, s5); steps := [Note] + steps;
    Extend(s1, Start, steps, s5); steps := [Start] + steps;
    Extend(EMPTY, List, steps, s5); steps := [List] + steps;
  }

  // ---- the pass as it is written ---------------------------------------------------------------------------------

  class OutcomeTable {
    var samples: map<Time, Sample>
    var boundary: Option<Time>

    /** The last sample of every hour of the stretch is kept, the others of it deleted. */
    method ThinSamples(start: Time, end: Time)
      modifies `samples
      ensures samples == Thin(old(samples), start, end)
    {
      var gone := set t, u | t in samples && u in samples && Within(t, start, end) && Within(u, start, end)
                             && HourOf(u) == HourOf(t) && u > t :: t;
      samples := samples - gone;
    }

    method OldestSampleAt() returns (oldest: Option<Time>)
      ensures oldest.Some? ==> Oldest(samples, oldest.value)
      ensures oldest.None? ==> samples == map[]
    {
      if samples == map[] {
        return None;
      }
      OldestExists(samples);
      var t :| t in samples && forall u :: u in samples ==> t <= u;
      return Some(t);
    }

    method NoteThinned(through: Time, was: Option<Time>)
      modifies `boundary
      ensures boundary == if old(boundary) == was then Some(through) else old(boundary)
    {
      if boundary == was {
        boundary := Some(through);
      }
    }

    /** Where a pass begins: at the boundary, or at the hour of the first sample there is. */
    method StartFrom(clock: Time) returns (through: Time)
      requires boundary.Some? ==> OnTheHour(boundary.value)
      ensures through == StartOf(Outcome(samples, boundary, None, multiset{}, clock), boundary, Cutoff(clock))
      ensures OnTheHour(through)
    {
      HoursInOrder(clock - AGE, clock - AGE);
      if boundary.Some? {
        return boundary.value;
      }
      var oldest := OldestSampleAt();
      if oldest.None? {
        return Cutoff(clock);
      }
      HoursInOrder(oldest.value, oldest.value);
      through := HourOf(oldest.value);
    }

    /** Chunk by chunk, what one thinning of the whole stretch would leave. */
    method ThinChunks(through: Time, cutoff: Time)
      requires OnTheHour(through) && OnTheHour(cutoff)
      modifies `samples
      ensures samples == Thin(old(samples), through, cutoff)
    {
      var start := through;
      assert Thin(samples, through, start) == samples;
      while start < cutoff
        invariant through <= start && OnTheHour(start) && (start <= cutoff || start == through)
        invariant samples == Thin(old(samples), through, start)
        decreases cutoff - start
      {
        var end := ChunkEnd(start, cutoff);
        ChunksAreOnePass(old(samples), through, start, end);
        hide Thin;
        ThinSamples(start, end);
        start := end;
      }
      assert start > cutoff ==> Thin(old(samples), through, cutoff) == old(samples);
    }

    /** One outcome's part of a pass, with nobody else at it. */
    method ThinOutcome(clock: Time)
      requires boundary.Some? ==> OnTheHour(boundary.value)
      modifies this
      ensures
        var cutoff, was := Cutoff(clock), old(boundary);
        if was.Some? && was.value >= cutoff then samples == old(samples) && boundary == was
        else
          && samples == Thin(old(samples), StartOf(Outcome(old(samples), was, None, multiset{}, clock), was, cutoff), cutoff)
          && boundary == Some(cutoff)
    {
      hide Thin, StartOf;
      var cutoff, was := Cutoff(clock), boundary;
      HoursInOrder(clock - AGE, clock - AGE);
      if was.None? || was.value < cutoff {
        var through := StartFrom(clock);
        ThinChunks(through, cutoff);
        NoteThinned(cutoff, was);
      }
    }
  }
}
