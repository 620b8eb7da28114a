/**
 A rule's cool-down. It is asked of the row as it was read, so it is kept where nobody sets the rule off between another's
 reading of it and that other's fire; and a one-time rule whose alert was let go is as good as new, so its next may come
 sooner.
 */
module CoolDowns {
  import opened Wrappers
  import opened Delivery
  import opened OnceRules

  ghost predicate Of(s: State, rule: RuleId, id: FireId) { id in s.fires && s.fires[id].rule == rule }

  /** Whoever has read the rule and was not overtaken read it after every fire it has, and out of its cool-down. */
  ghost predicate ReadLate(s: State, rule: RuleId, reader: Reader)
    requires rule in s.rules && reader in s.reading
  {
    var now := s.reading[reader].now;
    && now <= s.clock && (forall id :: Of(s, rule, id) ==> s.fires[id].createdAt <= now)
    && !CoolingDown(s.rules[rule], now)
  }

  /** Fires are dated, and a repeating rule remembers the last of them. */
  ghost predicate DatesHold(s: State, rule: RuleId) {
    rule in s.rules ==>
      && (forall id :: Of(s, rule, id) ==>
            && s.fires[id].createdAt <= s.clock
            && (!s.rules[rule].once ==>
                  s.rules[rule].lastFired.Some? && s.fires[id].createdAt <= s.rules[rule].lastFired.value))
      && forall reader :: reader in s.reading && s.reading[reader].rule == rule && reader !in s.overtaken ==>
           ReadLate(s, rule, reader)
  }

  /** Of two fires of one rule, `id` first: the later comes a cool-down after the earlier, or the rule is a one-time rule and
      the earlier never arrived. */
  ghost predicate ApartOrLetGo(s: State, rule: RuleId, id: FireId, other: FireId)
    requires rule in s.rules && Of(s, rule, id) && Of(s, rule, other)
  {
    || s.fires[other].createdAt - s.fires[id].createdAt >= s.rules[rule].cooldown as real
    || (s.rules[rule].once && !s.fires[id].Live())
    || (s.rules[rule].once && !s.fires[other].Live() && s.fires[other].createdAt == s.fires[id].createdAt)
  }

  ghost predicate SpacedOut(s: State, rule: RuleId) {
    rule in s.rules ==>
      forall id, other ::
        Of(s, rule, id) && Of(s, rule, other) && id != other && s.fires[id].createdAt <= s.fires[other].createdAt
        ==> ApartOrLetGo(s, rule, id, other)
  }

  // ---- steps that set the rule off not ---------------------------------------------------------------------------

  /** The rule's fires say what they said, none come alive, and its terms and its memory are as they were, but that a one-time
      rule may forget. */
  ghost predicate NoNewFire(s: State, t: State, rule: RuleId) {
    && s.clock <= t.clock && (rule in t.rules <==> rule in s.rules)
    && (rule in s.rules ==>
          && t.rules[rule].once == s.rules[rule].once && t.rules[rule].cooldown == s.rules[rule].cooldown
          && (t.rules[rule].lastFired == s.rules[rule].lastFired || (s.rules[rule].once && t.rules[rule].lastFired == None)))
    && (forall id :: Of(t, rule, id) <==> Of(s, rule, id))
    && (forall id :: Of(s, rule, id) ==>
          t.fires[id].createdAt == s.fires[id].createdAt && (t.fires[id].Live() ==> s.fires[id].Live()))
  }

  ghost predicate NoNewReader(s: State, t: State, rule: RuleId) {
    forall reader :: reader in t.reading && t.reading[reader].rule == rule && reader !in t.overtaken ==>
      reader in s.reading && s.reading[reader] == t.reading[reader] && reader !in s.overtaken
  }

  lemma NoNewFireKeeps(s: State, t: State, rule: RuleId)
    requires NoNewFire(s, t, rule) && NoNewReader(s, t, rule) && DatesHold(s, rule) && SpacedOut(s, rule)
    ensures DatesHold(t, rule) && SpacedOut(t, rule)
  {
    if rule in s.rules {
      forall id, other | Of(t, rule, id) && Of(t, rule, other) && id != other && t.fires[id].createdAt <= t.fires[other].createdAt
        ensures ApartOrLetGo(t, rule, id, other)
      {
        assert ApartOrLetGo(s, rule, id, other);
      }
      forall reader | reader in t.reading && t.reading[reader].rule == rule && reader !in t.overtaken
        ensures ReadLate(t, rule, reader)
      {
        assert ReadLate(s, rule, reader);
      }
    }
  }

  lemma WorkIsNoNewFire(s: State, t: State, head: FireId, door: Door, rule: RuleId, cfg: Settings)
    requires AtHead(s, head) && t == AfterWork(s, door, cfg) && s.fires[head].state == Pending
    ensures NoNewFire(s, t, rule) && NoNewReader(s, t, rule)
  {
    WorkTouches(s, t, head, door, cfg);
    hide AfterWork;
  }

  lemma LookKeeps(s: State, t: State, reader: Reader, own: RuleId, rule: RuleId, cfg: Settings)
    requires Enabled(s, Look(reader, own), cfg) && t == AfterLook(s, reader, own)
    requires DatesHold(s, rule) && SpacedOut(s, rule)
    ensures DatesHold(t, rule) && SpacedOut(t, rule)
  {
    forall id, other | Of(t, rule, id) && Of(t, rule, other) && id != other && t.fires[id].createdAt <= t.fires[other].createdAt
        && rule in t.rules
      ensures ApartOrLetGo(t, rule, id, other)
    {
      assert ApartOrLetGo(s, rule, id, other);
    }
  }

  // ---- the rule goes off -----------------------------------------------------------------------------------------

  /** Set off by one who was not overtaken, and with none of a one-time rule's alerts on its way: the new fire comes late
      enough. */
  lemma GoesOffKeeps(s: State, t: State, step: Step, rule: RuleId, cfg: Settings)
    requires step.GoesOff? && Enabled(s, step, cfg) && t == AfterGoesOff(s, step.reader, step.cause, step.text, step.id)
    requires SetsOff(s, step, rule) && step.reader !in s.overtaken
    requires s.rules[rule].once ==> forall id :: !LiveOf(s, rule, id)
    requires DatesHold(s, rule) && SpacedOut(s, rule)
    ensures DatesHold(t, rule) && SpacedOut(t, rule)
  {
    assert ReadLate(s, rule, step.reader);
    forall id, other | Of(t, rule, id) && Of(t, rule, other) && id != other && t.fires[id].createdAt <= t.fires[other].createdAt
      ensures ApartOrLetGo(t, rule, id, other)
    {
      assert s.rules[rule].once ==> !LiveOf(s, rule, id) && !LiveOf(s, rule, other);
      if id != step.id && other != step.id {
        assert ApartOrLetGo(s, rule, id, other);
      }
    }
  }

  lemma AnotherGoesOff(s: State, t: State, step: Step, rule: RuleId, cfg: Settings)
    requires step.GoesOff? && Enabled(s, step, cfg) && t == AfterGoesOff(s, step.reader, step.cause, step.text, step.id)
    requires !SetsOff(s, step, rule)
    ensures NoNewFire(s, t, rule) && NoNewReader(s, t, rule)
  {
  }

  lemma UnfiredHasNone(s: State, step: Step, rule: RuleId)
    requires OnceHolds(s, rule) && ReadersHold(s, rule) && SetsOff(s, step, rule) && step.reader !in s.overtaken
    ensures rule in s.rules && s.rules[rule].once ==> forall id :: !LiveOf(s, rule, id)
  {
  }

  lemma StepKeepsSpaced(s: State, step: Step, rule: RuleId, cfg: Settings)
    requires Invariant(s, cfg) && Ready(s) && Enabled(s, step, cfg) && OnceHolds(s, rule) && ReadersHold(s, rule)
    requires SetsOff(s, step, rule) ==> step.reader !in s.overtaken
    requires DatesHold(s, rule) && SpacedOut(s, rule)
    ensures DatesHold(After(s, step, cfg), rule) && SpacedOut(After(s, step, cfg), rule)
  {
    hide WorkerHolds, LogsHold, CapHolds, Tables, AfterWork, AfterGoesOff, RowsOf, DatesHold, SpacedOut, OnceHolds, ReadersHold;
    var t := After(s, step, cfg);
    match step {
      case Look(reader, own) => LookKeeps(s, t, reader, own, rule, cfg);
      case GoesOff(_, _, _, _) =>
        if SetsOff(s, step, rule) {
          UnfiredHasNone(s, step, rule);
          GoesOffKeeps(s, t, step, rule, cfg);
        } else {
          AnotherGoesOff(s, t, step, rule, cfg);
          NoNewFireKeeps(s, t, rule);
        }
      case Work(door) =>
        QueueWaits(s, s.worker.queue[0].fire, cfg);
        WorkIsNoNewFire(s, t, s.worker.queue[0].fire, door, rule, cfg);
        NoNewFireKeeps(s, t, rule);
      case _ =>
        assert NoNewFire(s, t, rule) && NoNewReader(s, t, rule);
        NoNewFireKeeps(s, t, rule);
    }
  }

  // ---- whole runs ------------------------------------------------------------------------------------------------

  lemma {:induction false} RunKeepsSpaced(s: State, steps: seq<Step>, t: State, rule: RuleId, cfg: Settings)
    requires Invariant(s, cfg) && Reaches(s, steps, t, cfg) && cfg.maxPerHour >= 1 && Undisturbed(s, steps, rule, cfg)
    requires OnceHolds(s, rule) && ReadersHold(s, rule) && DatesHold(s, rule) && SpacedOut(s, rule)
    ensures SpacedOut(t, rule)
    decreases |steps|
  {
    if steps != [] {
      var next := After(s, steps[0], cfg);
      assert FindsItUnfired(s, steps[0], rule) by { hide Invariant, After, Reaches, OnceHolds; }
      hide Invariant, Ready, Enabled, After, OnceHolds, ReadersHold, DatesHold, SpacedOut, SetsOff, FindsItUnfired;
      StepKeeps(s, steps[0], cfg);
      StepKeepsOnceExactly(s, steps[0], rule, cfg);
      StepKeepsReaders(s, steps[0], rule, cfg);
      StepKeepsSpaced(s, steps[0], rule, cfg);
      RunKeepsSpaced(next, steps[1..], t, rule, cfg);
    }
  }

  /** Where nobody is overtaken: any two alerts of a repeating rule were raised a cool-down apart, and so were any two of a
      one-time rule, but where the earlier never arrived. */
  lemma AlertsAreSpaced(s: State, steps: seq<Step>, t: State, rule: RuleId, id: FireId, other: FireId, cfg: Settings)
    requires Fresh(s) && Reaches(s, steps, t, cfg) && cfg.maxPerHour >= 1 && Undisturbed(s, steps, rule, cfg)
    requires rule in t.rules && id in t.fires && other in t.fires && id != other
    requires t.fires[id].rule == rule && t.fires[other].rule == rule && t.fires[id].createdAt <= t.fires[other].createdAt
    ensures
      || t.fires[other].createdAt - t.fires[id].createdAt >= t.rules[rule].cooldown as real
      || (t.rules[rule].once && t.fires[id].state in {Refused, Abandoned, Throttled, Undeliverable})
      || (t.rules[rule].once && t.fires[other].state in {Refused, Abandoned, Throttled, Undeliverable}
          && t.fires[other].createdAt == t.fires[id].createdAt)
  {
    FreshHolds(s, cfg);
    FreshHoldsOnce(s, rule);
    assert ReadersHold(s, rule) && DatesHold(s, rule) && SpacedOut(s, rule);
    hide Fresh, Invariant, Reaches, Undisturbed, OnceHolds, ReadersHold, DatesHold, CoolingDown;
    RunKeepsSpaced(s, steps, t, rule, cfg);
    assert ApartOrLetGo(t, rule, id, other);
  }

  // ---- where the promise ends ------------------------------------------------------------------------------------

  const TEN_MINUTES: Rule := Rule(false, true, None, 600, None)

  /** Two events published at once may each read a rule before either sets it off, and then it has two alerts at one moment,
      under a ten-minute cool-down. */
  lemma TwoAtOnce(cfg: Settings) returns (s: State, steps: seq<Step>, t: State)
    ensures Fresh(s) && s.rules == map[0 := TEN_MINUTES] && Reaches(s, steps, t, cfg)
    ensures Of(t, 0, 0) && Of(t, 0, 1) && t.fires[0].createdAt == t.fires[1].createdAt
  {
    s := State(map[0 := TEN_MINUTES], map[], 0.0, Idle, map[], map[], {}, map[], {});
    var both := AfterLook(AfterLook(s, 0, 0), 1, 0);
    steps, t := BothGoOff(both, cfg);
    hide Reaches;
    FirstStep(AfterLook(s, 0, 0), Look(1, 0), steps, t, cfg);
    FirstStep(s, Look(0, 0), [Look(1, 0)] + steps, t, cfg);
    steps := [Look(0, 0)] + ([Look(1, 0)] + steps);
  }

  lemma BothGoOff(both: State, cfg: Settings) returns (steps: seq<Step>, t: State)
    requires both.rules == map[0 := TEN_MINUTES] && both.fires == map[] && both.worker == Idle
    requires both.reading == map[0 := Read(0, 0.0), 1 := Read(0, 0.0)]
    ensures Reaches(both, steps, t, cfg)
    ensures Of(t, 0, 0) && Of(t, 0, 1) && t.fires[0].createdAt == t.fires[1].createdAt
  {
    var one := AfterGoesOff(both, 0, Event(0), "", 0);
    t := AfterGoesOff(one, 1, Event(1), "", 1);
    assert Reaches(t, [], t, cfg);
    hide Reaches;
    FirstStep(one, GoesOff(1, Event(1), "", 1), [], t, cfg);
    FirstStep(both, GoesOff(0, Event(0), "", 0), [GoesOff(1, Event(1), "", 1)] + [], t, cfg);
    steps := [GoesOff(0, Event(0), "", 0)] + ([GoesOff(1, Event(1), "", 1)] + []);
  }

  lemma FirstStep(s: State, step: Step, steps: seq<Step>, t: State, cfg: Settings)
    requires Ready(s) && Enabled(s, step, cfg) && Reaches(After(s, step, cfg), steps, t, cfg)
    ensures Reaches(s, [step] + steps, t, cfg)
  {
    assert ([step] + steps)[1..] == steps;
    hide Ready, Enabled, After;
  }

  const NO_DOOR: Settings := Settings(3600.0, 20, false)
  const ONCE: Rule := Rule(true, true, None, 600, None)

  /** The rule has gone off once, at the beginning, and nothing has been done about it. */
  const WENT_OFF: State := State(
    map[0 := ONCE.(lastFired := Some(0.0))], map[0 := Fire(0, Event(0), "", 0.0, Pending, 0, Some(0.0), 0, None)], 0.0, Idle,
    map[0 := []], map[0 := 0], {}, map[], {})

  /** Its fire was claimed and found no door, and the rule has its chance back. */
  const LET_GO: State := State(
    map[0 := ONCE], map[0 := Fire(0, Event(0), "", 0.0, Undeliverable, 1, None, 0, None)], 0.0, Idle,
    map[0 := []], map[0 := 0], {}, map[], {})

  ghost predicate QuietRun(s: State, steps: seq<Step>, t: State) {
    Reaches(s, steps, t, NO_DOOR) && Undisturbed(s, steps, 0, NO_DOOR)
  }

  lemma QuietFirstStep(s: State, step: Step, u: State, steps: seq<Step>, t: State)
    requires Ready(s) && Enabled(s, step, NO_DOOR) && u == After(s, step, NO_DOOR) && QuietRun(u, steps, t)
    requires step.GoesOff? ==> step.reader !in s.overtaken
    ensures QuietRun(s, [step] + steps, t)
  {
    assert ([step] + steps)[1..] == steps;
    hide Ready, Enabled, After;
  }

  lemma ReadAndSetOff(s: State, event: nat, id: FireId, u: State, more: seq<Step>, t: State)
    requires s.rules == map[0 := ONCE] && s.worker == Idle && s.reading == map[] && s.overtaken == {} && Ready(s)
    requires id !in s.fires && !Repeats(s, 0, Event(event))
    requires u == s.(rules := map[0 := ONCE.(lastFired := Some(s.clock))], taken := s.taken[id := []],
                     mishaps := s.mishaps[id := 0],
                     fires := s.fires[id := Fire(0, Event(event), "", s.clock, Pending, 0, Some(s.clock), 0, None)])
    requires QuietRun(u, more, t)
    ensures QuietRun(s, [Look(0, 0)] + ([GoesOff(0, Event(event), "", id)] + more), t)
  {
    var read := AfterLook(s, 0, 0);
    SetsOffAs(s, read, event, id, u);
    hide Repeats, QuietRun, AfterGoesOff;
    QuietFirstStep(read, GoesOff(0, Event(event), "", id), u, more, t);
    QuietFirstStep(s, Look(0, 0), read, [GoesOff(0, Event(event), "", id)] + more, t);
  }

  lemma SetsOffAs(s: State, read: State, event: nat, id: FireId, u: State)
    requires s.rules == map[0 := ONCE] && s.reading == map[] && s.overtaken == {} && read == AfterLook(s, 0, 0)
    requires id !in s.fires && !Repeats(s, 0, Event(event))
    requires u == s.(rules := map[0 := ONCE.(lastFired := Some(s.clock))], taken := s.taken[id := []],
                     mishaps := s.mishaps[id := 0],
                     fires := s.fires[id := Fire(0, Event(event), "", s.clock, Pending, 0, Some(s.clock), 0, None)])
    ensures AfterGoesOff(read, 0, Event(event), "", id) == u
  {
    assert OthersOn(read, 0) == {};
    assert read.reading - {0} == s.reading;
  }

  lemma ClaimedAndLetGo(more: seq<Step>, t: State)
    requires QuietRun(LET_GO, more, t)
    ensures QuietRun(WENT_OFF, [Claim([0])] + ([Work(Door(false, No))] + more), t)
  {
    var claimed := AfterClaim(WENT_OFF, [0]);
    FindsNoDoor(claimed);
    hide AfterWork, QuietRun;
    QuietFirstStep(claimed, Work(Door(false, No)), LET_GO, more, t);
    hide AfterClaim;
    QuietFirstStep(WENT_OFF, Claim([0]), claimed, [Work(Door(false, No))] + more, t);
  }

  lemma FindsNoDoor(claimed: State)
    requires claimed == AfterClaim(WENT_OFF, [0])
    ensures claimed.worker == Working([Row(0, 0, 1, 0, true, true, None)], 0.0, Start) && AtHead(claimed, 0) && Ready(claimed)
    ensures AfterWork(claimed, Door(false, No), NO_DOOR) == LET_GO
  {
    assert RowsOf(WENT_OFF, [0]) == [Row(0, 0, 1, 0, true, true, None)];
    assert claimed.fires == map[0 := WENT_OFF.fires[0].(attempts := 1, nextAttempt := Some(LEASE))];
    assert claimed.resumed == {};
  }

  /** A one-time rule whose alert found no door goes off again a second later, with nobody overtaken, under a ten-minute
      cool-down. */
  lemma SoonAfterOneLetGo() returns (s: State, steps: seq<Step>, t: State)
    ensures Fresh(s) && s.rules == map[0 := ONCE] && Reaches(s, steps, t, NO_DOOR) && Undisturbed(s, steps, 0, NO_DOOR)
    ensures Of(t, 0, 0) && Of(t, 0, 1) && t.fires[1].createdAt - t.fires[0].createdAt == 1.0
    ensures t.fires[0].state == Undeliverable && t.fires[1].state == Pending
  {
    s := State(map[0 := ONCE], map[], 0.0, Idle, map[], map[], {}, map[], {});
    var later := LET_GO.(clock := 1.0);
    t := later.(rules := map[0 := ONCE.(lastFired := Some(1.0))], taken := later.taken[1 := []], mishaps := later.mishaps[1 := 0],
                fires := later.fires[1 := Fire(0, Event(1), "", 1.0, Pending, 0, Some(1.0), 0, None)]);
    assert QuietRun(t, [], t);
    hide Reaches, Undisturbed;
    ReadAndSetOff(later, 1, 1, t, [], t);
    steps := [Look(0, 0)] + ([GoesOff(0, Event(1), "", 1)] + []);
    QuietFirstStep(LET_GO, Advance(1.0), later, steps, t);
    steps := [Advance(1.0)] + steps;
    ClaimedAndLetGo(steps, t);
    steps := [Claim([0])] + ([Work(Door(false, No))] + steps);
    ReadAndSetOff(s, 0, 0, WENT_OFF, steps, t);
    steps := [Look(0, 0)] + ([GoesOff(0, Event(0), "", 0)] + steps);
  }
}
