/**
 A one-time rule's one alert. A rule is read in one statement and set off in another, and nothing holds it in between, so
 what is promised of a one-time rule is kept exactly by the runs in which the rule still remembers no fire whenever it goes
 off; it is enough that nobody sets it off between another's reading of it and that other's fire.
 */
module OnceRules {
  import opened Wrappers
  import opened Delivery

  ghost predicate LiveOf(s: State, rule: RuleId, id: FireId) {
    id in s.fires && s.fires[id].rule == rule && s.fires[id].Live()
  }

  ghost predicate OneLive(s: State, rule: RuleId) {
    forall id, other :: LiveOf(s, rule, id) && LiveOf(s, rule, other) ==> id == other
  }

  /** At most one alert on its way or told; the rule remembers firing exactly while there is one; told, it is off; and none
      was ever let go for the cap. */
  ghost predicate OnceHolds(s: State, rule: RuleId) {
    rule in s.rules && s.rules[rule].once ==>
      && OneLive(s, rule)
      && (s.rules[rule].lastFired.Some? <==> exists id :: LiveOf(s, rule, id))
      && (forall id :: LiveOf(s, rule, id) && s.fires[id].state == Delivered ==> !s.rules[rule].enabled)
      && (forall id :: id in s.fires && s.fires[id].rule == rule ==> s.fires[id].state != Throttled)
  }

  // ---- the steps that set no rule off ----------------------------------------------------------------------------

  lemma QuietKeepsOnce(s: State, t: State, rule: RuleId)
    requires Quiet(s, t) && OnceHolds(s, rule)
    ensures OnceHolds(t, rule)
  {
    assert forall id :: LiveOf(t, rule, id) <==> LiveOf(s, rule, id);
  }

  /** What a one-time rule is owed when its fire has its last word: told, it is off; let go, it forgets. */
  ghost predicate Owed(s: State, u: State, rule: RuleId, state: FireState) {
    rule in s.rules && rule in u.rules && s.rules[rule].once ==>
      && state != Throttled
      && (state == Delivered ==> !u.rules[rule].enabled && u.rules[rule].lastFired == s.rules[rule].lastFired)
      && (state != Delivered ==> u.rules[rule].lastFired == None)
  }

  lemma SettlesKeepsOnce(s: State, u: State, id: FireId, state: FireState, rule: RuleId)
    requires Settles(s, u, id, state) && s.fires[id].state == Pending
    requires OnceHolds(s, s.fires[id].rule) ==> Owed(s, u, s.fires[id].rule, state)
    requires OnceHolds(s, rule)
    ensures OnceHolds(Popped(u), rule)
  {
    hide OnceHolds;
    if rule == s.fires[id].rule {
      OwnRuleHolds(s, u, id, state);
    } else {
      OtherRuleHolds(s, u, id, state, rule);
    }
  }

  lemma OtherRuleHolds(s: State, u: State, id: FireId, state: FireState, rule: RuleId)
    requires Settles(s, u, id, state) && rule != s.fires[id].rule && OnceHolds(s, rule)
    ensures OnceHolds(Popped(u), rule)
  {
    assert forall other :: LiveOf(Popped(u), rule, other) <==> LiveOf(s, rule, other);
  }

  lemma OwnRuleHolds(s: State, u: State, id: FireId, state: FireState)
    requires Settles(s, u, id, state) && s.fires[id].state == Pending && Owed(s, u, s.fires[id].rule, state)
    requires OnceHolds(s, s.fires[id].rule)
    ensures OnceHolds(Popped(u), s.fires[id].rule)
  {
    var rule, t := s.fires[id].rule, Popped(u);
    if rule in s.rules && s.rules[rule].once {
      assert LiveOf(s, rule, id);
      if state == Delivered {
        assert forall other :: LiveOf(t, rule, other) <==> LiveOf(s, rule, other);
      } else {
        forall other ensures !LiveOf(t, rule, other) {
          assert other != id ==> !LiveOf(s, rule, other);
        }
      }
    }
  }

  /** The one alert of a one-time rule is never over the cap: nothing of the rule has been told yet. */
  lemma OnceIsNeverThrottled(s: State, id: FireId, rule: RuleId, since: Time)
    requires LiveOf(s, rule, id) && s.fires[id].state == Pending
    requires rule in s.rules && s.rules[rule].once && OnceHolds(s, rule)
    ensures |DeliveredSince(s, rule, since)| == 0
  {
    forall other ensures other !in DeliveredSince(s, rule, since) {
      assert LiveOf(s, rule, other) ==> other == id;
    }
    assert DeliveredSince(s, rule, since) == {};
  }

  /** A one-time rule whose fire is let go forgets it, but for one let go for the cap. */
  ghost predicate Reopens(s: State, u: State, rule: RuleId, state: FireState) {
    rule in s.rules && s.rules[rule].once && state != Delivered && state != Throttled ==>
      rule in u.rules && u.rules[rule].lastFired == None
  }

  /** The fire in hand has its last word, and its rule, if all was well with it, what it is owed. */
  ghost predicate SettlesOwed(s: State, t: State, id: FireId) {
    exists u, state ::
      && Settles(s, u, id, state) && t == Popped(u) && Reopens(s, u, s.fires[id].rule, state)
      && (OnceHolds(s, s.fires[id].rule) ==> Owed(s, u, s.fires[id].rule, state))
  }

  lemma GiveUpSettles(s: State, t: State, id: FireId, state: FireState)
    requires AtHead(s, id) && s.worker.queue[0].rule == s.fires[id].rule && state in {Refused, Abandoned, Undeliverable}
    requires t == GiveUp(s, state)
    ensures SettlesOwed(s, t, id)
  {
    var u := ReopenOnce(Settle(s, id, state, s.worker.now), s.fires[id].rule);
    assert Settles(s, u, id, state);
  }

  lemma TellingSettles(s: State, t: State, id: FireId, door: Door, cfg: Settings)
    requires AtHead(s, id) && s.worker.phase == Finishing(Ok) && t == AfterWork(s, door, cfg)
    requires s.worker.queue[0].rule == s.fires[id].rule && s.fires[id].rule in s.rules
    requires s.worker.queue[0].once == s.rules[s.fires[id].rule].once
    ensures SettlesOwed(s, t, id)
  {
    var settled := Settle(s, id, Delivered, s.worker.now);
    var u := if s.worker.queue[0].once then FinishOnce(settled, s.fires[id].rule) else settled;
    assert Settles(s, u, id, Delivered);
  }

  /** The cap lets go no fire of a one-time rule. */
  lemma CountedSettles(s: State, t: State, id: FireId, told: nat, door: Door, cfg: Settings)
    requires AtHead(s, id) && s.worker.phase == Counted(told) && t == AfterWork(s, door, cfg)
    requires told >= CapOf(s.worker.queue[0].maxPerHour, cfg)
    requires s.fires[id].rule in s.rules && !(s.rules[s.fires[id].rule].once && OnceHolds(s, s.fires[id].rule))
    ensures SettlesOwed(s, t, id)
  {
    assert Settles(s, Settle(s, id, Throttled, s.worker.now), id, Throttled);
  }

  lemma CountedIsUnderCap(s: State, id: FireId, told: nat, cfg: Settings)
    requires AtHead(s, id) && s.worker.phase == Counted(told) && HeadHolds(s, s.worker.phase, cfg) && cfg.maxPerHour >= 1
    requires OnceHolds(s, s.fires[id].rule) && s.fires[id].rule in s.rules && s.rules[s.fires[id].rule].once
    ensures told < CapOf(s.worker.queue[0].maxPerHour, cfg)
  {
    CountedHead(s, id, told, cfg);
    OnceIsNeverThrottled(s, id, s.fires[id].rule, s.worker.now - HOUR);
  }

  /** Sending, recording a part and putting the fire off settle nothing. */
  lemma SendingIsQuiet(s: State, t: State, id: FireId, door: Door, cfg: Settings)
    requires AtHead(s, id) && t == AfterWork(s, door, cfg)
    requires s.worker.phase.Sending? || s.worker.phase.Recording? || (s.worker.phase.Finishing? && s.worker.phase.answer.Again?)
    ensures Quiet(s, t)
  {
    hide Total, Backoff;
  }

  lemma StartSettles(s: State, t: State, id: FireId, door: Door, cfg: Settings)
    requires AtHead(s, id) && s.worker.phase == Start && t == AfterWork(s, door, cfg)
    requires s.worker.queue[0].rule == s.fires[id].rule
    ensures Quiet(s, t) || SettlesOwed(s, t, id)
  {
    GiveUpSettles(s, GiveUp(s, Abandoned), id, Abandoned);
    GiveUpSettles(s, GiveUp(s, Undeliverable), id, Undeliverable);
    hide SettlesOwed, GiveUp, DeliveredSince;
  }

  /** A step of the worker's either settles nothing, or settles the fire in hand and sees to its rule. */
  lemma WorkSettles(s: State, t: State, id: FireId, door: Door, cfg: Settings)
    requires AtHead(s, id) && t == AfterWork(s, door, cfg) && cfg.maxPerHour >= 1
    requires WorkerHolds(s, cfg)
    ensures Quiet(s, t) || SettlesOwed(s, t, id)
  {
    InHandIs(s, id, cfg);
    hide OnceHolds, WorkerHolds, HeadHolds, DeliveredSince, Total, Backoff, SettlesOwed, GiveUp, Quiet;
    match s.worker.phase {
      case Start => StartSettles(s, t, id, door, cfg);
      case Counted(told) =>
        if told < CapOf(s.worker.queue[0].maxPerHour, cfg) {
          assert Quiet(s, InPhase(s, Sending(0))) by { PhaseIsQuiet(s, Sending(0)); }
        } else if s.rules[s.fires[id].rule].once && OnceHolds(s, s.fires[id].rule) {
          CountedIsUnderCap(s, id, told, cfg);
        } else {
          CountedSettles(s, t, id, told, door, cfg);
        }
      case Finishing(answer) =>
        if answer == Ok {
          TellingSettles(s, t, id, door, cfg);
        } else if answer == No {
          GiveUpSettles(s, t, id, Refused);
        } else {
          SendingIsQuiet(s, t, id, door, cfg);
        }
      case _ => SendingIsQuiet(s, t, id, door, cfg);
    }
  }

  lemma PhaseIsQuiet(s: State, phase: Phase)
    requires s.worker.Working?
    ensures Quiet(s, InPhase(s, phase))
  {
  }

  // ---- a rule goes off -------------------------------------------------------------------------------------------

  /** Whether this step sets the rule off, for a cause the table does not hold yet. */
  ghost predicate SetsOff(s: State, step: Step, rule: RuleId) {
    step.GoesOff? && step.reader in s.reading && s.reading[step.reader].rule == rule && !Repeats(s, rule, step.cause)
  }

  /** A one-time rule that is set off remembers no fire just then, whatever it remembered when it was read. */
  ghost predicate FindsItUnfired(s: State, step: Step, rule: RuleId) {
    SetsOff(s, step, rule) && rule in s.rules && s.rules[rule].once ==> s.rules[rule].lastFired == None
  }

  lemma AddsOnce(s: State, t: State, rule: RuleId, id: FireId, other: RuleId)
    requires Adds(s, t, rule, id) && OnceHolds(s, other)
    ensures OnceHolds(t, other) <==> (other == rule && s.rules[rule].once ==> s.rules[rule].lastFired == None)
  {
    hide Tables;
    assert forall f :: LiveOf(t, other, f) <==> LiveOf(s, other, f) || (other == rule && f == id);
    assert other == rule ==> LiveOf(t, other, id);
    assert other != rule && other in s.rules ==> t.rules[other] == s.rules[other];
  }

  lemma GoesOffOnce(s: State, t: State, step: Step, rule: RuleId, cfg: Settings)
    requires Tables(s) && step.GoesOff? && Enabled(s, step, cfg) && OnceHolds(s, rule)
    requires t == AfterGoesOff(s, step.reader, step.cause, step.text, step.id)
    ensures OnceHolds(t, rule) <==> FindsItUnfired(s, step, rule)
  {
    var own := s.reading[step.reader].rule;
    hide OnceHolds, Tables;
    if Repeats(s, own, step.cause) {
      assert Quiet(s, t);
      QuietKeepsOnce(s, t, rule);
    } else {
      assert Adds(s, t, own, step.id);
      AddsOnce(s, t, own, step.id, rule);
    }
  }

  /** What a one-time rule is promised survives a step exactly when the step does not set the rule off over a fire it
      already remembers. */
  lemma StepKeepsOnceExactly(s: State, step: Step, rule: RuleId, cfg: Settings)
    requires Invariant(s, cfg) && Ready(s) && Enabled(s, step, cfg) && cfg.maxPerHour >= 1
    requires OnceHolds(s, rule)
    ensures OnceHolds(After(s, step, cfg), rule) <==> FindsItUnfired(s, step, rule)
  {
    hide OnceHolds, WorkerHolds, LogsHold, CapHolds, Tables, AfterWork, AfterGoesOff;
    var t := After(s, step, cfg);
    match step {
      case GoesOff(_, _, _, _) => GoesOffOnce(s, t, step, rule, cfg);
      case Work(door) => WorkKeepsOnce(s, t, s.worker.queue[0].fire, door, rule, cfg);
      case _ =>
        assert Quiet(s, t);
        QuietKeepsOnce(s, t, rule);
    }
  }

  lemma WorkKeepsOnce(s: State, t: State, id: FireId, door: Door, rule: RuleId, cfg: Settings)
    requires AtHead(s, id) && t == AfterWork(s, door, cfg) && cfg.maxPerHour >= 1
    requires WorkerHolds(s, cfg) && OnceHolds(s, rule)
    ensures OnceHolds(t, rule)
  {
    InHandIs(s, id, cfg);
    WorkSettles(s, t, id, door, cfg);
    hide OnceHolds, WorkerHolds, AfterWork, Quiet, Settles, Owed;
    if Quiet(s, t) {
      QuietKeepsOnce(s, t, rule);
    } else {
      var u, state :| Settles(s, u, id, state) && t == Popped(u) && Reopens(s, u, s.fires[id].rule, state)
                      && (OnceHolds(s, s.fires[id].rule) ==> Owed(s, u, s.fires[id].rule, state));
      SettlesKeepsOnce(s, u, id, state, rule);
    }
  }

  // ---- whole runs ------------------------------------------------------------------------------------------------

  /** What a one-time rule is promised holds at every moment of the run. */
  ghost predicate AlwaysOnce(s: State, steps: seq<Step>, rule: RuleId, cfg: Settings)
    decreases |steps|
  {
    && OnceHolds(s, rule)
    && (steps != [] && Ready(s) && Enabled(s, steps[0], cfg) ==> AlwaysOnce(After(s, steps[0], cfg), steps[1..], rule, cfg))
  }

  /** Each time the run sets the rule off, the rule remembers no fire just then. */
  ghost predicate EachFindsItUnfired(s: State, steps: seq<Step>, rule: RuleId, cfg: Settings)
    decreases |steps|
  {
    steps != [] && Ready(s) && Enabled(s, steps[0], cfg) ==>
      FindsItUnfired(s, steps[0], rule) && EachFindsItUnfired(After(s, steps[0], cfg), steps[1..], rule, cfg)
  }

  /** Whoever sets the rule off, nobody else has since he read it. */
  ghost predicate Undisturbed(s: State, steps: seq<Step>, rule: RuleId, cfg: Settings)
    decreases |steps|
  {
    steps != [] && Ready(s) && Enabled(s, steps[0], cfg) ==>
      && (SetsOff(s, steps[0], rule) ==> steps[0].reader !in s.overtaken)
      && Undisturbed(After(s, steps[0], cfg), steps[1..], rule, cfg)
  }

  lemma {:induction false} KeepsOnceExactly(s: State, steps: seq<Step>, t: State, rule: RuleId, cfg: Settings)
    requires Invariant(s, cfg) && Reaches(s, steps, t, cfg) && cfg.maxPerHour >= 1 && OnceHolds(s, rule)
    ensures AlwaysOnce(s, steps, rule, cfg) <==> EachFindsItUnfired(s, steps, rule, cfg)
    ensures AlwaysOnce(s, steps, rule, cfg) ==> OnceHolds(t, rule)
    decreases |steps|
  {
    hide Invariant, Ready, Enabled, After, OnceHolds, FindsItUnfired;
    if steps != [] {
      StepKeeps(s, steps[0], cfg);
      StepKeepsOnceExactly(s, steps[0], rule, cfg);
      if FindsItUnfired(s, steps[0], rule) {
        KeepsOnceExactly(After(s, steps[0], cfg), steps[1..], t, rule, cfg);
      }
    }
  }

  lemma FreshHoldsOnce(s: State, rule: RuleId)
    requires Fresh(s)
    ensures OnceHolds(s, rule)
  {
  }

  /** A run keeps what a one-time rule is promised, from first to last, exactly when the rule remembers no fire each time the
      run sets it off. */
  lemma OneAlertExactly(s: State, steps: seq<Step>, t: State, rule: RuleId, cfg: Settings)
    requires Fresh(s) && Reaches(s, steps, t, cfg) && cfg.maxPerHour >= 1
    ensures AlwaysOnce(s, steps, rule, cfg) <==> EachFindsItUnfired(s, steps, rule, cfg)
  {
    FreshHolds(s, cfg);
    FreshHoldsOnce(s, rule);
    KeepsOnceExactly(s, steps, t, rule, cfg);
  }

  // ---- nobody in between -----------------------------------------------------------------------------------------

  /** Whoever has read a one-time rule and was not overtaken would find it as he read it. */
  ghost predicate ReadersHold(s: State, rule: RuleId) {
    rule in s.rules && s.rules[rule].once ==>
      forall reader :: reader in s.reading && s.reading[reader].rule == rule && reader !in s.overtaken
        ==> s.rules[rule].lastFired == None
  }

  lemma StepKeepsReaders(s: State, step: Step, rule: RuleId, cfg: Settings)
    requires Ready(s) && Enabled(s, step, cfg) && ReadersHold(s, rule)
    ensures ReadersHold(After(s, step, cfg), rule)
  {
    hide AfterWork;
    if step.Work? {
      WorkTouches(s, After(s, step, cfg), s.worker.queue[0].fire, step.door, cfg);
    }
  }

  lemma {:induction false} UndisturbedFindsItUnfired(s: State, steps: seq<Step>, rule: RuleId, cfg: Settings)
    requires ReadersHold(s, rule) && Undisturbed(s, steps, rule, cfg)
    ensures EachFindsItUnfired(s, steps, rule, cfg)
    decreases |steps|
  {
    if steps != [] && Ready(s) && Enabled(s, steps[0], cfg) {
      assert FindsItUnfired(s, steps[0], rule);
      hide Ready, Enabled, After, ReadersHold, FindsItUnfired;
      StepKeepsReaders(s, steps[0], rule, cfg);
      UndisturbedFindsItUnfired(After(s, steps[0], cfg), steps[1..], rule, cfg);
    }
  }

  lemma UndisturbedKeepsOnce(s: State, steps: seq<Step>, t: State, rule: RuleId, cfg: Settings)
    requires Fresh(s) && Reaches(s, steps, t, cfg) && cfg.maxPerHour >= 1 && Undisturbed(s, steps, rule, cfg)
    ensures AlwaysOnce(s, steps, rule, cfg) && OnceHolds(t, rule)
  {
    assert ReadersHold(s, rule);
    UndisturbedFindsItUnfired(s, steps, rule, cfg);
    FreshHolds(s, cfg);
    FreshHoldsOnce(s, rule);
    hide Invariant, Fresh, ReadersHold;
    KeepsOnceExactly(s, steps, t, rule, cfg);
  }

  /** When nobody sets it off between another's reading of it and that other's fire: a one-time rule has at most one alert on
      its way or told, remembers firing exactly while it has one, is off once that one is told, and is never throttled. */
  lemma OneAlert(s: State, steps: seq<Step>, t: State, rule: RuleId, cfg: Settings)
    requires Fresh(s) && Reaches(s, steps, t, cfg) && cfg.maxPerHour >= 1 && Undisturbed(s, steps, rule, cfg)
    requires rule in t.rules && t.rules[rule].once
    ensures forall id, other :: LiveOf(t, rule, id) && LiveOf(t, rule, other) ==> id == other
    ensures t.rules[rule].lastFired.Some? <==> exists id :: LiveOf(t, rule, id)
    ensures forall id :: LiveOf(t, rule, id) && t.fires[id].state == Delivered ==> !t.rules[rule].enabled
    ensures forall id :: id in t.fires && t.fires[id].rule == rule ==> t.fires[id].state != Throttled
  {
    UndisturbedKeepsOnce(s, steps, t, rule, cfg);
  }

  /** Two events published at once may each read a one-time rule before either sets it off, and then it has two alerts. */
  lemma TwoAlerts(cfg: Settings) returns (s: State, steps: seq<Step>, t: State)
    ensures Fresh(s) && s.rules == map[0 := Rule(true, true, None, 0, None)] && Reaches(s, steps, t, cfg)
    ensures LiveOf(t, 0, 0) && LiveOf(t, 0, 1)
  {
    s := State(map[0 := Rule(true, true, None, 0, None)], map[], 0.0, Idle, map[], map[], {}, map[], {});
    var both := AfterLook(AfterLook(s, 0, 0), 1, 0);
    var one := AfterGoesOff(both, 0, Event(0), "", 0);
    t := AfterGoesOff(one, 1, Event(1), "", 1);
    steps := [Look(0, 0), Look(1, 0), GoesOff(0, Event(0), "", 0), GoesOff(1, Event(1), "", 1)];
    BothRead(s, both, cfg);
    BothGoOff(both, one, t, cfg);
    hide Reaches;
    OneAfterAnother(s, [Look(0, 0), Look(1, 0)], both, [GoesOff(0, Event(0), "", 0), GoesOff(1, Event(1), "", 1)], t, cfg);
    assert steps == [Look(0, 0), Look(1, 0)] + [GoesOff(0, Event(0), "", 0), GoesOff(1, Event(1), "", 1)];
  }

  lemma BothRead(s: State, both: State, cfg: Settings)
    requires s == State(map[0 := Rule(true, true, None, 0, None)], map[], 0.0, Idle, map[], map[], {}, map[], {})
    requires both == AfterLook(AfterLook(s, 0, 0), 1, 0)
    ensures Reaches(s, [Look(0, 0), Look(1, 0)], both, cfg)
  {
    assert Reaches(both, [], both, cfg);
    assert Reaches(AfterLook(s, 0, 0), [Look(1, 0)], both, cfg);
  }

  lemma BothGoOff(both: State, one: State, t: State, cfg: Settings)
    requires both.rules == map[0 := Rule(true, true, None, 0, None)] && both.fires == map[] && both.worker == Idle
    requires both.reading == map[0 := Read(0, 0.0), 1 := Read(0, 0.0)]
    requires one == AfterGoesOff(both, 0, Event(0), "", 0) && 1 in one.reading && one.reading[1] == Read(0, 0.0)
    requires 0 in one.rules && 1 !in one.fires && t == AfterGoesOff(one, 1, Event(1), "", 1)
    ensures Reaches(both, [GoesOff(0, Event(0), "", 0), GoesOff(1, Event(1), "", 1)], t, cfg)
    ensures LiveOf(t, 0, 0) && LiveOf(t, 0, 1)
  {
    assert Reaches(t, [], t, cfg);
    assert Reaches(one, [GoesOff(1, Event(1), "", 1)], t, cfg);
  }

  // ---- an alert let go, and an alert told ------------------------------------------------------------------------

  lemma LetGoForgets(s: State, t: State, head: FireId, id: FireId, rule: RuleId, door: Door, cfg: Settings)
    requires AtHead(s, head) && t == AfterWork(s, door, cfg) && WorkerHolds(s, cfg) && cfg.maxPerHour >= 1
    requires LiveOf(s, rule, id) && !LiveOf(t, rule, id) && rule in s.rules && s.rules[rule].once
    ensures rule in t.rules && id in t.fires && (t.rules[rule].lastFired == None || t.fires[id].state == Throttled)
  {
    WorkSettles(s, t, head, door, cfg);
    hide OnceHolds, WorkerHolds, AfterWork, Owed;
    assert !Quiet(s, t);
    hide Quiet, Settles, LiveOf;
    var u, state :| Settles(s, u, head, state) && t == Popped(u) && Reopens(s, u, s.fires[head].rule, state)
                    && (OnceHolds(s, s.fires[head].rule) ==> Owed(s, u, s.fires[head].rule, state));
    SettledForgets(s, u, head, state, id, rule);
  }

  lemma SettledForgets(s: State, u: State, head: FireId, state: FireState, id: FireId, rule: RuleId)
    requires Settles(s, u, head, state) && Reopens(s, u, s.fires[head].rule, state)
    requires LiveOf(s, rule, id) && !LiveOf(Popped(u), rule, id) && rule in s.rules && s.rules[rule].once
    ensures rule in u.rules && id in u.fires && (u.rules[rule].lastFired == None || u.fires[id].state == Throttled)
  {
  }

  lemma LetGo(s: State, t: State, door: Door, id: FireId, rule: RuleId, cfg: Settings)
    requires Invariant(s, cfg) && cfg.maxPerHour >= 1
    requires s.worker.Working? && AtHead(s, s.worker.queue[0].fire) && t == AfterWork(s, door, cfg)
    requires LiveOf(s, rule, id) && rule in s.rules && s.rules[rule].once && !LiveOf(t, rule, id)
    ensures rule in t.rules && id in t.fires && (t.rules[rule].lastFired == None || t.fires[id].state == Throttled)
    ensures OnceHolds(s, rule) ==> t.rules[rule].lastFired == None
  {
    hide Tables, LogsHold, CapHolds, WorkerHolds, AfterWork, LiveOf, OnceHolds;
    LetGoForgets(s, t, s.worker.queue[0].fire, id, rule, door, cfg);
    if OnceHolds(s, rule) {
      WorkKeepsOnce(s, t, s.worker.queue[0].fire, door, rule, cfg);
      NotThrottled(s, t, s.worker.queue[0].fire, id, rule, door, cfg);
    }
  }

  /** The alert that will never arrive gives the rule back in the very step that lets it go. Only the cap lets one go and
      does not, and where nobody overtook anybody the cap lets none of the rule's go. */
  lemma LetGoReopens(start: State, steps: seq<Step>, s: State, t: State, door: Door, id: FireId, rule: RuleId, cfg: Settings)
    requires Fresh(start) && Reaches(start, steps, s, cfg) && cfg.maxPerHour >= 1
    requires Ready(s) && Enabled(s, Work(door), cfg) && t == After(s, Work(door), cfg)
    requires LiveOf(s, rule, id) && rule in s.rules && s.rules[rule].once && !LiveOf(t, rule, id)
    ensures rule in t.rules && id in t.fires && (t.rules[rule].lastFired == None || t.fires[id].state == Throttled)
    ensures Undisturbed(start, steps, rule, cfg) ==> t.rules[rule].lastFired == None
  {
    hide Fresh, Reaches, Invariant, AfterWork, LiveOf, OnceHolds, Undisturbed;
    FreshHolds(start, cfg);
    RunKeeps(start, steps, s, cfg);
    LetGo(s, t, door, id, rule, cfg);
    if Undisturbed(start, steps, rule, cfg) {
      UndisturbedKeepsOnce(start, steps, s, rule, cfg);
    }
  }

  lemma NotThrottled(s: State, t: State, head: FireId, id: FireId, rule: RuleId, door: Door, cfg: Settings)
    requires AtHead(s, head) && t == AfterWork(s, door, cfg) && LiveOf(s, rule, id)
    requires rule in s.rules && s.rules[rule].once && OnceHolds(t, rule)
    ensures id in t.fires && t.fires[id].state != Throttled
  {
    WorkTouches(s, t, head, door, cfg);
    hide AfterWork;
  }

  /** A one-time rule that said its one thing, and that nobody read before it did will set off again. */
  ghost predicate Off(s: State, rule: RuleId) {
    && rule in s.rules && s.rules[rule].once && !s.rules[rule].enabled
    && forall reader :: reader in s.reading && s.reading[reader].rule == rule ==> reader in s.overtaken
  }

  /** Still off, with no fire it had not had before. */
  ghost predicate NoMore(s: State, t: State, rule: RuleId) {
    Off(t, rule) && forall id :: id in t.fires && t.fires[id].rule == rule ==> id in s.fires && s.fires[id].rule == rule
  }

  lemma StepKeepsOff(s: State, step: Step, rule: RuleId, cfg: Settings)
    requires Ready(s) && Enabled(s, step, cfg) && Off(s, rule)
    requires SetsOff(s, step, rule) ==> step.reader !in s.overtaken
    ensures NoMore(s, After(s, step, cfg), rule)
  {
    hide AfterWork;
    if step.Work? {
      WorkTouches(s, After(s, step, cfg), s.worker.queue[0].fire, step.door, cfg);
    }
  }

  lemma {:induction false} OffStaysOff(s: State, steps: seq<Step>, t: State, rule: RuleId, cfg: Settings)
    requires Reaches(s, steps, t, cfg) && Undisturbed(s, steps, rule, cfg) && Off(s, rule)
    ensures NoMore(s, t, rule)
    decreases |steps|
  {
    if steps != [] {
      hide Enabled, After, Off, Ready, SetsOff;
      StepKeepsOff(s, steps[0], rule, cfg);
      OffStaysOff(After(s, steps[0], cfg), steps[1..], t, rule, cfg);
    }
  }

  lemma {:induction false} RunKeepsReaders(s: State, steps: seq<Step>, t: State, rule: RuleId, cfg: Settings)
    requires Reaches(s, steps, t, cfg) && ReadersHold(s, rule)
    ensures ReadersHold(t, rule)
    decreases |steps|
  {
    if steps != [] {
      hide Enabled, After, ReadersHold, Ready;
      StepKeepsReaders(s, steps[0], rule, cfg);
      RunKeepsReaders(After(s, steps[0], cfg), steps[1..], t, rule, cfg);
    }
  }

  /** A one-time rule whose alert was told is off, and never goes off again. */
  lemma ToldIsTheEnd(s: State, steps: seq<Step>, t: State, id: FireId, more: seq<Step>, u: State, cfg: Settings)
    requires Fresh(s) && Reaches(s, steps, t, cfg) && cfg.maxPerHour >= 1
    requires id in t.fires && t.fires[id].state == Delivered && t.fires[id].rule in t.rules && t.rules[t.fires[id].rule].once
    requires Reaches(t, more, u, cfg)
    requires Undisturbed(s, steps, t.fires[id].rule, cfg) && Undisturbed(t, more, t.fires[id].rule, cfg)
    ensures NoMore(t, u, t.fires[id].rule)
  {
    hide NoMore, Reaches, Undisturbed;
    RunKeepsReaders(s, steps, t, t.fires[id].rule, cfg);
    OneAlert(s, steps, t, t.fires[id].rule, cfg);
    assert LiveOf(t, t.fires[id].rule, id);
    OffStaysOff(t, more, u, t.fires[id].rule, cfg);
  }
}
