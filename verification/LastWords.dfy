/**
 What becomes of a fire, and when: which step gives it its last word and why, when it is tried again, and that nothing late
 or switched off is ever put to the door.
 */
module LastWords {
  import opened Wrappers
  import opened Delivery

  // ---- the last word ---------------------------------------------------------------------------------------------

  /** The rule has told as much as it may in the hour before the worker's look at the clock: its own limit, or the settings'
      where it names none. */
  ghost predicate ToldEnough(s: State, rule: RuleId, cfg: Settings)
    requires s.worker.Working? && rule in s.rules
  {
    var told := |Window(s, rule, s.worker.now)|;
    match s.rules[rule].maxPerHour
    case Some(n) => if n > 0 then told >= n else told >= cfg.maxPerHour
    case None => told >= cfg.maxPerHour
  }

  /** Older than the window for retries, or of a rule that was switched off when the fire was claimed. */
  predicate TooLate(s: State, id: FireId, cfg: Settings)
    requires AtHead(s, id)
  {
    s.worker.now - s.fires[id].createdAt > cfg.retryWindow || !s.worker.queue[0].enabled
  }

  lemma CountIsTheHour(s: State, id: FireId, told: nat, cfg: Settings)
    requires AtHead(s, id) && WorkerHolds(s, cfg) && s.worker.phase == Counted(told)
    ensures s.fires[id].rule in s.rules && told == |Window(s, s.fires[id].rule, s.worker.now)|
    ensures s.worker.queue[0].maxPerHour == s.rules[s.fires[id].rule].maxPerHour && s.fires[id].partsSent == 0
  {
    assert DeliveredSince(s, s.fires[id].rule, s.worker.now - HOUR) == Window(s, s.fires[id].rule, s.worker.now);
  }

  /** Which step of the worker's gives the fire in hand which last word; a fire with a part on the phone is not let go for
      the cap. */
  ghost predicate WordIs(s: State, id: FireId, state: FireState, cfg: Settings)
    requires AtHead(s, id) && s.fires[id].rule in s.rules
  {
    match state
    case Abandoned => s.worker.phase == Start && TooLate(s, id, cfg)
    case Undeliverable => s.worker.phase == Start && !TooLate(s, id, cfg) && !cfg.hasDoor
    case Throttled => s.worker.phase.Counted? && s.fires[id].partsSent == 0 && ToldEnough(s, s.fires[id].rule, cfg)
    case Delivered => s.worker.phase == Finishing(Ok)
    case Refused => s.worker.phase == Finishing(No)
    case Pending => true
  }

  lemma WordAtStart(s: State, t: State, id: FireId, state: FireState, door: Door, cfg: Settings)
    requires AtHead(s, id) && s.fires[id].state == Pending && s.fires[id].rule in s.rules && t == AfterWork(s, door, cfg)
    requires s.worker.phase.Start? && state != Pending
    ensures id in t.fires && (t.fires[id].state == state <==> WordIs(s, id, state, cfg))
  {
    hide DeliveredSince, ToldEnough;
  }

  lemma WordWhenCounted(s: State, t: State, id: FireId, state: FireState, door: Door, cfg: Settings)
    requires AtHead(s, id) && s.fires[id].state == Pending && s.fires[id].rule in s.rules && t == AfterWork(s, door, cfg)
    requires s.worker.phase.Counted? && WorkerHolds(s, cfg) && state != Pending
    ensures id in t.fires && (t.fires[id].state == state <==> WordIs(s, id, state, cfg))
  {
    CountIsTheHour(s, id, s.worker.phase.told, cfg);
    hide WorkerHolds, Window;
  }

  lemma WordAtTheEnd(s: State, t: State, id: FireId, state: FireState, door: Door, cfg: Settings)
    requires AtHead(s, id) && s.fires[id].state == Pending && s.fires[id].rule in s.rules && t == AfterWork(s, door, cfg)
    requires !s.worker.phase.Start? && !s.worker.phase.Counted? && state != Pending
    ensures id in t.fires && (t.fires[id].state == state <==> WordIs(s, id, state, cfg))
  {
    hide Total, Backoff, ToldEnough;
  }

  lemma WordInHand(s: State, t: State, id: FireId, state: FireState, door: Door, cfg: Settings)
    requires AtHead(s, id) && s.fires[id].state == Pending && s.fires[id].rule in s.rules && t == AfterWork(s, door, cfg)
    requires WorkerHolds(s, cfg) && state != Pending
    ensures id in t.fires && (t.fires[id].state == state <==> WordIs(s, id, state, cfg))
  {
    hide AfterWork, WordIs, WorkerHolds;
    match s.worker.phase {
      case Start => WordAtStart(s, t, id, state, door, cfg);
      case Counted(_) => WordWhenCounted(s, t, id, state, door, cfg);
      case _ => WordAtTheEnd(s, t, id, state, door, cfg);
    }
  }

  lemma NoOthersWord(s: State, t: State, step: Step, id: FireId, cfg: Settings)
    requires Ready(s) && Enabled(s, step, cfg) && t == After(s, step, cfg) && id in s.fires
    requires !(step.Work? && AtHead(s, id))
    ensures id in t.fires && t.fires[id].state == s.fires[id].state
  {
    hide AfterWork;
    if step.Work? {
      WorkTouches(s, t, s.worker.queue[0].fire, step.door, cfg);
    }
  }

  /** Over every run: a waiting fire has its last word in just these steps, and no other step gives it one. */
  lemma LastWordExactly(start: State, steps: seq<Step>, s: State, step: Step, id: FireId, state: FireState, cfg: Settings)
    requires Fresh(start) && Reaches(start, steps, s, cfg) && Ready(s) && Enabled(s, step, cfg)
    requires id in s.fires && s.fires[id].state == Pending && state != Pending
    ensures id in After(s, step, cfg).fires
    ensures After(s, step, cfg).fires[id].state == state <==> step.Work? && AtHead(s, id) && WordIs(s, id, state, cfg)
  {
    hide Fresh, Reaches, LogsHold, CapHolds, Tables, Enabled, After, Ready, WordIs, WorkerHolds;
    FreshHolds(start, cfg);
    RunKeeps(start, steps, s, cfg);
    WordOfStep(s, After(s, step, cfg), step, id, state, cfg);
  }

  lemma WordOfStep(s: State, t: State, step: Step, id: FireId, state: FireState, cfg: Settings)
    requires Ready(s) && Enabled(s, step, cfg) && t == After(s, step, cfg) && WorkerHolds(s, cfg)
    requires id in s.fires && s.fires[id].state == Pending && state != Pending
    ensures id in t.fires
    ensures t.fires[id].state == state <==> step.Work? && AtHead(s, id) && WordIs(s, id, state, cfg)
  {
    hide WorkerHolds, WordIs, AfterWork, AfterGoesOff, AfterClaim, Dropped;
    if step.Work? && AtHead(s, id) {
      WordInHand(s, t, id, state, step.door, cfg);
    } else {
      NoOthersWord(s, t, step, id, cfg);
    }
  }

  // ---- nothing late ----------------------------------------------------------------------------------------------

  /** What the worker is past looking at is in time, switched on as it was claimed, and has a door to go to. */
  ghost predicate Cleared(s: State, cfg: Settings) {
    s.worker.Working? && s.worker.queue != [] && !s.worker.phase.Start? && s.worker.queue[0].fire in s.fires ==>
      && s.worker.now - s.fires[s.worker.queue[0].fire].createdAt <= cfg.retryWindow
      && s.worker.queue[0].enabled && cfg.hasDoor
  }

  lemma WorkKeepsCleared(s: State, t: State, id: FireId, door: Door, cfg: Settings)
    requires AtHead(s, id) && t == AfterWork(s, door, cfg) && Cleared(s, cfg)
    ensures Cleared(t, cfg)
  {
    WorkTouches(s, t, id, door, cfg);
    WorkMovesOn(s, t, id, door, cfg);
    hide AfterWork;
  }

  /** The worker stays with the fire in hand, having cleared it, or starts on the next. */
  ghost predicate MovesOn(s: State, t: State, id: FireId, cfg: Settings)
    requires AtHead(s, id)
  {
    t.worker.Working? ==>
      if t.worker.phase.Start? then t.worker.queue == s.worker.queue[1..]
      else t.worker.queue == s.worker.queue && t.worker.now == s.worker.now
           && (s.worker.phase.Start? ==> !TooLate(s, id, cfg) && cfg.hasDoor)
  }

  lemma WorkMovesOn(s: State, t: State, id: FireId, door: Door, cfg: Settings)
    requires AtHead(s, id) && t == AfterWork(s, door, cfg)
    ensures MovesOn(s, t, id, cfg)
  {
    hide AfterWork, MovesOn;
    match s.worker.phase {
      case Start => StartMovesOn(s, t, id, door, cfg);
      case Finishing(_) => FinishingMovesOn(s, t, id, door, cfg);
      case _ => SendingMovesOn(s, t, id, door, cfg);
    }
  }

  lemma StartMovesOn(s: State, t: State, id: FireId, door: Door, cfg: Settings)
    requires AtHead(s, id) && t == AfterWork(s, door, cfg) && s.worker.phase.Start?
    ensures MovesOn(s, t, id, cfg)
  {
    hide DeliveredSince;
  }

  lemma SendingMovesOn(s: State, t: State, id: FireId, door: Door, cfg: Settings)
    requires AtHead(s, id) && t == AfterWork(s, door, cfg) && !s.worker.phase.Start? && !s.worker.phase.Finishing?
    ensures MovesOn(s, t, id, cfg)
  {
    hide Total, CapOf;
  }

  lemma FinishingMovesOn(s: State, t: State, id: FireId, door: Door, cfg: Settings)
    requires AtHead(s, id) && t == AfterWork(s, door, cfg) && s.worker.phase.Finishing?
    ensures MovesOn(s, t, id, cfg)
  {
    hide Backoff;
  }

  lemma StepKeepsCleared(s: State, step: Step, cfg: Settings)
    requires Ready(s) && Enabled(s, step, cfg) && Cleared(s, cfg)
    ensures Cleared(After(s, step, cfg), cfg)
  {
    hide AfterWork;
    if step.Work? {
      WorkKeepsCleared(s, After(s, step, cfg), s.worker.queue[0].fire, step.door, cfg);
    }
  }

  lemma {:induction false} RunKeepsCleared(s: State, steps: seq<Step>, t: State, cfg: Settings)
    requires Reaches(s, steps, t, cfg) && Cleared(s, cfg)
    ensures Cleared(t, cfg)
    decreases |steps|
  {
    if steps != [] {
      hide Ready, Enabled, After, Cleared;
      StepKeepsCleared(s, steps[0], cfg);
      RunKeepsCleared(After(s, steps[0], cfg), steps[1..], t, cfg);
    }
  }

  lemma OnlySendingIsHeard(s: State, t: State, step: Step, id: FireId, cfg: Settings)
    requires Ready(s) && Enabled(s, step, cfg) && t == After(s, step, cfg)
    requires id in s.fires && id in s.taken && id in t.taken && t.taken[id] != s.taken[id]
    ensures step.Work? && AtHead(s, id) && s.worker.phase.Sending?
  {
    hide Total, Backoff, DeliveredSince, RowsOf;
  }

  /** Over every run: what the door takes is never older than the window for retries, and never of a rule that was switched
      off when the fire was claimed. */
  lemma NothingLateIsSent(start: State, steps: seq<Step>, s: State, step: Step, id: FireId, cfg: Settings)
    requires Fresh(start) && Reaches(start, steps, s, cfg) && Ready(s) && Enabled(s, step, cfg) && id in s.fires
    requires id in s.taken && id in After(s, step, cfg).taken && After(s, step, cfg).taken[id] != s.taken[id]
    ensures AtHead(s, id) && s.worker.now - s.fires[id].createdAt <= cfg.retryWindow && s.worker.queue[0].enabled && cfg.hasDoor
  {
    assert Cleared(start, cfg);
    OnlySendingIsHeard(s, After(s, step, cfg), step, id, cfg);
    hide Fresh, Reaches, After, Enabled, Ready;
    RunKeepsCleared(start, steps, s, cfg);
  }

  // ---- the next try ----------------------------------------------------------------------------------------------

  function Doubled(n: nat): real { if n == 0 then 1.0 else 2.0 * Doubled(n - 1) }

  /** Half a minute, doubled with each try after the first, and never above a quarter of an hour. */
  lemma {:induction false} BackoffIs(attempts: nat)
    requires attempts >= 1
    ensures Backoff(attempts) == if 30.0 * Doubled(attempts - 1) < 900.0 then 30.0 * Doubled(attempts - 1) else 900.0
  {
    if attempts > 1 {
      BackoffIs(attempts - 1);
    }
  }

  /** The rows in hand say how often their fires have been claimed. */
  ghost predicate Tries(s: State) {
    s.worker.Working? ==> forall i :: 0 <= i < |s.worker.queue| ==>
      && s.worker.queue[i].fire in s.fires && s.worker.queue[i].attempts == s.fires[s.worker.queue[i].fire].attempts
      && s.worker.queue[i].attempts >= 1
  }

  ghost predicate SameTries(s: State, t: State) {
    && (forall id :: id in s.fires ==> id in t.fires && t.fires[id].attempts == s.fires[id].attempts)
    && (t.worker.Working? ==>
          s.worker.Working? && s.worker.queue != []
          && (t.worker.queue == s.worker.queue || t.worker.queue == s.worker.queue[1..]))
  }

  lemma WorkKeepsTries(s: State, t: State, id: FireId, door: Door, cfg: Settings)
    requires AtHead(s, id) && t == AfterWork(s, door, cfg)
    ensures SameTries(s, t)
  {
    WorkTouches(s, t, id, door, cfg);
    WorkMovesOn(s, t, id, door, cfg);
    hide AfterWork;
  }

  lemma SameTriesKeep(s: State, t: State)
    requires SameTries(s, t) && Tries(s)
    ensures Tries(t)
  {
  }

  lemma StepKeepsTries(s: State, step: Step, cfg: Settings)
    requires Ready(s) && Enabled(s, step, cfg) && Tries(s)
    ensures Tries(After(s, step, cfg))
  {
    hide AfterWork, RowsOf;
    if step.Work? {
      WorkKeepsTries(s, After(s, step, cfg), s.worker.queue[0].fire, step.door, cfg);
      SameTriesKeep(s, After(s, step, cfg));
    } else if !step.Claim? {
      assert SameTries(s, After(s, step, cfg));
      SameTriesKeep(s, After(s, step, cfg));
    }
  }

  lemma {:induction false} RunKeepsTries(s: State, steps: seq<Step>, t: State, cfg: Settings)
    requires Reaches(s, steps, t, cfg) && Tries(s)
    ensures Tries(t)
    decreases |steps|
  {
    if steps != [] {
      hide Ready, Enabled, After, Tries;
      StepKeepsTries(s, steps[0], cfg);
      RunKeepsTries(After(s, steps[0], cfg), steps[1..], t, cfg);
    }
  }

  /** Over every run: a fire the door put off is next tried after the wait the door asked, or, when it asked none, half a
      minute after the first try and twice as long after each further one, never more than a quarter of an hour. */
  lemma TriedAgain(start: State, steps: seq<Step>, s: State, door: Door, id: FireId, cfg: Settings)
    requires Fresh(start) && Reaches(start, steps, s, cfg) && Ready(s) && AtHead(s, id)
    requires s.worker.phase.Finishing? && s.worker.phase.answer.Again?
    ensures s.fires[id].attempts >= 1 && id in AfterWork(s, door, cfg).fires
    ensures
      var doubled := 30.0 * Doubled(s.fires[id].attempts - 1);
      AfterWork(s, door, cfg).fires[id].nextAttempt == Some(s.worker.now +
        match s.worker.phase.answer.wait
        case Some(n) => if n > 0 then n as real else if doubled < 900.0 then doubled else 900.0
        case None => if doubled < 900.0 then doubled else 900.0)
  {
    assert Tries(start);
    RunKeepsTries(start, steps, s, cfg);
    hide Fresh, Reaches, Ready;
    assert s.worker.queue[0].attempts == s.fires[id].attempts;
    BackoffIs(s.fires[id].attempts);
    hide Backoff, Doubled;
  }

  // ---- the lease -------------------------------------------------------------------------------------------------

  /** The step puts the fire off because the door asked for it. */
  ghost predicate PutsOff(s: State, step: Step, id: FireId) {
    step.Work? && AtHead(s, id) && s.worker.phase.Finishing? && s.worker.phase.answer.Again?
  }

  ghost predicate NeverPutOff(s: State, steps: seq<Step>, id: FireId, cfg: Settings)
    decreases |steps|
  {
    steps != [] && Ready(s) && Enabled(s, steps[0], cfg) ==>
      !PutsOff(s, steps[0], id) && NeverPutOff(After(s, steps[0], cfg), steps[1..], id, cfg)
  }

  ghost predicate Leased(s: State, id: FireId, until: Time) {
    id in s.fires && (s.fires[id].nextAttempt.Some? ==> s.fires[id].nextAttempt.value >= until)
  }

  lemma WorkKeepsLease(s: State, t: State, head: FireId, door: Door, id: FireId, until: Time, cfg: Settings)
    requires AtHead(s, head) && t == AfterWork(s, door, cfg) && Leased(s, id, until)
    requires !(head == id && s.worker.phase.Finishing? && s.worker.phase.answer.Again?)
    ensures Leased(t, id, until)
  {
    WorkTouches(s, t, head, door, cfg);
    if !s.worker.phase.Finishing? {
      WorkKeepsDates(s, t, head, door, cfg);
    } else if s.worker.phase.answer == Ok {
      TellingKeepsDates(s, t, head, door, cfg);
    } else if s.worker.phase.answer == No {
      GiveUpKeepsDates(s, t, head, Refused);
    }
    hide AfterWork;
  }

  lemma StepKeepsLease(s: State, step: Step, id: FireId, until: Time, cfg: Settings)
    requires Ready(s) && Enabled(s, step, cfg) && Leased(s, id, until) && !PutsOff(s, step, id) && s.clock >= until - LEASE
    ensures Leased(After(s, step, cfg), id, until) && After(s, step, cfg).clock >= until - LEASE
  {
    hide AfterWork, RowsOf;
    if step.Work? {
      WorkTouches(s, After(s, step, cfg), s.worker.queue[0].fire, step.door, cfg);
      WorkKeepsLease(s, After(s, step, cfg), s.worker.queue[0].fire, step.door, id, until, cfg);
    }
  }

  lemma {:induction false} RunKeepsLease(s: State, steps: seq<Step>, t: State, id: FireId, until: Time, cfg: Settings)
    requires Reaches(s, steps, t, cfg) && NeverPutOff(s, steps, id, cfg) && Leased(s, id, until) && s.clock >= until - LEASE
    ensures Leased(t, id, until)
    decreases |steps|
  {
    if steps != [] {
      hide Ready, Enabled, After, Leased, PutsOff;
      StepKeepsLease(s, steps[0], id, until, cfg);
      RunKeepsLease(After(s, steps[0], cfg), steps[1..], t, id, until, cfg);
    }
  }

  /** A fire that was claimed is not claimed again for a minute, whatever died in between, unless the door asked to put it
      off. */
  lemma LeaseHolds(s: State, due: seq<FireId>, steps: seq<Step>, t: State, again: seq<FireId>, id: FireId, cfg: Settings)
    requires Ready(s) && Enabled(s, Claim(due), cfg) && id in due
    requires Reaches(After(s, Claim(due), cfg), steps, t, cfg) && NeverPutOff(After(s, Claim(due), cfg), steps, id, cfg)
    requires Enabled(t, Claim(again), cfg) && id in again
    ensures t.clock >= s.clock + 60.0
  {
    assert Leased(After(s, Claim(due), cfg), id, s.clock + LEASE);
    RunKeepsLease(After(s, Claim(due), cfg), steps, t, id, s.clock + LEASE, cfg);
    hide Reaches, NeverPutOff, AfterClaim, Ready;
  }
}
