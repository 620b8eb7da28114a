/**
 The delivery worker as it is written: a loop over the fires a claim took, and for each a loop over the messages still to
 send, with the tables rewritten statement by statement. What it does, answer by answer of the door, is one of the runs of
 the machine in `Delivery`, so whatever holds of every run holds of it.
 */
module Deliverers {
  import opened Wrappers
  import opened Delivery
  import Template

  const NOTHING: Door := Door(false, No)

  /** Where the worker stands once the fire in hand is done with. */
  function Then(rest: seq<Row>, now: Time): Worker { if rest == [] then Idle else Working(rest, now, Start) }

  /** One more of the worker's steps on a run that began at `start`. */
  lemma Stepped(start: State, steps: seq<Step>, s: State, door: Door, t: State, cfg: Settings) returns (more: seq<Step>)
    requires Reaches(start, steps, s, cfg) && Invariant(s, cfg) && door.Possible()
    requires s.worker.Working? && s.worker.queue != [] && AtHead(s, s.worker.queue[0].fire) && t == AfterWork(s, door, cfg)
    ensures Reaches(start, more, t, cfg) && Invariant(t, cfg)
  {
    hide Invariant, Reaches, AfterWork, Ready;
    InvariantIsReady(s, cfg);
    StepKeeps(s, Work(door), cfg);
    OneMoreStep(start, steps, s, Work(door), cfg);
    more := steps + [Work(door)];
  }

  /** What the worker's step is while it sends. */
  lemma SendingWork(s: State, i: nat, door: Door, cfg: Settings)
    requires s.worker.Working? && s.worker.queue != [] && AtHead(s, s.worker.queue[0].fire) && s.worker.phase == Sending(i)
    ensures
      var id := s.worker.queue[0].fire;
      AfterWork(s, door, cfg) == if i < Total(s.fires[id]) then Heard(s, id, i, door) else InPhase(s, Finishing(Ok))
  {
    hide Total;
  }

  /** A claim begins a run. */
  lemma Claimed(s: State, due: seq<FireId>, t: State, cfg: Settings)
    requires Takes(s, due) && |due| <= BATCH && t == AfterClaim(s, due)
    requires Invariant(s, cfg)
    ensures Reaches(s, [Claim(due)], t, cfg) && Invariant(t, cfg)
  {
    hide Invariant, Takes, Ready, Enabled, AfterClaim;
    InvariantIsReady(s, cfg);
    MayClaim(s, due, cfg);
    StepKeeps(s, Claim(due), cfg);
    OneMoreStep(s, [], s, Claim(due), cfg);
  }

  lemma MayClaim(s: State, due: seq<FireId>, cfg: Settings)
    requires Takes(s, due) && |due| <= BATCH
    ensures Enabled(s, Claim(due), cfg)
  {
    hide Tables, Due;
  }

  class Deliverer {
    const cfg: Settings
    var rules: map<RuleId, Rule>
    var fires: map<FireId, Fire>
    var clock: Time
    ghost var taken: map<FireId, seq<nat>>
    ghost var mishaps: map<FireId, nat>
    ghost var resumed: set<FireId>
    ghost var reading: map<Reader, Read>
    ghost var overtaken: set<Reader>

    /** The whole state, given where the worker stands. */
    ghost function At(worker: Worker): State
      reads this
    {
      State(rules, fires, clock, worker, taken, mishaps, resumed, reading, overtaken)
    }

    method SettleFire(id: FireId, state: FireState, now: Time)
      requires id in fires
      modifies `fires
      ensures forall w :: At(w) == Settle(old(At(w)), id, state, now)
    {
      fires := fires[id := fires[id].(state := state, nextAttempt := None,
                                      deliveredAt := if state == Delivered then Some(now) else None)];
    }

    method FinishOnceRule(rule: RuleId)
      modifies `rules
      ensures forall w :: At(w) == FinishOnce(old(At(w)), rule)
    {
      if rule in rules {
        rules := rules[rule := rules[rule].(enabled := false)];
      }
    }

    method ReopenOnceRule(rule: RuleId)
      modifies `rules
      ensures forall w :: At(w) == ReopenOnce(old(At(w)), rule)
    {
      if rule in rules && rules[rule].once {
        rules := rules[rule := rules[rule].(lastFired := None)];
      }
    }

    method RecordPart(id: FireId)
      requires id in fires
      modifies `fires
      ensures forall w :: At(w) == PartSent(old(At(w)), id)
    {
      fires := fires[id := fires[id].(partsSent := fires[id].partsSent + 1)];
    }

    method RetryFire(id: FireId, at: Time)
      requires id in fires
      modifies `fires
      ensures forall w :: At(w) == Retry(old(At(w)), id, at)
    {
      fires := fires[id := fires[id].(nextAttempt := Some(at))];
    }

    method CountDelivered(rule: RuleId, since: Time) returns (count: nat)
      ensures forall w :: count == |DeliveredSince(At(w), rule, since)|
    {
      var found := set id | id in fires && fires[id].rule == rule && fires[id].state == Delivered
                            && fires[id].deliveredAt.Some? && fires[id].deliveredAt.value > since;
      count := |found|;
      assert forall w :: DeliveredSince(At(w), rule, since) == found;
    }

    /** One message put to the door, the fire's own at that place, which the door takes or not as `door` says. */
    method Send(message: string, ghost id: FireId, ghost part: nat, door: Door) returns (answer: Answer)
      requires id in fires && id in taken && id in mishaps
      requires part < |PartsOf(fires[id])| && message == PartsOf(fires[id])[part]
      modifies `taken, `mishaps
      ensures answer == door.answer
      ensures taken == if door.took then old(taken)[id := old(taken)[id] + [part]] else old(taken)
      ensures mishaps == if door.Lost() then old(mishaps)[id := old(mishaps)[id] + 1] else old(mishaps)
    {
      hide PartsOf;
      taken := if door.took then taken[id := taken[id] + [part]] else taken;
      mishaps := if door.Lost() then mishaps[id := mishaps[id] + 1] else mishaps;
      answer := door.answer;
    }

    /** A fire that will not be sent has its last word, and its rule its chance back. */
    method GiveUpFire(row: Row, ghost rest: seq<Row>, now: Time, ghost phase: Phase, state: FireState)
      requires row.fire in fires
      modifies `rules, `fires
      ensures At(Then(rest, now)) == GiveUp(old(At(Working([row] + rest, now, phase))), state)
    {
      SettleFire(row.fire, state, now);
      ReopenOnceRule(row.rule);
    }

    /** Whether this rule has told as much as it may this hour. */
    method OverCap(row: Row, ghost rest: seq<Row>, now: Time) returns (over: bool, ghost told: nat)
      requires row.fire in fires
      modifies `fires
      ensures told == |DeliveredSince(old(At(Idle)), row.rule, now - HOUR)| && (over <==> told >= CapOf(row.maxPerHour, cfg))
      ensures row.maxPerHour.Some? && row.maxPerHour.value > 0 ==> (over <==> told >= row.maxPerHour.value)
      ensures row.maxPerHour.None? || row.maxPerHour.value == 0 ==> (over <==> told >= cfg.maxPerHour)
      ensures !over ==> fires == old(fires)
      ensures over ==>
        At(Then(rest, now)) == Popped(Settle(old(At(Working([row] + rest, now, Counted(told)))), row.fire, Throttled, now))
    {
      var count := CountDelivered(row.rule, now - HOUR);
      assert count == |DeliveredSince(At(Idle), row.rule, now - HOUR)|;
      told := count;
      over := count >= CapOf(row.maxPerHour, cfg);
      if over {
        SettleFire(row.fire, Throttled, now);
      }
    }

    /** The messages still to send, one after another, each recorded as sent before the next is put to the door. */
    method SendAll(row: Row, ghost rest: seq<Row>, now: Time, doors: nat -> Door, ghost start: State, ghost before: seq<Step>)
      returns (ghost steps: seq<Step>)
      requires AtHead(At(Working([row] + rest, now, Sending(row.partsSent))), row.fire)
      requires Reaches(start, before, At(Working([row] + rest, now, Sending(row.partsSent))), cfg)
      requires Invariant(At(Working([row] + rest, now, Sending(row.partsSent))), cfg)
      requires forall i: nat :: doors(i).Possible()
      modifies `rules, `fires, `taken, `mishaps
      ensures Reaches(start, steps, At(Then(rest, now)), cfg) && Invariant(At(Then(rest, now)), cfg)
    {
      hide Invariant, Reaches, Template.Parts, AfterWork;
      steps := before;
      var parts := Template.SplitParts(fires[row.fire].text, Template.PART);
      var answer := Ok;
      var i := row.partsSent;
      while i < |parts|
        invariant AtHead(At(Working([row] + rest, now, Sending(i))), row.fire)
        invariant fires[row.fire].text == old(fires[row.fire].text) && answer == Ok
        invariant Reaches(start, steps, At(Working([row] + rest, now, Sending(i))), cfg)
        invariant Invariant(At(Working([row] + rest, now, Sending(i))), cfg)
        invariant i >= row.partsSent
      {
        ghost var sending := At(Working([row] + rest, now, Sending(i)));
        SendingWork(sending, i, doors(i), cfg);
        answer := Send(parts[i], row.fire, i, doors(i));
        if answer != Ok {
          steps := Stepped(start, steps, sending, doors(i), At(Working([row] + rest, now, Finishing(answer))), cfg);
          break;
        }
        ghost var recording := At(Working([row] + rest, now, Recording(i)));
        RecordingWork(recording, AfterWork(recording, NOTHING, cfg), row.fire, i, NOTHING, cfg);
        steps := Stepped(start, steps, sending, doors(i), recording, cfg);
        RecordPart(row.fire);
        steps := Stepped(start, steps, recording, NOTHING, At(Working([row] + rest, now, Sending(i + 1))), cfg);
        i := i + 1;
      }
      if answer == Ok {
        SendingWork(At(Working([row] + rest, now, Sending(i))), i, NOTHING, cfg);
        steps := Stepped(start, steps, At(Working([row] + rest, now, Sending(i))), NOTHING,
                         At(Working([row] + rest, now, Finishing(answer))), cfg);
      }
      ghost var finishing := At(Working([row] + rest, now, Finishing(answer)));
      Finish(row, rest, now, answer);
      steps := Stepped(start, steps, finishing, NOTHING, At(Then(rest, now)), cfg);
    }

    /** What the door's last answer means for the fire, in one transaction. */
    method Finish(row: Row, ghost rest: seq<Row>, now: Time, answer: Answer)
      requires AtHead(At(Working([row] + rest, now, Finishing(answer))), row.fire)
      modifies `rules, `fires
      ensures At(Then(rest, now)) == AfterWork(old(At(Working([row] + rest, now, Finishing(answer)))), NOTHING, cfg)
    {
      match answer
      case Ok =>
        SettleFire(row.fire, Delivered, now);
        if row.once {
          FinishOnceRule(row.rule);
        }
      case Again(wait) =>
        RetryFire(row.fire, now + (if wait.Some? && wait.value > 0 then wait.value as real else Backoff(row.attempts)));
      case No =>
        SettleFire(row.fire, Refused, now);
        ReopenOnceRule(row.rule);
    }

    /** The fire taken up, to its last word or to its next try. What the door does with each message is given. */
    method Deliver(row: Row, ghost rest: seq<Row>, now: Time, doors: nat -> Door) returns (ghost steps: seq<Step>)
      requires Invariant(At(Working([row] + rest, now, Start)), cfg)
      requires forall i: nat :: doors(i).Possible()
      modifies `rules, `fires, `taken, `mishaps
      ensures Reaches(old(At(Working([row] + rest, now, Start))), steps, At(Then(rest, now)), cfg)
      ensures Invariant(At(Then(rest, now)), cfg)
    {
      hide Invariant, Total;
      assert AtHead(At(Working([row] + rest, now, Start)), row.fire) by {
        InvariantIsReady(At(Working([row] + rest, now, Start)), cfg);
      }
      ghost var start := At(Working([row] + rest, now, Start));
      steps := [];
      if now - fires[row.fire].createdAt > cfg.retryWindow || !row.enabled {
        GiveUpFire(row, rest, now, Start, Abandoned);
        steps := Stepped(start, steps, start, NOTHING, At(Then(rest, now)), cfg);
        return;
      }
      if !cfg.hasDoor {
        GiveUpFire(row, rest, now, Start, Undeliverable);
        steps := Stepped(start, steps, start, NOTHING, At(Then(rest, now)), cfg);
        return;
      }
      if row.partsSent == 0 {
        ghost var told0 := |DeliveredSince(start, row.rule, now - HOUR)|;
        ghost var counted := At(Working([row] + rest, now, Counted(told0)));
        steps := Stepped(start, steps, start, NOTHING, counted, cfg);
        ghost var told;
        var over;
        over, told := OverCap(row, rest, now);
        assert told == told0;
        if over {
          steps := Stepped(start, steps, counted, NOTHING, At(Then(rest, now)), cfg);
          return;
        }
        steps := Stepped(start, steps, counted, NOTHING, At(Working([row] + rest, now, Sending(0))), cfg);
      } else {
        steps := Stepped(start, steps, start, NOTHING, At(Working([row] + rest, now, Sending(row.partsSent))), cfg);
      }
      steps := SendAll(row, rest, now, doors, start, steps);
    }

    /** The fires that are due, leased in one statement, as that statement read them. */
    method ClaimDeliveries(due: seq<FireId>, now: Time) returns (rows: seq<Row>)
      requires now == clock && Takes(At(Idle), due)
      modifies `fires, `resumed
      ensures rows == RowsOf(old(At(Idle)), due)
      ensures At(Then(rows, now)) == AfterClaim(old(At(Idle)), due)
    {
      hide Tables;
      rows := [];
      for i := 0 to |due|
        invariant |rows| == i && forall k :: 0 <= k < i ==> rows[k] == RowOf(At(Idle), due[k])
      {
        var f := fires[due[i]];
        var r := rules[f.rule];
        rows := rows + [Row(due[i], f.rule, f.attempts + 1, f.partsSent, r.enabled, r.once, r.maxPerHour)];
      }
      resumed := resumed + set id | id in due && fires[id].partsSent > 0;
      fires := map id | id in fires ::
        if id in due then fires[id].(attempts := fires[id].attempts + 1, nextAttempt := Some(clock + LEASE)) else fires[id];
    }

    /** One tick: what is due is claimed and sent. `due` is what the claim's own order and limit chose. */
    method Run(now: Time, due: seq<FireId>, doors: (nat, nat) -> Door) returns (count: nat, ghost steps: seq<Step>)
      requires now == clock && Takes(At(Idle), due) && |due| <= BATCH
      requires Invariant(At(Idle), cfg) && forall k: nat, i: nat :: doors(k, i).Possible()
      modifies `rules, `fires, `taken, `mishaps, `resumed
      ensures count == |due|
      ensures Reaches(old(At(Idle)), steps, At(Idle), cfg) && Invariant(At(Idle), cfg)
    {
      hide Invariant, Reaches, RowsOf, AfterClaim, Tables, Due;
      ghost var start := At(Idle);
      var rows := ClaimDeliveries(due, now);
      steps := [Claim(due)];
      Claimed(start, due, At(Then(rows, now)), cfg);
      steps := DeliverAll(rows, now, doors, start, steps);
      count := |rows|;
    }

    method DeliverAll(rows: seq<Row>, now: Time, doors: (nat, nat) -> Door, ghost start: State, ghost before: seq<Step>)
      returns (ghost steps: seq<Step>)
      requires Reaches(start, before, At(Then(rows, now)), cfg) && Invariant(At(Then(rows, now)), cfg)
      requires forall k: nat, i: nat :: doors(k, i).Possible()
      modifies `rules, `fires, `taken, `mishaps
      ensures Reaches(start, steps, At(Idle), cfg) && Invariant(At(Idle), cfg)
    {
      hide Invariant, Reaches, At;
      steps := before;
      var k: nat := 0;
      while k < |rows|
        invariant k <= |rows|
        invariant Reaches(start, steps, At(Then(rows[k..], now)), cfg)
        invariant Invariant(At(Then(rows[k..], now)), cfg)
      {
        assert rows[k..] == [rows[k]] + rows[k + 1..];
        steps := DeliverNext(rows[k], rows[k + 1..], now, (i: nat) => doors(k, i), start, steps);
        k := k + 1;
      }
    }

    method DeliverNext(row: Row, ghost rest: seq<Row>, now: Time, doors: nat -> Door, ghost start: State, ghost before: seq<Step>)
      returns (ghost steps: seq<Step>)
      requires Reaches(start, before, At(Then([row] + rest, now)), cfg) && Invariant(At(Then([row] + rest, now)), cfg)
      requires forall i: nat :: doors(i).Possible()
      modifies `rules, `fires, `taken, `mishaps
      ensures Reaches(start, steps, At(Then(rest, now)), cfg) && Invariant(At(Then(rest, now)), cfg)
    {
      hide Invariant, Reaches, At;
      ghost var here := At(Working([row] + rest, now, Start));
      ghost var more := Deliver(row, rest, now, doors);
      OneAfterAnother(start, before, here, more, At(Then(rest, now)), cfg);
      steps := before + more;
    }
  }
}
