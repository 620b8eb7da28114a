/**
 A value rule's looks: what each one finds, what the rule remembers of it, and which of them is news. The row is the
 rule's own, as the clock updates it in one transaction per look.
 */
module Looks {
  import opened Wrappers

  type Time = real

  datatype Outcome = Met | Unmet | Unavailable | Refused

  /** `reason` says why, when no answer was had. */
  datatype Look = Look(outcome: Outcome, reason: string) {
    function Result(): Option<bool> {
      match outcome
      case Met => Some(true)
      case Unmet => Some(false)
      case _ => None
    }
  }

  datatype Rule = Rule(cooldown: Time, once: bool)

  datatype Verdict = Verdict(fire: bool, baseline: bool, cooled: bool)

  function Decide(seen: Look, known: Option<bool>, lastFired: Option<Time>, rule: Rule, now: Time): Verdict {
    var result := seen.Result();
    if result.None? then Verdict(false, false, false)
    else if known.None? then Verdict(false, true, false)
    else if !result.value || known.value then Verdict(false, false, false)
    else if rule.once && lastFired.Some? then Verdict(false, false, false)
    else
      var cooling := lastFired.Some? && now - lastFired.value < rule.cooldown;
      Verdict(!cooling, false, cooling)
  }

  // ---- the row ---------------------------------------------------------------------------------------------------

  datatype Line = Silence(outcome: Outcome, reason: string) | Cooled

  datatype Row = Row(
    lastResult: Option<bool>, lastKnown: Option<bool>, lastChecked: Option<Time>, lastFired: Option<Time>,
    lines: seq<Line>, fires: seq<Time>)

  const UNSEEN := Row(None, None, None, None, [], [])

  /** An outage already in the history, word for word. */
  predicate StillTheSame(row: Row, seen: Look) {
    && row.lastResult.None? && row.lastChecked.Some? && row.lines != []
    && row.lines[|row.lines| - 1] == Silence(seen.outcome, seen.reason)
  }

  /** One fire per edge: the table refuses a second at the same moment. */
  predicate FiresAt(row: Row, seen: Look, rule: Rule, now: Time) {
    Decide(seen, row.lastKnown, row.lastFired, rule, now).fire && now !in row.fires
  }

  function AfterLook(row: Row, seen: Look, rule: Rule, now: Time): Row {
    var result := seen.Result();
    var verdict := Decide(seen, row.lastKnown, row.lastFired, rule, now);
    var fired := FiresAt(row, seen, rule, now);
    Row(
      result,
      if result.Some? then result else row.lastKnown,
      Some(now),
      if fired then Some(now) else row.lastFired,
      if result.None? then
        (if StillTheSame(row, seen) then row.lines else row.lines + [Silence(seen.outcome, seen.reason)])
      else if verdict.cooled then row.lines + [Cooled]
      else row.lines,
      if fired then row.fires + [now] else row.fires)
  }

  class RuleRow {
    const rule: Rule
    var lastResult: Option<bool>
    var lastKnown: Option<bool>
    var lastChecked: Option<Time>
    var lastFired: Option<Time>
    var lines: seq<Line>
    var fires: seq<Time>

    constructor (r: Rule)
      ensures rule == r && Contents() == UNSEEN
    {
      rule := r;
      lastResult, lastKnown, lastChecked, lastFired := None, None, None, None;
      lines, fires := [], [];
    }

    function Contents(): Row
      reads this
    {
      Row(lastResult, lastKnown, lastChecked, lastFired, lines, fires)
    }

    method RecordLook(result: Option<bool>, now: Time)
      modifies this`lastResult, this`lastKnown, this`lastChecked
      ensures lastResult == result && lastChecked == Some(now)
      ensures lastKnown == if result.Some? then result else old(lastKnown)
    {
      lastResult, lastChecked := result, Some(now);
      if result.Some? {
        lastKnown := result;
      }
    }

    method RecordFire(now: Time) returns (taken: bool)
      modifies this`fires, this`lastFired
      ensures taken <==> now !in old(fires)
      ensures fires == if taken then old(fires) + [now] else old(fires)
      ensures lastFired == if taken then Some(now) else old(lastFired)
    {
      if now in fires {
        return false;
      }
      fires := fires + [now];
      lastFired := Some(now);
      return true;
    }

    /** One look turned into stored state. */
    method Check(seen: Look, now: Time)
      modifies this
      ensures Contents() == AfterLook(old(Contents()), seen, rule, now)
    {
      var before := Contents();
      var verdict := Decide(seen, lastKnown, lastFired, rule, now);
      RecordLook(seen.Result(), now);
      if seen.Result().None? {
        if !StillTheSame(before, seen) {
          lines := lines + [Silence(seen.outcome, seen.reason)];
        }
      } else if verdict.cooled {
        lines := lines + [Cooled];
      } else if verdict.fire {
        var _ := RecordFire(now);
      }
    }
  }

  // ---- over any run of looks -------------------------------------------------------------------------------------

  /** A look, or a one-time rule's only alert taken back because it never arrived. */
  datatype Step = At(seen: Look, now: Time) | Reopened {
    predicate Answered() { Reopened? || seen.Result().Some? }

    predicate Yes() { At? && seen.outcome == Met }
  }

  function After(row: Row, step: Step, rule: Rule): Row {
    match step
    case At(seen, now) => AfterLook(row, seen, rule, now)
    case Reopened => if rule.once then row.(lastFired := None) else row
  }

  function Run(steps: seq<Step>, rule: Rule): Row {
    if steps == [] then UNSEEN else After(Run(steps[..|steps| - 1], rule), steps[|steps| - 1], rule)
  }

  function OnlyAnswered(steps: seq<Step>): (kept: seq<Step>)
    ensures forall s :: s in kept ==> s.Answered()
  {
    if steps == [] then []
    else
      var before := OnlyAnswered(steps[..|steps| - 1]);
      if steps[|steps| - 1].Answered() then before + [steps[|steps| - 1]] else before
  }

  /** Outages change nothing: the same looks fire, and the rule remembers the same, as if only the answered looks had been
      made. */
  lemma {:induction false} OutagesChangeNothing(steps: seq<Step>, rule: Rule)
    ensures
      var all, answered := Run(steps, rule), Run(OnlyAnswered(steps), rule);
      && all.fires == answered.fires && all.lastFired == answered.lastFired && all.lastKnown == answered.lastKnown
  {
    if steps != [] {
      var before := steps[..|steps| - 1];
      OutagesChangeNothing(before, rule);
      var kept := OnlyAnswered(before);
      if steps[|steps| - 1].Answered() {
        assert (kept + [steps[|steps| - 1]])[..|kept|] == kept;
      }
    }
  }

  /** So two runs with the same answered looks fire at the same moments, wherever the outages fall. */
  lemma FiresDependOnAnswersAlone(steps: seq<Step>, others: seq<Step>, rule: Rule)
    requires OnlyAnswered(steps) == OnlyAnswered(others)
    ensures Run(steps, rule).fires == Run(others, rule).fires
  {
    OutagesChangeNothing(steps, rule);
    OutagesChangeNothing(others, rule);
  }

  predicate Answers(step: Step, yes: bool) { step.At? && step.seen.Result() == Some(yes) }

  /** The last answer there was said no. */
  ghost predicate LastSaidNo(steps: seq<Step>) {
    exists k :: 0 <= k < |steps| && Answers(steps[k], false) && forall j :: k < j < |steps| ==> !Answers(steps[j], true)
  }

  lemma {:induction false} KnownIsLastAnswer(steps: seq<Step>, rule: Rule)
    ensures Run(steps, rule).lastKnown == Some(false) <==> LastSaidNo(steps)
  {
    if steps != [] {
      var before, last := steps[..|steps| - 1], steps[|steps| - 1];
      KnownIsLastAnswer(before, rule);
      if Answers(last, false) {
        assert Answers(steps[|steps| - 1], false);
      } else if !Answers(last, true) && LastSaidNo(before) {
        var k :| 0 <= k < |before| && Answers(before[k], false) && forall j :: k < j < |before| ==> !Answers(before[j], true);
        assert Answers(steps[k], false);
        assert forall j :: k < j < |before| ==> steps[j] == before[j];
      }
    }
  }

  /** Whether the last step of the run raised an alert. */
  predicate FiredLast(steps: seq<Step>, rule: Rule) {
    steps != [] && |Run(steps, rule).fires| > |Run(steps[..|steps| - 1], rule).fires|
  }

  /** Every alert of the run was taken back afterwards. */
  ghost predicate AllTakenBack(steps: seq<Step>, rule: Rule) {
    forall i :: 0 < i <= |steps| && FiredLast(steps[..i], rule) ==> exists k :: i <= k < |steps| && steps[k].Reopened?
  }

  lemma TakenBackMore(steps: seq<Step>, rule: Rule)
    requires steps != []
    ensures AllTakenBack(steps, rule) <==>
      steps[|steps| - 1].Reopened? || (AllTakenBack(steps[..|steps| - 1], rule) && !FiredLast(steps, rule))
  {
    hide FiredLast;
    var before, n := steps[..|steps| - 1], |steps| - 1;
    assert forall i :: 0 <= i <= n ==> before[..i] == steps[..i];
    assert steps[..n + 1] == steps;
    assert forall k :: 0 <= k < n ==> before[k] == steps[k];
    if steps[n].Reopened? {
      forall i | 0 < i <= |steps| && FiredLast(steps[..i], rule) ensures exists k :: i <= k < |steps| && steps[k].Reopened? {
        if i == n + 1 { NoAlertTakenBack(steps, rule); }
      }
    } else if AllTakenBack(steps, rule) {
      forall i | 0 < i <= n && FiredLast(before[..i], rule) ensures exists k :: i <= k < n && before[k].Reopened? {
        var k :| i <= k < |steps| && steps[k].Reopened?;
        assert before[k].Reopened?;
      }
    }
  }

  lemma NoAlertTakenBack(steps: seq<Step>, rule: Rule)
    requires steps != [] && steps[|steps| - 1].Reopened?
    ensures !FiredLast(steps, rule)
  {
  }

  lemma {:induction false} RemembersUntilReopened(steps: seq<Step>, rule: Rule)
    requires rule.once
    ensures Run(steps, rule).lastFired == None <==> AllTakenBack(steps, rule)
  {
    if steps != [] {
      RemembersUntilReopened(steps[..|steps| - 1], rule);
      TakenBackMore(steps, rule);
      hide AllTakenBack;
    }
  }

  lemma {:induction false} RepeatingRemembersLast(steps: seq<Step>, rule: Rule)
    requires !rule.once
    ensures Run(steps, rule).lastFired ==
            if Run(steps, rule).fires == [] then None else Some(Run(steps, rule).fires[|Run(steps, rule).fires| - 1])
  {
    if steps != [] {
      RepeatingRemembersLast(steps[..|steps| - 1], rule);
    }
  }

  /** A yes after a no: the value has crossed the level. */
  ghost predicate Crosses(before: seq<Step>, look: Step) { look.Yes() && LastSaidNo(before) }

  /** Of a repeating rule: its last alert is younger than its cool-down. */
  ghost predicate Cooling(fires: seq<Time>, rule: Rule, now: Time) {
    !rule.once && fires != [] && now - fires[|fires| - 1] < rule.cooldown
  }

  /** Which look is news, after any run of looks, outages and alerts taken back: a crossing, at a moment that has no alert yet,
      of a repeating rule with the cool-down of its last alert run out, or of a one-time rule with every alert it had taken
      back — and every such one. A crossing inside the cool-down is noted and nothing more, and any other answer leaves no
      line. */
  lemma FiresExactly(before: seq<Step>, look: Step, rule: Rule)
    requires look.At?
    ensures
      var row, next := Run(before, rule), Run(before + [look], rule);
      && next.fires == (if Crosses(before, look) && look.now !in row.fires && !Cooling(row.fires, rule, look.now)
                           && (rule.once ==> AllTakenBack(before, rule))
                        then row.fires + [look.now] else row.fires)
      && (look.Answered() ==>
            next.lines == if Crosses(before, look) && Cooling(row.fires, rule, look.now) then row.lines + [Cooled] else row.lines)
  {
    KnownIsLastAnswer(before, rule);
    if rule.once {
      RemembersUntilReopened(before, rule);
    } else {
      RepeatingRemembersLast(before, rule);
    }
    assert (before + [look])[..|before|] == before;
    hide LastSaidNo, AllTakenBack;
  }

  /** Between any two alerts of a one-time rule the first was taken back: `i` and `j` are the lengths of the run as each was
      raised. */
  lemma TakenBackBetween(steps: seq<Step>, rule: Rule, i: nat, j: nat)
    requires rule.once && 0 < i < j <= |steps| && FiredLast(steps[..i], rule) && FiredLast(steps[..j], rule)
    ensures exists k :: i <= k < j - 1 && steps[k].Reopened?
  {
    var before := steps[..j - 1];
    assert steps[..j] == before + [steps[j - 1]];
    assert (before + [steps[j - 1]])[..|before|] == before;
    FiresExactly(before, steps[j - 1], rule);
    assert AllTakenBack(before, rule) && before[..i] == steps[..i];
    var k :| i <= k < |before| && before[k].Reopened?;
    assert steps[k].Reopened?;
  }

  ghost predicate Spaced(fires: seq<Time>, cooldown: Time) {
    forall i, j :: 0 <= i < j < |fires| ==> fires[j] - fires[i] >= cooldown
  }

  /** Any two alerts of a repeating rule are at least the cool-down apart. */
  lemma {:induction false} FiresAreSpaced(steps: seq<Step>, rule: Rule)
    requires !rule.once && rule.cooldown >= 0.0
    ensures Spaced(Run(steps, rule).fires, rule.cooldown)
  {
    if steps != [] {
      FiresAreSpaced(steps[..|steps| - 1], rule);
      RepeatingRemembersLast(steps[..|steps| - 1], rule);
      var row := Run(steps[..|steps| - 1], rule);
      var next := Run(steps, rule);
      if next.fires != row.fires {
        forall i | 0 <= i < |row.fires| ensures next.fires[|row.fires|] - next.fires[i] >= rule.cooldown {
          assert row.fires[|row.fires| - 1] - row.fires[i] >= 0.0;
        }
      }
    }
  }

  /** Between any two alerts stands an answered no: `i` and `j` are the lengths of the run as each was raised. */
  lemma NoBetweenFires(steps: seq<Step>, rule: Rule, i: nat, j: nat)
    requires i < j <= |steps| && FiredLast(steps[..i], rule) && FiredLast(steps[..j], rule)
    ensures exists k :: i <= k < j - 1 && Answers(steps[k], false)
  {
    assert steps[..i][|steps[..i]| - 1] == steps[i - 1];
    assert steps[..j][|steps[..j]| - 1] == steps[j - 1];
    assert steps[..j][..j - 1] == steps[..j - 1] && steps[..i][..i - 1] == steps[..i - 1];
    var row := Run(steps[..j - 1], rule);
    assert row.lastKnown == Some(false);
    assert Run(steps[..i], rule).lastKnown == Some(true);
    if i == j - 1 {
      assert false;
    }
    YesHoldsUntilNo(steps, rule, i, j - 1);
  }

  lemma {:induction false} YesHoldsUntilNo(steps: seq<Step>, rule: Rule, i: nat, j: nat)
    requires i < j <= |steps|
    requires Run(steps[..i], rule).lastKnown == Some(true) && Run(steps[..j], rule).lastKnown == Some(false)
    ensures exists k :: i <= k < j && Answers(steps[k], false)
  {
    assert steps[..j][..j - 1] == steps[..j - 1] && steps[..j][|steps[..j]| - 1] == steps[j - 1];
    if !Answers(steps[j - 1], false) {
      assert Run(steps[..j - 1], rule).lastKnown == Some(false);
      YesHoldsUntilNo(steps, rule, i, j - 1);
    }
  }

  // ---- one line an outage ----------------------------------------------------------------------------------------

  lemma {:induction false} LastLineOfAnOutage(steps: seq<Step>, rule: Rule)
    requires forall s :: s in steps ==> s.At?
    ensures
      var row := Run(steps, rule);
      && (row.lastChecked.Some? <==> steps != [])
      && (steps != [] ==> row.lastResult == steps[|steps| - 1].seen.Result())
      && (steps != [] && !steps[|steps| - 1].Answered() ==>
            var seen := steps[|steps| - 1].seen;
            row.lines != [] && row.lines[|row.lines| - 1] == Silence(seen.outcome, seen.reason))
  {
  }

  /** A look that had no answer adds a line exactly when the rule had just gone quiet, or is quiet for another reason. */
  lemma OneLineAnOutage(before: seq<Step>, look: Step, rule: Rule)
    requires (forall s :: s in before ==> s.At?) && look.At? && !look.Answered()
    ensures
      var repeated := before != [] && before[|before| - 1].seen == look.seen;
      Run(before + [look], rule).lines ==
        if repeated then Run(before, rule).lines
        else Run(before, rule).lines + [Silence(look.seen.outcome, look.seen.reason)]
  {
    LastLineOfAnOutage(before, rule);
    assert (before + [look])[..|before|] == before;
  }
}
