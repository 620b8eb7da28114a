/**
 An event comes in, and every rule it satisfies goes off, in one transaction. The rules are read in one statement and set
 off one by one as they were read, whatever has become of them since. What the transaction does to the rules and their
 fires is a run of the delivery machine, so an event's fires are delivered under everything proved of that machine.
 */
module Publishing {
  import opened Wrappers
  import opened Delivery
  import OnceRules

  type Key = (string, string)

  /** What makes a rule one of the event kind: the type it waits for. */
  type Listener = string

  /** What a rule would make of the event: whether its filter takes it, the message it would send, and the number the table
      would give the fire. */
  datatype View = View(matches: bool, text: string, id: FireId, reader: Reader)

  /** A rule as the transaction read it, and what it would make of the event. */
  datatype Candidate = Candidate(rule: RuleId, row: Rule, view: View)

  /** Whether the rule, as it was read, goes off for the event: it takes it, its one alert is not out already, and it is not
      cooling down. */
  predicate Wants(c: Candidate, now: Time) {
    c.view.matches && !(c.row.once && c.row.lastFired.Some?) && !CoolingDown(c.row, now)
  }

  /** Different rules, which would make different fires, none of them there yet. */
  ghost predicate Apart(s: State, candidates: seq<Candidate>, event: nat) {
    && (forall i :: 0 <= i < |candidates| ==> candidates[i].rule in s.rules && candidates[i].view.id !in s.fires)
    && (forall i, j :: 0 <= i < j < |candidates| ==>
          && candidates[i].rule != candidates[j].rule && candidates[i].view.id != candidates[j].view.id
          && candidates[i].view.reader != candidates[j].view.reader)
    && (forall id :: id in s.fires ==> s.fires[id].cause != Event(event))
  }

  ghost predicate HasRead(s: State, c: Candidate, now: Time) {
    Wants(c, now) ==> c.view.reader in s.reading && s.reading[c.view.reader] == Read(c.rule, now)
  }

  /** The rules have been read, at whatever moment, and none has had its turn. */
  ghost predicate Considered(s: State, candidates: seq<Candidate>, event: nat, now: Time) {
    Apart(s, candidates, event) && forall i :: 0 <= i < |candidates| ==> HasRead(s, candidates[i], now)
  }

  /** One candidate's turn. */
  ghost function Turn(t: State, c: Candidate, event: nat, now: Time): State {
    if Wants(c, now) && c.view.reader in t.reading && t.reading[c.view.reader].rule in t.rules && c.view.id !in t.fires
    then AfterGoesOff(t, c.view.reader, Event(event), c.view.text, c.view.id)
    else t
  }

  /** The first `n` candidates, one after another. */
  ghost function AfterEach(s: State, candidates: seq<Candidate>, n: nat, event: nat, now: Time): State
    requires n <= |candidates|
  {
    if n == 0 then s
    else
      Turn(AfterEach(s, candidates, n - 1, event, now), candidates[n - 1], event, now)
  }

  function FireOf(c: Candidate, event: nat, now: Time): Fire {
    Fire(c.rule, Event(event), c.view.text, now, Pending, 0, Some(now), 0, None)
  }

  /** A candidate's fire, if there is one, is for the event and waiting. */
  predicate FireIs(fires: map<FireId, Fire>, c: Candidate, event: nat, now: Time) {
    c.view.id in fires ==> fires[c.view.id] == FireOf(c, event, now)
  }

  ghost predicate NewFire(candidates: seq<Candidate>, n: nat, id: FireId, now: Time)
    requires n <= |candidates|
  {
    exists i :: 0 <= i < n && candidates[i].view.id == id && Wants(candidates[i], now)
  }

  ghost predicate Fired(candidates: seq<Candidate>, n: nat, rule: RuleId, now: Time)
    requires n <= |candidates|
  {
    exists i :: 0 <= i < n && candidates[i].rule == rule && Wants(candidates[i], now)
  }

  ghost predicate Done(candidates: seq<Candidate>, n: nat, reader: Reader, now: Time)
    requires n <= |candidates|
  {
    exists i :: 0 <= i < n && candidates[i].view.reader == reader && Wants(candidates[i], now)
  }

  /** The fires the first `n` candidates leave: one for each of them that wants one, and none of the others touched. */
  ghost predicate FiresAre(s: State, t: State, candidates: seq<Candidate>, n: nat, event: nat, now: Time)
    requires n <= |candidates|
  {
    && (forall id :: id in t.fires <==> id in s.fires || NewFire(candidates, n, id, now))
    && (forall id :: id in s.fires ==> id in t.fires && t.fires[id] == s.fires[id])
    && (forall i :: 0 <= i < n ==> FireIs(t.fires, candidates[i], event, now))
  }

  /** The rules: those that went off remember when, and nothing else is new in any of them. */
  ghost predicate RulesAre(s: State, t: State, candidates: seq<Candidate>, n: nat, now: Time)
    requires n <= |candidates|
  {
    && t.rules.Keys == s.rules.Keys
    && (forall rule :: rule in s.rules ==>
          t.rules[rule] == if Fired(candidates, n, rule, now) then s.rules[rule].(lastFired := Some(now)) else s.rules[rule])
  }

  /** Who still has a rule to set off: everybody but the candidates that have. */
  ghost predicate ReadersAre(s: State, t: State, candidates: seq<Candidate>, n: nat, now: Time)
    requires n <= |candidates|
  {
    && (forall reader :: reader in t.reading <==> reader in s.reading && !Done(candidates, n, reader, now))
    && (forall reader :: reader in t.reading ==> reader in s.reading && t.reading[reader] == s.reading[reader])
  }

  ghost predicate WentOff(s: State, t: State, candidates: seq<Candidate>, n: nat, event: nat, now: Time)
    requires n <= |candidates|
  {
    && FiresAre(s, t, candidates, n, event, now) && RulesAre(s, t, candidates, n, now) && ReadersAre(s, t, candidates, n, now)
    && t.clock == s.clock && t.worker == s.worker && t.resumed == s.resumed
  }

  lemma OneMoreCandidate(s: State, candidates: seq<Candidate>, n: nat, event: nat, now: Time)
    requires n < |candidates| && Apart(s, candidates, event)
    ensures forall id :: NewFire(candidates, n + 1, id, now) <==>
      NewFire(candidates, n, id, now) || (id == candidates[n].view.id && Wants(candidates[n], now))
    ensures forall rule :: Fired(candidates, n + 1, rule, now) <==>
      Fired(candidates, n, rule, now) || (rule == candidates[n].rule && Wants(candidates[n], now))
    ensures forall reader :: Done(candidates, n + 1, reader, now) <==>
      Done(candidates, n, reader, now) || (reader == candidates[n].view.reader && Wants(candidates[n], now))
    ensures !NewFire(candidates, n, candidates[n].view.id, now) && !Fired(candidates, n, candidates[n].rule, now)
    ensures !Done(candidates, n, candidates[n].view.reader, now)
  {
    hide Wants;
    forall id ensures NewFire(candidates, n + 1, id, now) <==>
        NewFire(candidates, n, id, now) || (id == candidates[n].view.id && Wants(candidates[n], now)) {
    }
    forall rule ensures Fired(candidates, n + 1, rule, now) <==>
        Fired(candidates, n, rule, now) || (rule == candidates[n].rule && Wants(candidates[n], now)) {
    }
    forall reader ensures Done(candidates, n + 1, reader, now) <==>
        Done(candidates, n, reader, now) || (reader == candidates[n].view.reader && Wants(candidates[n], now)) {
    }
  }

  lemma {:induction false} EachWentOff(s: State, candidates: seq<Candidate>, n: nat, event: nat, now: Time)
    requires n <= |candidates| && Considered(s, candidates, event, now)
    ensures WentOff(s, AfterEach(s, candidates, n, event, now), candidates, n, event, now)
  {
    hide WentOff, Turn, Considered;
    if n == 0 {
      NothingYet(s, candidates, event, now);
    } else {
      EachWentOff(s, candidates, n - 1, event, now);
      OneMoreWentOff(s, AfterEach(s, candidates, n - 1, event, now), candidates, n - 1, event, now);
    }
  }

  /** An event sets off exactly the candidates that, as they were read, take it, have no one alert out already, and have never
      fired or fired at least a cool-down ago; each has one fire of its own. */
  lemma ExactlyTheWilling(s: State, candidates: seq<Candidate>, n: nat, event: nat, now: Time)
    requires n <= |candidates| && Considered(s, candidates, event, now)
    ensures WentOff(s, AfterEach(s, candidates, n, event, now), candidates, n, event, now)
    ensures forall i :: 0 <= i < n ==>
      (candidates[i].view.id in AfterEach(s, candidates, n, event, now).fires <==>
        && candidates[i].view.matches && (candidates[i].row.once ==> candidates[i].row.lastFired == None)
        && (candidates[i].row.lastFired.Some? && candidates[i].row.cooldown > 0 ==>
              now - candidates[i].row.lastFired.value >= candidates[i].row.cooldown as real))
  {
    EachWentOff(s, candidates, n, event, now);
    hide AfterEach, RulesAre, ReadersAre, FiresAre, Apart, HasRead;
    var t := AfterEach(s, candidates, n, event, now);
    forall i | 0 <= i < n ensures candidates[i].view.id in t.fires <==> Wants(candidates[i], now) {
      CandidateWentOff(s, t, candidates, n, i, event, now);
    }
  }

  lemma CandidateWentOff(s: State, t: State, candidates: seq<Candidate>, n: nat, i: nat, event: nat, now: Time)
    requires i < n <= |candidates| && Apart(s, candidates, event) && FiresAre(s, t, candidates, n, event, now)
    ensures candidates[i].view.id in t.fires <==> Wants(candidates[i], now)
  {
    hide Wants, FireIs;
    assert NewFire(candidates, n, candidates[i].view.id, now) <==> Wants(candidates[i], now);
  }

  lemma NothingYet(s: State, candidates: seq<Candidate>, event: nat, now: Time)
    ensures WentOff(s, s, candidates, 0, event, now)
  {
  }

  /** The next candidate finds its rule there, its own reading of it, and no fire of its own yet. */
  lemma NextHasRead(s: State, t: State, candidates: seq<Candidate>, n: nat, event: nat, now: Time)
    requires n < |candidates| && Considered(s, candidates, event, now) && WentOff(s, t, candidates, n, event, now)
    ensures candidates[n].rule in t.rules && candidates[n].view.id !in t.fires && HasRead(t, candidates[n], now)
    ensures !Repeats(t, candidates[n].rule, Event(event))
  {
    OneMoreCandidate(s, candidates, n, event, now);
    hide Wants;
    assert HasRead(s, candidates[n], now);
  }

  lemma OneMoreWentOff(s: State, t: State, candidates: seq<Candidate>, n: nat, event: nat, now: Time)
    requires n < |candidates| && Considered(s, candidates, event, now) && WentOff(s, t, candidates, n, event, now)
    ensures WentOff(s, Turn(t, candidates[n], event, now), candidates, n + 1, event, now)
  {
    NextHasRead(s, t, candidates, n, event, now);
    TurnIs(t, candidates[n], event, now);
    OneMoreCandidate(s, candidates, n, event, now);
    var u := Turn(t, candidates[n], event, now);
    hide Wants, NewFire, Fired, Done, Turn, Considered, HasRead, FireOf;
    FiresAdded(s, t, u, candidates, n, event, now);
    RulesAdded(s, t, u, candidates, n, event, now);
    ReadersAdded(s, t, u, candidates, n, event, now);
    hide FiresAre, RulesAre, ReadersAre;
  }

  lemma TurnIs(t: State, c: Candidate, event: nat, now: Time)
    requires c.rule in t.rules && c.view.id !in t.fires && HasRead(t, c, now) && !Repeats(t, c.rule, Event(event))
    ensures var u, wants := Turn(t, c, event, now), Wants(c, now);
      && u.fires == (if wants then t.fires[c.view.id := FireOf(c, event, now)] else t.fires)
      && u.rules == (if wants then t.rules[c.rule := t.rules[c.rule].(lastFired := Some(now))] else t.rules)
      && u.reading == (if wants then t.reading - {c.view.reader} else t.reading)
      && u.clock == t.clock && u.worker == t.worker && u.resumed == t.resumed
  {
    hide Wants;
  }

  lemma FiresAdded(s: State, t: State, u: State, candidates: seq<Candidate>, n: nat, event: nat, now: Time)
    requires n < |candidates| && Apart(s, candidates, event) && FiresAre(s, t, candidates, n, event, now)
    requires u.fires == if Wants(candidates[n], now) then t.fires[candidates[n].view.id := FireOf(candidates[n], event, now)]
                        else t.fires
    ensures FiresAre(s, u, candidates, n + 1, event, now)
  {
    OneMoreCandidate(s, candidates, n, event, now);
    var wants := Wants(candidates[n], now);
    assert candidates[n].view.id !in s.fires && forall i :: 0 <= i < n ==> candidates[i].view.id != candidates[n].view.id;
    hide Apart, Wants, NewFire, Fired, Done, FireOf;
    IdsAdded(s, t, u, candidates, n, wants, now);
    EachFireIs(t.fires, u.fires, candidates, n, event, now, wants);
  }

  lemma IdsAdded(s: State, t: State, u: State, candidates: seq<Candidate>, n: nat, wants: bool, now: Time)
    requires n < |candidates| && u.fires.Keys == if wants then t.fires.Keys + {candidates[n].view.id} else t.fires.Keys
    requires forall id :: id in t.fires <==> id in s.fires || NewFire(candidates, n, id, now)
    requires forall id :: NewFire(candidates, n + 1, id, now) <==>
      NewFire(candidates, n, id, now) || (id == candidates[n].view.id && wants)
    ensures forall id :: id in u.fires <==> id in s.fires || NewFire(candidates, n + 1, id, now)
  {
    hide NewFire;
    forall id ensures id in u.fires <==> id in s.fires || NewFire(candidates, n + 1, id, now) {
      assert id in u.fires.Keys <==> id in t.fires.Keys || (wants && id == candidates[n].view.id);
    }
  }

  lemma EachFireIs(fires: map<FireId, Fire>, more: map<FireId, Fire>, candidates: seq<Candidate>, n: nat, event: nat,
                   now: Time, wants: bool)
    requires n < |candidates| && forall i :: 0 <= i < n ==> FireIs(fires, candidates[i], event, now)
    requires forall i :: 0 <= i < n ==> candidates[i].view.id != candidates[n].view.id
    requires candidates[n].view.id !in fires
    requires more == if wants then fires[candidates[n].view.id := FireOf(candidates[n], event, now)] else fires
    ensures forall i :: 0 <= i < n + 1 ==> FireIs(more, candidates[i], event, now)
  {
    hide FireOf;
    forall i | 0 <= i < n + 1 ensures FireIs(more, candidates[i], event, now) {
      if i < n {
        assert FireIs(fires, candidates[i], event, now);
      }
    }
  }

  lemma RulesAdded(s: State, t: State, u: State, candidates: seq<Candidate>, n: nat, event: nat, now: Time)
    requires n < |candidates| && Apart(s, candidates, event) && RulesAre(s, t, candidates, n, now)
    requires candidates[n].rule in t.rules
    requires u.rules == if Wants(candidates[n], now)
                        then t.rules[candidates[n].rule := t.rules[candidates[n].rule].(lastFired := Some(now))] else t.rules
    ensures RulesAre(s, u, candidates, n + 1, now)
  {
    OneMoreCandidate(s, candidates, n, event, now);
    hide Apart, Wants, NewFire, Fired, Done;
  }

  lemma ReadersAdded(s: State, t: State, u: State, candidates: seq<Candidate>, n: nat, event: nat, now: Time)
    requires n < |candidates| && Apart(s, candidates, event) && ReadersAre(s, t, candidates, n, now)
    requires u.reading == if Wants(candidates[n], now) then t.reading - {candidates[n].view.reader} else t.reading
    ensures ReadersAre(s, u, candidates, n + 1, now)
  {
    OneMoreCandidate(s, candidates, n, event, now);
    hide Apart, Wants, NewFire, Fired, Done;
  }

  // ---- reading the rules -----------------------------------------------------------------------------------------

  /** The event kind's rules of this type that are switched on, as one statement finds them. */
  predicate Listening(rules: map<RuleId, Rule>, listeners: map<RuleId, Listener>, eventType: string, rule: RuleId) {
    rule in rules && rules[rule].enabled && rule in listeners && listeners[rule] == eventType
  }

  ghost predicate Ascending(rows: seq<RuleId>) { forall i, j :: 0 <= i < j < |rows| ==> rows[i] < rows[j] }

  /** Each row found, with what its rule would make of the event. */
  function Candidates(rules: map<RuleId, Rule>, listeners: map<RuleId, Listener>, rows: seq<RuleId>, views: RuleId -> View)
    : (candidates: seq<Candidate>)
    requires forall i :: 0 <= i < |rows| ==> rows[i] in rules && rows[i] in listeners
    ensures |candidates| == |rows|
    ensures forall i :: 0 <= i < |rows| ==>
      candidates[i] == Candidate(rows[i], rules[rows[i]], views(rows[i]))
  {
    seq(|rows|, i requires 0 <= i < |rows| => Candidate(rows[i], rules[rows[i]], views(rows[i])))
  }

  /** The first `n` candidates that want the event have read their rules. */
  ghost function AfterLooks(s: State, candidates: seq<Candidate>, n: nat): State
    requires n <= |candidates|
  {
    if n == 0 then s
    else
      var before, c := AfterLooks(s, candidates, n - 1), candidates[n - 1];
      if Wants(c, s.clock) then AfterLook(before, c.view.reader, c.rule) else before
  }

  /** Nobody has read by any of these names. */
  ghost predicate Unread(s: State, candidates: seq<Candidate>) {
    forall i :: 0 <= i < |candidates| ==> candidates[i].view.reader !in s.reading
  }

  /** The rows say what the rules say. */
  ghost predicate AsRead(s: State, candidates: seq<Candidate>) {
    forall i :: 0 <= i < |candidates| ==>
      candidates[i].rule in s.rules && candidates[i].row == s.rules[candidates[i].rule] && candidates[i].row.enabled
  }

  /** Who has read a rule: those who had, and the candidates. */
  ghost predicate ReadBy(s: State, t: State, candidates: seq<Candidate>, n: nat)
    requires n <= |candidates|
  {
    && (forall reader :: reader in t.reading <==> reader in s.reading || Done(candidates, n, reader, s.clock))
    && (forall reader :: reader in s.reading && !Done(candidates, n, reader, s.clock) ==>
          reader in t.reading && t.reading[reader] == s.reading[reader])
  }

  ghost predicate NewlyRead(t: State, c: Candidate, now: Time) {
    HasRead(t, c, now) && (Wants(c, now) ==> c.view.reader !in t.overtaken)
  }

  /** What reading the rules leaves: nothing is changed but who has read them, and none of those has been overtaken. */
  ghost predicate Looked(s: State, t: State, candidates: seq<Candidate>, n: nat)
    requires n <= |candidates|
  {
    && t == s.(reading := t.reading, overtaken := t.overtaken) && ReadBy(s, t, candidates, n)
    && forall i :: 0 <= i < n ==> NewlyRead(t, candidates[i], s.clock)
  }

  lemma {:induction false} LooksAre(s: State, candidates: seq<Candidate>, n: nat, event: nat)
    requires n <= |candidates| && Apart(s, candidates, event)
    ensures Looked(s, AfterLooks(s, candidates, n), candidates, n)
  {
    hide Apart, Wants, HasRead, NewlyRead;
    if n > 0 {
      hide Looked;
      LooksAre(s, candidates, n - 1, event);
      OneMoreLook(s, AfterLooks(s, candidates, n - 1), AfterLooks(s, candidates, n), candidates, n - 1, event);
    }
  }

  lemma OneMoreLook(s: State, t: State, u: State, candidates: seq<Candidate>, n: nat, event: nat)
    requires n < |candidates| && Apart(s, candidates, event) && Looked(s, t, candidates, n)
    requires u == if Wants(candidates[n], s.clock) then AfterLook(t, candidates[n].view.reader, candidates[n].rule) else t
    ensures Looked(s, u, candidates, n + 1)
  {
    assert forall i :: 0 <= i < n ==> candidates[i].view.reader != candidates[n].view.reader;
    OneMoreReads(s, t, u, candidates, n, event);
    hide Wants, Apart, ReadBy, NewlyRead;
    forall i | 0 <= i < n + 1 ensures NewlyRead(u, candidates[i], s.clock) {
      LookKeepsRead(t, u, candidates[i], candidates[n], s.clock);
    }
  }

  /** One look leaves the other readings as they were, and its own newly made. */
  lemma LookKeepsRead(t: State, u: State, c: Candidate, next: Candidate, now: Time)
    requires u == if Wants(next, now) then AfterLook(t, next.view.reader, next.rule) else t
    requires t.clock == now && (c == next || (c.view.reader != next.view.reader && NewlyRead(t, c, now)))
    ensures NewlyRead(u, c, now)
  {
    hide Wants;
  }

  lemma OneMoreReads(s: State, t: State, u: State, candidates: seq<Candidate>, n: nat, event: nat)
    requires n < |candidates| && Apart(s, candidates, event) && ReadBy(s, t, candidates, n) && t.clock == s.clock
    requires u == if Wants(candidates[n], s.clock) then AfterLook(t, candidates[n].view.reader, candidates[n].rule) else t
    ensures ReadBy(s, u, candidates, n + 1)
  {
    OneMoreCandidate(s, candidates, n, event, s.clock);
    hide Wants, Done, Apart;
  }

  lemma LooksAreConsidered(s: State, candidates: seq<Candidate>, event: nat)
    requires Apart(s, candidates, event)
    ensures Considered(AfterLooks(s, candidates, |candidates|), candidates, event, s.clock)
  {
    LooksAre(s, candidates, |candidates|, event);
    hide AfterLooks, HasRead;
  }

  // ---- the transaction is a run ----------------------------------------------------------------------------------

  lemma {:induction false} OneMoreUndisturbed(s: State, steps: seq<Step>, t: State, step: Step, rule: RuleId, cfg: Settings)
    requires Reaches(s, steps, t, cfg) && OnceRules.Undisturbed(s, steps, rule, cfg)
    requires OnceRules.SetsOff(t, step, rule) ==> step.reader !in t.overtaken
    ensures OnceRules.Undisturbed(s, steps + [step], rule, cfg)
    decreases |steps|
  {
    hide Ready, Enabled, After, OnceRules.SetsOff;
    if steps == [] {
      assert [step][1..] == [];
    } else {
      OneMoreUndisturbed(After(s, steps[0], cfg), steps[1..], t, step, rule, cfg);
      assert (steps + [step])[1..] == steps[1..] + [step];
    }
  }

  /** No rule is set off over another's head. */
  ghost predicate Alone(s: State, steps: seq<Step>, cfg: Settings) {
    forall rule :: OnceRules.Undisturbed(s, steps, rule, cfg)
  }

  /** One statement after another, as long as each may be made. */
  lemma OneMoreStatement(s: State, steps: seq<Step>, t: State, step: Step, cfg: Settings)
    requires Reaches(s, steps, t, cfg) && Invariant(t, cfg) && Enabled(t, step, cfg)
    ensures Ready(t) && Reaches(s, steps + [step], After(t, step, cfg), cfg) && Invariant(After(t, step, cfg), cfg)
    ensures Alone(s, steps, cfg) && (step.GoesOff? ==> step.reader !in t.overtaken) ==> Alone(s, steps + [step], cfg)
  {
    InvariantIsReady(t, cfg);
    hide Invariant, Enabled, After, Reaches, OnceRules.Undisturbed;
    OneMoreStep(s, steps, t, step, cfg);
    StepKeeps(t, step, cfg);
    if Alone(s, steps, cfg) && (step.GoesOff? ==> step.reader !in t.overtaken) {
      forall rule ensures OnceRules.Undisturbed(s, steps + [step], rule, cfg) {
        OneMoreUndisturbed(s, steps, t, step, rule, cfg);
      }
    }
  }

  /** Reading the rules is a run of the machine. */
  lemma {:induction false} LooksAreARun(s: State, candidates: seq<Candidate>, n: nat, event: nat, cfg: Settings)
    returns (steps: seq<Step>)
    requires n <= |candidates| && Apart(s, candidates, event) && Unread(s, candidates) && AsRead(s, candidates)
    requires Invariant(s, cfg)
    ensures Reaches(s, steps, AfterLooks(s, candidates, n), cfg) && Invariant(AfterLooks(s, candidates, n), cfg)
    ensures Alone(s, steps, cfg)
  {
    hide Invariant, Reaches, Alone;
    steps := [];
    if n == 0 {
      NoStatements(s, cfg);
    } else {
      var t, c := AfterLooks(s, candidates, n - 1), candidates[n - 1];
      steps := LooksAreARun(s, candidates, n - 1, event, cfg);
      if Wants(c, s.clock) {
        LookIsAStep(s, candidates, n - 1, event, cfg);
        OneMoreStatement(s, steps, t, Look(c.view.reader, c.rule), cfg);
        steps := steps + [Look(c.view.reader, c.rule)];
      }
    }
  }

  lemma NoStatements(s: State, cfg: Settings)
    ensures Reaches(s, [], s, cfg) && Alone(s, [], cfg)
  {
  }

  lemma LookIsAStep(s: State, candidates: seq<Candidate>, n: nat, event: nat, cfg: Settings)
    requires n < |candidates| && Apart(s, candidates, event) && Unread(s, candidates) && AsRead(s, candidates)
    requires Wants(candidates[n], s.clock)
    ensures Enabled(AfterLooks(s, candidates, n), Look(candidates[n].view.reader, candidates[n].rule), cfg)
    ensures AfterLooks(s, candidates, n).clock == s.clock
  {
    LooksAre(s, candidates, n, event);
    OneMoreCandidate(s, candidates, n, event, s.clock);
  }

  /** Nobody has overtaken those whose turn is still to come. */
  ghost predicate NotOvertaken(t: State, candidates: seq<Candidate>, n: nat, now: Time)
    requires n <= |candidates|
  {
    forall i :: n <= i < |candidates| && Wants(candidates[i], now) ==> candidates[i].view.reader !in t.overtaken
  }

  /** The candidates' turns are a run of the machine, whatever has become of the tables since the rules were read: each rule
      that wanted the event goes off. Begun with nobody overtaken, nobody sets a rule off over another's head. */
  lemma {:induction false} TurnsAreARun(s: State, steps: seq<Step>, t: State, candidates: seq<Candidate>, n: nat, event: nat,
                                        now: Time, cfg: Settings)
    returns (more: seq<Step>)
    requires n <= |candidates| && Considered(t, candidates, event, now)
    requires Reaches(s, steps, t, cfg) && Invariant(t, cfg)
    ensures Reaches(s, more, AfterEach(t, candidates, n, event, now), cfg)
    ensures Invariant(AfterEach(t, candidates, n, event, now), cfg)
    ensures Alone(s, steps, cfg) && NotOvertaken(t, candidates, 0, now) ==>
      Alone(s, more, cfg) && NotOvertaken(AfterEach(t, candidates, n, event, now), candidates, n, now)
  {
    hide Invariant, Considered, Turn, Reaches, Alone, WentOff, Wants;
    more := steps;
    if n > 0 {
      var u, c := AfterEach(t, candidates, n - 1, event, now), candidates[n - 1];
      more := TurnsAreARun(s, steps, t, candidates, n - 1, event, now, cfg);
      EachWentOff(t, candidates, n - 1, event, now);
      NextHasRead(t, u, candidates, n - 1, event, now);
      TurnOvertakesNone(t, u, candidates, n - 1, event, now);
      if Wants(c, now) {
        TurnIsAStep(u, c, event, now, cfg);
        OneMoreStatement(s, more, u, GoesOff(c.view.reader, Event(event), c.view.text, c.view.id), cfg);
        more := more + [GoesOff(c.view.reader, Event(event), c.view.text, c.view.id)];
      } else {
        assert Turn(u, c, event, now) == u by { NoTurn(u, c, event, now); }
      }
    }
  }

  lemma TurnIsAStep(t: State, c: Candidate, event: nat, now: Time, cfg: Settings)
    requires Wants(c, now) && HasRead(t, c, now) && c.rule in t.rules && c.view.id !in t.fires
    ensures Enabled(t, GoesOff(c.view.reader, Event(event), c.view.text, c.view.id), cfg)
    ensures Ready(t) ==>
      After(t, GoesOff(c.view.reader, Event(event), c.view.text, c.view.id), cfg) == Turn(t, c, event, now)
  {
    hide Wants;
  }

  lemma NoTurn(t: State, c: Candidate, event: nat, now: Time)
    requires !Wants(c, now)
    ensures Turn(t, c, event, now) == t
  {
  }

  /** A rule that goes off overtakes only its own readers, and every other candidate reads another rule. */
  lemma TurnOvertakesNone(s: State, t: State, candidates: seq<Candidate>, n: nat, event: nat, now: Time)
    requires n < |candidates| && Considered(s, candidates, event, now) && WentOff(s, t, candidates, n, event, now)
    ensures NotOvertaken(t, candidates, n, now) ==> NotOvertaken(Turn(t, candidates[n], event, now), candidates, n + 1, now)
  {
    var c, u := candidates[n], Turn(t, candidates[n], event, now);
    if NotOvertaken(t, candidates, n, now) {
      forall i | n + 1 <= i < |candidates| && Wants(candidates[i], now) ensures candidates[i].view.reader !in u.overtaken {
        OthersHaveRead(s, t, candidates, n, i, event, now);
        NextHasRead(s, t, candidates, n, event, now);
        hide Wants, Considered, WentOff;
      }
    }
  }

  lemma OthersHaveRead(s: State, t: State, candidates: seq<Candidate>, n: nat, i: nat, event: nat, now: Time)
    requires n < i < |candidates| && Considered(s, candidates, event, now) && WentOff(s, t, candidates, n, event, now)
    ensures HasRead(t, candidates[i], now) && candidates[i].rule != candidates[n].rule
  {
    hide Wants;
    assert HasRead(s, candidates[i], now);
  }

  /** A publish that nobody comes between is a run of the machine, and sets no rule off over another's head. */
  lemma PublishIsARun(s: State, candidates: seq<Candidate>, event: nat, cfg: Settings) returns (steps: seq<Step>)
    requires Apart(s, candidates, event) && Unread(s, candidates) && AsRead(s, candidates) && Invariant(s, cfg)
    ensures var t := AfterEach(AfterLooks(s, candidates, |candidates|), candidates, |candidates|, event, s.clock);
      Reaches(s, steps, t, cfg) && Invariant(t, cfg) && Alone(s, steps, cfg)
  {
    hide Invariant, Reaches, Alone, Wants, AfterEach, AfterLooks;
    var t := AfterLooks(s, candidates, |candidates|);
    var looks := LooksAreARun(s, candidates, |candidates|, event, cfg);
    LooksAre(s, candidates, |candidates|, event);
    LooksAreConsidered(s, candidates, event);
    steps := TurnsAreARun(s, looks, t, candidates, |candidates|, event, s.clock, cfg);
  }

  // ---- what an event comes to ------------------------------------------------------------------------------------

  /** A rule that goes off for the event: switched on for its type, with a filter that takes it, its one alert not out if it
      has only one, and its last alert, if it had any, at least a cool-down ago. */
  ghost predicate Willing(s: State, listeners: map<RuleId, Listener>, eventType: string, views: RuleId -> View, rule: RuleId) {
    && rule in s.rules && s.rules[rule].enabled && rule in listeners && listeners[rule] == eventType && views(rule).matches
    && (s.rules[rule].lastFired.Some? ==> !s.rules[rule].once)
    && (s.rules[rule].lastFired.Some? && s.rules[rule].cooldown > 0 ==>
          s.clock - s.rules[rule].lastFired.value >= s.rules[rule].cooldown as real)
  }

  /** Every rule that goes off for the event remembers when and has one new fire with the event's message, waiting; no other
      rule is changed, no other fire is new, and no old one is touched. */
  ghost predicate SetsOffTheWilling(s: State, t: State, listeners: map<RuleId, Listener>, eventType: string,
                                    views: RuleId -> View, event: nat)
  {
    && t.rules.Keys == s.rules.Keys
    && (forall rule :: rule in s.rules ==>
          t.rules[rule] == if Willing(s, listeners, eventType, views, rule) then s.rules[rule].(lastFired := Some(s.clock))
                           else s.rules[rule])
    && (forall id :: id in s.fires ==> id in t.fires && t.fires[id] == s.fires[id])
    && (forall rule :: Willing(s, listeners, eventType, views, rule) ==>
          && views(rule).id in t.fires
          && t.fires[views(rule).id]
             == Fire(rule, Event(event), views(rule).text, s.clock, Pending, 0, Some(s.clock), 0, None))
    && (forall id :: id in t.fires && id !in s.fires ==>
          exists rule :: Willing(s, listeners, eventType, views, rule) && views(rule).id == id)
    && t.clock == s.clock && t.worker == s.worker && t.resumed == s.resumed && t.reading == s.reading
  }

  /** The table gives every fire a number of its own, and no two readers are one. */
  ghost predicate Distinct(s: State, listeners: map<RuleId, Listener>, eventType: string, views: RuleId -> View) {
    && (forall rule :: Listening(s.rules, listeners, eventType, rule) ==>
          views(rule).id !in s.fires && views(rule).reader !in s.reading)
    && (forall rule, other ::
          Listening(s.rules, listeners, eventType, rule) && Listening(s.rules, listeners, eventType, other) && rule != other ==>
            views(rule).id != views(other).id && views(rule).reader != views(other).reader)
  }

  /** These are the rules the event finds listening, by number. */
  ghost predicate Found(rules: map<RuleId, Rule>, listeners: map<RuleId, Listener>, eventType: string, rows: seq<RuleId>) {
    Ascending(rows) && forall rule :: rule in rows <==> Listening(rules, listeners, eventType, rule)
  }

  lemma FoundAreApart(s: State, listeners: map<RuleId, Listener>, eventType: string, rows: seq<RuleId>, views: RuleId -> View,
                      event: nat)
    requires Found(s.rules, listeners, eventType, rows) && Distinct(s, listeners, eventType, views)
    requires forall id :: id in s.fires ==> s.fires[id].cause != Event(event)
    ensures forall i :: 0 <= i < |rows| ==> rows[i] in s.rules && rows[i] in listeners
    ensures var candidates := Candidates(s.rules, listeners, rows, views);
      Apart(s, candidates, event) && Unread(s, candidates) && AsRead(s, candidates)
  {
    assert forall i :: 0 <= i < |rows| ==> rows[i] in rows;
  }

  lemma FiredAreWilling(s: State, listeners: map<RuleId, Listener>, eventType: string, rows: seq<RuleId>, views: RuleId -> View,
                        rule: RuleId)
    requires Found(s.rules, listeners, eventType, rows)
    requires forall i :: 0 <= i < |rows| ==> rows[i] in s.rules && rows[i] in listeners
    ensures var candidates := Candidates(s.rules, listeners, rows, views);
      Fired(candidates, |candidates|, rule, s.clock) <==> Willing(s, listeners, eventType, views, rule)
  {
    var candidates := Candidates(s.rules, listeners, rows, views);
    if Willing(s, listeners, eventType, views, rule) {
      assert Listening(s.rules, listeners, eventType, rule);
      var i :| 0 <= i < |rows| && rows[i] == rule;
      assert candidates[i].rule == rule && Wants(candidates[i], s.clock);
    }
    if Fired(candidates, |candidates|, rule, s.clock) {
      var i :| 0 <= i < |rows| && candidates[i].rule == rule && Wants(candidates[i], s.clock);
      assert rows[i] in rows;
    }
  }

  /** The rules after the transaction, read against the rules before it. */
  lemma WillingRules(s: State, t: State, listeners: map<RuleId, Listener>, eventType: string, rows: seq<RuleId>,
                     views: RuleId -> View)
    requires Found(s.rules, listeners, eventType, rows)
    requires forall i :: 0 <= i < |rows| ==> rows[i] in s.rules && rows[i] in listeners
    requires RulesAre(s, t, Candidates(s.rules, listeners, rows, views), |rows|, s.clock)
    ensures t.rules.Keys == s.rules.Keys
    ensures forall rule :: rule in s.rules ==>
      t.rules[rule] == if Willing(s, listeners, eventType, views, rule) then s.rules[rule].(lastFired := Some(s.clock))
                       else s.rules[rule]
  {
    hide Willing, Fired, Found;
    forall rule | rule in s.rules
      ensures t.rules[rule] == if Willing(s, listeners, eventType, views, rule) then s.rules[rule].(lastFired := Some(s.clock))
                               else s.rules[rule]
    {
      FiredAreWilling(s, listeners, eventType, rows, views, rule);
    }
  }

  lemma WillingFires(s: State, t: State, listeners: map<RuleId, Listener>, eventType: string, rows: seq<RuleId>,
                     views: RuleId -> View, event: nat)
    requires Found(s.rules, listeners, eventType, rows)
    requires forall i :: 0 <= i < |rows| ==> rows[i] in s.rules && rows[i] in listeners
    requires FiresAre(s, t, Candidates(s.rules, listeners, rows, views), |rows|, event, s.clock)
    ensures forall rule :: Willing(s, listeners, eventType, views, rule) ==>
      && views(rule).id in t.fires
      && t.fires[views(rule).id] == Fire(rule, Event(event), views(rule).text, s.clock, Pending, 0, Some(s.clock), 0, None)
    ensures forall id :: id in t.fires && id !in s.fires ==>
      exists rule :: Willing(s, listeners, eventType, views, rule) && views(rule).id == id
  {
    hide Wants;
    var candidates := Candidates(s.rules, listeners, rows, views);
    forall rule | Willing(s, listeners, eventType, views, rule)
      ensures views(rule).id in t.fires
      ensures t.fires[views(rule).id] == Fire(rule, Event(event), views(rule).text, s.clock, Pending, 0, Some(s.clock), 0, None)
    {
      FiredAreWilling(s, listeners, eventType, rows, views, rule);
      var i :| 0 <= i < |rows| && candidates[i].rule == rule && Wants(candidates[i], s.clock);
      assert NewFire(candidates, |rows|, views(rule).id, s.clock) && FireIs(t.fires, candidates[i], event, s.clock);
    }
    forall id | id in t.fires && id !in s.fires
      ensures exists rule :: Willing(s, listeners, eventType, views, rule) && views(rule).id == id
    {
      assert NewFire(candidates, |rows|, id, s.clock);
      var i :| 0 <= i < |rows| && candidates[i].view.id == id && Wants(candidates[i], s.clock);
      FiredAreWilling(s, listeners, eventType, rows, views, rows[i]);
      assert Fired(candidates, |rows|, rows[i], s.clock);
      assert Willing(s, listeners, eventType, views, rows[i]) && views(rows[i]).id == id;
    }
  }

  /** Those who had read a rule before still have, and nobody else. */
  lemma ReadersAgain(s: State, looked: State, t: State, candidates: seq<Candidate>, event: nat)
    requires Apart(s, candidates, event) && Unread(s, candidates) && looked == AfterLooks(s, candidates, |candidates|)
    requires ReadersAre(looked, t, candidates, |candidates|, s.clock)
    ensures t.reading == s.reading
  {
    LooksAre(s, candidates, |candidates|, event);
    hide AfterLooks, Wants, Apart, HasRead;
    assert forall reader :: Done(candidates, |candidates|, reader, s.clock) ==> reader !in s.reading;
  }

  lemma PublishWentOff(s: State, candidates: seq<Candidate>, event: nat, t: State)
    requires Apart(s, candidates, event) && Unread(s, candidates)
    requires t == AfterEach(AfterLooks(s, candidates, |candidates|), candidates, |candidates|, event, s.clock)
    ensures FiresAre(s, t, candidates, |candidates|, event, s.clock) && RulesAre(s, t, candidates, |candidates|, s.clock)
    ensures t.clock == s.clock && t.worker == s.worker && t.resumed == s.resumed && t.reading == s.reading
  {
    hide Considered, Unread, AfterEach, AfterLooks, Wants, HasRead, WentOff, FiresAre, RulesAre, ReadersAre;
    var looked := AfterLooks(s, candidates, |candidates|);
    LooksAre(s, candidates, |candidates|, event);
    LooksAreConsidered(s, candidates, event);
    hide Apart;
    EachWentOff(looked, candidates, |candidates|, event, s.clock);
    WentOffMeans(s, looked, t, candidates, event);
    ReadersAgain(s, looked, t, candidates, event);
  }

  /** An event comes to exactly this: the rules that want it, chosen by type from those switched on, each go off once. */
  lemma EventSetsOffTheWilling(s: State, listeners: map<RuleId, Listener>, eventType: string, rows: seq<RuleId>,
                               views: RuleId -> View, event: nat, candidates: seq<Candidate>, t: State)
    requires Found(s.rules, listeners, eventType, rows) && Distinct(s, listeners, eventType, views)
    requires forall id :: id in s.fires ==> s.fires[id].cause != Event(event)
    requires forall i :: 0 <= i < |rows| ==> rows[i] in s.rules && rows[i] in listeners
    requires candidates == Candidates(s.rules, listeners, rows, views)
    requires t == AfterEach(AfterLooks(s, candidates, |candidates|), candidates, |candidates|, event, s.clock)
    ensures SetsOffTheWilling(s, t, listeners, eventType, views, event)
  {
    hide Found, Distinct, Willing, Listening, Apart, Unread, AsRead, AfterEach, AfterLooks, RulesAre, FiresAre;
    FoundAreApart(s, listeners, eventType, rows, views, event);
    PublishWentOff(s, candidates, event, t);
    WillingRules(s, t, listeners, eventType, rows, views);
    WillingFires(s, t, listeners, eventType, rows, views, event);
    OldFiresStand(s, t, candidates, event);
  }

  function NewFires(s: State, t: State, rule: RuleId): set<FireId> {
    set id | id in t.fires && id !in s.fires && t.fires[id].rule == rule
  }

  /** Every rule, by the table: one new fire for a rule that is switched on for the event's type, takes the event, and has
      never fired, or, repeating, last fired at least a cool-down ago; none for any other. */
  lemma OneFireEach(s: State, listeners: map<RuleId, Listener>, eventType: string, rows: seq<RuleId>,
                    views: RuleId -> View, event: nat, candidates: seq<Candidate>, t: State, rule: RuleId)
    requires Found(s.rules, listeners, eventType, rows) && Distinct(s, listeners, eventType, views)
    requires forall id :: id in s.fires ==> s.fires[id].cause != Event(event)
    requires forall i :: 0 <= i < |rows| ==> rows[i] in s.rules && rows[i] in listeners
    requires candidates == Candidates(s.rules, listeners, rows, views)
    requires t == AfterEach(AfterLooks(s, candidates, |candidates|), candidates, |candidates|, event, s.clock)
    ensures NewFires(s, t, rule) ==
      if && rule in s.rules && s.rules[rule].enabled && rule in listeners && listeners[rule] == eventType && views(rule).matches
         && match s.rules[rule].lastFired {
              case None => true
              case Some(last) =>
                !s.rules[rule].once && (s.rules[rule].cooldown == 0 || s.clock - last >= s.rules[rule].cooldown as real)
            }
      then {views(rule).id} else {}
  {
    EventSetsOffTheWilling(s, listeners, eventType, rows, views, event, candidates, t);
    hide Found, AfterEach, AfterLooks, Candidates;
    WillingHasOne(s, t, listeners, eventType, views, event, rule);
    hide Distinct, SetsOffTheWilling, NewFires;
  }

  lemma WillingHasOne(s: State, t: State, listeners: map<RuleId, Listener>, eventType: string, views: RuleId -> View,
                      event: nat, rule: RuleId)
    requires Distinct(s, listeners, eventType, views) && SetsOffTheWilling(s, t, listeners, eventType, views, event)
    ensures NewFires(s, t, rule) == if Willing(s, listeners, eventType, views, rule) then {views(rule).id} else {}
  {
    assert forall other :: Willing(s, listeners, eventType, views, other) ==> Listening(s.rules, listeners, eventType, other);
    hide Willing, Listening;
    forall id ensures id in NewFires(s, t, rule) <==> Willing(s, listeners, eventType, views, rule) && id == views(rule).id {
      if id in NewFires(s, t, rule) {
        var other :| Willing(s, listeners, eventType, views, other) && views(other).id == id;
        assert t.fires[id].rule == other;
      }
    }
  }

  /** What the turns did to what was read, they did to what was there before it was read. */
  lemma WentOffMeans(s: State, looked: State, t: State, candidates: seq<Candidate>, event: nat)
    requires WentOff(looked, t, candidates, |candidates|, event, s.clock)
    requires looked == s.(reading := looked.reading, overtaken := looked.overtaken)
    ensures FiresAre(s, t, candidates, |candidates|, event, s.clock) && RulesAre(s, t, candidates, |candidates|, s.clock)
    ensures ReadersAre(looked, t, candidates, |candidates|, s.clock)
    ensures t.clock == s.clock && t.worker == s.worker && t.resumed == s.resumed
  {
    hide NewFire, Fired, Done, FireIs;
  }

  lemma OldFiresStand(s: State, t: State, candidates: seq<Candidate>, event: nat)
    requires FiresAre(s, t, candidates, |candidates|, event, s.clock)
    ensures forall id :: id in s.fires ==> id in t.fires && t.fires[id] == s.fires[id]
  {
    hide NewFire, FireIs;
  }

  // ---- the transaction as it is written --------------------------------------------------------------------------

  lemma {:induction false} SmallestIsThere(s: set<RuleId>) returns (least: RuleId)
    requires s != {}
    ensures least in s && forall other :: other in s ==> least <= other
  {
    var x := Pick(s);
    least := x;
    if s != {x} {
      assert s - {x} != {};
      var rest := SmallestIsThere(s - {x});
      least := if x <= rest then x else rest;
      forall other | other in s ensures least <= other {
        assert other == x || other in s - {x};
      }
    }
  }

  class Publisher {
    var events: map<Key, nat>
    var nextEvent: nat
    var rules: map<RuleId, Rule>
    var listeners: map<RuleId, Listener>
    var fires: map<FireId, Fire>
    var clock: Time
    ghost var worker: Worker
    ghost var taken: map<FireId, seq<nat>>
    ghost var mishaps: map<FireId, nat>
    ghost var resumed: set<FireId>
    ghost var reading: map<Reader, Read>
    ghost var overtaken: set<Reader>

    ghost function Now(): State
      reads this
    {
      State(rules, fires, clock, worker, taken, mishaps, resumed, reading, overtaken)
    }

    /** Events are numbered from what they have in the table, and so are their fires' causes. */
    ghost predicate Valid()
      reads this
    {
      forall id :: id in fires && fires[id].cause.Event? ==> fires[id].cause.id < nextEvent
    }

    /** The event's number, and whether it was there already. */
    method InsertEvent(key: Key) returns (event: nat, duplicate: bool)
      modifies `events, `nextEvent
      ensures duplicate <==> key in old(events)
      ensures if duplicate then event == old(events)[key] && events == old(events) && nextEvent == old(nextEvent)
              else event == old(nextEvent) && events == old(events)[key := event] && nextEvent == event + 1
    {
      if key in events {
        return events[key], true;
      }
      event, duplicate := nextEvent, false;
      events, nextEvent := events[key := event], nextEvent + 1;
    }

    /** The rules that could go off for an event of this type, in order of their numbers. */
    method EventRules(eventType: string) returns (rows: seq<RuleId>)
      ensures Found(rules, listeners, eventType, rows)
    {
      var rest := set rule | rule in rules && Listening(rules, listeners, eventType, rule);
      rows := [];
      while rest != {}
        invariant Ascending(rows)
        invariant forall i, other :: 0 <= i < |rows| && other in rest ==> rows[i] < other
        invariant forall rule :: rule in rows || rule in rest <==> Listening(rules, listeners, eventType, rule)
        decreases rest
      {
        ghost var smallest := SmallestIsThere(rest);
        var rule :| rule in rest && forall other :: other in rest ==> rule <= other;
        rows, rest := rows + [rule], rest - {rule};
      }
    }

    /** The statement that reads them, each with what it would make of the event; nothing locks them. */
    method ReadRules(eventType: string, views: RuleId -> View, ghost event: nat)
      returns (candidates: seq<Candidate>, ghost rows: seq<RuleId>)
      requires Distinct(Now(), listeners, eventType, views)
      requires forall id :: id in fires ==> fires[id].cause != Event(event)
      modifies `reading, `overtaken
      ensures Found(rules, listeners, eventType, rows)
      ensures forall i :: 0 <= i < |rows| ==> rows[i] in rules && rows[i] in listeners
      ensures candidates == Candidates(rules, listeners, rows, views)
      ensures Now() == AfterLooks(old(Now()), candidates, |candidates|)
    {
      var found := EventRules(eventType);
      rows := found;
      FoundAreApart(Now(), listeners, eventType, rows, views, event);
      candidates := Candidates(rules, listeners, found, views);
      LooksAre(Now(), candidates, |candidates|, event);
      ghost var looked := AfterLooks(Now(), candidates, |candidates|);
      reading, overtaken := looked.reading, looked.overtaken;
    }

    /** One candidate's turn, by the row as it was read: it goes off when its filter takes the event, its one alert is not out
        and its last alert is a cool-down old, unless it went off for this event already. */
    method Consider(c: Candidate, event: nat, now: Time) returns (fired: nat)
      requires c.rule in rules && c.view.id !in fires && HasRead(Now(), c, now)
      modifies `rules, `fires, `taken, `mishaps, `reading, `overtaken
      ensures Now() == Turn(old(Now()), c, event, now)
      ensures fired == |fires| - |old(fires)|
      ensures
        fired == 1 <==>
          && c.view.matches && (c.row.once ==> c.row.lastFired == None)
          && (c.row.lastFired.Some? && c.row.cooldown > 0 ==> now - c.row.lastFired.value >= c.row.cooldown as real)
          && !(exists f :: f in old(fires) && old(fires)[f].rule == c.rule && old(fires)[f].cause == Event(event))
    {
      if !c.view.matches || (c.row.once && c.row.lastFired.Some?) {
        return 0;
      }
      if c.row.cooldown > 0 && c.row.lastFired.Some? && now - c.row.lastFired.value < c.row.cooldown as real {
        return 0;
      }
      if exists f :: f in fires && fires[f].rule == c.rule && fires[f].cause == Event(event) {
        reading := reading - {c.view.reader};
        return 0;
      }
      overtaken := overtaken + OthersOn(Now(), c.view.reader);
      reading := reading - {c.view.reader};
      fires := fires[c.view.id := Fire(c.rule, Event(event), c.view.text, now, Pending, 0, Some(now), 0, None)];
      rules := rules[c.rule := rules[c.rule].(lastFired := Some(now))];
      taken, mishaps := taken[c.view.id := []], mishaps[c.view.id := 0];
      fired := 1;
    }

    /** Every candidate's turn, one after another, whatever has become of the tables since they were read. */
    method ConsiderEach(candidates: seq<Candidate>, event: nat, now: Time) returns (fired: nat)
      requires Considered(Now(), candidates, event, now)
      modifies `rules, `fires, `taken, `mishaps, `reading, `overtaken
      ensures Now() == AfterEach(old(Now()), candidates, |candidates|, event, now)
      ensures WentOff(old(Now()), Now(), candidates, |candidates|, event, now)
      ensures fired == |fires| - |old(fires)|
    {
      ghost var before := Now();
      fired := 0;
      for i := 0 to |candidates|
        invariant Now() == AfterEach(before, candidates, i, event, now)
        invariant fired == |fires| - |old(fires)|
      {
        EachWentOff(before, candidates, i, event, now);
        NextHasRead(before, Now(), candidates, i, event, now);
        hide WentOff, Turn, Considered, HasRead;
        var one := Consider(candidates[i], event, now);
        fired := fired + one;
      }
      EachWentOff(before, candidates, |candidates|, event, now);
    }

    /** The event and all it sets off, or nothing at all for one that was published before. `candidates` is what the
        transaction read. */
    method Publish(key: Key, views: RuleId -> View)
      returns (event: nat, duplicate: bool, fired: nat, ghost candidates: seq<Candidate>)
      requires Valid() && Distinct(Now(), listeners, key.0, views)
      modifies this
      ensures Valid() && key in events && events[key] == event && (duplicate <==> key in old(events))
      ensures duplicate ==> Now() == old(Now()) && fired == 0 && event == old(events)[key]
      ensures listeners == old(listeners)
      ensures !duplicate ==>
        && Now() == AfterEach(AfterLooks(old(Now()), candidates, |candidates|), candidates, |candidates|, event, old(clock))
        && SetsOffTheWilling(old(Now()), Now(), old(listeners), key.0, views, event)
        && fired == |fires| - |old(fires)|
    {
      hide AfterEach, AfterLooks, Considered, WentOff, Found, Distinct, SetsOffTheWilling;
      candidates := [];
      event, duplicate := InsertEvent(key);
      if duplicate {
        fired := 0;
        return;
      }
      ghost var start := Now();
      var read;
      ghost var rows;
      read, rows := ReadRules(key.0, views, event);
      candidates := read;
      FoundAreApart(start, listeners, key.0, rows, views, event);
      LooksAre(start, read, |read|, event);
      LooksAreConsidered(start, read, event);
      fired := ConsiderEach(read, event, clock);
      EventSetsOffTheWilling(start, listeners, key.0, rows, views, event, read, Now());
      NumberedStill(start, Now(), listeners, key.0, views, event);
    }
  }

  lemma NumberedStill(s: State, t: State, listeners: map<RuleId, Listener>, eventType: string, views: RuleId -> View, event: nat)
    requires SetsOffTheWilling(s, t, listeners, eventType, views, event)
    requires forall id :: id in s.fires && s.fires[id].cause.Event? ==> s.fires[id].cause.id < event
    ensures forall id :: id in t.fires && t.fires[id].cause.Event? ==> t.fires[id].cause.id < event + 1
  {
    hide Willing;
  }
}
