/**
 From a rule going off to a message on the phone, as a machine of atomic steps: one database statement or transaction,
 or one question to the door, at a time. One worker delivers; it may die between any two of its steps, and the door may
 answer anything — take a message and say it did not, or say nothing.
 */
module Delivery {
  import opened Wrappers
  import Template

  type Time = real
  type RuleId = nat
  type FireId = nat

  const HOUR: Time := 3600.0
  const LEASE: Time := 60.0
  const BATCH: nat := 20
  const FIRST_RETRY: Time := 30.0
  const LONGEST_RETRY: Time := 900.0

  datatype FireState = Pending | Delivered | Refused | Abandoned | Throttled | Undeliverable

  /** What a fire is one of per rule: the edge of a value, or an event. */
  datatype Cause = Edge(at: Time) | Event(id: nat)

  datatype Fire = Fire(
    rule: RuleId, cause: Cause, text: string, createdAt: Time, state: FireState, attempts: nat,
    nextAttempt: Option<Time>, partsSent: nat, deliveredAt: Option<Time>)
  {
    predicate Live() { state == Pending || state == Delivered }
  }

  /** The messages the fire's text makes. */
  function PartsOf(f: Fire): seq<string> { Template.Parts(f.text, Template.PART) }

  function Total(f: Fire): nat { |PartsOf(f)| }

  datatype Rule = Rule(once: bool, enabled: bool, maxPerHour: Option<nat>, cooldown: nat, lastFired: Option<Time>)

  /** The rule's last alert is younger than its cool-down. */
  predicate CoolingDown(r: Rule, now: Time) {
    r.cooldown > 0 && r.lastFired.Some? && now - r.lastFired.value < r.cooldown as real
  }

  /** The process's settings; both numbers are at least one, or the process does not start. */
  datatype Settings = Settings(retryWindow: Time, maxPerHour: nat, hasDoor: bool)

  /** A claimed fire as the claim read it. */
  datatype Row = Row(fire: FireId, rule: RuleId, attempts: nat, partsSent: nat, enabled: bool, once: bool,
    maxPerHour: Option<nat>)

  /** What the door made of one message: whether it took it, and what it answered. */
  datatype Answer = Ok | Again(wait: Option<nat>) | No

  datatype Door = Door(took: bool, answer: Answer) {
    predicate Possible() { answer == Ok ==> took }

    predicate Lost() { took && answer != Ok }
  }

  datatype Phase =
    | Start
    | Counted(told: nat)
    | Sending(i: nat)
    | Recording(i: nat)
    | Finishing(answer: Answer)

  datatype Worker = Idle | Working(queue: seq<Row>, now: Time, phase: Phase)

  /** One transaction, or one look of the clock's, as far as one rule is concerned. */
  type Reader = nat

  /** A rule read, and found one that may go off; the fire it sets off is a statement of its own, later. */
  datatype Read = Read(rule: RuleId, now: Time)

  /** The tables, the worker, and — beside them — what the door has taken of each fire, by part; how often a fire was
      dropped half way or its answer lost; which fires were taken up again with a part already on the phone; who has read
      a rule and not set it off yet, and which of those another has overtaken. */
  datatype State = State(
    rules: map<RuleId, Rule>, fires: map<FireId, Fire>, clock: Time, worker: Worker,
    taken: map<FireId, seq<nat>>, mishaps: map<FireId, nat>, resumed: set<FireId>,
    reading: map<Reader, Read>, overtaken: set<Reader>)

  // ---- the statements --------------------------------------------------------------------------------------------

  function Settle(s: State, id: FireId, state: FireState, now: Time): State
    requires id in s.fires
  {
    s.(fires := s.fires[id := s.fires[id].(state := state, nextAttempt := None,
                                           deliveredAt := if state == Delivered then Some(now) else None)])
  }

  function FinishOnce(s: State, rule: RuleId): State {
    if rule in s.rules then s.(rules := s.rules[rule := s.rules[rule].(enabled := false)]) else s
  }

  function ReopenOnce(s: State, rule: RuleId): State {
    if rule in s.rules && s.rules[rule].once then s.(rules := s.rules[rule := s.rules[rule].(lastFired := None)]) else s
  }

  function PartSent(s: State, id: FireId): State
    requires id in s.fires
  {
    s.(fires := s.fires[id := s.fires[id].(partsSent := s.fires[id].partsSent + 1)])
  }

  function Retry(s: State, id: FireId, at: Time): State
    requires id in s.fires
  {
    s.(fires := s.fires[id := s.fires[id].(nextAttempt := Some(at))])
  }

  function DeliveredSince(s: State, rule: RuleId, since: Time): set<FireId> {
    set id | id in s.fires && s.fires[id].rule == rule && s.fires[id].state == Delivered
             && s.fires[id].deliveredAt.Some? && s.fires[id].deliveredAt.value > since
  }

  predicate Due(f: Fire, now: Time) { f.state == Pending && f.nextAttempt.Some? && f.nextAttempt.value <= now }

  /** A rule's own limit, or the settings' where the rule has none. */
  function CapOf(maxPerHour: Option<nat>, cfg: Settings): nat {
    if maxPerHour.Some? && maxPerHour.value > 0 then maxPerHour.value else cfg.maxPerHour
  }

  function RowOf(s: State, id: FireId): Row
    requires id in s.fires && s.fires[id].rule in s.rules
  {
    var f, r := s.fires[id], s.rules[s.fires[id].rule];
    Row(id, f.rule, f.attempts + 1, f.partsSent, r.enabled, r.once, r.maxPerHour)
  }

  function RowsOf(s: State, due: seq<FireId>): (rows: seq<Row>)
    requires forall i :: 0 <= i < |due| ==> due[i] in s.fires && s.fires[due[i]].rule in s.rules
    ensures |rows| == |due| && forall i :: 0 <= i < |due| ==> rows[i] == RowOf(s, due[i])
  {
    seq(|due|, i requires 0 <= i < |due| => RowOf(s, due[i]))
  }

  // ---- the steps -------------------------------------------------------------------------------------------------

  datatype Step =
    | Advance(to: Time)
    | Look(reader: Reader, rule: RuleId)
    | GoesOff(reader: Reader, cause: Cause, text: string, id: FireId)
    | Claim(due: seq<FireId>)
    | Work(door: Door)
    | Stumble
    | Crash

  /** The rule is read, and nothing locks it: whoever else reads it now reads the same. */
  function AfterLook(s: State, reader: Reader, rule: RuleId): State {
    s.(reading := s.reading[reader := Read(rule, s.clock)], overtaken := s.overtaken - {reader})
  }

  predicate Repeats(s: State, rule: RuleId, cause: Cause) {
    exists f :: f in s.fires && s.fires[f].rule == rule && s.fires[f].cause == cause
  }

  /** The others who have read the rule as it was before it went off. */
  function OthersOn(s: State, reader: Reader): set<Reader>
    requires reader in s.reading
  {
    set other | other in s.reading && other != reader && s.reading[other].rule == s.reading[reader].rule
  }

  /** The rule goes off, whatever has become of it since it was read, unless the table already holds a fire for the same
      cause. */
  function AfterGoesOff(s: State, reader: Reader, cause: Cause, text: string, id: FireId): State
    requires reader in s.reading && s.reading[reader].rule in s.rules && id !in s.fires
  {
    var Read(rule, now) := s.reading[reader];
    if Repeats(s, rule, cause) then s.(reading := s.reading - {reader})
    else
      s.(fires := s.fires[id := Fire(rule, cause, text, now, Pending, 0, Some(now), 0, None)],
         rules := s.rules[rule := s.rules[rule].(lastFired := Some(now))],
         taken := s.taken[id := []],
         mishaps := s.mishaps[id := 0],
         reading := s.reading - {reader},
         overtaken := s.overtaken + OthersOn(s, reader))
  }

  function AfterClaim(s: State, due: seq<FireId>): State
    requires forall i :: 0 <= i < |due| ==> due[i] in s.fires && s.fires[due[i]].rule in s.rules
  {
    s.(fires := map id | id in s.fires ::
                  if id in due then s.fires[id].(attempts := s.fires[id].attempts + 1, nextAttempt := Some(s.clock + LEASE))
                  else s.fires[id],
       worker := if due == [] then Idle
                 else Working(RowsOf(s, due), s.clock, Start),
       resumed := s.resumed + set id | id in due && s.fires[id].partsSent > 0)
  }

  function Popped(s: State): State
    requires s.worker.Working? && s.worker.queue != []
  {
    s.(worker := if |s.worker.queue| == 1 then Idle else Working(s.worker.queue[1..], s.worker.now, Start))
  }

  function InPhase(s: State, phase: Phase): State
    requires s.worker.Working?
  {
    s.(worker := s.worker.(phase := phase))
  }

  /** The door was asked for one part: what it took is on the phone, whatever it answered. */
  function Heard(s: State, id: FireId, i: nat, door: Door): State
    requires s.worker.Working? && id in s.taken && id in s.mishaps
  {
    InPhase(s, if door.answer == Ok then Recording(i) else Finishing(door.answer)).(
      taken := if door.took then s.taken[id := s.taken[id] + [i]] else s.taken,
      mishaps := if door.Lost() then s.mishaps[id := s.mishaps[id] + 1] else s.mishaps)
  }

  function GiveUp(s: State, state: FireState): State
    requires s.worker.Working? && s.worker.queue != [] && s.worker.queue[0].fire in s.fires
  {
    var row := s.worker.queue[0];
    Popped(ReopenOnce(Settle(s, row.fire, state, s.worker.now), row.rule))
  }

  /** The worker's next step on the fire at the head of what it claimed. */
  function AfterWork(s: State, door: Door, cfg: Settings): State
    requires s.worker.Working? && s.worker.queue != [] && s.worker.queue[0].fire in s.fires
    requires s.worker.queue[0].fire in s.taken && s.worker.queue[0].fire in s.mishaps
  {
    var row, now := s.worker.queue[0], s.worker.now;
    var f := s.fires[row.fire];
    match s.worker.phase
    case Start =>
      if now - f.createdAt > cfg.retryWindow then GiveUp(s, Abandoned)
      else if !row.enabled then GiveUp(s, Abandoned)
      else if !cfg.hasDoor then GiveUp(s, Undeliverable)
      else if row.partsSent == 0 then InPhase(s, Counted(|DeliveredSince(s, row.rule, now - HOUR)|))
      else InPhase(s, Sending(row.partsSent))
    case Counted(told) =>
      if told < CapOf(row.maxPerHour, cfg) then InPhase(s, Sending(0)) else Popped(Settle(s, row.fire, Throttled, now))
    case Sending(i) =>
      if i >= Total(f) then InPhase(s, Finishing(Ok))
      else Heard(s, row.fire, i, door)
    case Recording(i) => InPhase(PartSent(s, row.fire), Sending(i + 1))
    case Finishing(answer) =>
      match answer
      case Ok =>
        var settled := Settle(s, row.fire, Delivered, now);
        Popped(if row.once then FinishOnce(settled, row.rule) else settled)
      case Again(wait) =>
        Popped(Retry(s, row.fire, now + (if wait.Some? && wait.value > 0 then wait.value as real else Backoff(row.attempts))))
      case No => GiveUp(s, Refused)
  }

  /** Where a retry starts when the door named no wait, doubling to a ceiling. */
  function Backoff(attempts: nat): Time {
    if attempts <= 1 then FIRST_RETRY
    else
      var twice := 2.0 * Backoff(attempts - 1);
      if twice < LONGEST_RETRY then twice else LONGEST_RETRY
  }

  /** This is the fire in hand. */
  predicate AtHead(s: State, id: FireId) {
    && s.worker.Working? && s.worker.queue != [] && s.worker.queue[0].fire == id
    && id in s.fires && id in s.taken && id in s.mishaps
  }

  /** The fire in hand is dropped where it stands, as after an exception; the lease runs out on its own. */
  function Dropped(s: State): State
    requires s.worker.Working? && s.worker.queue != [] && s.worker.queue[0].fire in s.mishaps
  {
    var id := s.worker.queue[0].fire;
    Popped(s.(mishaps := s.mishaps[id := s.mishaps[id] + 1]))
  }

  /** The worker has a fire in hand, or none at all; every fire has its rule. */
  ghost predicate Ready(s: State) {
    && (s.worker.Working? ==> s.worker.queue != [] && AtHead(s, s.worker.queue[0].fire))
    && forall id :: id in s.fires ==> s.fires[id].rule in s.rules
  }

  ghost predicate Enabled(s: State, step: Step, cfg: Settings) {
    match step
    case Advance(to) => to >= s.clock
    case Look(reader, rule) =>
      && reader !in s.reading && rule in s.rules
      && s.rules[rule].enabled && !(s.rules[rule].once && s.rules[rule].lastFired.Some?)
      && !CoolingDown(s.rules[rule], s.clock)
    case GoesOff(reader, cause, text, id) =>
      reader in s.reading && s.reading[reader].rule in s.rules && id !in s.fires
    case Claim(due) =>
      && s.worker == Idle && |due| <= BATCH
      && (forall i, j :: 0 <= i < j < |due| ==> due[i] != due[j])
      && (forall i :: 0 <= i < |due| ==> due[i] in s.fires && Due(s.fires[due[i]], s.clock))
    case Work(door) => s.worker.Working? && door.Possible()
    case Stumble => s.worker.Working?
    case Crash => s.worker.Working?
  }

  ghost function After(s: State, step: Step, cfg: Settings): State
    requires Ready(s) && Enabled(s, step, cfg)
  {
    match step
    case Advance(to) => s.(clock := to)
    case Look(reader, rule) => AfterLook(s, reader, rule)
    case GoesOff(reader, cause, text, id) => AfterGoesOff(s, reader, cause, text, id)
    case Claim(due) => AfterClaim(s, due)
    case Work(door) => AfterWork(s, door, cfg)
    case Stumble => Dropped(s)
    case Crash => Dropped(s).(worker := Idle)
  }

  // ---- what every step keeps -------------------------------------------------------------------------------------

  ghost predicate Keyed(s: State) {
    s.taken.Keys == s.fires.Keys && s.mishaps.Keys == s.fires.Keys && s.resumed <= s.fires.Keys
  }

  /** Every fire has its rule and its place in the record of what the door took. */
  ghost predicate Tables(s: State) {
    && Keyed(s)
    && (forall id :: id in s.fires ==> s.fires[id].rule in s.rules)
    && (forall id :: id in s.fires && s.fires[id].deliveredAt.Some? ==> s.fires[id].deliveredAt.value <= s.clock)
    && (forall id :: id in s.fires && s.fires[id].state == Delivered ==> s.fires[id].deliveredAt.Some?)
    && (forall id :: id in s.fires ==> (s.fires[id].state == Pending <==> s.fires[id].nextAttempt.Some?))
  }

  ghost predicate RowHolds(s: State, row: Row) {
    && row.fire in s.fires && s.fires[row.fire].state == Pending
    && row.rule == s.fires[row.fire].rule && row.rule in s.rules
    && row.once == s.rules[row.rule].once && row.maxPerHour == s.rules[row.rule].maxPerHour
    && row.partsSent <= s.fires[row.fire].partsSent
    && (row.partsSent > 0 ==> row.fire in s.resumed)
  }

  /** How far the fire in hand has come is what the worker takes it to be. */
  ghost predicate PhaseHolds(s: State, row: Row, now: Time, phase: Phase, cfg: Settings)
    requires Keyed(s) && RowHolds(s, row)
  {
    var f := s.fires[row.fire];
    match phase
    case Start => f.partsSent == row.partsSent
    case Counted(told) =>
      f.partsSent == row.partsSent == 0 && told == |DeliveredSince(s, row.rule, now - HOUR)|
    case Sending(i) => f.partsSent == i && WithinCap(s, row, now, cfg)
    case Recording(i) =>
      && f.partsSent == i < Total(f) && WithinCap(s, row, now, cfg)
      && s.taken[row.fire] != [] && s.taken[row.fire][|s.taken[row.fire]| - 1] == i
    case Finishing(answer) => (answer == Ok ==> f.partsSent >= Total(f)) && WithinCap(s, row, now, cfg)
  }

  /** The fire in hand stands where the phase says. */
  ghost predicate HeadHolds(s: State, phase: Phase, cfg: Settings) {
    && s.worker.Working? && s.worker.queue != [] && Keyed(s) && RowHolds(s, s.worker.queue[0])
    && PhaseHolds(s, s.worker.queue[0], s.worker.now, phase, cfg)
  }

  /** A fire begun afresh is sent only while its rule has told less than it may. */
  ghost predicate WithinCap(s: State, row: Row, now: Time, cfg: Settings) {
    row.partsSent == 0 ==> |DeliveredSince(s, row.rule, now - HOUR)| < CapOf(row.maxPerHour, cfg)
  }

  ghost predicate ToldBy(s: State, now: Time) {
    forall id :: id in s.fires && s.fires[id].deliveredAt.Some? ==> s.fires[id].deliveredAt.value <= now
  }

  /** Different fires, all waiting, and all but the one in hand as the claim read them. */
  ghost predicate QueueHolds(s: State, queue: seq<Row>) {
    && (forall i :: 0 <= i < |queue| ==> RowHolds(s, queue[i]))
    && (forall i, j :: 0 <= i < j < |queue| ==> queue[i].fire != queue[j].fire)
    && (forall i :: 0 < i < |queue| ==> s.fires[queue[i].fire].partsSent == queue[i].partsSent)
  }

  ghost predicate WorkerHolds(s: State, cfg: Settings) {
    s.worker.Working? ==>
      && s.worker.queue != [] && s.worker.now <= s.clock && Tables(s) && ToldBy(s, s.worker.now)
      && QueueHolds(s, s.worker.queue)
      && HeadHolds(s, s.worker.phase, cfg)
  }

  // ---- the record of what the door took --------------------------------------------------------------------------

  /** Parts in order from the first, each once or several times running. */
  ghost predicate Climbs(log: seq<nat>) {
    && (log != [] ==> log[0] == 0)
    && forall i :: 0 <= i < |log| - 1 ==> log[i] <= log[i + 1] <= log[i] + 1
  }

  /** How many different parts the door has taken. */
  function Reached(log: seq<nat>): nat { if log == [] then 0 else log[|log| - 1] + 1 }

  ghost predicate InHand(s: State, id: FireId) {
    s.worker.Working? && s.worker.queue != [] && s.worker.queue[0].fire == id && s.worker.phase.Recording?
  }

  /** The repeats there have been, and the one there may be next time, were each paid for by a mishap. */
  ghost predicate Paid(log: seq<nat>, partsSent: nat, inHand: bool, mishaps: nat) {
    |log| + (if Reached(log) > partsSent && !inHand then 1 else 0) <= Reached(log) + mishaps
  }

  ghost predicate LogHolds(f: Fire, log: seq<nat>, inHand: bool, mishaps: nat) {
    && Climbs(log) && Reached(log) <= Total(f)
    && f.partsSent <= Reached(log) <= f.partsSent + 1
    && Paid(log, f.partsSent, inHand, mishaps)
    && (f.state == Delivered ==> f.partsSent == Total(f))
  }

  ghost predicate LogsHold(s: State) {
    && Keyed(s)
    && forall id {:trigger s.taken[id]} :: id in s.fires ==> LogHolds(s.fires[id], s.taken[id], InHand(s, id), s.mishaps[id])
  }

  // ---- the hourly cap --------------------------------------------------------------------------------------------

  /** The rule's deliveries in the hour up to `t`. */
  function Window(s: State, rule: RuleId, t: Time): set<FireId> {
    set id | id in s.fires && s.fires[id].rule == rule && s.fires[id].state == Delivered
             && s.fires[id].deliveredAt.Some? && t - HOUR < s.fires[id].deliveredAt.value <= t
  }

  ghost predicate CapHolds(s: State, cfg: Settings) {
    forall rule, t :: rule in s.rules ==> |Window(s, rule, t) - s.resumed| <= CapOf(s.rules[rule].maxPerHour, cfg)
  }

  ghost predicate Invariant(s: State, cfg: Settings) {
    Tables(s) && WorkerHolds(s, cfg) && LogsHold(s) && CapHolds(s, cfg)
  }

  // ---- steps that settle nothing ---------------------------------------------------------------------------------

  /** The same fires of the same rules in the same states. */
  ghost predicate Quiet(s: State, t: State) {
    && t.rules == s.rules && t.fires.Keys == s.fires.Keys && s.clock <= t.clock && s.resumed <= t.resumed
    && forall id :: id in s.fires ==>
         && t.fires[id].rule == s.fires[id].rule && t.fires[id].state == s.fires[id].state
         && t.fires[id].deliveredAt == s.fires[id].deliveredAt && t.fires[id].text == s.fires[id].text
  }

  lemma QuietKeepsCounts(s: State, t: State, rule: RuleId, since: Time)
    requires Quiet(s, t)
    ensures DeliveredSince(t, rule, since) == DeliveredSince(s, rule, since)
    ensures Window(t, rule, since) == Window(s, rule, since)
  {
  }

  lemma SmallerSet(s: set<FireId>, whole: set<FireId>)
    requires s <= whole
    ensures |s| <= |whole|
  {
    assert whole == s + (whole - s);
  }

  lemma QuietKeepsCap(s: State, t: State, cfg: Settings)
    requires Quiet(s, t) && CapHolds(s, cfg)
    ensures CapHolds(t, cfg)
  {
    forall rule, u | rule in t.rules ensures |Window(t, rule, u) - t.resumed| <= CapOf(t.rules[rule].maxPerHour, cfg) {
      QuietKeepsCounts(s, t, rule, u);
      SmallerSet(Window(t, rule, u) - t.resumed, Window(s, rule, u) - s.resumed);
    }
  }

  // ---- the worker's frame ----------------------------------------------------------------------------------------

  /** A row still holds when its fire is as it was and its rule's terms are. */
  lemma RowStillHolds(s: State, t: State, row: Row)
    requires RowHolds(s, row) && row.fire in t.fires && t.fires[row.fire].rule == s.fires[row.fire].rule
    requires t.fires[row.fire].state == Pending && t.fires[row.fire].partsSent >= s.fires[row.fire].partsSent
    requires row.rule in t.rules && t.rules[row.rule].once == s.rules[row.rule].once
    requires t.rules[row.rule].maxPerHour == s.rules[row.rule].maxPerHour && s.resumed <= t.resumed
    ensures RowHolds(t, row)
  {
  }

  /** Nothing but the one fire was touched, and no rule's terms. */
  ghost predicate OnlyTouched(s: State, t: State, id: FireId) {
    && s.resumed <= t.resumed && t.fires.Keys == s.fires.Keys
    && (forall other :: other in s.fires && other != id ==> t.fires[other] == s.fires[other])
    && (forall rule :: rule in s.rules ==>
          rule in t.rules && t.rules[rule].once == s.rules[rule].once && t.rules[rule].maxPerHour == s.rules[rule].maxPerHour)
  }

  /** Whatever became of the first, the rows behind it stand as they did. */
  lemma QueueMoves(s: State, t: State, queue: seq<Row>)
    requires queue != [] && QueueHolds(s, queue) && OnlyTouched(s, t, queue[0].fire)
    ensures QueueHolds(t, queue[1..])
    ensures RowHolds(t, queue[0]) ==> QueueHolds(t, queue)
    ensures |queue| > 1 ==> queue[1].fire in t.fires && t.fires[queue[1].fire].partsSent == queue[1].partsSent
  {
  }

  /** Whatever one step did to the fire in hand, the worker may go on to the next. */
  lemma NextInLine(s: State, t: State, cfg: Settings)
    requires WorkerHolds(s, cfg) && s.worker.Working? && Tables(t) && OnlyTouched(s, t, s.worker.queue[0].fire)
    requires t.worker == s.worker && s.clock <= t.clock && ToldBy(t, s.worker.now)
    ensures WorkerHolds(Popped(t), cfg)
  {
    QueueMoves(s, t, s.worker.queue);
    hide Tables, OnlyTouched, RowHolds, ToldBy, QueueHolds, HeadHolds;
    if |s.worker.queue| > 1 {
      Untouched(t, Popped(t), s.worker.queue[1..], s.worker.now);
      NextHead(t, cfg);
    }
  }

  lemma NextHead(t: State, cfg: Settings)
    requires t.worker.Working? && |t.worker.queue| > 1 && Tables(t) && QueueHolds(t, t.worker.queue[1..])
    requires t.worker.queue[1].fire in t.fires && t.fires[t.worker.queue[1].fire].partsSent == t.worker.queue[1].partsSent
    ensures HeadHolds(Popped(t), Start, cfg)
  {
  }

  /** What the worker is at, and what the door has taken, is no part of the tables. */
  lemma Untouched(s: State, t: State, queue: seq<Row>, now: Time)
    requires t == s.(worker := t.worker, taken := t.taken, mishaps := t.mishaps)
    requires t.taken.Keys == s.taken.Keys && t.mishaps.Keys == s.mishaps.Keys
    ensures Tables(t) == Tables(s) && ToldBy(t, now) == ToldBy(s, now) && QueueHolds(t, queue) == QueueHolds(s, queue)
    ensures forall row :: RowHolds(t, row) == RowHolds(s, row)
  {
  }

  /** The worker stays with the fire in hand. */
  lemma SameInLine(s: State, t: State, cfg: Settings)
    requires WorkerHolds(s, cfg) && s.worker.Working? && Tables(t) && OnlyTouched(s, t, s.worker.queue[0].fire)
    requires t.worker.Working? && t.worker.queue == s.worker.queue && t.worker.now == s.worker.now && s.clock <= t.clock
    requires ToldBy(t, s.worker.now)
    requires HeadHolds(t, t.worker.phase, cfg)
    ensures WorkerHolds(t, cfg)
  {
    QueueMoves(s, t, s.worker.queue);
  }

  // ---- the record's frame ----------------------------------------------------------------------------------------

  ghost predicate SameRecord(s: State, t: State, id: FireId)
    requires Keyed(s) && Keyed(t) && id in s.fires && id in t.fires
  {
    && t.fires[id].text == s.fires[id].text && t.fires[id].partsSent == s.fires[id].partsSent
    && (t.fires[id].state == Delivered ==> s.fires[id].state == Delivered)
    && t.taken[id] == s.taken[id] && t.mishaps[id] == s.mishaps[id]
  }

  ghost predicate SameElsewhere(s: State, t: State, id: FireId) {
    && Keyed(s) && Keyed(t) && t.fires.Keys == s.fires.Keys
    && (forall other :: other in t.fires && other != id ==> SameRecord(s, t, other))
    && (forall other :: other != id ==> !InHand(s, other) && !InHand(t, other))
  }

  ghost predicate LogAt(s: State, id: FireId) {
    id in s.fires && id in s.taken && id in s.mishaps && LogHolds(s.fires[id], s.taken[id], InHand(s, id), s.mishaps[id])
  }

  /** The record stands when only one fire's part of it changed, and that part stands. */
  lemma LogsKept(s: State, t: State, id: FireId)
    requires LogsHold(s) && SameElsewhere(s, t, id) && LogAt(t, id)
    ensures LogsHold(t)
  {
    hide Paid, Climbs, Total, PartsOf;
    forall other | other in t.fires ensures LogHolds(t.fires[other], t.taken[other], InHand(t, other), t.mishaps[other]) {
      if other != id {
        SameLog(s, t, other);
      }
    }
  }

  lemma SameLog(s: State, t: State, id: FireId)
    requires Keyed(s) && Keyed(t) && id in s.fires && id in t.fires && SameRecord(s, t, id) && !InHand(s, id) && !InHand(t, id)
    requires LogHolds(s.fires[id], s.taken[id], false, s.mishaps[id])
    ensures LogHolds(t.fires[id], t.taken[id], false, t.mishaps[id])
  {
    hide Paid, Climbs, Template.Parts;
  }

  // ---- each step keeps it ----------------------------------------------------------------------------------------

  lemma AdvanceKeeps(s: State, to: Time, cfg: Settings)
    requires Invariant(s, cfg) && to >= s.clock
    ensures Invariant(s.(clock := to), cfg)
  {
    var t := s.(clock := to);
    hide Tables, WorkerHolds, LogsHold, CapHolds;
    assert Quiet(s, t);
    QuietKeepsCap(s, t, cfg);
    ClockAside(s, to, cfg);
    SameLogs(s, t);
  }

  lemma ClockAside(s: State, to: Time, cfg: Settings)
    requires WorkerHolds(s, cfg) && Tables(s) && to >= s.clock
    ensures WorkerHolds(s.(clock := to), cfg) && Tables(s.(clock := to))
  {
    var t := s.(clock := to);
    forall row | RowHolds(s, row) ensures RowHolds(t, row) {
    }
    if s.worker.Working? {
      QuietKeepsCounts(s, t, s.worker.queue[0].rule, s.worker.now - HOUR);
      assert QueueHolds(t, s.worker.queue);
    }
  }

  lemma SameLogs(s: State, t: State)
    requires LogsHold(s) && t.fires == s.fires && t.taken == s.taken && t.mishaps == s.mishaps && t.resumed == s.resumed
    requires forall id :: InHand(t, id) == InHand(s, id)
    ensures LogsHold(t)
  {
  }

  lemma InPhaseKeeps(s: State, phase: Phase, cfg: Settings)
    requires Invariant(s, cfg) && s.worker.Working? && !s.worker.phase.Recording? && !phase.Recording?
    requires HeadHolds(s, phase, cfg)
    ensures Invariant(InPhase(s, phase), cfg)
  {
    hide Tables, WorkerHolds, LogsHold, CapHolds, HeadHolds;
    var t := InPhase(s, phase);
    PhaseAside(s, phase, cfg);
    assert Quiet(s, t);
    QuietKeepsCap(s, t, cfg);
    SameLogs(s, t);
  }

  lemma PhaseAside(s: State, phase: Phase, cfg: Settings)
    requires WorkerHolds(s, cfg) && Tables(s) && s.worker.Working?
    requires HeadHolds(s, phase, cfg)
    ensures WorkerHolds(InPhase(s, phase), cfg) && Tables(InPhase(s, phase))
  {
  }

  /** One more part taken is a part in order, or one more repeat that something paid for. */
  lemma PartTaken(f: Fire, log: seq<nat>, mishaps: nat)
    requires LogHolds(f, log, false, mishaps) && f.partsSent < Total(f) && f.state == Pending
    ensures LogHolds(f, log + [f.partsSent], true, mishaps) && LogHolds(f, log + [f.partsSent], false, mishaps + 1)
  {
    hide Total;
    var i := f.partsSent;
    var more := log + [i];
    forall k | 0 <= k < |more| - 1 ensures more[k] <= more[k + 1] <= more[k] + 1 {
      if k < |log| - 1 {
        assert log[k] <= log[k + 1] <= log[k] + 1;
      }
    }
  }

  lemma OneMoreMishap(f: Fire, log: seq<nat>, inHand: bool, mishaps: nat)
    requires LogHolds(f, log, inHand, mishaps)
    ensures LogHolds(f, log, false, mishaps + 1)
  {
  }

  lemma HeardKeeps(s: State, t: State, id: FireId, i: nat, door: Door, cfg: Settings)
    requires AtHead(s, id) && s.worker.phase == Sending(i) && i < Total(s.fires[id]) && door.Possible()
    requires t == Heard(s, id, i, door)
    requires Invariant(s, cfg)
    ensures Invariant(t, cfg)
  {
    hide Tables, WorkerHolds, LogsHold, CapHolds, HeadHolds;
    HeadStands(s, cfg);
    HeardTables(s, t, id, i, door, cfg);
    HeardLogs(s, t, id, i, door, cfg);
    assert Quiet(s, t);
    QuietKeepsCap(s, t, cfg);
  }

  lemma HeadStands(s: State, cfg: Settings)
    requires WorkerHolds(s, cfg) && s.worker.Working?
    ensures HeadHolds(s, s.worker.phase, cfg)
  {
  }

  lemma HeardTables(s: State, t: State, id: FireId, i: nat, door: Door, cfg: Settings)
    requires AtHead(s, id) && s.worker.phase == Sending(i) && i < Total(s.fires[id]) && door.Possible()
    requires t == Heard(s, id, i, door)
    requires Tables(s) && WorkerHolds(s, cfg)
    ensures Tables(t) && WorkerHolds(t, cfg)
  {
    assert HeadHolds(s, s.worker.phase, cfg);
    hide HeadHolds, QueueHolds, Tables, ToldBy, Total, RowHolds;
    Untouched(s, t, s.worker.queue, s.worker.now);
    HeardHead(s, t, id, i, door, cfg);
  }

  lemma HeardHead(s: State, t: State, id: FireId, i: nat, door: Door, cfg: Settings)
    requires AtHead(s, id) && s.worker.phase == Sending(i) && i < Total(s.fires[id]) && door.Possible()
    requires t == Heard(s, id, i, door)
    requires HeadHolds(s, s.worker.phase, cfg)
    ensures HeadHolds(t, t.worker.phase, cfg)
  {
    hide Total, CapOf;
    var row := s.worker.queue[0];
    assert DeliveredSince(t, row.rule, s.worker.now - HOUR) == DeliveredSince(s, row.rule, s.worker.now - HOUR);
  }

  lemma HeardLogs(s: State, t: State, id: FireId, i: nat, door: Door, cfg: Settings)
    requires AtHead(s, id) && s.worker.phase == Sending(i) && i < Total(s.fires[id]) && door.Possible()
    requires t == Heard(s, id, i, door)
    requires LogsHold(s) && HeadHolds(s, s.worker.phase, cfg)
    ensures LogsHold(t)
  {
    hide LogHolds, Total, HeadHolds, SameElsewhere;
    assert LogAt(s, id);
    HeardElsewhere(s, t, id, i, door);
    HeardLog(s, t, id, i, door, cfg);
    hide LogsHold, LogAt;
    LogsKept(s, t, id);
  }

  lemma HeardElsewhere(s: State, t: State, id: FireId, i: nat, door: Door)
    requires AtHead(s, id) && s.worker.phase == Sending(i) && t == Heard(s, id, i, door)
    requires Keyed(s)
    ensures SameElsewhere(s, t, id)
  {
  }

  lemma HeardLog(s: State, t: State, id: FireId, i: nat, door: Door, cfg: Settings)
    requires AtHead(s, id) && s.worker.phase == Sending(i) && i < Total(s.fires[id]) && door.Possible()
    requires t == Heard(s, id, i, door)
    requires LogAt(s, id) && HeadHolds(s, s.worker.phase, cfg)
    ensures LogAt(t, id)
  {
    hide CapOf, WithinCap, PartsOf;
    PartTaken(s.fires[id], s.taken[id], s.mishaps[id]);
    hide Total, LogHolds;
  }

  lemma RecordingKeeps(s: State, t: State, id: FireId, i: nat, cfg: Settings)
    requires AtHead(s, id) && s.worker.phase == Recording(i) && t == InPhase(PartSent(s, id), Sending(i + 1))
    requires Invariant(s, cfg)
    ensures Invariant(t, cfg)
  {
    hide Tables, WorkerHolds, LogsHold, CapHolds, HeadHolds;
    HeadStands(s, cfg);
    RecordingTables(s, t, id, i, cfg);
    RecordingLogs(s, t, id, i, cfg);
    assert Quiet(s, t);
    QuietKeepsCap(s, t, cfg);
  }

  lemma RecordingTables(s: State, t: State, id: FireId, i: nat, cfg: Settings)
    requires AtHead(s, id) && s.worker.phase == Recording(i) && t == InPhase(PartSent(s, id), Sending(i + 1))
    requires Tables(s) && WorkerHolds(s, cfg)
    ensures Tables(t) && WorkerHolds(t, cfg)
  {
    assert HeadHolds(s, s.worker.phase, cfg) && ToldBy(s, s.worker.now) && s.worker.now <= s.clock;
    hide HeadHolds, QueueHolds, WorkerHolds, RowHolds;
    RecordingTouches(s, t, id, i);
    hide Tables, ToldBy, OnlyTouched;
    RecordingHead(s, t, id, i, cfg);
    SameInLine(s, t, cfg);
  }

  lemma RecordingTouches(s: State, t: State, id: FireId, i: nat)
    requires AtHead(s, id) && s.worker.phase == Recording(i) && t == InPhase(PartSent(s, id), Sending(i + 1))
    requires Tables(s) && ToldBy(s, s.worker.now)
    ensures Tables(t) && ToldBy(t, s.worker.now) && OnlyTouched(s, t, id)
  {
  }

  lemma RecordingHead(s: State, t: State, id: FireId, i: nat, cfg: Settings)
    requires AtHead(s, id) && s.worker.phase == Recording(i) && t == InPhase(PartSent(s, id), Sending(i + 1))
    requires HeadHolds(s, s.worker.phase, cfg)
    ensures HeadHolds(t, t.worker.phase, cfg)
  {
    hide Total, CapOf;
    var row := s.worker.queue[0];
    assert DeliveredSince(t, row.rule, s.worker.now - HOUR) == DeliveredSince(s, row.rule, s.worker.now - HOUR);
  }

  lemma RecordingLogs(s: State, t: State, id: FireId, i: nat, cfg: Settings)
    requires AtHead(s, id) && s.worker.phase == Recording(i) && t == InPhase(PartSent(s, id), Sending(i + 1))
    requires LogsHold(s) && HeadHolds(s, s.worker.phase, cfg)
    ensures LogsHold(t)
  {
    hide LogHolds, Total, HeadHolds;
    assert LogAt(s, id) && SameElsewhere(s, t, id);
    hide LogsHold, SameElsewhere, LogAt;
    RecordingLog(s, t, id, i, cfg);
    LogsKept(s, t, id);
  }

  lemma RecordingLog(s: State, t: State, id: FireId, i: nat, cfg: Settings)
    requires AtHead(s, id) && s.worker.phase == Recording(i) && t == InPhase(PartSent(s, id), Sending(i + 1))
    requires LogAt(s, id) && HeadHolds(s, s.worker.phase, cfg)
    ensures LogAt(t, id)
  {
  }

  // ---- the steps that settle a fire, or let it go for now --------------------------------------------------------

  /** The tables after the fire in hand has had its last word, with no rule's terms changed and only its own rule touched. */
  ghost predicate Settles(s: State, u: State, id: FireId, state: FireState) {
    && AtHead(s, id) && state != Pending
    && u == s.(fires := Settle(s, id, state, s.worker.now).fires, rules := u.rules)
    && u.rules.Keys == s.rules.Keys
    && (forall rule :: rule in s.rules ==>
          u.rules[rule].once == s.rules[rule].once && u.rules[rule].maxPerHour == s.rules[rule].maxPerHour)
    && (forall rule :: rule in s.rules && rule != s.fires[id].rule ==> u.rules[rule] == s.rules[rule])
  }

  lemma SettlesTables(s: State, u: State, id: FireId, state: FireState, cfg: Settings)
    requires Settles(s, u, id, state) && Tables(s) && WorkerHolds(s, cfg)
    ensures Tables(u) && Tables(Popped(u)) && WorkerHolds(Popped(u), cfg)
  {
    assert ToldBy(s, s.worker.now) && s.worker.now <= s.clock;
    hide HeadHolds, QueueHolds, WorkerHolds, RowHolds;
    SettlesTouches(s, u, id, state);
    hide Tables, ToldBy, OnlyTouched;
    Untouched(u, Popped(u), [], s.worker.now);
    NextInLine(s, u, cfg);
  }

  lemma SettlesTouches(s: State, u: State, id: FireId, state: FireState)
    requires Settles(s, u, id, state) && Tables(s) && ToldBy(s, s.worker.now) && s.worker.now <= s.clock
    ensures Tables(u) && ToldBy(u, s.worker.now) && OnlyTouched(s, u, id)
  {
    SettlesKeepsTables(s, u, id, state);
    SettlesToldBy(s, u, id, state);
    SettlesOnly(s, u, id, state);
    hide *;
  }

  lemma SettlesKeepsTables(s: State, u: State, id: FireId, state: FireState)
    requires Settles(s, u, id, state) && Tables(s) && s.worker.now <= s.clock
    ensures Tables(u)
  {
    SettlesKeepsRules(s, u, id, state);
    SettlesKeepsDates(s, u, id, state);
    SettlesKeepsDelivered(s, u, id, state);
    SettlesKeepsWaiting(s, u, id, state);
    hide Settles, Tables;
  }

  lemma SettlesKeepsRules(s: State, u: State, id: FireId, state: FireState)
    requires Settles(s, u, id, state) && Tables(s)
    ensures Keyed(u) && forall other :: other in u.fires ==> u.fires[other].rule in u.rules
  {
  }

  lemma SettlesKeepsDates(s: State, u: State, id: FireId, state: FireState)
    requires Settles(s, u, id, state) && Tables(s) && s.worker.now <= s.clock
    ensures forall other :: other in u.fires && u.fires[other].deliveredAt.Some? ==> u.fires[other].deliveredAt.value <= u.clock
  {
  }

  lemma SettlesKeepsDelivered(s: State, u: State, id: FireId, state: FireState)
    requires Settles(s, u, id, state) && Tables(s)
    ensures forall other :: other in u.fires && u.fires[other].state == Delivered ==> u.fires[other].deliveredAt.Some?
  {
  }

  lemma SettlesKeepsWaiting(s: State, u: State, id: FireId, state: FireState)
    requires Settles(s, u, id, state) && Tables(s)
    ensures forall other :: other in u.fires ==> (u.fires[other].state == Pending <==> u.fires[other].nextAttempt.Some?)
  {
  }

  lemma SettlesToldBy(s: State, u: State, id: FireId, state: FireState)
    requires Settles(s, u, id, state) && ToldBy(s, s.worker.now)
    ensures ToldBy(u, s.worker.now)
  {
  }

  lemma SettlesOnly(s: State, u: State, id: FireId, state: FireState)
    requires Settles(s, u, id, state)
    ensures OnlyTouched(s, u, id)
  {
  }

  lemma SettlesLogs(s: State, u: State, id: FireId, state: FireState, cfg: Settings)
    requires Settles(s, u, id, state) && LogsHold(s) && !s.worker.phase.Recording?
    requires state == Delivered ==> s.fires[id].partsSent >= Total(s.fires[id])
    ensures LogsHold(Popped(u))
  {
    hide LogHolds, Total;
    assert LogAt(s, id) && SameElsewhere(s, Popped(u), id);
    hide LogsHold, SameElsewhere;
    assert LogAt(Popped(u), id) by { SettlesLog(s, u, id, state); }
    LogsKept(s, Popped(u), id);
  }

  lemma SettlesLog(s: State, u: State, id: FireId, state: FireState)
    requires Settles(s, u, id, state) && LogAt(s, id) && !s.worker.phase.Recording?
    requires state == Delivered ==> s.fires[id].partsSent >= Total(s.fires[id])
    ensures LogAt(Popped(u), id)
  {
  }

  /** Letting a fire go adds to no hour. */
  lemma LettingGoKeepsCap(s: State, u: State, id: FireId, state: FireState, cfg: Settings)
    requires Settles(s, u, id, state) && s.fires[id].state == Pending && state != Delivered && CapHolds(s, cfg)
    ensures CapHolds(Popped(u), cfg)
  {
    forall rule, t | rule in u.rules ensures |Window(Popped(u), rule, t) - u.resumed| <= CapOf(u.rules[rule].maxPerHour, cfg) {
      LettingGoInWindow(s, u, id, state, rule, t);
    }
  }

  lemma LettingGoInWindow(s: State, u: State, id: FireId, state: FireState, rule: RuleId, t: Time)
    requires Settles(s, u, id, state) && s.fires[id].state == Pending && state != Delivered
    ensures Window(Popped(u), rule, t) == Window(s, rule, t)
  {
  }

  /** Telling the operator adds one to the hours it falls in, and none of them was full. */
  lemma TellingKeepsCap(s: State, u: State, id: FireId, cfg: Settings)
    requires Settles(s, u, id, Delivered) && HeadHolds(s, s.worker.phase, cfg) && ToldBy(s, s.worker.now)
    requires s.worker.phase == Finishing(Ok) && CapHolds(s, cfg)
    ensures CapHolds(Popped(u), cfg)
  {
    forall rule, t | rule in u.rules ensures |Window(Popped(u), rule, t) - u.resumed| <= CapOf(u.rules[rule].maxPerHour, cfg) {
      TellingInWindow(s, u, id, rule, t, cfg);
    }
  }

  lemma TellingInWindow(s: State, u: State, id: FireId, rule: RuleId, t: Time, cfg: Settings)
    requires Settles(s, u, id, Delivered) && HeadHolds(s, s.worker.phase, cfg) && ToldBy(s, s.worker.now)
    requires s.worker.phase == Finishing(Ok) && rule in u.rules && rule in s.rules
    requires |Window(s, rule, t) - s.resumed| <= CapOf(s.rules[rule].maxPerHour, cfg)
    ensures |Window(Popped(u), rule, t) - u.resumed| <= CapOf(u.rules[rule].maxPerHour, cfg)
  {
    hide HeadHolds, ToldBy, CapOf, Window, DeliveredSince, Settles;
    TermsStay(s, u, id, rule, cfg);
    TellingHead(s, id, cfg);
    if rule == s.fires[id].rule && s.worker.queue[0].partsSent == 0 && t - HOUR < s.worker.now <= t {
      TellingFresh(s, u, id, t);
    } else {
      TellingElsewhere(s, u, id, rule, t);
    }
  }

  lemma TermsStay(s: State, u: State, id: FireId, rule: RuleId, cfg: Settings)
    requires Settles(s, u, id, Delivered) && rule in u.rules && rule in s.rules
    ensures CapOf(u.rules[rule].maxPerHour, cfg) == CapOf(s.rules[rule].maxPerHour, cfg)
    ensures u.resumed == s.resumed && AtHead(s, id)
  {
  }

  lemma OneMoreAtMost(all: set<FireId>, some: set<FireId>, id: FireId)
    requires all <= some + {id}
    ensures |all| <= |some| + 1
  {
    SmallerSet(all, some + {id});
  }

  /** A fire told afresh finds its rule with room left; one taken up again is known as such. */
  lemma TellingHead(s: State, id: FireId, cfg: Settings)
    requires AtHead(s, id) && HeadHolds(s, s.worker.phase, cfg) && s.worker.phase == Finishing(Ok)
    ensures s.fires[id].rule in s.rules
    ensures s.worker.queue[0].partsSent == 0 ==>
      |DeliveredSince(s, s.fires[id].rule, s.worker.now - HOUR)| < CapOf(s.rules[s.fires[id].rule].maxPerHour, cfg)
    ensures s.worker.queue[0].partsSent > 0 ==> id in s.resumed
  {
  }

  lemma TellingFresh(s: State, u: State, id: FireId, t: Time)
    requires Settles(s, u, id, Delivered) && ToldBy(s, s.worker.now) && s.worker.now <= t
    ensures |Window(Popped(u), s.fires[id].rule, t) - s.resumed| <= |DeliveredSince(s, s.fires[id].rule, s.worker.now - HOUR)| + 1
  {
    var all, some := Window(Popped(u), s.fires[id].rule, t) - s.resumed, DeliveredSince(s, s.fires[id].rule, s.worker.now - HOUR);
    assert all <= some + {id};
    OneMoreAtMost(all, some, id);
  }

  lemma TellingElsewhere(s: State, u: State, id: FireId, rule: RuleId, t: Time)
    requires Settles(s, u, id, Delivered)
    requires rule != s.fires[id].rule || id in s.resumed || !(t - HOUR < s.worker.now <= t)
    ensures |Window(Popped(u), rule, t) - s.resumed| <= |Window(s, rule, t) - s.resumed|
  {
    SmallerSet(Window(Popped(u), rule, t) - s.resumed, Window(s, rule, t) - s.resumed);
  }

  // ---- the steps that settle nothing, but leave the fire in hand -------------------------------------------------

  lemma RetryKeeps(s: State, u: State, id: FireId, at: Time, cfg: Settings)
    requires AtHead(s, id) && s.fires[id].state == Pending && !s.worker.phase.Recording? && u == Retry(s, id, at)
    requires Invariant(s, cfg)
    ensures Invariant(Popped(u), cfg)
  {
    hide Tables, WorkerHolds, LogsHold, CapHolds;
    RetryTables(s, u, id, at, cfg);
    RetryLogs(s, u, id, at);
    assert Quiet(s, Popped(u));
    QuietKeepsCap(s, Popped(u), cfg);
  }

  lemma RetryTables(s: State, u: State, id: FireId, at: Time, cfg: Settings)
    requires AtHead(s, id) && s.fires[id].state == Pending && u == Retry(s, id, at)
    requires Tables(s) && WorkerHolds(s, cfg)
    ensures Tables(Popped(u)) && WorkerHolds(Popped(u), cfg)
  {
    assert ToldBy(s, s.worker.now) && s.worker.now <= s.clock;
    hide HeadHolds, QueueHolds, WorkerHolds, RowHolds;
    RetryTouches(s, u, id, at);
    hide Tables, ToldBy, OnlyTouched;
    Untouched(u, Popped(u), [], s.worker.now);
    NextInLine(s, u, cfg);
  }

  lemma RetryTouches(s: State, u: State, id: FireId, at: Time)
    requires AtHead(s, id) && s.fires[id].state == Pending && u == Retry(s, id, at)
    requires Tables(s) && ToldBy(s, s.worker.now)
    ensures Tables(u) && ToldBy(u, s.worker.now) && OnlyTouched(s, u, id)
  {
  }

  lemma RetryLogs(s: State, u: State, id: FireId, at: Time)
    requires AtHead(s, id) && s.fires[id].state == Pending && !s.worker.phase.Recording? && u == Retry(s, id, at)
    requires LogsHold(s)
    ensures LogsHold(Popped(u))
  {
    hide LogHolds, Total;
    assert LogAt(s, id) && SameElsewhere(s, Popped(u), id);
    hide LogsHold, SameElsewhere;
    assert LogAt(Popped(u), id) by { RetryLog(s, u, id, at); }
    LogsKept(s, Popped(u), id);
  }

  lemma RetryLog(s: State, u: State, id: FireId, at: Time)
    requires AtHead(s, id) && s.fires[id].state == Pending && !s.worker.phase.Recording? && u == Retry(s, id, at)
    requires LogAt(s, id)
    ensures LogAt(Popped(u), id)
  {
  }

  /** The fire in hand is let fall; `t` is what the worker does next: the rest of its list, or nothing any more. */
  lemma DroppedKeeps(s: State, t: State, id: FireId, cfg: Settings)
    requires AtHead(s, id) && (t == Dropped(s) || t == Dropped(s).(worker := Idle))
    requires Invariant(s, cfg)
    ensures Invariant(t, cfg)
  {
    hide Tables, WorkerHolds, LogsHold, CapHolds;
    DroppedTables(s, t, id, cfg);
    DroppedLogs(s, t, id);
    assert Quiet(s, t);
    QuietKeepsCap(s, t, cfg);
  }

  lemma DroppedTouches(s: State, u: State, t: State, id: FireId)
    requires AtHead(s, id) && (t == Dropped(s) || t == Dropped(s).(worker := Idle)) && Tables(s)
    requires u == s.(mishaps := s.mishaps[id := s.mishaps[id] + 1])
    ensures OnlyTouched(s, u, id) && Tables(u) && Tables(t) && ToldBy(u, s.worker.now) == ToldBy(s, s.worker.now)
  {
    Untouched(s, u, [], s.worker.now);
    Untouched(u, t, [], s.worker.now);
    hide Tables, ToldBy;
  }

  lemma DroppedTables(s: State, t: State, id: FireId, cfg: Settings)
    requires AtHead(s, id) && (t == Dropped(s) || t == Dropped(s).(worker := Idle))
    requires Tables(s) && WorkerHolds(s, cfg)
    ensures Tables(t) && WorkerHolds(t, cfg)
  {
    hide HeadHolds, QueueHolds, RowHolds, ToldBy, OnlyTouched, Tables;
    assert ToldBy(s, s.worker.now) && s.worker.now <= s.clock;
    var u := s.(mishaps := s.mishaps[id := s.mishaps[id] + 1]);
    DroppedTouches(s, u, t, id);
    NextInLine(s, u, cfg);
  }

  lemma DroppedLogs(s: State, t: State, id: FireId)
    requires AtHead(s, id) && (t == Dropped(s) || t == Dropped(s).(worker := Idle))
    requires LogsHold(s)
    ensures LogsHold(t)
  {
    hide LogHolds, Total;
    assert LogAt(s, id) && SameElsewhere(s, t, id);
    hide LogsHold, SameElsewhere;
    OneMoreMishap(s.fires[id], s.taken[id], InHand(s, id), s.mishaps[id]);
    LogsKept(s, t, id);
  }

  // ---- taking up the fires that are due --------------------------------------------------------------------------

  /** The fires a claim may take: different ones, each due. */
  ghost predicate Takes(s: State, due: seq<FireId>) {
    && Tables(s) && s.worker == Idle
    && (forall i, j :: 0 <= i < j < |due| ==> due[i] != due[j])
    && (forall i :: 0 <= i < |due| ==> due[i] in s.fires && s.fires[due[i]].rule in s.rules && Due(s.fires[due[i]], s.clock))
  }

  lemma ClaimKeeps(s: State, t: State, due: seq<FireId>, cfg: Settings)
    requires Takes(s, due) && t == AfterClaim(s, due)
    requires Invariant(s, cfg)
    ensures Invariant(t, cfg)
  {
    hide Tables, WorkerHolds, LogsHold, CapHolds;
    ClaimTables(s, t, due);
    ClaimWorker(s, t, due, cfg);
    ClaimLogs(s, t, due);
    hide Takes;
    assert Quiet(s, t);
    QuietKeepsCap(s, t, cfg);
  }

  lemma ClaimTables(s: State, t: State, due: seq<FireId>)
    requires Takes(s, due) && t == AfterClaim(s, due)
    ensures Tables(t) && ToldBy(t, s.clock)
  {
    hide RowsOf;
  }

  lemma ClaimWorker(s: State, t: State, due: seq<FireId>, cfg: Settings)
    requires Takes(s, due) && t == AfterClaim(s, due)
    requires Tables(t) && ToldBy(t, s.clock)
    ensures WorkerHolds(t, cfg)
  {
    hide ToldBy;
    if due != [] {
      var rows := t.worker.queue;
      forall i | 0 <= i < |rows| ensures RowHolds(t, rows[i]) && t.fires[rows[i].fire].partsSent == rows[i].partsSent {
        RowTaken(s, t, due, i);
      }
      assert QueueHolds(t, rows);
      assert HeadHolds(t, Start, cfg);
    }
  }

  lemma RowTaken(s: State, t: State, due: seq<FireId>, i: nat)
    requires Takes(s, due) && t == AfterClaim(s, due) && i < |due|
    ensures RowHolds(t, RowOf(s, due[i])) && t.fires[due[i]].partsSent == s.fires[due[i]].partsSent
  {
  }

  lemma ClaimLogs(s: State, t: State, due: seq<FireId>)
    requires Takes(s, due) && t == AfterClaim(s, due)
    requires LogsHold(s)
    ensures LogsHold(t)
  {
    hide LogHolds, RowsOf;
    forall id | id in t.fires ensures LogAt(t, id) {
      assert LogAt(s, id);
      SameLog(s, t, id);
    }
  }

  // ---- a rule goes off -------------------------------------------------------------------------------------------

  /** `t` is `s` with one new fire, which nothing has been done about yet. */
  ghost predicate Adds(s: State, t: State, rule: RuleId, id: FireId) {
    && Tables(s) && rule in s.rules && rule in t.rules && id !in s.fires && id in t.fires
    && t.fires == s.fires[id := t.fires[id]] && t.taken == s.taken[id := []] && t.mishaps == s.mishaps[id := 0]
    && t.rules == s.rules[rule := s.rules[rule].(lastFired := t.rules[rule].lastFired)] && t.rules[rule].lastFired.Some?
    && t == s.(fires := t.fires, rules := t.rules, taken := t.taken, mishaps := t.mishaps, reading := t.reading,
               overtaken := t.overtaken)
    && t.fires[id].rule == rule && t.fires[id].state == Pending && t.fires[id].nextAttempt.Some?
    && t.fires[id].partsSent == 0 && t.fires[id].deliveredAt == None
  }

  lemma AddsKeeps(s: State, t: State, rule: RuleId, id: FireId, cfg: Settings)
    requires Adds(s, t, rule, id) && Invariant(s, cfg)
    ensures Invariant(t, cfg)
  {
    hide Tables, WorkerHolds, LogsHold, CapHolds, Adds;
    AddsTables(s, t, rule, id);
    AddsWorker(s, t, rule, id, cfg);
    AddsLogs(s, t, rule, id);
    AddsCap(s, t, rule, id, cfg);
  }

  lemma AddsTables(s: State, t: State, rule: RuleId, id: FireId)
    requires Adds(s, t, rule, id)
    ensures Tables(t)
  {
  }

  lemma AddsCounts(s: State, t: State, rule: RuleId, id: FireId, other: RuleId, since: Time)
    requires Adds(s, t, rule, id)
    ensures DeliveredSince(t, other, since) == DeliveredSince(s, other, since)
    ensures Window(t, other, since) == Window(s, other, since)
  {
  }

  lemma AddsWorker(s: State, t: State, rule: RuleId, id: FireId, cfg: Settings)
    requires Adds(s, t, rule, id)
    requires WorkerHolds(s, cfg)
    ensures WorkerHolds(t, cfg)
  {
    if s.worker.Working? {
      AddsTables(s, t, rule, id);
      AddsQueue(s, t, rule, id);
      AddsHead(s, t, rule, id, cfg);
      hide HeadHolds, QueueHolds, Tables;
    }
  }

  lemma AddsQueue(s: State, t: State, rule: RuleId, id: FireId)
    requires Adds(s, t, rule, id) && s.worker.Working? && QueueHolds(s, s.worker.queue)
    ensures QueueHolds(t, s.worker.queue)
  {
  }

  lemma AddsHead(s: State, t: State, rule: RuleId, id: FireId, cfg: Settings)
    requires Adds(s, t, rule, id) && s.worker.Working? && HeadHolds(s, s.worker.phase, cfg)
    ensures HeadHolds(t, s.worker.phase, cfg)
  {
    var row := s.worker.queue[0];
    AddsRow(s, t, rule, id, row);
    AddsTables(s, t, rule, id);
    AddsCounts(s, t, rule, id, row.rule, s.worker.now - HOUR);
    assert t.worker == s.worker;
    assert Keyed(t);
    hide Adds, RowHolds, DeliveredSince, Tables, Keyed, PhaseHolds;
    PhaseStill(s, t, row, s.worker.now, s.worker.phase, cfg);
  }

  /** How far a fire has come is the fire's own, and its rule's count. */
  lemma PhaseStill(s: State, t: State, row: Row, now: Time, phase: Phase, cfg: Settings)
    requires Keyed(s) && Keyed(t) && RowHolds(s, row) && RowHolds(t, row)
    requires t.fires[row.fire] == s.fires[row.fire] && t.taken[row.fire] == s.taken[row.fire]
    requires DeliveredSince(t, row.rule, now - HOUR) == DeliveredSince(s, row.rule, now - HOUR)
    requires PhaseHolds(s, row, now, phase, cfg)
    ensures PhaseHolds(t, row, now, phase, cfg)
  {
    hide Total, CapOf, DeliveredSince;
  }

  /** What was claimed before is as it was claimed. */
  lemma AddsRow(s: State, t: State, rule: RuleId, id: FireId, row: Row)
    requires Adds(s, t, rule, id) && Keyed(s) && RowHolds(s, row)
    ensures row.fire in t.fires && t.fires[row.fire] == s.fires[row.fire]
    ensures row.fire in t.taken && t.taken[row.fire] == s.taken[row.fire]
    ensures RowHolds(t, row)
  {
    hide Tables;
    RowStillHolds(s, t, row);
  }

  lemma AddsLogs(s: State, t: State, rule: RuleId, id: FireId)
    requires Adds(s, t, rule, id)
    requires LogsHold(s)
    ensures LogsHold(t)
  {
    AddsTables(s, t, rule, id);
    AddsLog(s, t, rule, id);
    hide LogHolds, Adds, LogAt;
    forall other | other in t.fires ensures LogAt(t, other) {
      AddsOldLog(s, t, rule, id, other);
    }
    LogsFrom(t);
  }

  lemma LogsFrom(t: State)
    requires Keyed(t) && forall id :: id in t.fires ==> LogAt(t, id)
    ensures LogsHold(t)
  {
    hide LogHolds;
  }

  lemma AddsLog(s: State, t: State, rule: RuleId, id: FireId)
    requires Adds(s, t, rule, id)
    ensures LogAt(t, id)
  {
    hide Total, Tables;
  }

  /** What the door had taken before is as it was. */
  lemma AddsOldLog(s: State, t: State, rule: RuleId, id: FireId, other: FireId)
    requires Adds(s, t, rule, id) && LogsHold(s) && other in t.fires && LogAt(t, id)
    ensures LogAt(t, other)
  {
    hide LogHolds, Tables;
    if other != id {
      assert LogAt(s, other);
      assert t.fires[other] == s.fires[other] && InHand(t, other) == InHand(s, other);
    }
  }

  lemma AddsCap(s: State, t: State, rule: RuleId, id: FireId, cfg: Settings)
    requires Adds(s, t, rule, id)
    requires CapHolds(s, cfg)
    ensures CapHolds(t, cfg)
  {
    hide Tables;
    forall other, u | other in t.rules ensures |Window(t, other, u) - t.resumed| <= CapOf(t.rules[other].maxPerHour, cfg) {
      AddsCounts(s, t, rule, id, other, u);
    }
  }

  // ---- every step ------------------------------------------------------------------------------------------------

  lemma InvariantIsReady(s: State, cfg: Settings)
    requires Invariant(s, cfg)
    ensures Ready(s)
  {
  }

  /** What a fire's last word comes to, whatever becomes of its rule's memory. */
  lemma SettlesKeeps(s: State, u: State, id: FireId, state: FireState, cfg: Settings)
    requires Settles(s, u, id, state) && HeadHolds(s, s.worker.phase, cfg) && !s.worker.phase.Recording?
    requires state == Delivered ==> s.worker.phase == Finishing(Ok)
    requires Invariant(s, cfg)
    ensures Invariant(Popped(u), cfg)
  {
    assert s.fires[id].state == Pending && (state == Delivered ==> s.fires[id].partsSent >= Total(s.fires[id]));
    assert ToldBy(s, s.worker.now);
    hide Tables, WorkerHolds, LogsHold, CapHolds, HeadHolds, Total, ToldBy;
    SettlesTables(s, u, id, state, cfg);
    SettlesLogs(s, u, id, state, cfg);
    if state == Delivered {
      TellingKeepsCap(s, u, id, cfg);
    } else {
      LettingGoKeepsCap(s, u, id, state, cfg);
    }
  }

  /** The fire in hand is waiting, under its own rule's terms. */
  lemma InHandIs(s: State, id: FireId, cfg: Settings)
    requires AtHead(s, id)
    requires WorkerHolds(s, cfg)
    ensures HeadHolds(s, s.worker.phase, cfg)
    ensures s.fires[id].state == Pending && s.worker.queue[0].rule == s.fires[id].rule && s.fires[id].rule in s.rules
    ensures s.worker.queue[0].once == s.rules[s.fires[id].rule].once
    ensures s.worker.queue[0].maxPerHour == s.rules[s.fires[id].rule].maxPerHour
  {
  }

  lemma GiveUpKeeps(s: State, t: State, id: FireId, state: FireState, cfg: Settings)
    requires AtHead(s, id) && !s.worker.phase.Recording? && state in {Refused, Abandoned, Undeliverable}
    requires t == GiveUp(s, state)
    requires Invariant(s, cfg)
    ensures Invariant(t, cfg)
  {
    hide Tables, WorkerHolds, LogsHold, CapHolds, HeadHolds;
    InHandIs(s, id, cfg);
    SettlesKeeps(s, ReopenOnce(Settle(s, id, state, s.worker.now), s.fires[id].rule), id, state, cfg);
  }

  lemma StartKeeps(s: State, t: State, id: FireId, door: Door, cfg: Settings)
    requires AtHead(s, id) && s.worker.phase == Start && t == AfterWork(s, door, cfg)
    requires Invariant(s, cfg)
    ensures Invariant(t, cfg)
  {
    hide Tables, WorkerHolds, LogsHold, CapHolds, HeadHolds;
    InHandIs(s, id, cfg);
    hide Invariant;
    var row, now := s.worker.queue[0], s.worker.now;
    if now - s.fires[id].createdAt > cfg.retryWindow || !row.enabled {
      GiveUpKeeps(s, t, id, Abandoned, cfg);
    } else if !cfg.hasDoor {
      GiveUpKeeps(s, t, id, Undeliverable, cfg);
    } else {
      StartsOn(s, t, id, door, cfg);
      InPhaseKeeps(s, t.worker.phase, cfg);
    }
  }

  lemma StartsOn(s: State, t: State, id: FireId, door: Door, cfg: Settings)
    requires AtHead(s, id) && s.worker.phase == Start && t == AfterWork(s, door, cfg)
    requires s.worker.now - s.fires[id].createdAt <= cfg.retryWindow && s.worker.queue[0].enabled && cfg.hasDoor
    requires HeadHolds(s, Start, cfg)
    ensures t.worker.Working? && t == InPhase(s, t.worker.phase) && !t.worker.phase.Recording?
    ensures HeadHolds(s, t.worker.phase, cfg)
  {
  }

  lemma CountedKeeps(s: State, t: State, id: FireId, told: nat, door: Door, cfg: Settings)
    requires AtHead(s, id) && s.worker.phase == Counted(told) && t == AfterWork(s, door, cfg)
    requires Invariant(s, cfg)
    ensures Invariant(t, cfg)
  {
    hide Tables, WorkerHolds, LogsHold, CapHolds, HeadHolds;
    InHandIs(s, id, cfg);
    CountedHead(s, id, told, cfg);
    if told < CapOf(s.worker.queue[0].maxPerHour, cfg) {
      hide Invariant;
      InPhaseKeeps(s, Sending(0), cfg);
    } else {
      hide Invariant;
      SettlesKeeps(s, Settle(s, id, Throttled, s.worker.now), id, Throttled, cfg);
    }
  }

  lemma CountedHead(s: State, id: FireId, told: nat, cfg: Settings)
    requires AtHead(s, id) && s.worker.phase == Counted(told) && HeadHolds(s, s.worker.phase, cfg)
    ensures told == |DeliveredSince(s, s.fires[id].rule, s.worker.now - HOUR)|
    ensures told < CapOf(s.worker.queue[0].maxPerHour, cfg) ==> HeadHolds(s, Sending(0), cfg)
  {
  }

  lemma SendingKeeps(s: State, t: State, id: FireId, i: nat, door: Door, cfg: Settings)
    requires AtHead(s, id) && s.worker.phase == Sending(i) && t == AfterWork(s, door, cfg) && door.Possible()
    requires Invariant(s, cfg)
    ensures Invariant(t, cfg)
  {
    hide Tables, WorkerHolds, LogsHold, CapHolds, HeadHolds, Total;
    InHandIs(s, id, cfg);
    hide Invariant;
    if i < Total(s.fires[id]) {
      HeardKeeps(s, t, id, i, door, cfg);
    } else {
      assert HeadHolds(s, Finishing(Ok), cfg) by { SendingHead(s, id, i, cfg); }
      InPhaseKeeps(s, Finishing(Ok), cfg);
    }
  }

  lemma SendingHead(s: State, id: FireId, i: nat, cfg: Settings)
    requires AtHead(s, id) && s.worker.phase == Sending(i) && i >= Total(s.fires[id]) && HeadHolds(s, s.worker.phase, cfg)
    ensures HeadHolds(s, Finishing(Ok), cfg)
  {
    hide Total, CapOf;
  }

  lemma FinishingKeeps(s: State, t: State, id: FireId, answer: Answer, door: Door, cfg: Settings)
    requires AtHead(s, id) && s.worker.phase == Finishing(answer) && t == AfterWork(s, door, cfg)
    requires Invariant(s, cfg)
    ensures Invariant(t, cfg)
  {
    hide Tables, WorkerHolds, LogsHold, CapHolds, HeadHolds;
    InHandIs(s, id, cfg);
    hide Invariant;
    match answer
    case Ok =>
      var settled := Settle(s, id, Delivered, s.worker.now);
      SettlesKeeps(s, if s.worker.queue[0].once then FinishOnce(settled, s.fires[id].rule) else settled, id, Delivered, cfg);
    case Again(wait) =>
      var at := s.worker.now + (if wait.Some? && wait.value > 0 then wait.value as real else Backoff(s.worker.queue[0].attempts));
      RetryKeeps(s, Retry(s, id, at), id, at, cfg);
    case No =>
      GiveUpKeeps(s, t, id, Refused, cfg);
  }

  lemma WorkKeeps(s: State, t: State, id: FireId, door: Door, cfg: Settings)
    requires AtHead(s, id) && t == AfterWork(s, door, cfg) && door.Possible()
    requires Invariant(s, cfg)
    ensures Invariant(t, cfg)
  {
    hide AfterWork, Invariant;
    match s.worker.phase
    case Start => StartKeeps(s, t, id, door, cfg);
    case Counted(told) => CountedKeeps(s, t, id, told, door, cfg);
    case Sending(i) => SendingKeeps(s, t, id, i, door, cfg);
    case Recording(i) =>
      assert t == InPhase(PartSent(s, id), Sending(i + 1)) by { RecordingWork(s, t, id, i, door, cfg); }
      RecordingKeeps(s, t, id, i, cfg);
    case Finishing(answer) => FinishingKeeps(s, t, id, answer, door, cfg);
  }

  lemma RecordingWork(s: State, t: State, id: FireId, i: nat, door: Door, cfg: Settings)
    requires AtHead(s, id) && s.worker.phase == Recording(i) && t == AfterWork(s, door, cfg)
    ensures t == InPhase(PartSent(s, id), Sending(i + 1))
  {
  }

  /** Who is reading a rule is no part of what the invariant speaks of. */
  lemma ReadersAside(s: State, t: State, cfg: Settings)
    requires t == s.(reading := t.reading, overtaken := t.overtaken)
    requires Invariant(s, cfg)
    ensures Invariant(t, cfg)
  {
    hide Tables, WorkerHolds, LogsHold, CapHolds;
    assert Quiet(s, t);
    QuietKeepsCap(s, t, cfg);
    ReadersApart(s, t, cfg);
    SameLogs(s, t);
  }

  lemma ReadersApart(s: State, t: State, cfg: Settings)
    requires t == s.(reading := t.reading, overtaken := t.overtaken)
    requires WorkerHolds(s, cfg) && Tables(s)
    ensures WorkerHolds(t, cfg) && Tables(t)
  {
    forall row | RowHolds(s, row) ensures RowHolds(t, row) {
    }
    if s.worker.Working? {
      QuietKeepsCounts(s, t, s.worker.queue[0].rule, s.worker.now - HOUR);
      assert QueueHolds(t, s.worker.queue);
    }
  }

  lemma GoesOffKeeps(s: State, t: State, reader: Reader, cause: Cause, text: string, id: FireId, cfg: Settings)
    requires reader in s.reading && s.reading[reader].rule in s.rules && id !in s.fires
    requires t == AfterGoesOff(s, reader, cause, text, id)
    requires Invariant(s, cfg)
    ensures Invariant(t, cfg)
  {
    hide WorkerHolds, LogsHold, CapHolds;
    var rule := s.reading[reader].rule;
    if Repeats(s, rule, cause) {
      hide Tables;
      ReadersAside(s, t, cfg);
    } else {
      assert Adds(s, t, rule, id);
      hide Tables, Adds;
      AddsKeeps(s, t, rule, id, cfg);
    }
  }

  lemma MayTake(s: State, due: seq<FireId>)
    requires Tables(s) && s.worker == Idle && forall i, j :: 0 <= i < j < |due| ==> due[i] != due[j]
    requires forall i :: 0 <= i < |due| ==> due[i] in s.fires && Due(s.fires[due[i]], s.clock)
    ensures Takes(s, due)
  {
  }

  /** Every step keeps the invariant: any answer of the door, an exception or a crash between any two statements. */
  lemma StepKeeps(s: State, step: Step, cfg: Settings)
    requires Ready(s) && Enabled(s, step, cfg)
    requires Invariant(s, cfg)
    ensures Invariant(After(s, step, cfg), cfg)
  {
    hide WorkerHolds, LogsHold, CapHolds, Tables;
    hide AfterWork, AfterGoesOff, AfterClaim;
    var t := After(s, step, cfg);
    match step {
      case Advance(to) => AdvanceKeeps(s, to, cfg);
      case Look(reader, rule) => ReadersAside(s, t, cfg);
      case GoesOff(reader, cause, text, id) => GoesOffKeeps(s, t, reader, cause, text, id, cfg);
      case Claim(due) =>
        MayTake(s, due);
        hide Takes;
        ClaimKeeps(s, t, due, cfg);
      case Work(door) => WorkKeeps(s, t, s.worker.queue[0].fire, door, cfg);
      case Stumble => DroppedKeeps(s, t, s.worker.queue[0].fire, cfg);
      case Crash => DroppedKeeps(s, t, s.worker.queue[0].fire, cfg);
    }
  }

  // ---- whole runs ------------------------------------------------------------------------------------------------

  ghost predicate Reaches(s: State, steps: seq<Step>, t: State, cfg: Settings)
    decreases |steps|
  {
    if steps == [] then t == s
    else Ready(s) && Enabled(s, steps[0], cfg) && Reaches(After(s, steps[0], cfg), steps[1..], t, cfg)
  }

  /** One more step on a run. */
  lemma {:induction false} OneMoreStep(s: State, steps: seq<Step>, t: State, step: Step, cfg: Settings)
    requires Reaches(s, steps, t, cfg) && Ready(t) && Enabled(t, step, cfg)
    ensures Reaches(s, steps + [step], After(t, step, cfg), cfg)
    decreases |steps|
  {
    hide Ready, Enabled, After;
    if steps == [] {
      assert [step][1..] == [];
      assert Reaches(After(t, step, cfg), [], After(t, step, cfg), cfg);
    } else {
      OneMoreStep(After(s, steps[0], cfg), steps[1..], t, step, cfg);
      assert (steps + [step])[1..] == steps[1..] + [step];
    }
  }

  /** One run after another. */
  lemma {:induction false} OneAfterAnother(s: State, steps: seq<Step>, t: State, more: seq<Step>, u: State, cfg: Settings)
    requires Reaches(s, steps, t, cfg) && Reaches(t, more, u, cfg)
    ensures Reaches(s, steps + more, u, cfg)
    decreases |steps|
  {
    hide Ready, Enabled, After;
    if steps == [] {
      assert steps + more == more;
    } else {
      OneAfterAnother(After(s, steps[0], cfg), steps[1..], t, more, u, cfg);
      assert (steps + more)[1..] == steps[1..] + more;
    }
  }

  /** Rules that have never gone off, and nothing else. */
  ghost predicate Fresh(s: State) {
    && s.fires == map[] && s.taken == map[] && s.mishaps == map[] && s.resumed == {} && s.worker == Idle && s.reading == map[]
    && forall rule :: rule in s.rules ==> s.rules[rule].lastFired == None
  }

  lemma FreshHolds(s: State, cfg: Settings)
    requires Fresh(s)
    ensures Invariant(s, cfg)
  {
  }

  /** The invariant holds wherever a run can get to, and nowhere is a run stuck for want of a fire or a rule. */
  lemma {:induction false} RunKeeps(s: State, steps: seq<Step>, t: State, cfg: Settings)
    requires Invariant(s, cfg) && Reaches(s, steps, t, cfg)
    ensures Invariant(t, cfg) && Ready(t)
    decreases |steps|
  {
    assert Ready(s) by { InvariantIsReady(s, cfg); }
    hide Invariant, Enabled, After;
    if steps != [] {
      StepKeeps(s, steps[0], cfg);
      RunKeeps(After(s, steps[0], cfg), steps[1..], t, cfg);
    }
  }

  // ---- what the door was told ------------------------------------------------------------------------------------

  /** A record with every run of repeats told once. */
  function Collapse(log: seq<nat>): seq<nat> {
    if |log| <= 1 then log
    else if log[|log| - 1] == log[|log| - 2] then Collapse(log[..|log| - 1])
    else Collapse(log[..|log| - 1]) + [log[|log| - 1]]
  }

  function Upto(n: nat): seq<nat> { seq(n, i => i) }

  lemma {:induction false} ClimbsCollapses(log: seq<nat>)
    requires Climbs(log)
    ensures Collapse(log) == Upto(Reached(log)) && Reached(log) <= |log|
  {
    if |log| > 1 {
      var most, last := log[..|log| - 1], log[|log| - 1];
      assert log[|log| - 2] <= log[|log| - 2 + 1] <= log[|log| - 2] + 1;
      forall i | 0 <= i < |most| - 1 ensures most[i] <= most[i + 1] <= most[i] + 1 {
        assert log[i] <= log[i + 1] <= log[i] + 1;
      }
      ClimbsCollapses(most);
    }
  }

  /** The messages behind a record of parts. */
  function Messages(f: Fire, log: seq<nat>): (told: seq<string>)
    requires forall i :: 0 <= i < |log| ==> log[i] < |PartsOf(f)|
    ensures |told| == |log| && forall i :: 0 <= i < |log| ==> told[i] == PartsOf(f)[log[i]]
  {
    seq(|log|, i requires 0 <= i < |log| => PartsOf(f)[log[i]])
  }

  /** What the door took of a fire is the fire's messages in order from the first, each told again only next to itself, and
      no more often than something went wrong; and a delivered fire's messages have all been taken. */
  lemma DoorIsToldInOrder(s: State, steps: seq<Step>, t: State, id: FireId, cfg: Settings)
    requires Fresh(s) && Reaches(s, steps, t, cfg)
    requires id in t.fires
    ensures id in t.taken && id in t.mishaps
    ensures Collapse(t.taken[id]) == Upto(Reached(t.taken[id])) && Reached(t.taken[id]) <= Total(t.fires[id])
    ensures Messages(t.fires[id], Collapse(t.taken[id])) == PartsOf(t.fires[id])[..Reached(t.taken[id])]
    ensures |t.taken[id]| - Reached(t.taken[id]) <= t.mishaps[id]
    ensures t.fires[id].state == Delivered ==> Reached(t.taken[id]) == Total(t.fires[id])
  {
    FreshHolds(s, cfg);
    RunKeeps(s, steps, t, cfg);
    hide Fresh, Reaches, Template.Parts;
    assert LogAt(t, id) by { hide Tables, WorkerHolds, CapHolds; }
    hide Invariant;
    ClimbsCollapses(t.taken[id]);
    AllInOrder(t.fires[id], Reached(t.taken[id]));
  }

  lemma AllInOrder(f: Fire, n: nat)
    requires n <= Total(f)
    ensures Messages(f, Upto(n)) == PartsOf(f)[..n]
  {
    hide Template.Parts;
  }

  /** The fire of old is still there, and still says what it said. */
  ghost predicate StillSays(s: State, t: State, id: FireId) {
    id in s.fires && id in t.fires && SameNews(s.fires[id], t.fires[id])
  }

  lemma StepKeepsText(s: State, step: Step, id: FireId, cfg: Settings)
    requires Ready(s) && Enabled(s, step, cfg) && id in s.fires
    ensures StillSays(s, After(s, step, cfg), id)
  {
    hide AfterWork;
    if step.Work? {
      WorkTouches(s, After(s, step, cfg), s.worker.queue[0].fire, step.door, cfg);
    }
  }

  /** A fire's text, and with it its messages, is the same at every moment of its life. */
  lemma {:induction false} TextStays(s: State, steps: seq<Step>, t: State, id: FireId, cfg: Settings)
    requires Reaches(s, steps, t, cfg) && id in s.fires
    ensures StillSays(s, t, id) && PartsOf(t.fires[id]) == PartsOf(s.fires[id])
    decreases |steps|
  {
    if steps != [] {
      hide Ready, Enabled, After, Template.Parts;
      StepKeepsText(s, steps[0], id, cfg);
      TextStays(After(s, steps[0], cfg), steps[1..], t, id, cfg);
    }
  }

  // ---- a fire that has had its last word -------------------------------------------------------------------------

  ghost predicate Kept(s: State, t: State, id: FireId) {
    && id in s.fires && id in t.fires && id in s.taken && id in t.taken
    && t.fires[id] == s.fires[id] && t.taken[id] == s.taken[id]
  }

  /** The same news, of the same rule and for the same cause. */
  predicate SameNews(f: Fire, g: Fire) {
    g.rule == f.rule && g.cause == f.cause && g.text == f.text && g.createdAt == f.createdAt
  }

  /** A step of the worker's touches the fire in hand and no other, switches no rule on, changes no rule's kind or cool-down,
      and at most makes a one-time rule forget. */
  ghost predicate WorksOn(s: State, t: State, id: FireId) {
    && id in s.fires && id in t.fires && t.fires == s.fires[id := t.fires[id]]
    && SameNews(s.fires[id], t.fires[id]) && t.fires[id].attempts == s.fires[id].attempts
    && t.clock == s.clock && t.reading == s.reading && t.overtaken == s.overtaken
    && id in s.taken && id in t.taken && t.taken == s.taken[id := t.taken[id]]
    && t.rules.Keys == s.rules.Keys
    && (forall rule :: rule in s.rules ==>
          && t.rules[rule].once == s.rules[rule].once && t.rules[rule].cooldown == s.rules[rule].cooldown
          && (t.rules[rule].enabled ==> s.rules[rule].enabled)
          && (t.rules[rule].lastFired == s.rules[rule].lastFired || (s.rules[rule].once && t.rules[rule].lastFired == None)))
  }

  lemma GiveUpWorksOn(s: State, t: State, id: FireId, state: FireState)
    requires AtHead(s, id) && t == GiveUp(s, state)
    ensures WorksOn(s, t, id)
  {
  }

  lemma FinishingWorksOn(s: State, t: State, id: FireId, door: Door, cfg: Settings)
    requires AtHead(s, id) && s.worker.phase.Finishing? && !s.worker.phase.answer.No? && t == AfterWork(s, door, cfg)
    ensures WorksOn(s, t, id)
  {
  }

  lemma WorkTouches(s: State, t: State, id: FireId, door: Door, cfg: Settings)
    requires AtHead(s, id) && t == AfterWork(s, door, cfg)
    ensures WorksOn(s, t, id)
  {
    hide Total, DeliveredSince, Backoff, GiveUp, WorksOn;
    match s.worker.phase {
      case Start =>
        InPhaseWorksOn(s, id);
        GiveUpWorksOn(s, GiveUp(s, Abandoned), id, Abandoned);
        GiveUpWorksOn(s, GiveUp(s, Undeliverable), id, Undeliverable);
      case Finishing(answer) =>
        if answer.No? {
          GiveUpWorksOn(s, GiveUp(s, Refused), id, Refused);
        } else {
          FinishingWorksOn(s, t, id, door, cfg);
        }
      case _ => SendingWorksOn(s, t, id, door, cfg);
    }
  }

  lemma InPhaseWorksOn(s: State, id: FireId)
    requires AtHead(s, id)
    ensures forall phase {:trigger InPhase(s, phase)} :: WorksOn(s, InPhase(s, phase), id)
  {
  }

  lemma SendingWorksOn(s: State, t: State, id: FireId, door: Door, cfg: Settings)
    requires AtHead(s, id) && !s.worker.phase.Start? && !s.worker.phase.Finishing? && t == AfterWork(s, door, cfg)
    ensures WorksOn(s, t, id)
  {
    hide Total, WorksOn, Heard, Settle, PartSent;
    match s.worker.phase {
      case Counted(_) =>
        InPhaseWorksOn(s, id);
        ThrottlingWorksOn(s, id);
      case Sending(i) =>
        InPhaseWorksOn(s, id);
        HearingWorksOn(s, id, i, door);
      case _ => RecordingWorksOn(s, t, id, door, cfg);
    }
  }

  lemma ThrottlingWorksOn(s: State, id: FireId)
    requires AtHead(s, id)
    ensures WorksOn(s, Popped(Settle(s, id, Throttled, s.worker.now)), id)
  {
  }

  lemma HearingWorksOn(s: State, id: FireId, i: nat, door: Door)
    requires AtHead(s, id)
    ensures WorksOn(s, Heard(s, id, i, door), id)
  {
  }

  lemma RecordingWorksOn(s: State, t: State, id: FireId, door: Door, cfg: Settings)
    requires AtHead(s, id) && s.worker.phase.Recording? && t == AfterWork(s, door, cfg)
    ensures WorksOn(s, t, id)
  {
  }

  lemma QueueWaits(s: State, id: FireId, cfg: Settings)
    requires AtHead(s, id) && WorkerHolds(s, cfg)
    ensures s.fires[id].state == Pending
  {
  }

  lemma StepKeepsSettled(s: State, step: Step, id: FireId, cfg: Settings)
    requires Ready(s) && Enabled(s, step, cfg)
    requires Keyed(s) && WorkerHolds(s, cfg) && id in s.fires && s.fires[id].state != Pending
    ensures Kept(s, After(s, step, cfg), id)
  {
    hide AfterWork, WorkerHolds;
    match step {
      case Advance(to) =>
      case Look(reader, rule) =>
      case GoesOff(reader, cause, text, added) =>
      case Claim(due) =>
        assert id !in due;
      case Work(door) =>
        QueueWaits(s, s.worker.queue[0].fire, cfg);
        WorkTouches(s, After(s, step, cfg), s.worker.queue[0].fire, door, cfg);
      case Stumble =>
      case Crash =>
    }
  }

  lemma InvariantKeys(s: State, cfg: Settings)
    requires Invariant(s, cfg)
    ensures Keyed(s) && WorkerHolds(s, cfg)
  {
  }

  lemma NoSteps(s: State, t: State, cfg: Settings)
    requires Reaches(s, [], t, cfg)
    ensures t == s
  {
  }

  /** A fire with its last word is never changed, and never sent, again. */
  lemma {:induction false} SettledIsFinal(s: State, steps: seq<Step>, t: State, id: FireId, cfg: Settings)
    requires Invariant(s, cfg) && Reaches(s, steps, t, cfg)
    requires id in s.fires && s.fires[id].state != Pending
    ensures Kept(s, t, id)
    decreases |steps|
  {
    hide Invariant, Enabled, After, WorkerHolds, Ready;
    InvariantKeys(s, cfg);
    if steps == [] {
      hide Reaches;
      assert t == s by { NoSteps(s, t, cfg); }
    } else {
      StepKeeps(s, steps[0], cfg);
      StepKeepsSettled(s, steps[0], id, cfg);
      SettledIsFinal(After(s, steps[0], cfg), steps[1..], t, id, cfg);
    }
  }

  // ---- a fire that waits -----------------------------------------------------------------------------------------

  /** The door asked for no wait longer than this. */
  predicate Asks(door: Door, longest: Time) {
    door.answer.Again? && door.answer.wait.Some? ==> door.answer.wait.value as real <= longest
  }

  ghost predicate NoLongerThan(steps: seq<Step>, longest: Time) {
    forall i :: 0 <= i < |steps| && steps[i].Work? ==> Asks(steps[i].door, longest)
  }

  /** No fire is put off for longer than that, no answer in hand asks it, and nobody has read a rule in the future. */
  ghost predicate WaitsHold(s: State, longest: Time) {
    && (forall id :: id in s.fires && s.fires[id].nextAttempt.Some? ==> s.fires[id].nextAttempt.value <= s.clock + longest)
    && (forall reader :: reader in s.reading ==> s.reading[reader].now <= s.clock)
    && (s.worker.Working? && s.worker.phase.Finishing? ==> Asks(Door(true, s.worker.phase.answer), longest))
    && (s.worker.Working? ==> s.worker.now <= s.clock)
  }

  lemma {:induction false} BackoffIsBounded(attempts: nat)
    ensures Backoff(attempts) <= LONGEST_RETRY
  {
  }

  ghost predicate SameDates(s: State, t: State) {
    && t.clock == s.clock && t.reading == s.reading && t.fires.Keys == s.fires.Keys
    && (forall id :: id in s.fires && t.fires[id].nextAttempt.Some? ==> t.fires[id].nextAttempt == s.fires[id].nextAttempt)
    && (s.worker.Working? && t.worker.Working? ==> t.worker.now == s.worker.now)
  }

  lemma GiveUpKeepsDates(s: State, t: State, id: FireId, state: FireState)
    requires AtHead(s, id) && t == GiveUp(s, state)
    ensures SameDates(s, t) && (t.worker.Working? ==> t.worker.phase == Start)
  {
  }

  /** Nothing but the end of sending puts a fire off. */
  lemma WorkKeepsDates(s: State, t: State, id: FireId, door: Door, cfg: Settings)
    requires AtHead(s, id) && t == AfterWork(s, door, cfg) && !s.worker.phase.Finishing?
    ensures SameDates(s, t)
    ensures t.worker.Working? && t.worker.phase.Finishing? ==> t.worker.phase.answer in {Ok, door.answer}
  {
    if s.worker.phase == Start {
      GiveUpKeepsDates(s, GiveUp(s, Abandoned), id, Abandoned);
      GiveUpKeepsDates(s, GiveUp(s, Undeliverable), id, Undeliverable);
      hide DeliveredSince, GiveUp;
    } else {
      SendingKeepsDates(s, t, id, door, cfg);
      hide AfterWork;
    }
  }

  lemma SendingKeepsDates(s: State, t: State, id: FireId, door: Door, cfg: Settings)
    requires AtHead(s, id) && t == AfterWork(s, door, cfg) && !s.worker.phase.Start? && !s.worker.phase.Finishing?
    ensures SameDates(s, t)
    ensures t.worker.Working? && t.worker.phase.Finishing? ==> t.worker.phase.answer in {Ok, door.answer}
  {
    hide Total, DeliveredSince;
    if s.worker.phase.Counted? {
      ThrottlingKeepsDates(s, id);
      hide Settle, SameDates;
    }
  }

  lemma ThrottlingKeepsDates(s: State, id: FireId)
    requires AtHead(s, id)
    ensures SameDates(s, Popped(Settle(s, id, Throttled, s.worker.now))) && SameDates(s, InPhase(s, Sending(0)))
  {
  }

  lemma TellingKeepsDates(s: State, t: State, id: FireId, door: Door, cfg: Settings)
    requires AtHead(s, id) && s.worker.phase == Finishing(Ok) && t == AfterWork(s, door, cfg)
    ensures SameDates(s, t) && (t.worker.Working? ==> t.worker.phase == Start)
  {
  }

  lemma SameDatesWait(s: State, t: State, longest: Time)
    requires SameDates(s, t) && WaitsHold(s, longest) && (t.worker.Working? ==> s.worker.Working?)
    requires t.worker.Working? && t.worker.phase.Finishing? ==> Asks(Door(true, t.worker.phase.answer), longest)
    ensures WaitsHold(t, longest)
  {
  }

  lemma RetryKeepsWaits(s: State, t: State, id: FireId, door: Door, longest: Time, cfg: Settings)
    requires AtHead(s, id) && s.worker.phase.Finishing? && s.worker.phase.answer.Again? && t == AfterWork(s, door, cfg)
    requires longest >= LONGEST_RETRY && WaitsHold(s, longest)
    ensures WaitsHold(t, longest)
  {
    BackoffIsBounded(s.worker.queue[0].attempts);
    hide Backoff;
  }

  lemma FinishingKeepsWaits(s: State, t: State, id: FireId, door: Door, longest: Time, cfg: Settings)
    requires AtHead(s, id) && s.worker.phase.Finishing? && t == AfterWork(s, door, cfg)
    requires longest >= LONGEST_RETRY && WaitsHold(s, longest)
    ensures WaitsHold(t, longest)
  {
    hide WaitsHold, SameDates, GiveUp, Backoff;
    match s.worker.phase.answer {
      case Ok =>
        TellingKeepsDates(s, t, id, door, cfg);
        SameDatesWait(s, t, longest);
      case Again(_) => RetryKeepsWaits(s, t, id, door, longest, cfg);
      case No =>
        GiveUpKeepsDates(s, t, id, Refused);
        SameDatesWait(s, t, longest);
    }
  }


  lemma WorkKeepsWaits(s: State, t: State, id: FireId, door: Door, longest: Time, cfg: Settings)
    requires AtHead(s, id) && t == AfterWork(s, door, cfg) && Asks(door, longest)
    requires longest >= LONGEST_RETRY && WaitsHold(s, longest)
    ensures WaitsHold(t, longest)
  {
    if s.worker.phase.Finishing? {
      FinishingKeepsWaits(s, t, id, door, longest, cfg);
    } else {
      WorkKeepsDates(s, t, id, door, cfg);
      hide AfterWork;
      SameDatesWait(s, t, longest);
    }
  }

  lemma StepKeepsWaits(s: State, step: Step, longest: Time, cfg: Settings)
    requires Ready(s) && Enabled(s, step, cfg) && (step.Work? ==> Asks(step.door, longest))
    requires longest >= LONGEST_RETRY && WaitsHold(s, longest)
    ensures WaitsHold(After(s, step, cfg), longest)
  {
    hide AfterWork, RowsOf;
    if step.Work? {
      WorkKeepsWaits(s, After(s, step, cfg), s.worker.queue[0].fire, step.door, longest, cfg);
    }
  }

  lemma {:induction false} RunKeepsWaits(s: State, steps: seq<Step>, t: State, longest: Time, cfg: Settings)
    requires Reaches(s, steps, t, cfg) && NoLongerThan(steps, longest)
    requires longest >= LONGEST_RETRY && WaitsHold(s, longest)
    ensures WaitsHold(t, longest)
    decreases |steps|
  {
    if steps != [] {
      hide Ready, Enabled, After, WaitsHold;
      StepKeepsWaits(s, steps[0], longest, cfg);
      RunKeepsWaits(After(s, steps[0], cfg), steps[1..], t, longest, cfg);
    }
  }

  /** Whatever died, and whenever: a waiting fire is one the next claim takes, within the longest wait the door has ever asked
      for, or a quarter of an hour when it asked for none as long. */
  lemma NothingIsLost(s: State, steps: seq<Step>, t: State, id: FireId, longest: Time, cfg: Settings)
    requires Fresh(s) && Reaches(s, steps, t, cfg) && NoLongerThan(steps, longest) && longest >= LONGEST_RETRY
    requires id in t.fires && t.fires[id].state == Pending && t.worker == Idle
    ensures exists at :: t.clock <= at <= t.clock + longest && Enabled(t.(clock := at), Claim([id]), cfg)
  {
    assert WaitsHold(s, longest);
    hide Reaches, WaitsHold, Tables, WorkerHolds, LogsHold, CapHolds, Fresh, NoLongerThan, Enabled;
    FreshHolds(s, cfg);
    RunKeeps(s, steps, t, cfg);
    RunKeepsWaits(s, steps, t, longest, cfg);
    WaitingComesDue(t, id, longest, cfg);
  }

  lemma WaitingComesDue(t: State, id: FireId, longest: Time, cfg: Settings)
    requires Tables(t) && id in t.fires && t.fires[id].state == Pending && t.worker == Idle
    requires longest >= LONGEST_RETRY && WaitsHold(t, longest)
    ensures exists at :: t.clock <= at <= t.clock + longest && Enabled(t.(clock := at), Claim([id]), cfg)
  {
    var at := if t.fires[id].nextAttempt.value > t.clock then t.fires[id].nextAttempt.value else t.clock;
    hide Tables;
    assert Enabled(t.(clock := at), Claim([id]), cfg);
  }

  // ---- the flood the cap is there to stop ------------------------------------------------------------------------

  /** No hour holds more deliveries of a rule than the rule's own limit, or than the settings' where it names none, but for the
      fires taken up again with a part already sent. */
  lemma HourlyCap(s: State, steps: seq<Step>, t: State, rule: RuleId, u: Time, cfg: Settings)
    requires Fresh(s) && Reaches(s, steps, t, cfg)
    requires rule in t.rules
    ensures t.rules[rule].maxPerHour.Some? && t.rules[rule].maxPerHour.value > 0 ==>
      |Window(t, rule, u)| <= t.rules[rule].maxPerHour.value + |Window(t, rule, u) * t.resumed|
    ensures t.rules[rule].maxPerHour.None? || t.rules[rule].maxPerHour.value == 0 ==>
      |Window(t, rule, u)| <= cfg.maxPerHour + |Window(t, rule, u) * t.resumed|
  {
    FreshHolds(s, cfg);
    RunKeeps(s, steps, t, cfg);
    hide Tables, LogsHold, WorkerHolds, Fresh, Reaches;
    HourIsWithinCap(t, rule, u, cfg);
    hide Window, CapHolds;
  }

  lemma HourIsWithinCap(t: State, rule: RuleId, u: Time, cfg: Settings)
    requires CapHolds(t, cfg) && rule in t.rules
    ensures |Window(t, rule, u)| <= CapOf(t.rules[rule].maxPerHour, cfg) + |Window(t, rule, u) * t.resumed|
  {
    var all := Window(t, rule, u);
    hide CapOf, Window;
    assert all == (all - t.resumed) + (all * t.resumed);
  }
}
