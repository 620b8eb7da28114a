/**
 The agent's turn: the model is asked, the tools it asks for are run, and it is asked again. The model, the tools, the
 trace, the operator's stop and everyone told of a call are the world's, and the world may answer anything.
 */
module Agent {
  import opened Wrappers

  const CEILING: nat := 16
  const RECURSION_LIMIT: nat := 2 * CEILING + 5

  // ---- what the world says ---------------------------------------------------------------------------------------

  datatype Request = Request(id: string, name: string, arguments: string)

  /** One piece of the model's answer; telling the operator a text may fail. */
  datatype Chunk = Text(text: string, told: bool) | Ask(request: Request) | Usage(tokens: nat)

  /** One answer: whether a stop was asked for before it; its pieces; after which a stop is seen, and where it breaks. */
  datatype ModelAnswer = ModelAnswer(stopFirst: bool, chunks: seq<Chunk>, stopAfter: nat -> bool, breaks: Option<nat>)

  datatype Outcome = Outcome(kind: string, text: string, ms: nat)

  /** What happens to one request: a local tool's outcome unless it raised, the trace's row unless it could not be written,
      the server's outcome unless the call raised, whether the trace was settled, and whether the caller could be told. */
  datatype ToolAnswer =
    ToolAnswer(local: Option<Outcome>, row: Option<nat>, server: Option<Outcome>, settled: bool, announced: bool)

  datatype World = World(models: nat -> ModelAnswer, tools: nat -> (nat -> ToolAnswer))

  /** What the graph is built with. */
  datatype Built = Built(tools: seq<string>, locals: set<string>, server: bool, trace: bool, moves: string -> bool)

  // ---- the turn's state ------------------------------------------------------------------------------------------

  datatype Result = Result(id: string, name: string, text: string)

  datatype Round = Round(requests: seq<Request>, results: seq<Result>)

  datatype Recorded = Recorded(round: nat, request: Request, outcome: Outcome, row: Option<nat>)

  /** What left this process, in order. */
  datatype Event =
    | Begun(row: nat, round: nat, position: nat, request: Request)
    | Sent(request: Request, round: nat, position: nat)
    | Settled(row: nat, outcome: Outcome)
    | RanHere(request: Request)

  datatype Turn = Turn(
    text: string, usages: seq<Option<nat>>, rounds: seq<Round>, calls: seq<Recorded>, made: nat, pending: seq<Request>,
    failed: bool, stopped: bool, raised: bool, events: seq<Event>)

  const FRESH := Turn("", [], [], [], 0, [], false, false, false, [])

  const REFUSED := "not called: this turn has already made as many tool calls as it may"
  const NO_SERVER := Outcome("unavailable", "no tool server is available", 0)
  const LOCAL_FAILED := Outcome("unavailable", "this tool failed unexpectedly", 0)
  const NOT_TRACED := Outcome("unavailable", "this call was not sent: its record could not be written", 0)

  // ---- the model's answer ----------------------------------------------------------------------------------------

  datatype Stream = Stream(text: string, requests: seq<Request>, usage: Option<nat>, end: StreamEnd)

  datatype StreamEnd = Done | Stopped | Broke

  /** The answer from its `i`-th piece on, given what came before. */
  function Rest(a: ModelAnswer, i: nat, so: Stream): Stream
    decreases |a.chunks| - i
  {
    if a.breaks == Some(i) then so.(end := Broke)
    else if i >= |a.chunks| then so
    else
      var next := Taken(so, a.chunks[i]);
      if a.chunks[i].Text? && !a.chunks[i].told then next.(end := Broke)
      else if a.stopAfter(i) then next.(end := Stopped)
      else Rest(a, i + 1, next)
  }

  function Taken(so: Stream, chunk: Chunk): Stream {
    match chunk
    case Text(text, told) => so.(text := so.text + text)
    case Ask(request) => so.(requests := so.requests + [request])
    case Usage(tokens) => so.(usage := Some(tokens))
  }

  predicate Offered(b: Built, s: Turn) { s.made < CEILING && b.tools != [] }

  /** The `model` node. */
  function AfterModel(b: Built, s: Turn, a: ModelAnswer): Turn {
    if a.stopFirst then s.(pending := [], stopped := true)
    else
      var heard := Rest(a, 0, Stream("", [], None, Done));
      var told := s.(text := s.text + heard.text, usages := s.usages + [heard.usage]);
      match heard.end
      case Stopped => told.(pending := [], failed := false, stopped := true)
      case Broke => told.(pending := [], failed := true)
      case Done => told.(pending := if Offered(b, s) then heard.requests else [], failed := false)
  }

  // ---- the tools -------------------------------------------------------------------------------------------------

  /** What one call came to, unless it raised, and what of it left this process. */
  datatype Handled = Handled(outcome: Option<Outcome>, row: Option<nat>, events: seq<Event>)

  predicate Traced(b: Built, name: string) { b.trace && b.moves(name) }

  /** One call to the server, with a row written first if it can move the account. A call that raises has been sent all the
      same, and its row stays begun. */
  function ThroughTheServer(b: Built, request: Request, round: nat, position: nat, a: ToolAnswer): Handled {
    if !Traced(b, request.name) then Handled(a.server, None, [Sent(request, round, position)])
    else
      match a.row
      case None => Handled(Some(NOT_TRACED), None, [])
      case Some(row) =>
        Handled(a.server, Some(row),
                [Begun(row, round, position, request), Sent(request, round, position)]
                + if a.server.Some? && a.settled then [Settled(row, a.server.value)] else [])
  }

  function Handle(b: Built, request: Request, round: nat, position: nat, a: ToolAnswer): Handled {
    if request.name in b.locals then
      Handled(Some(if a.local.Some? then a.local.value else LOCAL_FAILED), None, [RanHere(request)])
    else if b.server then ThroughTheServer(b, request, round, position, a)
    else Handled(Some(NO_SERVER), None, [])
  }

  /** The round so far. */
  datatype Running = Running(made: nat, results: seq<Result>, recorded: seq<Recorded>, events: seq<Event>, raised: bool)

  function OneRequest(b: Built, request: Request, round: nat, a: ToolAnswer, so: Running): Running {
    if so.made >= CEILING then so.(results := so.results + [Result(request.id, request.name, REFUSED)])
    else
      var h := Handle(b, request, round, |so.recorded|, a);
      match h.outcome
      case None => so.(events := so.events + h.events, raised := true)
      case Some(outcome) =>
        Running(so.made + 1, so.results + [Result(request.id, request.name, outcome.text)],
                so.recorded + [Recorded(round, request, outcome, h.row)], so.events + h.events, !a.announced)
  }

  /** The first `n` of the requests, one after another, until one raises or telling the caller of it does. */
  function Requests(b: Built, requests: seq<Request>, n: nat, round: nat, answers: nat -> ToolAnswer, made: nat): Running
    requires n <= |requests|
  {
    if n == 0 then Running(made, [], [], [], false)
    else
      var so := Requests(b, requests, n - 1, round, answers, made);
      if so.raised then so else OneRequest(b, requests[n - 1], round, answers(n - 1), so)
  }

  /** The `tools` node. When it raises, what it would have returned is lost, but not what it did. */
  function AfterTools(b: Built, s: Turn, answers: nat -> ToolAnswer): Turn {
    var so := Requests(b, s.pending, |s.pending|, |s.rounds|, answers, s.made);
    if so.raised then s.(events := s.events + so.events, raised := true)
    else
      s.(rounds := s.rounds + [Round(s.pending, so.results)], calls := s.calls + so.recorded, made := so.made, pending := [],
         events := s.events + so.events)
  }

  predicate ToTools(s: Turn) { !s.failed && !s.stopped && s.pending != [] }

  // ---- a round answers every request, in order, and runs no more than it may -------------------------------------

  function Min(a: nat, b: nat): nat { if a <= b then a else b }

  ghost predicate Answers(requests: seq<Request>, results: seq<Result>) {
    && |results| == |requests|
    && forall i :: 0 <= i < |requests| ==> results[i].id == requests[i].id && results[i].name == requests[i].name
  }

  /** What was run is the first of what was asked for, and its results are what it came to; the rest was turned down. */
  ghost predicate RunsTheFirst(requests: seq<Request>, round: nat, so: Running) {
    && |so.recorded| <= |requests| && |so.recorded| <= |so.results|
    && (forall i :: 0 <= i < |so.recorded| ==>
          && so.recorded[i].round == round && so.recorded[i].request == requests[i]
          && so.results[i].text == so.recorded[i].outcome.text)
    && (forall i :: |so.recorded| <= i < |so.results| ==> so.results[i].text == REFUSED)
  }

  lemma {:induction false} RoundAnswersAll(b: Built, requests: seq<Request>, n: nat, round: nat,
                                           answers: nat -> ToolAnswer, made: nat)
    requires n <= |requests| && made <= CEILING
    ensures var so := Requests(b, requests, n, round, answers, made);
      && so.made == made + |so.recorded| <= CEILING
      && RunsTheFirst(requests[..n], round, so)
      && (!so.raised ==> Answers(requests[..n], so.results) && |so.recorded| == Min(n, CEILING - made))
  {
    hide Handle;
    if n > 0 {
      RoundAnswersAll(b, requests, n - 1, round, answers, made);
      var less := requests[..n - 1];
      assert requests[..n] == less + [requests[n - 1]];
    }
  }

  lemma {:induction false} RaisedStays(b: Built, requests: seq<Request>, n: nat, later: nat, round: nat,
                                       answers: nat -> ToolAnswer, made: nat)
    requires n <= later <= |requests| && Requests(b, requests, n, round, answers, made).raised
    ensures Requests(b, requests, later, round, answers, made) == Requests(b, requests, n, round, answers, made)
    decreases later
  {
    if n < later {
      RaisedStays(b, requests, n, later - 1, round, answers, made);
    }
  }

  // ---- the record goes first -------------------------------------------------------------------------------------

  /** A call that can move the account is sent right after its own row was begun, and only a call that was sent is settled. */
  ghost predicate WrittenAhead(b: Built, events: seq<Event>) {
    && (forall i :: 0 <= i < |events| && events[i].Sent? && Traced(b, events[i].request.name) ==>
          && i > 0 && events[i - 1].Begun? && events[i - 1].request == events[i].request
          && events[i - 1].round == events[i].round && events[i - 1].position == events[i].position)
    && (forall i :: 0 <= i < |events| && events[i].Settled? ==>
          i > 1 && events[i - 1].Sent? && events[i - 2].Begun? && events[i - 2].row == events[i].row)
  }

  /** No call is sent twice: each is of its own round and place in it, and they come in that order. */
  ghost predicate SentInOrder(events: seq<Event>, round: nat, position: nat) {
    && (forall i :: 0 <= i < |events| && events[i].Sent? ==> Before(events[i].round, events[i].position, round, position))
    && (forall i, j :: 0 <= i < j < |events| && events[i].Sent? && events[j].Sent? ==>
          Before(events[i].round, events[i].position, events[j].round, events[j].position))
  }

  predicate Before(round: nat, position: nat, otherRound: nat, otherPosition: nat) {
    round < otherRound || (round == otherRound && position < otherPosition)
  }

  lemma HandleWritesAhead(b: Built, request: Request, round: nat, position: nat, a: ToolAnswer)
    ensures WrittenAhead(b, Handle(b, request, round, position, a).events)
    ensures forall e :: e in Handle(b, request, round, position, a).events && e.Sent? ==> e == Sent(request, round, position)
  {
  }

  lemma OneMoreCall(b: Built, events: seq<Event>, request: Request, round: nat, position: nat, a: ToolAnswer)
    requires WrittenAhead(b, events) && SentInOrder(events, round, position)
    ensures WrittenAhead(b, events + Handle(b, request, round, position, a).events)
    ensures SentInOrder(events + Handle(b, request, round, position, a).events, round, position + 1)
  {
    var more := Handle(b, request, round, position, a).events;
    var all := events + more;
    HandleWritesAhead(b, request, round, position, a);
    assert forall i :: |events| <= i < |all| ==> all[i] == more[i - |events|];
    forall i | 0 <= i < |all| && all[i].Settled?
      ensures i > 1 && all[i - 1].Sent? && all[i - 2].Begun? && all[i - 2].row == all[i].row {
    }
    forall i, j | 0 <= i < j < |all| && all[i].Sent? && all[j].Sent?
      ensures Before(all[i].round, all[i].position, all[j].round, all[j].position) {
      assert j >= |events| ==> all[j] in more;
    }
  }

  lemma LaterPosition(events: seq<Event>, round: nat, position: nat, later: nat)
    requires SentInOrder(events, round, position) && position <= later
    ensures SentInOrder(events, round, later)
  {
  }

  /** How far a round has come in sending: the call that raised was sent too. */
  function Position(so: Running): nat { |so.recorded| + if so.raised then 1 else 0 }

  lemma RequestWritesAhead(b: Built, request: Request, round: nat, a: ToolAnswer, less: Running, before: seq<Event>)
    requires WrittenAhead(b, before + less.events) && SentInOrder(before + less.events, round, |less.recorded|) && !less.raised
    ensures var so := OneRequest(b, request, round, a, less);
      WrittenAhead(b, before + so.events) && SentInOrder(before + so.events, round, Position(so))
  {
    hide WrittenAhead, SentInOrder, Handle;
    if less.made < CEILING {
      var more := Handle(b, request, round, |less.recorded|, a).events;
      OneMoreCall(b, before + less.events, request, round, |less.recorded|, a);
      assert before + (less.events + more) == (before + less.events) + more;
      LaterPosition(before + (less.events + more), round, |less.recorded| + 1, Position(OneRequest(b, request, round, a, less)));
    }
  }

  lemma {:induction false} RoundWritesAhead(b: Built, requests: seq<Request>, n: nat, round: nat,
                                            answers: nat -> ToolAnswer, made: nat, before: seq<Event>)
    requires n <= |requests| && WrittenAhead(b, before) && SentInOrder(before, round, 0)
    ensures var so := Requests(b, requests, n, round, answers, made);
      WrittenAhead(b, before + so.events) && SentInOrder(before + so.events, round, Position(so))
  {
    hide WrittenAhead, SentInOrder, OneRequest;
    if n == 0 {
      assert before + [] == before;
    } else {
      RoundWritesAhead(b, requests, n - 1, round, answers, made, before);
      var less := Requests(b, requests, n - 1, round, answers, made);
      if !less.raised {
        RequestWritesAhead(b, requests[n - 1], round, answers(n - 1), less, before);
      }
    }
  }

  // ---- what was run, kept or not ---------------------------------------------------------------------------------

  predicate Runs(e: Event) { e.Sent? || e.RanHere? }

  /** How many tools were run, here or at the server. */
  function RunCount(events: seq<Event>): nat {
    if events == [] then 0 else RunCount(events[..|events| - 1]) + if Runs(events[|events| - 1]) then 1 else 0
  }

  lemma {:induction false} RunCountJoins(events: seq<Event>, more: seq<Event>)
    ensures RunCount(events + more) == RunCount(events) + RunCount(more)
  {
    if more == [] {
      assert events + more == events;
    } else {
      RunCountJoins(events, more[..|more| - 1]);
      assert (events + more)[..|events + more| - 1] == events + more[..|more| - 1];
    }
  }

  /** One request runs one tool at most. */
  lemma HandleRunsOne(b: Built, request: Request, round: nat, position: nat, a: ToolAnswer)
    ensures RunCount(Handle(b, request, round, position, a).events) <= 1
  {
    var events := Handle(b, request, round, position, a).events;
    if |events| >= 1 { assert RunCount(events[..1]) == (if Runs(events[0]) then 1 else 0) by { assert events[..1][..0] == []; } }
    if |events| >= 2 { assert events[..2][..1] == events[..1]; }
    if |events| == 3 { assert events[..3][..2] == events[..2] && events[..3] == events; }
    assert |events| == 2 ==> events[..2] == events;
    assert |events| == 1 ==> events[..1] == events;
  }

  /** A round runs what it recorded, and one call more at most if it raised, which it does below the ceiling. */
  lemma {:induction false} RoundRunsNoMore(b: Built, requests: seq<Request>, n: nat, round: nat,
                                           answers: nat -> ToolAnswer, made: nat)
    requires n <= |requests| && made <= CEILING
    ensures var so := Requests(b, requests, n, round, answers, made);
      && so.made == made + |so.recorded| && (so.raised ==> made + RunCount(so.events) <= CEILING)
      && (!so.raised ==> RunCount(so.events) <= |so.recorded|)
  {
    if n > 0 {
      RoundRunsNoMore(b, requests, n - 1, round, answers, made);
      var so := Requests(b, requests, n - 1, round, answers, made);
      if !so.raised && so.made < CEILING {
        HandleRunsOne(b, requests[n - 1], round, |so.recorded|, answers(n - 1));
        RunCountJoins(so.events, Handle(b, requests[n - 1], round, |so.recorded|, answers(n - 1)).events);
      }
    }
  }

  /** Within the ceiling, and what was run was counted — but for the round that raised, whose count is lost. */
  ghost predicate RunsWithin(s: Turn) {
    RunCount(s.events) <= if s.raised then CEILING else s.made
  }

  lemma ToolsRunWithin(b: Built, s: Turn, answers: nat -> ToolAnswer)
    requires RunsWithin(s) && !s.raised && s.made <= CEILING
    ensures RunsWithin(AfterTools(b, s, answers))
  {
    var so := Requests(b, s.pending, |s.pending|, |s.rounds|, answers, s.made);
    RoundAnswersAll(b, s.pending, |s.pending|, |s.rounds|, answers, s.made);
    RoundRunsNoMore(b, s.pending, |s.pending|, |s.rounds|, answers, s.made);
    RunCountJoins(s.events, so.events);
    hide Requests, RunCount, RunsTheFirst, Answers;
  }

  // ---- the whole turn --------------------------------------------------------------------------------------------

  /** Everything asked for in the rounds so far. */
  function Asked(rounds: seq<Round>): seq<Request> {
    if rounds == [] then [] else Asked(rounds[..|rounds| - 1]) + rounds[|rounds| - 1].requests
  }

  /** Every round answered; and of all that was asked for, the first sixteen were run, in order. */
  ghost predicate TurnHolds(s: Turn) {
    && (forall i :: 0 <= i < |s.rounds| ==> Answers(s.rounds[i].requests, s.rounds[i].results))
    && s.made == |s.calls| == Min(|Asked(s.rounds)|, CEILING)
    && (forall i :: 0 <= i < |s.calls| ==> s.calls[i].request == Asked(s.rounds)[i])
  }

  /** What leaves this process is in order whether or not the turn got to its end. */
  ghost predicate WorldHolds(b: Built, s: Turn, done: nat) {
    WrittenAhead(b, s.events) && SentInOrder(s.events, done, 0)
  }

  lemma SentSince(events: seq<Event>, round: nat, position: nat)
    requires SentInOrder(events, round, position)
    ensures SentInOrder(events, round + 1, 0)
  {
  }

  lemma ModelKeeps(b: Built, s: Turn, a: ModelAnswer)
    requires TurnHolds(s) && s.pending == []
    ensures TurnHolds(AfterModel(b, s, a)) && AfterModel(b, s, a).made == s.made && AfterModel(b, s, a).events == s.events
    ensures ToTools(AfterModel(b, s, a)) ==> s.made < CEILING
  {
  }

  lemma ToolsKeep(b: Built, s: Turn, answers: nat -> ToolAnswer)
    requires TurnHolds(s) && s.pending != [] && s.made < CEILING
    ensures var t := AfterTools(b, s, answers);
      TurnHolds(t) && (!t.raised ==> s.made < t.made <= CEILING && t.pending == [] && |t.rounds| == |s.rounds| + 1)
  {
    var t := AfterTools(b, s, answers);
    RoundAnswersAll(b, s.pending, |s.pending|, |s.rounds|, answers, s.made);
    assert s.pending[..|s.pending|] == s.pending;
    hide Requests;
    if !t.raised {
      RoundAdded(s, t, Requests(b, s.pending, |s.pending|, |s.rounds|, answers, s.made));
    }
  }

  /** A round that was answered whole leaves the turn as it should be. */
  lemma RoundAdded(s: Turn, t: Turn, so: Running)
    requires TurnHolds(s) && Answers(s.pending, so.results) && RunsTheFirst(s.pending, |s.rounds|, so)
    requires |so.recorded| == Min(|s.pending|, CEILING - s.made) && so.made == s.made + |so.recorded|
    requires t.rounds == s.rounds + [Round(s.pending, so.results)] && t.calls == s.calls + so.recorded && t.made == so.made
    ensures TurnHolds(t)
  {
  }

  lemma ToolsWriteAhead(b: Built, s: Turn, answers: nat -> ToolAnswer)
    requires WorldHolds(b, s, |s.rounds|)
    ensures WorldHolds(b, AfterTools(b, s, answers), |s.rounds| + 1)
  {
    RoundWritesAhead(b, s.pending, |s.pending|, |s.rounds|, answers, s.made, s.events);
    var so := Requests(b, s.pending, |s.pending|, |s.rounds|, answers, s.made);
    SentSince(s.events + so.events, |s.rounds|, Position(so));
  }

  /** The turn from here to its end, and the node steps it takes. */
  ghost function Finish(b: Built, s: Turn, w: World): (end: (Turn, nat))
    requires TurnHolds(s) && s.pending == []
    decreases CEILING - s.made
  {
    var asked := AfterModel(b, s, w.models(|s.rounds|));
    ModelKeeps(b, s, w.models(|s.rounds|));
    if !ToTools(asked) then (asked, 1)
    else
      var ran := AfterTools(b, asked, w.tools(|s.rounds|));
      ToolsKeep(b, asked, w.tools(|s.rounds|));
      if ran.raised then (ran, 2)
      else
        var end := Finish(b, ran, w);
        (end.0, end.1 + 2)
  }

  /** One round of the turn: it ends with the model, or it raises in the tools, or it goes on with fewer calls to make. */
  lemma FinishUnfolds(b: Built, s: Turn, w: World)
    requires TurnHolds(s) && s.pending == []
    ensures var asked := AfterModel(b, s, w.models(|s.rounds|));
      && asked.rounds == s.rounds && asked.raised == s.raised
      && (!ToTools(asked) ==> Finish(b, s, w) == (asked, 1))
      && (ToTools(asked) ==>
            var ran := AfterTools(b, asked, w.tools(|s.rounds|));
            if ran.raised then !s.raised ==> Finish(b, s, w) == (ran, 2)
            else
              && TurnHolds(ran) && ran.pending == [] && s.made < ran.made <= CEILING
              && Finish(b, s, w) == (Finish(b, ran, w).0, Finish(b, ran, w).1 + 2))
  {
    var asked := AfterModel(b, s, w.models(|s.rounds|));
    ModelKeeps(b, s, w.models(|s.rounds|));
    if ToTools(asked) {
      ToolsKeep(b, asked, w.tools(|s.rounds|));
      hide TurnHolds, AfterTools;
    }
  }

  /** From anywhere in a turn, no more steps than two for each call it may still make, and one to end on. */
  lemma {:induction false} StepsAreBounded(b: Built, s: Turn, w: World)
    requires TurnHolds(s) && s.pending == []
    ensures Finish(b, s, w).1 <= 2 * (CEILING - s.made) + 1
    ensures TurnHolds(Finish(b, s, w).0)
    decreases CEILING - s.made
  {
    var asked := AfterModel(b, s, w.models(|s.rounds|));
    ModelKeeps(b, s, w.models(|s.rounds|));
    if ToTools(asked) {
      ToolsKeep(b, asked, w.tools(|s.rounds|));
      var ran := AfterTools(b, asked, w.tools(|s.rounds|));
      hide AfterModel, AfterTools, TurnHolds;
      if !ran.raised {
        StepsAreBounded(b, ran, w);
      }
    }
  }

  lemma {:induction false} RunWritesAhead(b: Built, s: Turn, w: World) returns (done: nat)
    requires TurnHolds(s) && s.pending == [] && WorldHolds(b, s, |s.rounds|)
    ensures WorldHolds(b, Finish(b, s, w).0, done)
    decreases CEILING - s.made
  {
    var asked := AfterModel(b, s, w.models(|s.rounds|));
    ModelKeeps(b, s, w.models(|s.rounds|));
    assert WorldHolds(b, asked, |s.rounds|) && |asked.rounds| == |s.rounds|;
    done := |s.rounds|;
    if ToTools(asked) {
      ToolsKeep(b, asked, w.tools(|s.rounds|));
      ToolsWriteAhead(b, asked, w.tools(|s.rounds|));
      var ran := AfterTools(b, asked, w.tools(|s.rounds|));
      hide AfterModel, AfterTools, TurnHolds, WorldHolds;
      done := |s.rounds| + 1;
      if !ran.raised {
        done := RunWritesAhead(b, ran, w);
      }
    }
  }

  lemma {:induction false} TurnRunsWithin(b: Built, s: Turn, w: World)
    requires TurnHolds(s) && s.pending == [] && RunsWithin(s) && !s.raised
    ensures RunCount(Finish(b, s, w).0.events) <= CEILING
    decreases CEILING - s.made
  {
    var asked := AfterModel(b, s, w.models(|s.rounds|));
    FinishUnfolds(b, s, w);
    ModelKeeps(b, s, w.models(|s.rounds|));
    if ToTools(asked) {
      ToolsRunWithin(b, asked, w.tools(|s.rounds|));
      var ran := AfterTools(b, asked, w.tools(|s.rounds|));
      hide AfterModel, AfterTools, TurnHolds, RunCount;
      if !ran.raised {
        TurnRunsWithin(b, ran, w);
      }
    }
  }

  /** Whatever the model, the tools and everyone else answer: a turn runs at most sixteen calls in at most thirty-three node
      steps, under the graph's own limit; every round has a result for every request, in order; every call that can move the
      account was sent right behind its own row; and none was sent twice. */
  lemma EveryTurn(b: Built, w: World)
    ensures TurnHolds(FRESH)
    ensures var (end, steps) := Finish(b, FRESH, w);
      && steps <= 2 * CEILING + 1 < RECURSION_LIMIT
      && end.made == |end.calls| <= CEILING && RunCount(end.events) <= CEILING
      && TurnHolds(end) && (exists done :: SentInOrder(end.events, done, 0))
      && forall n :: 0 <= n <= |end.events| ==> WrittenAhead(b, end.events[..n])
  {
    StepsAreBounded(b, FRESH, w);
    TurnRunsWithin(b, FRESH, w);
    var done := RunWritesAhead(b, FRESH, w);
    assert SentInOrder(Finish(b, FRESH, w).0.events, done, 0);
    AtEveryPoint(b, Finish(b, FRESH, w).0.events);
  }

  /** Wherever the process might have died, what had left it was in order. */
  lemma AtEveryPoint(b: Built, events: seq<Event>)
    requires WrittenAhead(b, events)
    ensures forall n :: 0 <= n <= |events| ==> WrittenAhead(b, events[..n])
  {
  }

  // ---- the bound is met ------------------------------------------------------------------------------------------

  const ONE := Request("1", "quote", "")
  const ASKING := ModelAnswer(false, [Ask(ONE)], i => false, None)
  const FINE := ToolAnswer(None, None, Some(Outcome("ok", "1", 1)), false, true)
  const INSISTENT := World(round => ASKING, round => i => FINE)
  const PLAIN := Built(["quote"], {}, true, false, name => false)

  /** A model that never stops asking takes every step there is. */
  lemma {:induction false} InsistingTakesEveryStep(s: Turn)
    requires TurnHolds(s) && s.pending == [] && !s.stopped && !s.raised
    ensures Finish(PLAIN, s, INSISTENT).1 == 2 * (CEILING - s.made) + 1
    decreases CEILING - s.made
  {
    var asked := AfterModel(PLAIN, s, ASKING);
    ModelKeeps(PLAIN, s, ASKING);
    assert Rest(ASKING, 0, Stream("", [], None, Done)) == Stream("", [ONE], None, Done);
    assert asked.pending == if s.made < CEILING then [ONE] else [];
    if s.made < CEILING {
      var ran := AfterTools(PLAIN, asked, INSISTENT.tools(|s.rounds|));
      ToolsKeep(PLAIN, asked, INSISTENT.tools(|s.rounds|));
      OneFineRequest(|s.rounds|, s.made);
      InsistingTakesEveryStep(ran);
    }
  }

  lemma OneFineRequest(round: nat, made: nat)
    requires made < CEILING
    ensures var so := Requests(PLAIN, [ONE], 1, round, i => FINE, made);
      !so.raised && so.made == made + 1
  {
  }

  // ---- the graph as it is written --------------------------------------------------------------------------------

  class Graph {
    const b: Built
    var text: string
    var usages: seq<Option<nat>>
    var rounds: seq<Round>
    var calls: seq<Recorded>
    var made: nat
    var pending: seq<Request>
    var failed: bool
    var stopped: bool
    var raised: bool
    ghost var events: seq<Event>

    ghost function State(): Turn
      reads this
    {
      Turn(text, usages, rounds, calls, made, pending, failed, stopped, raised, events)
    }

    constructor (b: Built)
      ensures State() == FRESH && this.b == b
    {
      this.b := b;
      text, usages, rounds, calls, made, pending := "", [], [], [], 0, [];
      failed, stopped, raised, events := false, false, false, [];
    }

    /** The `model` node: the answer is taken piece by piece, until it ends, breaks, or a stop is seen. */
    method CallModel(a: ModelAnswer)
      modifies `text, `usages, `pending, `failed, `stopped
      ensures State() == AfterModel(b, old(State()), a)
    {
      if a.stopFirst {
        pending, stopped := [], true;
        return;
      }
      var offered := made < CEILING && b.tools != [];
      var so := Stream("", [], None, Done);
      var i := 0;
      while a.breaks != Some(i) && i < |a.chunks|
        invariant so.end == Done
        invariant Rest(a, i, so) == Rest(a, 0, Stream("", [], None, Done))
        decreases |a.chunks| - i
      {
        so := Taken(so, a.chunks[i]);
        if a.chunks[i].Text? && !a.chunks[i].told {
          text, usages, pending, failed := text + so.text, usages + [so.usage], [], true;
          return;
        }
        if a.stopAfter(i) {
          text, usages, pending, failed, stopped := text + so.text, usages + [so.usage], [], false, true;
          return;
        }
        i := i + 1;
      }
      text, usages, failed := text + so.text, usages + [so.usage], a.breaks == Some(i);
      pending := if !failed && offered then so.requests else [];
    }

    /** One call to the tool server, with the trace it needs if it can move the account; nothing, where it raises. */
    method ThroughServer(request: Request, round: nat, position: nat, a: ToolAnswer)
      returns (outcome: Option<Outcome>, row: Option<nat>)
      modifies `events
      ensures var h := ThroughTheServer(b, request, round, position, a);
        outcome == h.outcome && row == h.row && events == old(events) + h.events
    {
      if !(b.trace && b.moves(request.name)) {
        events := events + [Sent(request, round, position)];
        return a.server, None;
      }
      if a.row == None {
        return Some(NOT_TRACED), None;
      }
      events := events + [Begun(a.row.value, round, position, request)];
      events := events + [Sent(request, round, position)];
      if a.server.Some? && a.settled {
        events := events + [Settled(a.row.value, a.server.value)];
      }
      return a.server, a.row;
    }

    /** A tool of this process's own if there is one of that name; the server's otherwise, if there is a server. */
    method RunOne(request: Request, round: nat, position: nat, a: ToolAnswer) returns (outcome: Option<Outcome>, row: Option<nat>)
      modifies `events
      ensures var h := Handle(b, request, round, position, a);
        outcome == h.outcome && row == h.row && events == old(events) + h.events
    {
      outcome, row := Some(NO_SERVER), None;
      if request.name in b.locals {
        events := events + [RanHere(request)];
        outcome := Some(if a.local.Some? then a.local.value else LOCAL_FAILED);
      } else if b.server {
        outcome, row := ThroughServer(request, round, position, a);
      }
    }

    /** Every request in turn, run or turned down; a call may raise, and so may whoever is told of one, and that is the end
        of it. */
    method RunEach(requests: seq<Request>, round: nat, before: nat, answers: nat -> ToolAnswer)
      returns (done: nat, results: seq<Result>, recorded: seq<Recorded>, raises: bool, ghost sent: seq<Event>)
      modifies `events
      ensures Requests(b, requests, |requests|, round, answers, before) == Running(done, results, recorded, sent, raises)
      ensures events == old(events) + sent
    {
      hide Handle;
      done, results, recorded, raises, sent := before, [], [], false, [];
      for i := 0 to |requests|
        invariant events == old(events) + sent && !raises
        invariant Requests(b, requests, i, round, answers, before) == Running(done, results, recorded, sent, false)
      {
        var request := requests[i];
        if done >= CEILING {
          results := results + [Result(request.id, request.name, REFUSED)];
        } else {
          var outcome, row := RunOne(request, round, |recorded|, answers(i));
          sent := sent + Handle(b, request, round, |recorded|, answers(i)).events;
          if outcome.None? {
            raises := true;
            RaisedStays(b, requests, i + 1, |requests|, round, answers, before);
            return;
          }
          done := done + 1;
          results := results + [Result(request.id, request.name, outcome.value.text)];
          recorded := recorded + [Recorded(round, request, outcome.value, row)];
          raises := !answers(i).announced;
          if raises {
            RaisedStays(b, requests, i + 1, |requests|, round, answers, before);
            return;
          }
        }
      }
    }

    /** The `tools` node. */
    method RunTools(answers: nat -> ToolAnswer)
      requires !raised
      modifies `rounds, `calls, `made, `pending, `events, `raised
      ensures State() == AfterTools(b, old(State()), answers)
    {
      var done, results, recorded, raises;
      ghost var sent;
      done, results, recorded, raises, sent := RunEach(pending, |rounds|, made, answers);
      if raises {
        raised := true;
      } else {
        rounds, calls, made, pending := rounds + [Round(pending, results)], calls + recorded, done, [];
      }
    }

    /** The loop the graph is compiled to: the model, and as long as it asks for tools, the tools and the model again. */
    method Run(w: World) returns (steps: nat)
      requires TurnHolds(State()) && pending == [] && !raised
      modifies this
      ensures (State(), steps) == Finish(b, old(State()), w)
    {
      hide TurnHolds, AfterModel, AfterTools, Finish;
      steps := 0;
      while true
        invariant TurnHolds(State()) && pending == [] && !raised
        invariant Finish(b, old(State()), w) == (Finish(b, State(), w).0, steps + Finish(b, State(), w).1)
        decreases CEILING - made
      {
        FinishUnfolds(b, State(), w);
        CallModel(w.models(|rounds|));
        steps := steps + 1;
        assert ToTools(State()) <==> !failed && !stopped && pending != [];
        if failed || stopped || pending == [] {
          return;
        }
        RunTools(w.tools(|rounds|));
        steps := steps + 1;
        if raised {
          return;
        }
      }
    }
  }
}
