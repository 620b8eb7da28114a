/**
 What a turn makes of each answer of the model, and of each answer of a tool: which pieces of an interrupted answer are kept,
 that none of its requests is sent, and what a call that was run is recorded as.
 */
module TurnAnswers {
  import opened Wrappers
  import opened Agent

  // ---- the pieces of an answer -----------------------------------------------------------------------------------

  /** The text of the first `n` pieces. */
  function TextOf(chunks: seq<Chunk>, n: nat): string
    requires n <= |chunks|
  {
    if n == 0 then "" else TextOf(chunks, n - 1) + if chunks[n - 1].Text? then chunks[n - 1].text else ""
  }

  /** What they ask for. */
  function AsksOf(chunks: seq<Chunk>, n: nat): seq<Request>
    requires n <= |chunks|
  {
    if n == 0 then [] else AsksOf(chunks, n - 1) + if chunks[n - 1].Ask? then [chunks[n - 1].request] else []
  }

  /** The last of the counts among them. */
  function UsageOf(chunks: seq<Chunk>, n: nat): Option<nat>
    requires n <= |chunks|
  {
    if n == 0 then None else if chunks[n - 1].Usage? then Some(chunks[n - 1].tokens) else UsageOf(chunks, n - 1)
  }

  /** A text the operator could not be told. */
  predicate Untold(chunk: Chunk) { chunk.Text? && !chunk.told }

  /** The first `n` pieces came, were told, and no stop was seen after any of them. */
  ghost predicate Heard(a: ModelAnswer, n: nat) {
    n <= |a.chunks| && forall i :: 0 <= i < n ==> a.breaks != Some(i) && !Untold(a.chunks[i]) && !a.stopAfter(i)
  }

  /** A stop is seen after the `n`-th piece, and nothing was wrong before it. */
  ghost predicate StopsAfter(a: ModelAnswer, n: nat) {
    0 < n <= |a.chunks| && Heard(a, n - 1) && a.breaks != Some(n - 1) && !Untold(a.chunks[n - 1]) && a.stopAfter(n - 1)
  }

  /** The stream breaks behind the `n`-th piece, or the operator cannot be told of that piece. */
  ghost predicate FailsAfter(a: ModelAnswer, n: nat) {
    || (Heard(a, n) && a.breaks == Some(n))
    || (0 < n <= |a.chunks| && Heard(a, n - 1) && a.breaks != Some(n - 1) && Untold(a.chunks[n - 1]))
  }

  /** The answer came whole. */
  ghost predicate Whole(a: ModelAnswer) { Heard(a, |a.chunks|) && a.breaks != Some(|a.chunks|) }

  function SoFar(a: ModelAnswer, n: nat): Stream
    requires n <= |a.chunks|
  {
    Stream(TextOf(a.chunks, n), AsksOf(a.chunks, n), UsageOf(a.chunks, n), Done)
  }

  lemma {:induction false} HeardSoFar(a: ModelAnswer, n: nat)
    requires Heard(a, n)
    ensures Rest(a, 0, Stream("", [], None, Done)) == Rest(a, n, SoFar(a, n))
  {
    if n > 0 {
      HeardSoFar(a, n - 1);
      assert Taken(SoFar(a, n - 1), a.chunks[n - 1]) == SoFar(a, n);
    }
  }

  /** An answer to a turn that goes on. */
  lemma AnswerIs(b: Built, s: Turn, a: ModelAnswer, n: nat)
    requires !a.stopFirst && n <= |a.chunks|
    ensures var t := s.(text := s.text + TextOf(a.chunks, n), usages := s.usages + [UsageOf(a.chunks, n)], pending := []);
      && (StopsAfter(a, n) ==> AfterModel(b, s, a) == t.(failed := false, stopped := true))
      && (FailsAfter(a, n) ==> AfterModel(b, s, a) == t.(failed := true))
      && (Whole(a) && n == |a.chunks| ==>
            AfterModel(b, s, a) == t.(failed := false, pending := if Offered(b, s) then AsksOf(a.chunks, n) else []))
  {
    if Heard(a, n) {
      HeardSoFar(a, n);
    }
    if n > 0 && Heard(a, n - 1) {
      HeardSoFar(a, n - 1);
    }
  }

  // ---- the turn's end --------------------------------------------------------------------------------------------

  /** A stop, before the answer or between its pieces, ends the turn there and then: what had arrived is kept, and nothing
      the answer asked for is run. */
  lemma StopEndsTheTurn(b: Built, s: Turn, w: World, n: nat)
    requires TurnHolds(s) && s.pending == []
    ensures var a := w.models(|s.rounds|);
      && (a.stopFirst ==> Finish(b, s, w) == (s.(stopped := true), 1))
      && (!a.stopFirst && StopsAfter(a, n) ==>
            Finish(b, s, w) == (s.(text := s.text + TextOf(a.chunks, n), usages := s.usages + [UsageOf(a.chunks, n)],
                                   failed := false, stopped := true), 1))
  {
    FinishUnfolds(b, s, w);
    hide Finish, TurnHolds, Rest;
    var a := w.models(|s.rounds|);
    if !a.stopFirst && StopsAfter(a, n) {
      AnswerIs(b, s, a, n);
    }
  }

  /** So does a stream that breaks, or a piece the operator could not be told: the turn has failed, with what had arrived. */
  lemma FailureEndsTheTurn(b: Built, s: Turn, w: World, n: nat)
    requires TurnHolds(s) && s.pending == []
    requires !w.models(|s.rounds|).stopFirst && FailsAfter(w.models(|s.rounds|), n)
    ensures n <= |w.models(|s.rounds|).chunks|
    ensures var chunks := w.models(|s.rounds|).chunks;
      Finish(b, s, w) ==
        (s.(text := s.text + TextOf(chunks, n), usages := s.usages + [UsageOf(chunks, n)], failed := true), 1)
  {
    FinishUnfolds(b, s, w);
    hide Finish, TurnHolds, Rest;
    AnswerIs(b, s, w.models(|s.rounds|), n);
  }

  /** The rounds of a turn are never taken back. */
  lemma {:induction false} RoundsStand(b: Built, s: Turn, w: World)
    requires TurnHolds(s) && s.pending == [] && !s.raised
    ensures s.rounds <= Finish(b, s, w).0.rounds && s.events <= Finish(b, s, w).0.events && s.calls <= Finish(b, s, w).0.calls
    decreases CEILING - s.made
  {
    FinishUnfolds(b, s, w);
    ModelKeeps(b, s, w.models(|s.rounds|));
    var asked := AfterModel(b, s, w.models(|s.rounds|));
    assert asked.calls == s.calls;
    hide AfterModel;
    if ToTools(asked) {
      var ran := AfterTools(b, asked, w.tools(|s.rounds|));
      if !ran.raised {
        hide TurnHolds, Requests;
        RoundsStand(b, ran, w);
      }
    }
  }

  /** An answer that came whole is acted on exactly as it asked: without tools on offer, or without a request, the turn ends
      with its text; otherwise the next round is its requests, all of them and in order, unless a call raised. */
  lemma WholeAnswerIsActedOn(b: Built, s: Turn, w: World)
    requires TurnHolds(s) && s.pending == [] && !s.stopped && !s.raised
    requires !w.models(|s.rounds|).stopFirst && Whole(w.models(|s.rounds|))
    ensures var (end, steps) := Finish(b, s, w); var chunks := w.models(|s.rounds|).chunks; var asks := AsksOf(chunks, |chunks|);
      if s.made < 16 && b.tools != [] && asks != [] then
        end.raised || (|end.rounds| > |s.rounds| && end.rounds[..|s.rounds|] == s.rounds
                       && end.rounds[|s.rounds|].requests == asks)
      else
        && steps == 1
        && end == s.(text := s.text + TextOf(chunks, |chunks|), usages := s.usages + [UsageOf(chunks, |chunks|)], failed := false)
  {
    FinishUnfolds(b, s, w);
    var a := w.models(|s.rounds|);
    AnswerIs(b, s, a, |a.chunks|);
    hide Finish, TurnHolds, Rest, AfterModel, Requests, TextOf, AsksOf, UsageOf, Whole;
    var asked := AfterModel(b, s, a);
    if ToTools(asked) {
      var ran := AfterTools(b, asked, w.tools(|s.rounds|));
      if !ran.raised {
        RoundsStand(b, ran, w);
      }
    }
  }

  // ---- what a call comes to --------------------------------------------------------------------------------------

  /** A tool of this process's own is run here, and answers for itself even when it fails; any other is put to the server, if
      there is one, and a call that can move the account only behind a row of its own. */
  ghost predicate ComesTo(b: Built, request: Request, a: ToolAnswer, r: Recorded) {
    if request.name in b.locals then
      r.row == None && r.outcome == match a.local { case Some(o) => o case None => LOCAL_FAILED }
    else if !b.server then r.row == None && r.outcome == NO_SERVER
    else if b.trace && b.moves(request.name) then
      r.row == a.row && (if a.row == None then r.outcome == NOT_TRACED else a.server == Some(r.outcome))
    else r.row == None && a.server == Some(r.outcome)
  }

  /** What of a call leaves this process. */
  ghost predicate Leaves(b: Built, request: Request, round: nat, position: nat, a: ToolAnswer, events: seq<Event>) {
    && (RanHere(request) in events <== request.name in b.locals)
    && (Sent(request, round, position) in events <==>
          request.name !in b.locals && b.server && !(b.trace && b.moves(request.name) && a.row == None))
  }

  /** The first calls of a round, so far: each recorded as what the world answered it, and sent if it was meant to be. */
  ghost predicate CallsAre(b: Built, requests: seq<Request>, round: nat, answers: nat -> ToolAnswer, so: Running) {
    && |so.recorded| <= |requests|
    && (forall e :: e in so.events && e.Sent? ==> e.position < |so.recorded| || (so.raised && e.position == |so.recorded|))
    && (forall e :: e in so.events && e.RanHere? ==> e.request.name in b.locals)
    && forall i :: 0 <= i < |so.recorded| ==>
         ComesTo(b, requests[i], answers(i), so.recorded[i]) && Leaves(b, requests[i], round, i, answers(i), so.events)
  }

  lemma OneCallIs(b: Built, request: Request, round: nat, position: nat, a: ToolAnswer)
    ensures var h := Handle(b, request, round, position, a);
      && (forall r: Recorded :: h.outcome == Some(r.outcome) && r.row == h.row ==> ComesTo(b, request, a, r))
      && (forall e :: e in h.events && e.Sent? ==> e == Sent(request, round, position))
      && (forall e :: e in h.events && e.RanHere? ==> e.request.name in b.locals)
      && (h.outcome.Some? ==> Leaves(b, request, round, position, a, h.events))
  {
  }

  lemma OneMoreCallIs(b: Built, requests: seq<Request>, n: nat, round: nat, answers: nat -> ToolAnswer, less: Running)
    requires n < |requests| && !less.raised && less.made < CEILING && |less.recorded| == n
    requires CallsAre(b, requests, round, answers, less)
    ensures CallsAre(b, requests, round, answers, OneRequest(b, requests[n], round, answers(n), less))
  {
    OneCallIs(b, requests[n], round, n, answers(n));
    var h := Handle(b, requests[n], round, n, answers(n));
    var so := OneRequest(b, requests[n], round, answers(n), less);
    assert so.events == less.events + h.events;
    hide Handle, ComesTo;
    assert forall e :: e in so.events <==> e in less.events || e in h.events;
  }

  lemma AllRunBelowTheCeiling(b: Built, requests: seq<Request>, n: nat, round: nat, answers: nat -> ToolAnswer, made: nat)
    requires n <= |requests| && made <= CEILING
    ensures var so := Requests(b, requests, n, round, answers, made);
      !so.raised && so.made < CEILING ==> |so.recorded| == n
  {
    RoundAnswersAll(b, requests, n, round, answers, made);
    hide Requests, RunsTheFirst, Agent.Answers;
  }

  lemma TurnedDownIs(b: Built, requests: seq<Request>, n: nat, round: nat, answers: nat -> ToolAnswer, less: Running)
    requires n < |requests| && less.made >= CEILING && CallsAre(b, requests, round, answers, less)
    ensures CallsAre(b, requests, round, answers, OneRequest(b, requests[n], round, answers(n), less))
  {
  }

  /** Every call of a round is recorded as what the world answered it, and exactly those meant for the server are sent. */
  lemma {:induction false} CallsComeTo(b: Built, requests: seq<Request>, n: nat, round: nat, answers: nat -> ToolAnswer,
                                       made: nat)
    requires n <= |requests| && made <= CEILING
    ensures CallsAre(b, requests, round, answers, Requests(b, requests, n, round, answers, made))
  {
    hide CallsAre, OneRequest;
    if n == 0 {
      NoneYet(b, requests, round, answers, made);
    } else {
      CallsComeTo(b, requests, n - 1, round, answers, made);
      AllRunBelowTheCeiling(b, requests, n - 1, round, answers, made);
      var less := Requests(b, requests, n - 1, round, answers, made);
      if !less.raised && less.made < CEILING {
        OneMoreCallIs(b, requests, n - 1, round, answers, less);
      } else if !less.raised {
        TurnedDownIs(b, requests, n - 1, round, answers, less);
      }
    }
  }

  lemma NoneYet(b: Built, requests: seq<Request>, round: nat, answers: nat -> ToolAnswer, made: nat)
    ensures CallsAre(b, requests, round, answers, Running(made, [], [], [], false))
  {
  }
}
