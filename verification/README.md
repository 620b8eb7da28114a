# What holds of the workbench, over every run

A Dafny model of the parts of this repository whose promises are about whole runs rather than single calls: the candle
archive and what is derived from it, paged history, the alerts from a look to a message on the phone, the strategy
language's checker and its revision diff, the hub's snapshot seam, the agent's tool loop, the rate gate, and Polymarket's
ranges and thinning. Each file models one component and proves what its code, its tests or its documentation promise of it;
where the code breaks a promise, a lemma gives the concrete input and another says exactly when the promise holds.

`dafny verify dfyconfig.toml` checks everything.

## How it is built

Every component has the same two layers. A specification made of functions and predicates says what one statement,
transaction or step does; lemmas about it say what every run keeps. Where the source changes things step by step, a class
with the source's own fields, or a method with the source's own loop, is proved to do what the specification says:

| file | models | in the source's own form |
|---|---|---|
| `Coverage.dfy` | verified stretches of time, merged in one pass | `CoverageTable`, `UncoveredWithin` |
| `Rollups.dfy`, `Archive.dfy`, `Holdings.dfy` | five derived resolutions rebuilt over a widened window; writes, commits, deletions | `ArchiveStore.dfy` |
| `History.dfy`, `Leaving.dfy` | paging backwards through a provider's series, and leaving it | `Collect` |
| `Looks.dfy` | a value rule's edge detector | `RuleRow` |
| `Delivery.dfy` | rules read and set off, fires, one delivery worker, an adversarial door, crashes between any two steps | `Deliverers.dfy` |
| `LastWords.dfy`, `OnceRules.dfy`, `CoolDowns.dfy` | what becomes of a fire, a one-time rule's one alert and a rule's cool-down, over the same machine | pure statements of it |
| `Publishing.dfy` | an event setting rules off, in one transaction | `Publisher` |
| `Template.dfy` | a message cut into messages | `SplitParts` |
| `Names.dfy`, `LetOrder.dfy` | Python's order of strings; ordering `let` variables | `Order` |
| `Language.dfy` | a declarative typing relation for the formula language | `Checking.dfy` |
| `Columns.dfy`, `Evaluation.dfy`, `Soundness.dfy` | formulas computed, on whole axes and bar by bar; what the checker's acceptance is worth | pure in the source |
| `Changes.dfy` | the diff of two revisions, and patching by it | pure in the source |
| `Hub.dfy` | publishers and subscribers taking turns under a room's lock | `HubRooms.dfy` |
| `Agent.dfy`, `TurnAnswers.dfy` | the model, the tools, the call ceiling and the write-ahead trace | `Graph` |
| `RateGate.dfy` | the sliding-window gate | `Gate` |
| `CollectedRanges.dfy` | one window merged into many outcomes' ranges | `RangeTable` |
| `Thinning.dfy` | one sample an hour behind a boundary that backfills move back | `OutcomeTable` |

A statement or a transaction of the database is one atomic step over maps, sets and sequences. Clocks, answers of models,
tools, providers and the door, and the moments at which a process dies, are inputs a lemma ranges over.

## What the model takes for granted

- A minute batch handed to `commit_candles` is ordered by period start and of the named pair: the rollups are rebuilt from
  its first candle to its last (`modules/workbench/market_data/store.py:150`). `Archive.EveryRunIsFreshExcept` says what is
  still right when it is not. Only the bid side is stored.
- A provider answers a window with the newest candles in it, oldest first, up to the page size, with both ends included.
- The settings hold what the processes refuse to start without: the hourly cap is at least one.
- The language's tables keep the names of the position and of past trades apart from every other name, as
  `modules/workbench/strategies/vocabulary.py` does; the tables themselves are parameters.
- One worker delivers, as one process runs one clock; operator edits of rules are not part of a run.
- Formulas are computed over exact numbers, with none where a result is not finite. The variables of a document are in the
  order `LetOrder` puts them in, the series it reads have been read whole, and the archive's indicators do not look ahead.

## Where the code and its promises part

- `EveryRunIsFresh` needs every commit to go through. Coverage is recorded after the candles are stored and before the
  rollups are rebuilt, with no transaction around the three, so a coverage row refused by its own checks leaves new minutes
  beside old rollups: `NewMinutesAreFreshExactly` says of any archive which commits of new minutes keep it right.
- `bucket_start` truncates toward zero and the SQL floors: they differ for fractions of a second before 1970
  (`FloorsAgree`, `FlooredExactly`).
- "History outranks stream" is kept against what is stored, not inside one batch: `StreamDisplacesHistoryInOneBatch`. A
  row is history afterwards exactly when it was before or the last offer for it is: `WrittenExactly`.
- Which coverage is accepted depends on the order of the offers once two of them name an end of history, because the table
  allows one such row per pair: `OrderDecidesWhatIsTaken`. Every offer is taken exactly when no two ends of history are
  ever offered with a moment between them that was not (`EveryOfferTakenExactly`), and then neither order nor repetition
  matters: `StretchesDependOnOffersUnion`, `TableDependsOnOffers`.
- `uncovered_within` answers nothing for a window of a single moment, seen or not: `EmptyAnswerMeansVerified`.
- `history_ended` is said of a market shut for longer than one window: `LongClosureReadsAsTheEnd`. It is always true of a
  series exactly when no two of its neighbouring candles are further apart than that: `HistoryEndedIsTrueExactly`.
- A one-time rule is read without a lock and set off in a later statement, so two events at once can each set it off:
  `TwoAlerts`. A run keeps the one alert exactly when the rule remembers no fire each time it is set off
  (`OneAlertExactly`), as where nobody sets it off between another's reading of it and that other's fire: `OneAlert`.
- A cool-down is asked of the rule as it was read: two readers can raise two alerts at once, and a one-time rule whose alert
  was let go may go off again at once: `TwoAtOnce`, `SoonAfterOneLetGo`. Otherwise alerts are spaced: `AlertsAreSpaced`.
- A run may give a parameter declared whole any value within its bounds. A window made of it is cut down to a whole number,
  but an indicator that takes whole values is then asked for the fraction: `AskedWholeExactly`. An indicator that draws
  lines and names none is accepted, and fails when it is computed: `LinelessHasNoKey`.
- A truth value changed into the number it equals is no change: `TrueReadsAsOne`, `SameExactly`. A diff gives the text back
  to the letter exactly where no such change was made: `BetweenIsLossless`.
- A room is looked up before its lock is waited for, so one taken off the table meanwhile strands whoever waits:
  `WaiterIsStranded`. A step is safe exactly when it takes no room from under a waiter: `SafeExactly`.
- A backfill ahead of the boundary but behind a pass still under way, and a backfill that dies between writing its samples
  and moving the boundary, leave crowded hours behind the boundary: `BackfillBehindAPass`, `BackfillCutShort`. Either keeps
  the promise exactly when nothing it writes shares an hour already gone through: `BehindAPassKeepsExactly`,
  `CutShortKeepsExactly`.

## Model

| member | source | states |
|---|---|---|
| Coverage.RecordKeepsSound | modules/workbench/market_data/coverage.py:113-151 | one pass over the neighbours leaves stored ranges well-formed, no two touching, at most one naming the end of history |
| Coverage.RecordAddsExactly | modules/workbench/market_data/coverage.py:113-151 | a moment is verified after a record exactly when it was before or lies in the stretch offered |
| Coverage.ReplayInvariant | modules/workbench/market_data/coverage.py:81-160 | over any sequence of offers the rows stay apart and each keeps the earliest boundary taken inside it |
| Coverage.ReplayCoversUnion | modules/workbench/market_data/coverage.py:81-160 | the stored point set is exactly the union of everything taken |
| Coverage.SameMomentsGiveSameSpan | modules/workbench/market_data/coverage.py:113-151 | two separate tables with the same verified moments have the same stretches |
| Coverage.StretchesDependOnUnionAlone | modules/workbench/market_data/coverage.py:81-160 | the stretches depend only on the union of what was taken |
| Coverage.StretchesDependOnOffersUnion | modules/workbench/market_data/coverage.py:81-160 | two ways of offering the same moments, neither refused anything, leave the same stretches, whatever their order or repetition |
| Coverage.TableDependsOnOffersTaken | modules/workbench/market_data/coverage.py:126-133 | the whole table, boundaries included, is a function of the set of offers taken |
| Coverage.TableDependsOnOffers | modules/workbench/market_data/coverage.py:126-133 | and, where nothing is refused, of the set of offers made |
| Coverage.OrderDecidesWhatIsTaken | modules/workbench/market_data/coverage.py:113-151 | an offer refused in one order of three and taken in another |
| Coverage.EveryOfferTakenExactly | modules/workbench/market_data/coverage.py:92-151 | every prefix of well-formed offers is taken whole exactly when in every prefix each moment between two offered ends of history has been offered |
| Coverage.OneEndIsAlwaysTaken | modules/workbench/market_data/coverage.py:92-151 | offers of which at most one names an end of history are all taken |
| Coverage.CoverageTable.RecordCoverage | modules/workbench/market_data/coverage.py:81-160 | every refusal leaves the table as it was; otherwise neighbours and offer become their one hull, which is returned |
| Coverage.CoverageTable.ReadCoverage | modules/workbench/market_data/coverage.py:163-178 | every row of the pair once, oldest first |
| Coverage.UncoveredWithin | modules/workbench/market_data/coverage.py:227-256 | gaps in order, non-empty, disjoint, with nothing verified inside, and every unseen moment of a window with room in it in one of them |
| Coverage.EmptyAnswerMeansVerified | modules/workbench/market_data/coverage.py:234-256 | an empty answer means the whole window was verified, exactly unless the window is one unseen moment |
| Rollups.FloorsAgree | modules/workbench/market_data/rollups.py:53-64 | the Python floor and the SQL bin name the same bucket exactly outside fractions of a second before a pre-1970 boundary |
| Rollups.RefreshRebuildsWindow | modules/workbench/market_data/rollups.py:133-168 | every bucket of the widened window equals recomputation from all minutes, whatever stood there; every other row is untouched |
| Rollups.RollupMeans | modules/workbench/market_data/rollups.py:67-107 | a bucket exists iff it has a minute; open of the earliest, close of the latest, edges of all, a volume only when every minute has one and then the sum of theirs, exact count |
| Rollups.CompleteMeansEveryMinute | modules/workbench/market_data/rollups.py:43-50 | complete says that no minute mark of the bucket is missing |
| Archive.KeptIsLast | modules/workbench/market_data/store.py:85-95 | of a batch's offers for one row the last is kept |
| Archive.TakenCounts | modules/workbench/market_data/store.py:25-43 | the rows the statement answers are those named, unless the row was history and the last offer for it is streamed |
| Archive.WrittenExactly | modules/workbench/market_data/store.py:82-114 | a row offered holds the last offer for it, or stays as it was when that is streamed and the row was history; it is history exactly when it was, or the last offer is |
| Archive.HistoryOutranksStream | modules/workbench/market_data/store.py:82-114 | a stored history row changes only for another history offer |
| Archive.StreamDisplacesHistoryInOneBatch | modules/workbench/market_data/store.py:85-95 | a batch in which a stream candle displaces a history one |
| Archive.RollupIsLocal | modules/workbench/market_data/rollups.py:67-107 | a bucket depends on its own minutes alone |
| Archive.StepKeepsFresh | modules/workbench/market_data/store.py:126-151 | a commit cut short or refused anywhere, or a deletion, puts in doubt no bucket but those of the minutes it left unrefreshed |
| Archive.EveryRunIsFreshExcept | modules/workbench/market_data/store.py:126-151 | over any run, however cut short, every bucket with no minute in doubt equals its recomputation |
| Archive.EveryRunIsFresh | modules/workbench/market_data/store.py:126-151 | over any run of ordered commits that go through, and deletions, all five series equal recomputation from scratch |
| Archive.FlooredExactly | modules/workbench/market_data/rollups.py:62-64 | the moments at which the window could be widened from the wrong bucket, exactly |
| Archive.NewMinutesAreFreshExactly | modules/workbench/market_data/store.py:139-151 | from any archive whose rollups are right, committing an ordered batch that begins with a minute not yet stored keeps them right exactly when a forming candle refused it, nothing was done at all, or every step was reached, the coverage accepted and the floors agree on the first minute |
| ArchiveStore.Store.WriteCandles | modules/workbench/market_data/store.py:82-114 | a forming candle refuses the whole batch; otherwise the table becomes what the write rule says, and the count is of the rows named, less those kept back as history |
| ArchiveStore.Store.Refresh | modules/workbench/market_data/rollups.py:133-168 | the table after one refresh, or its refusal with nothing changed |
| ArchiveStore.Store.CommitCandles | modules/workbench/market_data/store.py:126-151 | the three steps in order; a refusal leaves done what was done before it |
| ArchiveStore.Store.DeletePairData | modules/workbench/market_data/deletion.py:59-80 | candles, coverage and, for minutes, rollups go together, and the record says how many and from when to when |
| Holdings.DeletionLeaves | modules/workbench/market_data/deletion.py:59-67 | the pair has no candle and no verified moment, a minute pair's symbol no derived candle, and every other pair has each as before |
| Holdings.StepVerifiesExactly | modules/workbench/market_data/store.py:139-151 | a commit verifies exactly the stretch offered of its own pair, or nothing; a deletion unverifies its pair; no other pair is touched |
| Holdings.VerifiedExactly | modules/workbench/market_data/store.py:126-151 | over any run a moment is verified exactly when some commit was offered it and took it, and the pair was not deleted since |
| Holdings.StoredExactly | modules/workbench/market_data/store.py:82-151 | over any run a candle is stored exactly where some commit offered one and lived to write it and the pair was not deleted since, and it is one of those offered |
| History.Collect | modules/capital-gateway/capital_gateway/history.py:119-199 | the paging loop with its quota, floor and cursor answers what the recursion over requests answers, and ends; what that is, page by page, `Leaving` says |
| History.CursorFalls | modules/capital-gateway/capital_gateway/history.py:160-168 | a page that goes on moves the cursor strictly down the series |
| History.CollectIsSuffix | modules/capital-gateway/capital_gateway/history.py:178-186 | a strictly increasing, hole-free suffix of the series between the floor and the anchor, never more than asked |
| History.CollectEnds | modules/capital-gateway/capital_gateway/history.py:137-199 | short by more than the repeated edges only at the floor, on leaving when the caller said so, or above a full-width empty window; the end of history is claimed in that last case alone, with a candle in hand |
| History.HistoryEndedIsTrueExactly | modules/capital-gateway/capital_gateway/history.py:170-198 | from whatever anchor, the end a read of two bars or more may claim is the series' own exactly when no two neighbouring candles are further apart than one window |
| History.CloseClaimsAreTrue | modules/capital-gateway/capital_gateway/history.py:170-198 | over such a series no claim is wrong, with a floor or without, whenever the caller leaves |
| History.HoleReadsAsTheEnd | modules/capital-gateway/capital_gateway/history.py:170-176 | the read that starts at the candle above a wider hole answers that candle alone and claims the end |
| History.LongClosureReadsAsTheEnd | modules/capital-gateway/capital_gateway/history.py:170-176 | a series on which the claim is wrong |
| History.WindowFitsAPage | modules/capital-gateway/capital_gateway/history.py:26-29 | over a series whose candles are a period apart a window never holds more than a page |
| History.WindowFillsAPage | modules/capital-gateway/capital_gateway/history.py:54-66 | over one with a candle every period it holds just a page: a thousand, or as many as were asked for |
| Leaving.LeavesOrStays | modules/capital-gateway/capital_gateway/history.py:137-139 | every read is that of a caller who leaves after so many requests, or of one who stays |
| Leaving.FirstPageIs | modules/capital-gateway/capital_gateway/history.py:137-160 | left after one request, a read answers the newest candles of its first window |
| Leaving.NextPageIs | modules/capital-gateway/capital_gateway/history.py:140-186 | left one request later, it answers what it did, with the newest of the window below its oldest candle in front, as far as the floor and the bars asked allow |
| Leaving.NoNextPage | modules/capital-gateway/capital_gateway/history.py:137-176 | a caller who would not have been there to leave gets what he had, and what he would have by staying |
| Leaving.LeavingEarlierIsASuffix | modules/capital-gateway/capital_gateway/history.py:137-186 | the candles had by leaving are the newest of those had by leaving later |
| Leaving.LeavingIsASuffix | modules/capital-gateway/capital_gateway/history.py:137-186 | and of those had by staying |
| Looks.RuleRow.Check | modules/workbench/alerts/clock.py:126-178 | one look's transaction leaves the row as the decision says: memory, lines, fires |
| Looks.RuleRow.RecordFire | modules/workbench/alerts/store.py:273-293 | one fire per edge, and the rule remembers when |
| Looks.OutagesChangeNothing | modules/workbench/alerts/conditions.py:107-128 | fires, memory and the time of the last alert are those of the answered looks alone |
| Looks.FiresDependOnAnswersAlone | modules/workbench/alerts/conditions.py:107-128 | runs with the same answered looks fire at the same moments wherever the outages fall |
| Looks.FiresExactly | modules/workbench/alerts/conditions.py:118-128 | after any run of looks, outages and alerts taken back, a look fires exactly on a yes after a no, at a moment without an alert, outside the cool-down of a repeating rule or with every alert of a one-time rule taken back; a crossing inside the cool-down is one line and nothing else |
| Looks.TakenBackBetween | modules/workbench/alerts/conditions.py:125-126 | between two alerts of a one-time rule the first was taken back |
| Looks.RemembersUntilReopened | modules/workbench/alerts/store.py:466-468 | a one-time rule remembers no alert exactly while every one it had was taken back |
| Looks.FiresAreSpaced | modules/workbench/alerts/conditions.py:127-128 | two alerts are at least the cool-down apart |
| Looks.NoBetweenFires | modules/workbench/alerts/conditions.py:118-124 | between two alerts stands an answered no |
| Looks.OneLineAnOutage | modules/workbench/alerts/clock.py:166-178 | an outage is one line, again only when its reason changes |
| Template.SplitParts | modules/workbench/alerts/template.py:48-60 | the loop yields the parts the recursion names, and ends |
| Template.PartsOfJoin | modules/workbench/alerts/template.py:48-60 | pieces non-empty, stripped, within the limit, and the text is exactly they with white space between |
| Template.PartsJoin | modules/workbench/alerts/template.py:48-60 | the same of any text, stripped; no parts exactly when it is all white space |
| Template.WordCutOnlyWhenTooLong | modules/workbench/alerts/template.py:53-57 | a cut inside a word happens only where no space or line end could have been cut at |
| Template.CutAtTheBest | modules/workbench/alerts/template.py:53-57 | a text too long is cut at the last paragraph that fits, else the last line, else the last word, else at the limit; and the rest the same way |
| Delivery.FreshHolds | modules/workbench/alerts/store.py:273-426 | rules that never went off meet the invariant every later state keeps |
| Delivery.StepKeeps | modules/workbench/alerts/delivery.py:52-104 | every statement of the worker's or of a publisher's, however they interleave, every answer of the door, an exception or a crash keeps the invariant |
| Delivery.RunKeeps | modules/workbench/alerts/delivery.py:40-104 | so does every run, and wherever it gets to, the fire in hand and every fire's rule are there |
| Delivery.DoorIsToldInOrder | modules/workbench/alerts/delivery.py:67-78 | what the door took of a fire is its messages in order from the first with adjacent repeats only, no more repeats than crashes and lost answers, and all of them once delivered |
| Delivery.TextStays | modules/workbench/alerts/store.py:299-426 | over any run a fire keeps its text, its rule and its cause, and so its messages |
| Delivery.SettledIsFinal | modules/workbench/alerts/store.py:396-411 | a fire with its last word is never changed and never sent again |
| Delivery.NothingIsLost | modules/workbench/alerts/store.py:365-393 | whatever died and whenever, a pending fire is claimable within the longest wait the door has asked for, or a quarter of an hour when it asked for none as long |
| Delivery.HourlyCap | modules/workbench/alerts/delivery.py:92-104 | every hour of every run holds at most as many of a rule's deliveries as the rule's own limit, or the settings' where it names none or zero, plus those taken up again with a part already sent |
| LastWords.LastWordExactly | modules/workbench/alerts/delivery.py:52-104 | over every run a waiting fire is abandoned, undeliverable, throttled, delivered or refused in just these steps: too old or switched off as claimed; no door; none of its parts sent and the limit met by the hour before; its last answer a yes; its last answer a no |
| LastWords.NothingLateIsSent | modules/workbench/alerts/delivery.py:53-66 | over every run what the door takes is inside the window for retries and of a rule switched on when the fire was claimed |
| LastWords.BackoffIs | modules/workbench/alerts/delivery.py:80-82 | the wait nobody asked for is half a minute times two to the tries already made, and never above a quarter of an hour |
| LastWords.TriedAgain | modules/workbench/alerts/delivery.py:80-82 | over every run a fire the door put off is next due after the wait the door asked, or that wait for the number of times it has been claimed |
| LastWords.LeaseHolds | modules/workbench/alerts/store.py:365-393 | a claimed fire is not claimed again for a minute, whatever died in between, unless the door asked to put it off |
| OnceRules.StepKeepsOnceExactly | modules/workbench/alerts/store.py:325-358 | what a one-time rule is promised survives a step exactly when the step does not set it off over a fire it remembers |
| OnceRules.OneAlertExactly | modules/workbench/alerts/publishing.py:49-73 | a run keeps that promise from first to last exactly when the rule remembers no fire each time it is set off |
| OnceRules.OneAlert | modules/workbench/alerts/publishing.py:59-61 | where nobody sets it off between another's reading and that other's fire, a one-time rule has at most one fire pending or delivered, remembers firing iff it has one, is off once it is delivered, and is never throttled |
| OnceRules.TwoAlerts | modules/workbench/alerts/store.py:325-358 | a run in which two readers of an unfired one-time rule both set it off |
| OnceRules.LetGoReopens | modules/workbench/alerts/delivery.py:83-90 | in any run the step that lets a one-time rule's fire go gives the rule back, unless it was the cap that let it go; which, where nobody was overtaken, never happens |
| OnceRules.ToldIsTheEnd | modules/workbench/alerts/delivery.py:76-79 | after delivery a one-time rule is off and has no further fire in any run in which nobody is overtaken |
| CoolDowns.AlertsAreSpaced | modules/workbench/alerts/publishing.py:62-71 | where nobody sets a rule off over another's reading, any two of its alerts were raised a cool-down apart, or it is a one-time rule whose earlier alert never arrived |
| CoolDowns.StepKeepsSpaced | modules/workbench/alerts/publishing.py:54-73 | each such step keeps that, with every alert dated and every reading not overtaken made outside the cool-down |
| CoolDowns.TwoAtOnce | modules/workbench/alerts/store.py:325-358 | a run in which two readers raise two alerts of one repeating rule at one moment, under a ten-minute cool-down |
| CoolDowns.SoonAfterOneLetGo | modules/workbench/alerts/store.py:466-468 | an undisturbed run in which a one-time rule whose alert found no door goes off again a second later, under a ten-minute cool-down |
| Deliverers.Deliverer.Run | modules/workbench/alerts/delivery.py:40-50 | one tick over the claimed fires is a run of the delivery machine and returns how many were taken |
| Deliverers.Deliverer.Deliver | modules/workbench/alerts/delivery.py:52-66 | too late, switched off, no door, over the cap, in that order; then sent: a run of the machine, to the next fire in line |
| Deliverers.Deliverer.SendAll | modules/workbench/alerts/delivery.py:67-85 | the loop over the parts, each recorded before the next is sent, is a run of the machine |
| Deliverers.Deliverer.ClaimDeliveries | modules/workbench/alerts/store.py:365-393 | the rows as the claim reads them, each leased and counted in the same statement |
| Deliverers.Deliverer.OverCap | modules/workbench/alerts/delivery.py:92-103 | throttled exactly when the rule has told this hour as much as its own limit allows, or the settings' where it names none or zero |
| Publishing.ExactlyTheWilling | modules/workbench/alerts/publishing.py:49-73 | from whatever state the tables are in by then, exactly those rows go off that, as they were read, take the event, have no one alert out, and never fired or last fired a cool-down ago; each with one fire of its own |
| Publishing.EventSetsOffTheWilling | modules/workbench/alerts/publishing.py:37-73 | an event published with nobody in between gives one new waiting fire to every rule switched on for its type that takes it and never fired, or, repeating, last fired a cool-down ago; no other rule or fire is touched |
| Publishing.OneFireEach | modules/workbench/alerts/publishing.py:49-73 | rule by rule, the new fires are that one or none, by the conditions on the table written out |
| Publishing.TurnsAreARun | modules/workbench/alerts/publishing.py:49-51 | the turns are a run of the delivery machine whatever happened since the rules were read; begun with nobody overtaken, they overtake nobody |
| Publishing.PublishIsARun | modules/workbench/alerts/publishing.py:37-51 | reading the rules and setting them off is a run of the delivery machine, in which no rule is set off over another's head |
| Publishing.Publisher.Publish | modules/workbench/alerts/publishing.py:37-51 | published again, an event is the same yes and changes nothing; published first, it sets off exactly the willing and its count is of the fires it made |
| Publishing.Publisher.EventRules | modules/workbench/alerts/store.py:325-332 | the rules of the event's type that are switched on, all of them and no others, by number |
| Publishing.Publisher.InsertEvent | modules/workbench/alerts/store.py:299-322 | one row per source key, with the number it got the first time |
| Publishing.Publisher.Consider | modules/workbench/alerts/publishing.py:54-73 | one rule's turn is the machine's, and fires exactly when the filter takes the event, no one alert is out, the cool-down has run out and there is no fire for the event yet |
| Names.LeqExactly | modules/workbench/strategies/checking.py:106-116 | names are put in the order in which the first to differ decides by its smaller character, and a beginning comes before what it begins |
| LetOrder.Order | modules/workbench/strategies/checking.py:96-116 | every name from which no cycle is reached, once, after all it uses; the rest, by name, are exactly those from which one is |
| LetOrder.LeftOutExactly | modules/workbench/strategies/checking.py:96-116 | what an exhausted ordering leaves out is exactly what reaches a cycle, self-use included |
| LetOrder.TellUsers | modules/workbench/strategies/checking.py:108-115 | taking a name keeps every counter equal to the uses not yet ordered, and the ready list exactly those at none |
| LetOrder.OrderedWalksFall | modules/workbench/strategies/checking.py:97-98 | every walk from an ordered name goes strictly down the order |
| Language.NothingIsUnknown | modules/workbench/strategies/checking.py:81-93 | with no untyped variable, a formula without a type has a problem |
| Language.TypeIsUnique | modules/workbench/strategies/checking.py:161-213 | a formula has one type at most |
| Language.NoStateInThePast | modules/workbench/strategies/checking.py:222-249 | no accepted formula, at any depth, reads the position or past trades beneath an offset, a function over bars or `@`, nor the position outside the exits |
| Language.NoPositionOutsideExits | modules/workbench/strategies/checking.py:231-237 | nothing accepted outside the exits reads the open position anywhere |
| Language.LetReadsNoState | modules/workbench/strategies/checking.py:231-245 | an accepted `let` reads none of them anywhere |
| Language.DocumentReadsNoPastState | modules/workbench/strategies/checking.py:259-265 | nor does any chain of variables of an accepted document |
| Language.UnrollAt | modules/workbench/strategies/checking.py:119-126 | the loop over a chain of `@` answers what the recursion does, and ends |
| Language.ThroughAtAgrees | modules/workbench/strategies/checking.py:119-126 | an accepted chain of `@` is read exactly where the checker took it to be read |
| Language.AtCommutes | modules/workbench/strategies/checking.py:274-291 | naming the instrument or the resolution first makes no difference |
| Language.Children | modules/workbench/strategies/checking.py:143-158 | every child of a node is a proper part of it |
| Checking.Check | modules/workbench/strategies/checking.py:81-87 | no problem exactly when the formula has the expected type in the declarative relation |
| Checking.Infer | modules/workbench/strategies/checking.py:90-93 | a type and no problem exactly when the relation gives that type |
| Checking.Walk.TypeOf | modules/workbench/strategies/checking.py:161-213 | problems are only added, and none is added exactly when the relation holds of the type answered |
| Checking.Walk.NameType | modules/workbench/strategies/checking.py:222-271 | the same of a name, with every place and context in which it may not stand |
| Checking.Walk.AtType | modules/workbench/strategies/checking.py:274-291 | the same of `@`: one instrument and one resolution at most |
| Checking.Walk.FunctionType | modules/workbench/strategies/checking.py:294-323 | the same of a function: place, arity, and every argument in its own context |
| Checking.Walk.IndicatorType | modules/workbench/strategies/checking.py:353-384 | the same of an indicator: lines, positions, keywords, each parameter once |
| Checking.Walk.CheckWindow | modules/workbench/strategies/checking.py:326-335 | a window is a whole number of bars in range, or such a parameter |
| Checking.AllGivenFit | modules/workbench/strategies/checking.py:353-384 | gathering arguments and then checking each is the same as landing each where it belongs |
| Soundness.Evaluates | modules/workbench/strategies/evaluate.py:77-193 | on every axis an accepted formula without state is read on it has a column of its type with a value for every bar, and a run of only what was known by a moment has the same values up to it |
| Soundness.NothingLooksAhead | modules/workbench/strategies/evaluate.py:77-193 | so the column of a run cut short is the beginning of the whole run's |
| Soundness.EveryBar | modules/workbench/strategies/evaluate.py:240-275 | on every bar of decisions an accepted formula has a value of its type whatever the trade's state, the same in a run that stops once the bar is known |
| Soundness.StateIsCarriedBy | modules/workbench/strategies/evaluate.py:240-275 | in an accepted formula only names, operators, choices, `at_entry` and the functions of one bar carry the trade's state |
| Soundness.NotStateful | modules/workbench/strategies/evaluate.py:231-238 | what is accepted under an offset, a window or `@`, or as a `let`, reads no state |
| Soundness.BarsAreWithin | modules/workbench/strategies/checking.py:338-350 | whatever the run's values, an offset looks back, and no further than the language allows |
| Soundness.WindowsAreWithin | modules/workbench/strategies/checking.py:326-350 | and so does a window, which holds one bar at least |
| Soundness.AskedInRange | modules/workbench/strategies/requirements.py:29-40 | an accepted indicator call asks the archive for one value of each parameter, within the indicator's bounds, and whole where it takes whole values and the run gave whole values to the parameters declared whole |
| Soundness.AskedWholeExactly | modules/workbench/strategies/runs.py:64-71 | such a call of a whole parameter is accepted, and asks for a whole value exactly when the run gave one |
| Soundness.LinelessHasNoKey | modules/workbench/strategies/requirements.py:40 | an accepted call of an indicator that draws lines but names none has nothing to ask for |
| Soundness.AlignedAgrees | modules/workbench/strategies/series.py:81-92 | a value read under `@` is the last that series had by the moment it is read |
| Columns.FoldIsBest | modules/workbench/strategies/vocabulary.py:138-141 | the highest or lowest of a window is one of its values and none is better, with none where any is missing |
| Columns.BestSinceIs | modules/workbench/strategies/vocabulary.py:157-160 | the best since a condition held is the best of the bars from the last on which it did, past missing values |
| Columns.RolledAgrees | modules/workbench/strategies/evaluate.py:288-292 | a window gives a number a bar, from that bar and those before it |
| Columns.BestSinceEach | modules/workbench/strategies/evaluate.py:299-311 | the loop gives, bar by bar, the best value since the condition last held, that bar included |
| Columns.SinceAgrees | modules/workbench/strategies/evaluate.py:299-311 | so does the best value since a condition held |
| Changes.WalkDescribes | modules/workbench/strategies/changes.py:36-52 | the walk says what became of every part of the document, and nothing else |
| Changes.BetweenIsEmptyExactly | modules/workbench/strategies/changes.py:26-52 | no change exactly when the documents are equal, dictionaries by key |
| Changes.PatchGives | modules/workbench/strategies/changes.py:36-52 | any list that says what became of a value makes it become that |
| Changes.BetweenIsLossless | modules/workbench/strategies/changes.py:26-52 | applied to before it gives after, and reversed, applied to after, it gives before; to the letter exactly where no truth value stands against the number it equals |
| Changes.ReversedDescribes | modules/workbench/strategies/changes.py:36-52 | read backwards, the list says what became of after |
| Changes.BetweenPathsApart | modules/workbench/strategies/changes.py:30-52 | no reported path equals or extends another |
| Changes.TrueReadsAsOne | modules/workbench/strategies/changes.py:51-52 | two documents that differ with no change reported |
| Changes.SameExactly | modules/workbench/strategies/changes.py:51-52 | equality is identity exactly where no truth value stands against the number it equals |
| Hub.StepKeepsExactly | modules/workbench/market_data/hub.py:95-145 | the machine's invariant survives a step exactly when the step does not take the room from under a waiter |
| Hub.SafeExactly | modules/workbench/market_data/hub.py:95-145 | a step is safe exactly when it takes no room from under a waiter: otherwise some run from there leaves an attached subscriber without a publish nobody was cut off from, and after a safe one no undisturbed run does |
| Hub.TakenAwayNeglects | modules/workbench/market_data/hub.py:127-136 | that run, whichever of the three the waiter came for |
| Hub.NobodyIsNeglected | modules/workbench/market_data/hub.py:107-125 | in a state that keeps the invariant everybody attached has every publish, from the snapshot or as a message |
| Hub.RunKeeps | modules/workbench/market_data/hub.py:95-145 | so it survives every run without such a step |
| Hub.LogIsWhatWasPublished | modules/workbench/market_data/hub.py:95-105 | over any run the record of candles is what was published, in order; one whose write failed is in no message and no snapshot |
| Hub.Seam | modules/workbench/market_data/hub.py:107-125 | whoever is attached was sent one snapshot, then messages in lock order; every publish was in the one or told by the other, never both, never neither but for one cut off |
| Hub.NobodyPassedOver | modules/workbench/market_data/hub.py:95-105 | only a publish that was cut off passes anyone over |
| Hub.WaiterIsStranded | modules/workbench/market_data/hub.py:127-136 | a run after which an attached subscriber is never told of a candle stored after its snapshot |
| HubRooms.PairHub.Publish | modules/workbench/market_data/hub.py:95-105 | a hold that stores, sends to everyone in the room and keeps those whose sends came through is a run of the machine |
| HubRooms.PairHub.SendToAll | modules/workbench/market_data/hub.py:138-145 | one failing send drops its subscriber and stops nothing |
| HubRooms.PairHub.Subscribe | modules/workbench/market_data/hub.py:107-125 | snapshot read, sent, and only then attached, in one hold: a run of the machine |
| HubRooms.PairHub.Unsubscribe | modules/workbench/market_data/hub.py:127-136 | an empty room with nothing being built goes with its last subscriber: a run of the machine |
| Agent.EveryTurn | modules/workbench/agent/graph.py:50-54 | for any world at most sixteen calls leave for the server or run here, in a turn that raises as in one that does not, in at most thirty-three node steps, under the recursion limit; every request of a round answered in order; account-moving calls right behind their own trace row; none sent twice |
| Agent.StepsAreBounded | modules/workbench/agent/graph.py:268-279 | from anywhere in a turn, two steps for each call still allowed and one to end on |
| Agent.InsistingTakesEveryStep | modules/workbench/agent/graph.py:50-54 | a model that never stops asking meets the bound |
| Agent.RoundAnswersAll | modules/workbench/agent/graph.py:205-246 | one result for each request, in order; the first of them run up to the ceiling, the rest turned down |
| Agent.RoundWritesAhead | modules/workbench/agent/graph.py:161-203 | at every point an account-moving call that was sent stands right behind its own begun row, and only a sent call is settled |
| Agent.ModelKeeps | modules/workbench/agent/graph.py:96-153 | the model node runs no call, and leads to the tools only below the ceiling |
| Agent.ToolsKeep | modules/workbench/agent/graph.py:155-266 | the tools node runs at least one call and leaves the turn answered |
| TurnAnswers.StopEndsTheTurn | modules/workbench/agent/graph.py:99-132 | over whole turns: a stop seen before an answer or between its pieces ends the turn in that step, stopped, with the text and the usage that had arrived and nothing of its requests run |
| TurnAnswers.FailureEndsTheTurn | modules/workbench/agent/graph.py:133-147 | so does a stream that breaks or a text that could not be told, and the turn has failed |
| TurnAnswers.WholeAnswerIsActedOn | modules/workbench/agent/graph.py:148-153 | an answer that came whole ends the turn without tools on offer or without a request, and otherwise the next round is its requests, all and in order, unless a call raised |
| TurnAnswers.CallsComeTo | modules/workbench/agent/graph.py:161-259 | every call of a round is recorded as the world answered it, and exactly those for the server are sent, an account-moving one only with a row |
| Agent.Graph.CallModel | modules/workbench/agent/graph.py:96-153 | the loop over the stream leaves the turn as the specification of an answer does; what that is, `TurnAnswers` says of whole turns |
| Agent.Graph.RunEach | modules/workbench/agent/graph.py:205-259 | the loop over the pending requests does what the specification of a round says, a call that raises included |
| Agent.Graph.ThroughServer | modules/workbench/agent/graph.py:161-203 | a row first or the call is not sent; a row that could not be settled, or whose call raised, stays as begun |
| Agent.Graph.Run | modules/workbench/agent/graph.py:268-279 | the compiled loop ends in the state, and after the steps, of the specification |
| RateGate.Gate.Acquire | modules/capital-gateway/capital_gateway/rategate.py:18-29 | granted at the first reading at which fewer than `limit` grants are young, waiting only while the last `limit` all are; grants stay `per` apart `limit` places on |
| RateGate.WindowsHoldTheLimit | modules/capital-gateway/capital_gateway/rategate.py:11-29 | every half-open window of length `per` holds at most `limit` grants |
| RateGate.Gate.Forget | modules/capital-gateway/capital_gateway/rategate.py:24-25 | what is forgotten is old enough, and what is left is young |
| CollectedRanges.MergeIsRecord | modules/workbench/polymarket_data/store.py:514-531 | one outcome's merge is the coverage table's, and never refused for a forward window |
| CollectedRanges.BackwardsWindow | modules/workbench/polymarket_data/store.py:524-531 | a backward window changes nothing inside one stored range and is refused everywhere else |
| CollectedRanges.MergeAgain | modules/workbench/polymarket_data/store.py:514-531 | recording a window again changes nothing |
| CollectedRanges.BatchIsOneByOne | modules/workbench/polymarket_data/store.py:507-536 | the one statement does to each outcome what a statement of its own would, and is refused exactly when one of those would be |
| CollectedRanges.TicksAreOneRange | modules/workbench/polymarket_data/ingest.py:270-279 | while the loop does not stall, everything since before its first tick is one range |
| CollectedRanges.AfterAStall | modules/workbench/polymarket_data/ingest.py:270-279 | a tick's window reaches the tick before it exactly when the silence between them was no stall |
| CollectedRanges.TicksCoverExactly | modules/workbench/polymarket_data/ingest.py:270-279 | after any ticks exactly those moments are collected that lie an interval before some tick, or between it and the one before where ten intervals or fewer part them |
| CollectedRanges.RangeTable.RecordCollectedMany | modules/workbench/polymarket_data/store.py:507-536 | all outcomes or none, each as its own merge says |
| Thinning.ChunksAreOnePass | modules/workbench/polymarket_data/ingest.py:189-195 | chunks that end on the hour leave exactly what one thinning of the stretch would |
| Thinning.ThinAgain | modules/workbench/polymarket_data/store.py:664-690 | thinning again deletes nothing more |
| Thinning.LastStays | modules/workbench/polymarket_data/store.py:664-690 | every hour keeps its last sample, as it was |
| Thinning.StepKeeps | modules/workbench/polymarket_data/ingest.py:175-198 | ticks, passes and careful backfills keep every hour behind the boundary, and behind a pass, at one sample |
| Thinning.BehindAPassKeepsExactly | modules/workbench/polymarket_data/ingest.py:175-198 | a backfill that writes while a pass is under way and leaves the boundary alone keeps the promise at the pass's end exactly when no point shares an hour the pass had been through with another point or a stored sample |
| Thinning.CutShortKeepsExactly | modules/workbench/polymarket_data/ingest.py:369-372 | a backfill that dies before it moves the boundary keeps the promise exactly when no point shares an hour before it with another point or a stored sample |
| Thinning.OneSampleAnHour | modules/workbench/polymarket_data/ingest.py:175-198 | over any such run, once no backfill owes a move, every hour before `thinned_through` holds at most one sample |
| Thinning.NothingRecentIsLost | modules/workbench/polymarket_data/ingest.py:175-198 | over any run an hour that holds a sample goes on holding one as late, and a sample not yet thirty days old stays, with all that was known of it |
| Thinning.StepTakesOnlyOld | modules/workbench/polymarket_data/store.py:664-690 | what a step deletes is more than thirty days old and outlived within its hour |
| Thinning.ThrownOffSaysNothing | modules/workbench/polymarket_data/store.py:693-706 | once a backfill has moved the boundary back mid-pass, nothing the pass does moves it |
| Thinning.BackfillBehindAPass | modules/workbench/polymarket_data/ingest.py:175-198 | a run in which the pass sets the boundary over samples it never saw |
| Thinning.BackfillCutShort | modules/workbench/polymarket_data/ingest.py:369-372 | a run in which a backfill that died leaves samples behind the boundary |
| Thinning.OutcomeTable.ThinOutcome | modules/workbench/polymarket_data/ingest.py:183-197 | one outcome's pass from its boundary, or its oldest hour, to the cutoff, and the boundary moved |
| Thinning.OutcomeTable.ThinSamples | modules/workbench/polymarket_data/store.py:664-690 | the last sample of every hour of the stretch kept, everything else of it gone, nothing outside it touched |

## Left out

- Delivery: the throttle notice and its claim, the reasons written beside a fire, and two workers at once. An exception is a
  step of the machine; the imperative worker in `Deliverers.dfy` is the tick on which none is raised.
- Deliverers.Deliverer.Run: takes the due fires in the order and number the claim chose them; the `ORDER BY` itself is not
  modelled.
- Publishing.Publisher.Publish: the method is the transaction nobody comes between; `ConsiderEach` and the machine have the
  others. Schema validation, the filter's terms and the template are inputs, and the line written for a cool-down is not
  modelled.
- Looks: a look is its outcome; asking the tool, walking its answer and the threshold are not part of the model. Operator
  edits, which reset a rule's memory on purpose, are not part of a run.
- History.Collect: times are whole seconds and the series does not change while it is read; marking the forming candle is
  left out.
- Coverage: lifting the history boundary, `absence_at` and `earliest_reachable` would only add easy members.
- Archive: candles carry no price side, and prices are exact; concurrent commits of one pair are serial.
- Changes: paths are lists of steps. The strings made of them are ambiguous when a key holds a dot or a bracket.
- Checking: which problem is reported, its wording and its hints; only whether there is one.
- Soundness: floating point, infinities and the memo of columns already computed; the session clocks and the archive's
  indicators are functions given. What a formula needs read before the range it is run over is not modelled.
- Hub: one pair, since rooms of different pairs share nothing; a subscriber is one connection and subscribes once. A reader
  sees candles written outside the hub as the store has them.
- HubRooms.PairHub.Publish: the lock is free when it is asked for; the machine in `Hub` has the waiting.
- Agent: the text of refusals, and who is told of a call by what route.
- RateGate.Gate.Acquire: the clock's readings are given, and pass the wait in the end; how long a sleep is asked for is not.
- Thinning: `delete_history`, and two passes of one outcome at once. `record_collected` stands in `CollectedRanges`.
- HTTP, WebSocket, MCP and Telegram transport, settings, migrations, front ends, drafting, parsing of provider payloads:
  plumbing, or foreign services whose answers are inputs here.
- Costs, tickets, chart commands, tracking states, check-in decisions and name similarity: easy members.
