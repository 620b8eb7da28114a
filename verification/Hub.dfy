/**
 One pair's room: publishers and subscribers taking turns under its lock, and the seam between a snapshot and the messages
 that follow it. A task first looks the room up and only then waits for its lock, as the code does; any waiter may be let
 in next. A hold is several steps, one for each thing awaited in it, and its task may be cut off at any of them.
 */
module Hub {
  import opened Wrappers

  type Sub = nat
  type RoomId = nat

  datatype Candle = Candle(start: int, forming: bool, price: int)

  datatype Heard = Snapshot(upto: nat, forming: Option<Candle>) | Change(n: nat, candle: Candle)

  datatype Holder =
    | Free
    | Storing(candle: Candle)
    | Sending(n: nat, todo: set<Sub>)
    | Reading(x: Sub)
    | Greeting(x: Sub, snapshot: Heard)

  datatype Room = Room(subscribers: set<Sub>, forming: Option<Candle>, holder: Holder)

  datatype Task = Publish(candle: Candle) | Subscribe(x: Sub) | Unsubscribe(x: Sub)

  datatype Waiter = Waiter(room: RoomId, task: Task)

  /** The rooms there have been and the one the table names, the tasks between looking a room up and holding it, and what
      every subscriber has been sent. `log` is the candles published, in the order they were; a closed one is in the store
      from the moment it is in the log, so a snapshot of everything stored is named by how far the log had come. Beside
      them: who was passed over by which publish that was cut off, and which were cut off before they touched the room. */
  datatype State = State(
    current: Option<RoomId>, rooms: seq<Room>, waiting: map<nat, Waiter>, known: set<Sub>,
    log: seq<Candle>, inbox: map<Sub, seq<Heard>>, missed: set<(nat, Sub)>, lost: set<nat>)

  datatype StoreOutcome = Stored | Failed | Lost

  datatype Step =
    | Look(id: nat, task: Task)
    | Enter(id: nat)
    | Store(room: RoomId, outcome: StoreOutcome)
    | Send(room: RoomId, to: Sub, ok: bool)
    | Read(room: RoomId)
    | Greet(room: RoomId, ok: bool)
    | Die(room: RoomId)

  // ---- the steps -------------------------------------------------------------------------------------------------

  function WithRoom(s: State, r: RoomId, room: Room): State
    requires r < |s.rooms|
  {
    s.(rooms := s.rooms[r := room])
  }

  /** The room is found, or made unless whoever asks is only leaving. */
  function AfterLook(s: State, id: nat, task: Task): State {
    var known := if task.Subscribe? then s.known + {task.x} else s.known;
    match s.current
    case Some(r) => s.(waiting := s.waiting[id := Waiter(r, task)], known := known)
    case None =>
      if task.Unsubscribe? then s
      else
        s.(current := Some(|s.rooms|), rooms := s.rooms + [Room({}, None, Free)],
           waiting := s.waiting[id := Waiter(|s.rooms|, task)], known := known)
  }

  function Telling(n: nat, todo: set<Sub>): Holder { if todo == {} then Free else Sending(n, todo) }

  /** The candle is the room's news, and everyone in the room is to be sent it. */
  function Begin(s: State, r: RoomId, candle: Candle): State
    requires r < |s.rooms|
  {
    var room := s.rooms[r];
    WithRoom(s, r, Room(room.subscribers, if candle.forming then Some(candle) else None, Telling(|s.log|, room.subscribers)))
      .(log := s.log + [candle])
  }

  predicate Empty(room: Room) { room.subscribers == {} && room.forming == None }

  function AfterEnter(s: State, id: nat): State
    requires id in s.waiting && s.waiting[id].room < |s.rooms|
  {
    var r, task := s.waiting[id].room, s.waiting[id].task;
    var t := s.(waiting := s.waiting - {id});
    match task
    case Publish(candle) => if candle.forming then Begin(t, r, candle) else WithRoom(t, r, t.rooms[r].(holder := Storing(candle)))
    case Subscribe(x) => WithRoom(t, r, t.rooms[r].(holder := Reading(x)))
    case Unsubscribe(x) =>
      var room := t.rooms[r].(subscribers := t.rooms[r].subscribers - {x});
      WithRoom(t, r, room).(current := if Empty(room) then None else t.current)
  }

  /** The write came through, or came to nothing, or came through with nobody told. */
  function AfterStore(s: State, r: RoomId, outcome: StoreOutcome): State
    requires r < |s.rooms| && s.rooms[r].holder.Storing?
  {
    var room := s.rooms[r];
    match outcome
    case Stored => Begin(s, r, room.holder.candle)
    case Failed => WithRoom(s, r, room.(holder := Free))
    case Lost =>
      WithRoom(s, r, room.(holder := Free)).(
        log := s.log + [room.holder.candle],
        missed := s.missed + PassedOver(|s.log|, room.subscribers),
        lost := s.lost + {|s.log|})
  }

  function PassedOver(n: nat, subs: set<Sub>): set<(nat, Sub)> { set x | x in subs :: (n, x) }

  /** One subscriber is sent the message; if that fails it is dropped. */
  function AfterSend(s: State, r: RoomId, to: Sub, ok: bool): State
    requires r < |s.rooms| && s.rooms[r].holder.Sending? && s.rooms[r].holder.n < |s.log|
  {
    var room, n := s.rooms[r], s.rooms[r].holder.n;
    var left := Room(if ok then room.subscribers else room.subscribers - {to}, room.forming, Telling(n, room.holder.todo - {to}));
    WithRoom(s, r, left).(inbox := if ok then Sent(s.inbox, to, Change(n, s.log[n])) else s.inbox)
  }

  function Sent(inbox: map<Sub, seq<Heard>>, to: Sub, message: Heard): map<Sub, seq<Heard>> {
    inbox[to := (if to in inbox then inbox[to] else []) + [message]]
  }

  function AfterRead(s: State, r: RoomId): State
    requires r < |s.rooms| && s.rooms[r].holder.Reading?
  {
    var room := s.rooms[r];
    WithRoom(s, r, room.(holder := Greeting(room.holder.x, Snapshot(|s.log|, room.forming))))
  }

  function AfterGreet(s: State, r: RoomId, ok: bool): State
    requires r < |s.rooms| && s.rooms[r].holder.Greeting?
  {
    var room, x := s.rooms[r], s.rooms[r].holder.x;
    if ok then
      WithRoom(s, r, Room(room.subscribers + {x}, room.forming, Free)).(inbox := Sent(s.inbox, x, room.holder.snapshot))
    else WithRoom(s, r, room.(holder := Free))
  }

  /** Whoever holds the room is cut off. */
  function AfterDie(s: State, r: RoomId): State
    requires r < |s.rooms|
  {
    var room := s.rooms[r];
    WithRoom(s, r, room.(holder := Free)).(
      missed := if room.holder.Sending? then s.missed + PassedOver(room.holder.n, room.holder.todo) else s.missed)
  }

  ghost predicate Enabled(s: State, step: Step) {
    match step
    case Look(id, task) => id !in s.waiting && (task.Subscribe? ==> task.x !in s.known)
    case Enter(id) => id in s.waiting && s.waiting[id].room < |s.rooms| && s.rooms[s.waiting[id].room].holder == Free
    case Store(r, outcome) => r < |s.rooms| && s.rooms[r].holder.Storing?
    case Send(r, to, ok) =>
      r < |s.rooms| && s.rooms[r].holder.Sending? && to in s.rooms[r].holder.todo && s.rooms[r].holder.n < |s.log|
    case Read(r) => r < |s.rooms| && s.rooms[r].holder.Reading?
    case Greet(r, ok) => r < |s.rooms| && s.rooms[r].holder.Greeting?
    case Die(r) => r < |s.rooms| && s.rooms[r].holder != Free
  }

  ghost function After(s: State, step: Step): State
    requires Enabled(s, step)
  {
    match step
    case Look(id, task) => AfterLook(s, id, task)
    case Enter(id) => AfterEnter(s, id)
    case Store(r, outcome) => AfterStore(s, r, outcome)
    case Send(r, to, ok) => AfterSend(s, r, to, ok)
    case Read(r) => AfterRead(s, r)
    case Greet(r, ok) => AfterGreet(s, r, ok)
    case Die(r) => AfterDie(s, r)
  }

  // ---- what a subscriber is owed ---------------------------------------------------------------------------------

  /** The publishes from `lo` up to `hi` that did not pass the subscriber over, in the order they were made. */
  function Owed(lo: nat, hi: nat, x: Sub, log: seq<Candle>, missed: set<(nat, Sub)>): seq<Heard>
    requires hi <= |log|
    decreases hi
  {
    if lo >= hi then []
    else if (hi - 1, x) in missed then Owed(lo, hi - 1, x, log, missed)
    else Owed(lo, hi - 1, x, log, missed) + [Change(hi - 1, log[hi - 1])]
  }

  /** The candle the room is building, from the log alone: the last publish that reached the room, if it is not closed. */
  function Building(log: seq<Candle>, lost: set<nat>): Option<Candle> {
    if log == [] then None
    else if |log| - 1 in lost then Building(log[..|log| - 1], lost)
    else if log[|log| - 1].forming then Some(log[|log| - 1])
    else None
  }

  /** One snapshot, and then every message since it, up to `hi`. */
  ghost predicate InboxHolds(inbox: seq<Heard>, x: Sub, hi: nat, log: seq<Candle>, missed: set<(nat, Sub)>, lost: set<nat>) {
    && inbox != [] && inbox[0].Snapshot? && inbox[0].upto <= hi <= |log|
    && inbox[0].forming == Building(log[..inbox[0].upto], lost)
    && inbox[1..] == Owed(inbox[0].upto, hi, x, log, missed)
  }

  lemma {:induction false} OwedKept(lo: nat, hi: nat, x: Sub, log: seq<Candle>, missed: set<(nat, Sub)>,
                                    longer: seq<Candle>, more: set<(nat, Sub)>)
    requires hi <= |log| && log <= longer
    requires forall n :: 0 <= n < hi ==> ((n, x) in more <==> (n, x) in missed)
    ensures Owed(lo, hi, x, longer, more) == Owed(lo, hi, x, log, missed)
    decreases hi
  {
    if lo < hi {
      OwedKept(lo, hi - 1, x, log, missed, longer, more);
    }
  }

  lemma {:induction false} BuildingKept(log: seq<Candle>, lost: set<nat>, more: set<nat>)
    requires forall n :: 0 <= n < |log| ==> (n in more <==> n in lost)
    ensures Building(log, more) == Building(log, lost)
  {
    if log != [] {
      BuildingKept(log[..|log| - 1], lost, more);
    }
  }

  /** Later publishes, and later losses, are nothing to what a subscriber has heard. */
  lemma InboxKept(inbox: seq<Heard>, x: Sub, hi: nat, log: seq<Candle>, missed: set<(nat, Sub)>, lost: set<nat>,
                  longer: seq<Candle>, more: set<(nat, Sub)>, gone: set<nat>)
    requires InboxHolds(inbox, x, hi, log, missed, lost) && log <= longer
    requires forall n :: 0 <= n < hi ==> ((n, x) in more <==> (n, x) in missed)
    requires forall n :: 0 <= n < |log| ==> (n in gone <==> n in lost)
    ensures InboxHolds(inbox, x, hi, longer, more, gone)
  {
    var upto := inbox[0].upto;
    assert longer[..upto] == log[..upto];
    BuildingKept(log[..upto], lost, gone);
    OwedKept(upto, hi, x, log, missed, longer, more);
  }

  // ---- what every step keeps, while no room is taken away from under a waiter ------------------------------------

  function Live(s: State): Room {
    if s.current.Some? && s.current.value < |s.rooms| then s.rooms[s.current.value] else Room({}, None, Free)
  }

  /** Whoever waits, waits before the room the table names; and no other room has anything in it. */
  ghost predicate Placed(s: State) {
    && (s.current.Some? ==> s.current.value < |s.rooms|)
    && (forall id :: id in s.waiting ==> s.current == Some(s.waiting[id].room))
    && (forall r :: 0 <= r < |s.rooms| && s.current != Some(r) ==> s.rooms[r].holder == Free && s.rooms[r].subscribers == {})
  }

  ghost predicate Numbered(s: State) {
    && (forall n, x :: (n, x) in s.missed ==> n < |s.log|)
    && (forall n :: n in s.lost ==> n < |s.log|)
  }

  ghost predicate HolderHolds(s: State) {
    match Live(s).holder
    case Free => true
    case Storing(candle) => !candle.forming
    case Sending(n, todo) =>
      n == |s.log| - 1 && todo != {} && todo <= Live(s).subscribers && forall x :: (n, x) !in s.missed
    case Reading(x) => true
    case Greeting(x, snapshot) => snapshot == Snapshot(|s.log|, Live(s).forming)
  }

  /** The candle the room shows a newcomer is the one being built. */
  ghost predicate NewsHolds(s: State) { Live(s).forming == Building(s.log, s.lost) }

  predicate HeldFor(s: State, x: Sub) {
    var h := Live(s).holder;
    (h.Reading? || h.Greeting?) && h.x == x
  }

  predicate Comes(s: State, id: nat) { id in s.waiting && s.waiting[id].task.Subscribe? }

  ghost predicate Unheard(s: State, x: Sub) { x in s.known && x !in s.inbox && x !in Live(s).subscribers }

  /** A newcomer is known and has been sent nothing yet, and comes once. */
  ghost predicate Newcomers(s: State) {
    && s.inbox.Keys <= s.known
    && (forall id :: Comes(s, id) ==> Unheard(s, s.waiting[id].task.x) && !HeldFor(s, s.waiting[id].task.x))
    && (forall id, other :: Comes(s, id) && Comes(s, other) && id != other ==> s.waiting[id].task.x != s.waiting[other].task.x)
    && (forall x :: HeldFor(s, x) ==> Unheard(s, x))
  }

  /** How far the messages to a subscriber have come. */
  function Upper(s: State, x: Sub): nat {
    var h := Live(s).holder;
    if h.Sending? && x in h.todo && |s.log| > 0 then |s.log| - 1 else |s.log|
  }

  ghost predicate HearsAll(s: State, x: Sub) {
    x in s.inbox && InboxHolds(s.inbox[x], x, Upper(s, x), s.log, s.missed, s.lost)
  }

  ghost predicate Inboxes(s: State) {
    forall x :: x in Live(s).subscribers ==> HearsAll(s, x)
  }

  ghost predicate Invariant(s: State) {
    Placed(s) && Numbered(s) && HolderHolds(s) && NewsHolds(s) && Newcomers(s) && Inboxes(s)
  }

  /** Nothing this subscriber hears, or is owed, changed. */
  ghost predicate Frame(s: State, t: State, x: Sub) {
    && x in Live(s).subscribers && x in t.inbox && x in s.inbox && t.inbox[x] == s.inbox[x]
    && Upper(t, x) == Upper(s, x) && s.log <= t.log
    && (forall n :: 0 <= n < Upper(s, x) ==> ((n, x) in t.missed <==> (n, x) in s.missed))
    && (forall n :: 0 <= n < |s.log| ==> (n in t.lost <==> n in s.lost))
  }

  lemma FrameKeeps(s: State, t: State, x: Sub)
    requires Frame(s, t, x) && HearsAll(s, x)
    ensures HearsAll(t, x)
  {
    InboxKept(s.inbox[x], x, Upper(s, x), s.log, s.missed, s.lost, t.log, t.missed, t.lost);
  }

  /** Whether the step takes the room off the table, and whether anyone is then left waiting before it. */
  ghost predicate TakesAway(s: State, step: Step) {
    step.Enter? && step.id in s.waiting && s.waiting[step.id].task.Unsubscribe? && s.waiting[step.id].room < |s.rooms|
    && Empty(s.rooms[s.waiting[step.id].room].(
               subscribers := s.rooms[s.waiting[step.id].room].subscribers - {s.waiting[step.id].task.x}))
  }

  ghost predicate OthersWait(s: State, step: Step)
    requires step.Enter?
  {
    exists other :: other in s.waiting && other != step.id
  }

  /** Fewer waiting changes nothing else. */
  lemma FewerWait(s: State, id: nat)
    requires Invariant(s)
    ensures Invariant(s.(waiting := s.waiting - {id}))
  {
    var t := s.(waiting := s.waiting - {id});
    assert Live(t) == Live(s);
    forall x | x in Live(t).subscribers ensures HearsAll(t, x) { FrameKeeps(s, t, x); }
    forall x | Unheard(s, x) ensures Unheard(t, x) {
    }
  }

  /** A hold that ends, or has not begun to tell anyone anything. */
  lemma HolderKeeps(s: State, t: State, r: RoomId, holder: Holder)
    requires Invariant(s) && s.current == Some(r) && !Live(s).holder.Sending?
    requires t == WithRoom(s, r, s.rooms[r].(holder := holder))
    requires holder == Free || (holder.Storing? && !holder.candle.forming)
    ensures Invariant(t)
  {
  }

  lemma LookKeeps(s: State, id: nat, task: Task)
    requires Invariant(s) && Enabled(s, Look(id, task))
    ensures Invariant(AfterLook(s, id, task))
  {
    var t := AfterLook(s, id, task);
    assert Live(t) == Live(s);
    forall x | x in Live(t).subscribers ensures HearsAll(t, x) { FrameKeeps(s, t, x); }
    LookNewcomers(s, t, id, task);
  }

  lemma LookNewcomers(s: State, t: State, id: nat, task: Task)
    requires Newcomers(s) && Inboxes(s) && Enabled(s, Look(id, task)) && t == AfterLook(s, id, task) && Live(t) == Live(s)
    ensures Newcomers(t)
  {
    forall x | Unheard(s, x) ensures Unheard(t, x) {
    }
    forall x ensures HeldFor(t, x) == HeldFor(s, x) {
    }
    forall x | x !in s.known ensures x !in s.inbox && x !in Live(s).subscribers && !HeldFor(s, x) {
      assert HearsAll(s, x) ==> x in s.inbox;
    }
  }

  /** The steps within a hold are the named room's. */
  lemma HeldIsLive(s: State, r: RoomId)
    requires Placed(s) && r < |s.rooms| && s.rooms[r].holder != Free
    ensures s.current == Some(r) && Live(s) == s.rooms[r]
  {
  }

  lemma BeginKeeps(s: State, r: RoomId, candle: Candle, t: State)
    requires Placed(s) && Numbered(s) && NewsHolds(s) && Newcomers(s) && Inboxes(s) && s.current == Some(r)
    requires (Live(s).holder == Free || Live(s).holder == Storing(candle)) && r < |s.rooms| && t == Begin(s, r, candle)
    ensures Invariant(t)
  {
    assert t.log[..|t.log| - 1] == s.log;
    forall x | x in Live(t).subscribers ensures HearsAll(t, x) { FrameKeeps(s, t, x); }
  }

  lemma EnterKeeps(s: State, id: nat)
    requires Invariant(s) && Enabled(s, Enter(id)) && (TakesAway(s, Enter(id)) ==> !OthersWait(s, Enter(id)))
    ensures Invariant(AfterEnter(s, id))
  {
    var r, task, t := s.waiting[id].room, s.waiting[id].task, AfterEnter(s, id);
    var u := s.(waiting := s.waiting - {id});
    match task {
      case Publish(candle) =>
        FewerWait(s, id);
        if candle.forming {
          BeginKeeps(u, r, candle, t);
        } else {
          HolderKeeps(u, t, r, Storing(candle));
        }
      case Subscribe(x) =>
        EnterSubscribe(s, t, id, r, x);
      case Unsubscribe(x) =>
        EnterUnsubscribe(s, t, id, r, x);
    }
  }

  /** The subscriber whose turn it is comes in, having been waiting. */
  lemma EnterSubscribe(s: State, t: State, id: nat, r: RoomId, x: Sub)
    requires Invariant(s) && Enabled(s, Enter(id)) && s.waiting[id] == Waiter(r, Subscribe(x)) && t == AfterEnter(s, id)
    ensures Invariant(t)
  {
  }

  lemma EnterUnsubscribe(s: State, t: State, id: nat, r: RoomId, x: Sub)
    requires Invariant(s) && Enabled(s, Enter(id)) && s.waiting[id] == Waiter(r, Unsubscribe(x)) && t == AfterEnter(s, id)
    requires TakesAway(s, Enter(id)) ==> !OthersWait(s, Enter(id))
    ensures Invariant(t)
  {
    assert s.current == Some(r);
    assert Live(t).subscribers <= Live(s).subscribers && Live(t).forming == Live(s).forming && Live(t).holder == Free;
    forall y | y in Live(t).subscribers ensures HearsAll(t, y) { FrameKeeps(s, t, y); }
    forall other | Comes(t, other) ensures Comes(s, other) {
    }
  }

  lemma StoreKeeps(s: State, t: State, r: RoomId, outcome: StoreOutcome)
    requires Invariant(s) && Enabled(s, Store(r, outcome)) && t == AfterStore(s, r, outcome)
    ensures Invariant(t)
  {
    HeldIsLive(s, r);
    match outcome {
      case Stored => BeginKeeps(s, r, s.rooms[r].holder.candle, t);
      case Failed => HolderKeeps(s, t, r, Free);
      case Lost => LostKeeps(s, t, r);
    }
  }

  /** A write that came through with nobody told passes everyone in the room over, and leaves the room as it was. */
  lemma LostKeeps(s: State, t: State, r: RoomId)
    requires Invariant(s) && s.current == Some(r) && Enabled(s, Store(r, Lost)) && t == AfterStore(s, r, Lost)
    ensures Invariant(t)
  {
    assert t.log[..|t.log| - 1] == s.log;
    BuildingKept(s.log, s.lost, t.lost);
    forall x | x in Live(t).subscribers ensures HearsAll(t, x) {
      assert HearsAll(s, x);
      var upto := s.inbox[x][0].upto;
      InboxKept(s.inbox[x], x, |s.log|, s.log, s.missed, s.lost, t.log, t.missed, t.lost);
      assert (|s.log|, x) in t.missed;
    }
  }

  lemma SendKeeps(s: State, t: State, r: RoomId, to: Sub, ok: bool)
    requires Invariant(s) && Enabled(s, Send(r, to, ok)) && t == AfterSend(s, r, to, ok)
    ensures Invariant(t)
  {
    HeldIsLive(s, r);
    forall x | x in Live(t).subscribers ensures HearsAll(t, x) {
      if x == to {
        SentKeeps(s, t, r, to);
      } else {
        assert x in Live(s).holder.todo ==> x in Live(s).holder.todo - {to};
        FrameKeeps(s, t, x);
      }
    }
  }

  /** The message sent is the next one owed. */
  lemma SentKeeps(s: State, t: State, r: RoomId, to: Sub)
    requires Invariant(s) && s.current == Some(r) && Enabled(s, Send(r, to, true)) && t == AfterSend(s, r, to, true)
    ensures HearsAll(t, to)
  {
  }

  lemma ReadKeeps(s: State, t: State, r: RoomId)
    requires Invariant(s) && Enabled(s, Read(r)) && t == AfterRead(s, r)
    ensures Invariant(t)
  {
    HeldIsLive(s, r);
    forall x | x in Live(t).subscribers ensures HearsAll(t, x) { FrameKeeps(s, t, x); }
    forall x | Unheard(s, x) ensures Unheard(t, x) {
    }
    forall x ensures HeldFor(t, x) == HeldFor(s, x) {
    }
  }

  lemma GreetKeeps(s: State, t: State, r: RoomId, ok: bool)
    requires Invariant(s) && Enabled(s, Greet(r, ok)) && t == AfterGreet(s, r, ok)
    ensures Invariant(t)
  {
    HeldIsLive(s, r);
    if ok {
      GreetedKeeps(s, t, r);
    } else {
      HolderKeeps(s, t, r, Free);
    }
  }

  lemma GreetedKeeps(s: State, t: State, r: RoomId)
    requires Invariant(s) && s.current == Some(r) && Enabled(s, Greet(r, true)) && t == AfterGreet(s, r, true)
    ensures Invariant(t)
  {
    var x := Live(s).holder.x;
    assert HeldFor(s, x) && Unheard(s, x);
    assert s.log[..|s.log|] == s.log;
    forall y | y in Live(t).subscribers ensures HearsAll(t, y) {
      if y != x {
        FrameKeeps(s, t, y);
      }
    }
    forall y | Unheard(s, y) && y != x ensures Unheard(t, y) {
    }
  }

  lemma DieKeeps(s: State, t: State, r: RoomId)
    requires Invariant(s) && Enabled(s, Die(r)) && t == AfterDie(s, r)
    ensures Invariant(t)
  {
    HeldIsLive(s, r);
    if s.rooms[r].holder.Sending? {
      CutKeeps(s, t, r);
    } else {
      HolderKeeps(s, t, r, Free);
    }
  }

  /** A publish cut off passes over exactly those it had not come to. */
  lemma CutKeeps(s: State, t: State, r: RoomId)
    requires Invariant(s) && s.current == Some(r) && s.rooms[r].holder.Sending? && t == AfterDie(s, r)
    ensures Invariant(t)
  {
    var n, todo := Live(s).holder.n, Live(s).holder.todo;
    forall x | x in Live(t).subscribers ensures HearsAll(t, x) {
      assert HearsAll(s, x);
      if x in todo {
        InboxKept(s.inbox[x], x, n, s.log, s.missed, s.lost, t.log, t.missed, t.lost);
        assert (n, x) in t.missed;
      } else {
        FrameKeeps(s, t, x);
      }
    }
    forall x | Unheard(s, x) ensures Unheard(t, x) {
    }
  }

  /** The machine's invariant survives a step exactly when the step does not take the room away from under
      someone who has looked it up and not yet been let in. */
  lemma StepKeepsExactly(s: State, step: Step)
    requires Invariant(s) && Enabled(s, step)
    ensures Invariant(After(s, step)) <==> (TakesAway(s, step) ==> !OthersWait(s, step))
  {
    var t := After(s, step);
    if TakesAway(s, step) && OthersWait(s, step) {
      var other :| other in s.waiting && other != step.id;
      assert other in t.waiting && t.current == None;
    } else {
      match step {
        case Look(id, task) => LookKeeps(s, id, task);
        case Enter(id) => EnterKeeps(s, id);
        case Store(r, outcome) => StoreKeeps(s, t, r, outcome);
        case Send(r, to, ok) => SendKeeps(s, t, r, to, ok);
        case Read(r) => ReadKeeps(s, t, r);
        case Greet(r, ok) => GreetKeeps(s, t, r, ok);
        case Die(r) => DieKeeps(s, t, r);
      }
    }
  }

  // ---- whole runs ------------------------------------------------------------------------------------------------

  ghost predicate Reaches(s: State, steps: seq<Step>, t: State)
    decreases |steps|
  {
    if steps == [] then t == s else Enabled(s, steps[0]) && Reaches(After(s, steps[0]), steps[1..], t)
  }

  /** What a step publishes: a forming candle as its task takes hold of the room, a closed one when its write came through,
      whether or not anyone could be told; one whose write failed, never. */
  ghost function Publishes(s: State, step: Step): seq<Candle>
    requires Enabled(s, step)
  {
    match step
    case Enter(id) =>
      if s.waiting[id].task.Publish? && s.waiting[id].task.candle.forming then [s.waiting[id].task.candle] else []
    case Store(r, outcome) => if outcome == Failed then [] else [s.rooms[r].holder.candle]
    case _ => []
  }

  ghost function AllPublished(s: State, steps: seq<Step>): seq<Candle>
    decreases |steps|
  {
    if steps == [] || !Enabled(s, steps[0]) then [] else Publishes(s, steps[0]) + AllPublished(After(s, steps[0]), steps[1..])
  }

  lemma StepPublishes(s: State, step: Step)
    requires Enabled(s, step)
    ensures After(s, step).log == s.log + Publishes(s, step)
  {
  }

  /** Over any run the record is exactly what was published, in order; so no message, and no snapshot, tells of a candle whose
      write failed. */
  lemma {:induction false} LogIsWhatWasPublished(s: State, steps: seq<Step>, t: State)
    requires Reaches(s, steps, t)
    ensures t.log == s.log + AllPublished(s, steps)
    decreases |steps|
  {
    if steps != [] {
      hide Enabled, After, Publishes;
      StepPublishes(s, steps[0]);
      LogIsWhatWasPublished(After(s, steps[0]), steps[1..], t);
    }
  }

  /** No step of the run takes the room away while someone waits before it. */
  ghost predicate Undisturbed(s: State, steps: seq<Step>)
    decreases |steps|
  {
    steps == [] ||
    (Enabled(s, steps[0]) && (TakesAway(s, steps[0]) ==> !OthersWait(s, steps[0])) && Undisturbed(After(s, steps[0]), steps[1..]))
  }

  const START := State(None, [], map[], {}, [], map[], {}, {})

  lemma {:induction false} RunKeeps(s: State, steps: seq<Step>, t: State)
    requires Invariant(s) && Reaches(s, steps, t) && Undisturbed(s, steps)
    ensures Invariant(t)
    decreases |steps|
  {
    hide Invariant, Enabled, After, TakesAway, OthersWait;
    if steps != [] {
      StepKeepsExactly(s, steps[0]);
      RunKeeps(After(s, steps[0]), steps[1..], t);
    }
  }

  lemma {:induction false} OwedExactly(lo: nat, hi: nat, x: Sub, log: seq<Candle>, missed: set<(nat, Sub)>)
    requires hi <= |log|
    ensures forall i :: 0 <= i < |Owed(lo, hi, x, log, missed)| ==>
      var m := Owed(lo, hi, x, log, missed)[i]; m.Change? && lo <= m.n < hi && m.candle == log[m.n]
    ensures forall n: nat :: n < hi ==> (Change(n, log[n]) in Owed(lo, hi, x, log, missed) <==> lo <= n && (n, x) !in missed)
    ensures forall i, j :: 0 <= i < j < |Owed(lo, hi, x, log, missed)| ==>
      Owed(lo, hi, x, log, missed)[i].Change? && Owed(lo, hi, x, log, missed)[j].Change?
      && Owed(lo, hi, x, log, missed)[i].n < Owed(lo, hi, x, log, missed)[j].n
    decreases hi
  {
    if lo < hi {
      OwedExactly(lo, hi - 1, x, log, missed);
    }
  }

  /** Whether the snapshot a subscriber began with holds the closed candle published as number `n`. */
  predicate InSnapshot(inbox: seq<Heard>, n: nat) { inbox != [] && inbox[0].Snapshot? && n < inbox[0].upto }

  ghost predicate Told(inbox: seq<Heard>, n: nat) {
    exists i :: 0 < i < |inbox| && inbox[i].Change? && inbox[i].n == n
  }

  /** Whoever is in the room has been sent one snapshot and then messages in the order they were published; every publish was
      in the one or told by the other, never both, and never neither but for one that was cut off before it came to them. */
  lemma Seam(steps: seq<Step>, t: State, x: Sub)
    requires Reaches(START, steps, t) && Undisturbed(START, steps)
    requires x in Live(t).subscribers
    ensures x in t.inbox && t.inbox[x] != [] && t.inbox[x][0].Snapshot?
    ensures forall i :: 0 < i < |t.inbox[x]| ==> t.inbox[x][i].Change?
    ensures forall i, j :: 0 < i < j < |t.inbox[x]| ==> t.inbox[x][i].n < t.inbox[x][j].n
    ensures forall n: nat :: !(InSnapshot(t.inbox[x], n) && Told(t.inbox[x], n))
    ensures forall n: nat :: n < Upper(t, x) && (n, x) !in t.missed ==> InSnapshot(t.inbox[x], n) || Told(t.inbox[x], n)
    ensures t.inbox[x][0].upto <= |t.log| && t.inbox[x][0].forming == Building(t.log[..t.inbox[x][0].upto], t.lost)
  {
    assert Invariant(START);
    RunKeeps(START, steps, t);
    assert HearsAll(t, x);
    HeardInOrder(t.inbox[x], x, Upper(t, x), t.log, t.missed, t.lost);
  }

  lemma HeardInOrder(inbox: seq<Heard>, x: Sub, hi: nat, log: seq<Candle>, missed: set<(nat, Sub)>, lost: set<nat>)
    requires InboxHolds(inbox, x, hi, log, missed, lost)
    ensures forall i :: 0 < i < |inbox| ==> inbox[i].Change?
    ensures forall i, j :: 0 < i < j < |inbox| ==> inbox[i].n < inbox[j].n
    ensures forall n: nat :: !(InSnapshot(inbox, n) && Told(inbox, n))
    ensures forall n: nat :: n < hi && (n, x) !in missed ==> InSnapshot(inbox, n) || Told(inbox, n)
  {
    var later := inbox[1..];
    OwedExactly(inbox[0].upto, hi, x, log, missed);
    assert forall i :: 0 < i < |inbox| ==> inbox[i] == later[i - 1];
    forall n: nat | n < hi && (n, x) !in missed && n >= inbox[0].upto ensures Told(inbox, n) {
      assert Change(n, log[n]) in later;
      var i :| 0 <= i < |later| && later[i] == Change(n, log[n]);
      assert inbox[i + 1].n == n;
    }
  }

  /** Nobody is passed over but by a publish that was cut off. */
  ghost predicate CutsOff(step: Step) { step.Die? || (step.Store? && step.outcome == Lost) }

  lemma {:induction false} NobodyPassedOver(s: State, steps: seq<Step>, t: State)
    requires Reaches(s, steps, t) && forall i :: 0 <= i < |steps| ==> !CutsOff(steps[i])
    ensures t.missed == s.missed && t.lost == s.lost
    decreases |steps|
  {
    if steps != [] {
      assert !CutsOff(steps[0]);
      NobodyPassedOver(After(s, steps[0]), steps[1..], t);
    }
  }

  // ---- the room taken away from under a waiter -------------------------------------------------------------------

  lemma OneMoreStep(s: State, step: Step, steps: seq<Step>, t: State)
    requires Enabled(s, step) && Reaches(After(s, step), steps, t)
    ensures Reaches(s, [step] + steps, t)
  {
    assert ([step] + steps)[1..] == steps;
  }

  const FIRST := Candle(0, false, 1)
  const NEXT := Candle(60, false, 2)

  /** Subscriber 1 is in the room while a candle is stored; behind the lock wait 1's leaving and 2's coming. */
  const TWO_WAIT := State(
    Some(0), [Room({1}, None, Storing(FIRST))], map[2 := Waiter(0, Unsubscribe(1)), 3 := Waiter(0, Subscribe(2))],
    {1, 2}, [], map[1 := [Snapshot(0, None)]], {}, {})

  /** Subscriber 2 sits in a room nobody can find any more. */
  const STRANDED := State(
    Some(1), [Room({2}, None, Free), Room({}, None, Free)], map[], {1, 2}, [FIRST, NEXT],
    map[1 := [Snapshot(0, None), Change(0, FIRST)], 2 := [Snapshot(1, None)]], {}, {})

  lemma ComingToTwoWait() returns (steps: seq<Step>)
    ensures Reaches(START, steps, TWO_WAIT)
  {
    var s1 := AfterLook(START, 0, Subscribe(1));
    var s2 := AfterEnter(s1, 0);
    assert s2.rooms == [Room({}, None, Reading(1))];
    var s3 := AfterRead(s2, 0);
    assert s3.rooms == [Room({}, None, Greeting(1, Snapshot(0, None)))];
    var s4 := AfterGreet(s3, 0, true);
    assert s4.rooms[0].subscribers == {1};
    assert [] + [Snapshot(0, None)] == [Snapshot(0, None)];
    assert s4.rooms == [Room({1}, None, Free)] && s4.inbox == map[1 := [Snapshot(0, None)]];
    var s5 := AfterLook(s4, 1, Publish(FIRST));
    var s6 := AfterEnter(s5, 1);
    var s7 := AfterLook(s6, 2, Unsubscribe(1));
    var s8 := AfterLook(s7, 3, Subscribe(2));
    assert s8.known == {1, 2} && s8.waiting == TWO_WAIT.waiting && s8.inbox == TWO_WAIT.inbox;
    assert s8.rooms == TWO_WAIT.rooms;
    steps := [];
    OneMoreStep(s7, Look(3, Subscribe(2)), steps, s8); steps := [Look(3, Subscribe(2))] + steps;
    OneMoreStep(s6, Look(2, Unsubscribe(1)), steps, s8); steps := [Look(2, Unsubscribe(1))] + steps;
    OneMoreStep(s5, Enter(1), steps, s8); steps := [Enter(1)] + steps;
    OneMoreStep(s4, Look(1, Publish(FIRST)), steps, s8); steps := [Look(1, Publish(FIRST))] + steps;
    OneMoreStep(s3, Greet(0, true), steps, s8); steps := [Greet(0, true)] + steps;
    OneMoreStep(s2, Read(0), steps, s8); steps := [Read(0)] + steps;
    OneMoreStep(s1, Enter(0), steps, s8); steps := [Enter(0)] + steps;
    OneMoreStep(START, Look(0, Subscribe(1)), steps, s8); steps := [Look(0, Subscribe(1))] + steps;
  }

  /** 1 has left, and taken the room off the table; 2 is let into it. */
  const LET_IN := State(
    None, [Room({}, None, Reading(2))], map[], {1, 2}, [FIRST],
    map[1 := [Snapshot(0, None), Change(0, FIRST)]], {}, {})

  lemma ComingIn() returns (steps: seq<Step>)
    ensures Reaches(TWO_WAIT, steps, LET_IN)
  {
    var s1 := AfterStore(TWO_WAIT, 0, Stored);
    assert s1.rooms == [Room({1}, None, Sending(0, {1}))];
    var s2 := AfterSend(s1, 0, 1, true);
    assert s2.rooms == [Room({1}, None, Free)] && s2.inbox[1] == [Snapshot(0, None), Change(0, FIRST)];
    var s3 := AfterEnter(s2, 2);
    assert s3.rooms == [Room({}, None, Free)] && s3.current == None;
    var s4 := AfterEnter(s3, 3);
    assert s4.rooms == LET_IN.rooms && s4.waiting == map[] && s4.inbox == LET_IN.inbox && s4.log == [FIRST];
    steps := [];
    OneMoreStep(s3, Enter(3), steps, s4); steps := [Enter(3)] + steps;
    OneMoreStep(s2, Enter(2), steps, s4); steps := [Enter(2)] + steps;
    OneMoreStep(s1, Send(0, 1, true), steps, s4); steps := [Send(0, 1, true)] + steps;
    OneMoreStep(TWO_WAIT, Store(0, Stored), steps, s4); steps := [Store(0, Stored)] + steps;
  }

  lemma ComingToStranded() returns (steps: seq<Step>)
    ensures Reaches(LET_IN, steps, STRANDED)
  {
    var s5 := AfterRead(LET_IN, 0);
    assert s5.rooms == [Room({}, None, Greeting(2, Snapshot(1, None)))];
    var s6 := AfterGreet(s5, 0, true);
    assert s6.rooms[0].subscribers == {2};
    assert [] + [Snapshot(1, None)] == [Snapshot(1, None)];
    assert s6.rooms == [Room({2}, None, Free)] && s6.inbox[2] == [Snapshot(1, None)];
    var s7 := AfterLook(s6, 4, Publish(NEXT));
    var s8 := AfterEnter(s7, 4);
    assert s8.rooms == [Room({2}, None, Free), Room({}, None, Storing(NEXT))];
    var s9 := AfterStore(s8, 1, Stored);
    assert s9.waiting == map[] && s9.inbox == STRANDED.inbox && s9.log == STRANDED.log;
    assert s9.rooms == STRANDED.rooms;
    steps := [];
    OneMoreStep(s8, Store(1, Stored), steps, s9); steps := [Store(1, Stored)] + steps;
    OneMoreStep(s7, Enter(4), steps, s9); steps := [Enter(4)] + steps;
    OneMoreStep(s6, Look(4, Publish(NEXT)), steps, s9); steps := [Look(4, Publish(NEXT))] + steps;
    OneMoreStep(s5, Greet(0, true), steps, s9); steps := [Greet(0, true)] + steps;
    OneMoreStep(LET_IN, Read(0), steps, s9); steps := [Read(0)] + steps;
  }

  lemma {:induction false} OneRunAfterAnother(s: State, steps: seq<Step>, t: State, more: seq<Step>, u: State)
    requires Reaches(s, steps, t) && Reaches(t, more, u)
    ensures Reaches(s, steps + more, u)
    decreases |steps|
  {
    hide Enabled, After;
    if steps == [] {
      assert steps + more == more;
    } else {
      OneRunAfterAnother(After(s, steps[0]), steps[1..], t, more, u);
      assert (steps + more)[1..] == steps[1..] + more;
    }
  }

  /** With the room looked up before its lock is waited for, a subscriber can end in a room no publisher will ever find: it
      is attached, it was not dropped, nothing was cut off, and a candle stored after its snapshot is never told to it. */
  lemma WaiterIsStranded() returns (steps: seq<Step>)
    ensures Reaches(START, steps, STRANDED)
    ensures 2 in STRANDED.rooms[0].subscribers && STRANDED.missed == {} && STRANDED.log[1] == NEXT
    ensures !InSnapshot(STRANDED.inbox[2], 1) && !Told(STRANDED.inbox[2], 1)
  {
    var first := ComingToTwoWait();
    var second := ComingIn();
    var third := ComingToStranded();
    OneRunAfterAnother(START, first, TWO_WAIT, second, LET_IN);
    OneRunAfterAnother(START, first + second, LET_IN, third, STRANDED);
    steps := first + second + third;
  }

  // ---- what becomes of the promise when a room is taken away from under a waiter ---------------------------------

  /** Somebody attached is not told of a publish, and never will be: it was not passed over by a cut, it is in neither the
      snapshot nor the messages, and no room has anything under way. */
  ghost predicate Neglected(t: State, x: Sub, n: nat) {
    && (exists r :: 0 <= r < |t.rooms| && x in t.rooms[r].subscribers)
    && (forall r :: 0 <= r < |t.rooms| ==> t.rooms[r].holder == Free)
    && x in t.inbox && n < |t.log| && (n, x) !in t.missed
    && !InSnapshot(t.inbox[x], n) && !Told(t.inbox[x], n)
  }

  /** What an invariant state promises: nobody is neglected. */
  lemma NobodyIsNeglected(t: State, x: Sub, n: nat)
    requires Invariant(t)
    ensures !Neglected(t, x, n)
  {
    if Neglected(t, x, n) {
      assert x in Live(t).subscribers && Live(t).holder == Free;
      assert HearsAll(t, x);
      HeardInOrder(t.inbox[x], x, Upper(t, x), t.log, t.missed, t.lost);
    }
  }

  /** The table names no room, and somebody stands before one it used to name. */
  ghost predicate Adrift(u: State, id: nat, r: RoomId) {
    && u.current == None && r < |u.rooms| && u.rooms[r].forming == None
    && (forall q :: 0 <= q < |u.rooms| ==> u.rooms[q].holder == Free && u.rooms[q].subscribers == {})
    && id in u.waiting && u.waiting[id].room == r
    && Numbered(u) && u.inbox.Keys <= u.known && (Comes(u, id) ==> u.waiting[id].task.x !in u.inbox)
  }

  lemma TakenAwayIsAdrift(s: State, step: Step, other: nat)
    requires Invariant(s) && Enabled(s, step) && TakesAway(s, step) && other in s.waiting && other != step.id
    ensures Adrift(After(s, step), other, s.waiting[other].room)
  {
    assert Comes(s, other) ==> Unheard(s, s.waiting[other].task.x);
  }

  lemma {:induction false} Above(ns: set<nat>) returns (n: nat)
    ensures forall m :: m in ns ==> m < n
    decreases |ns|
  {
    if ns == {} {
      n := 0;
    } else {
      var m := Pick(ns);
      var k := Above(ns - {m});
      n := if k > m then k else m + 1;
      assert forall x :: x in ns ==> x == m || x in ns - {m};
    }
  }

  /** A newcomer finds no room, and is let into one of its own. */
  function Joined(u: State, y: Sub): State {
    u.(current := Some(|u.rooms|), rooms := u.rooms + [Room({y}, None, Free)], known := u.known + {y},
       inbox := u.inbox[y := [Snapshot(|u.log|, None)]])
  }

  lemma Joins(u: State, a: nat, y: Sub) returns (steps: seq<Step>)
    requires u.current == None && a !in u.waiting && y !in u.known && y !in u.inbox
    ensures Reaches(u, steps, Joined(u, y))
  {
    var r := |u.rooms|;
    var s1 := AfterLook(u, a, Subscribe(y));
    var s2 := AfterEnter(s1, a);
    assert s2.rooms == u.rooms + [Room({}, None, Reading(y))] && s2.waiting == u.waiting;
    var s3 := AfterRead(s2, r);
    assert s3.rooms == u.rooms + [Room({}, None, Greeting(y, Snapshot(|u.log|, None)))];
    var s4 := AfterGreet(s3, r, true);
    assert {} + {y} == {y} && [] + [Snapshot(|u.log|, None)] == [Snapshot(|u.log|, None)];
    assert s4.rooms == Joined(u, y).rooms;
    steps := [];
    OneMoreStep(s3, Greet(r, true), steps, s4); steps := [Greet(r, true)] + steps;
    OneMoreStep(s2, Read(r), steps, s4); steps := [Read(r)] + steps;
    OneMoreStep(s1, Enter(a), steps, s4); steps := [Enter(a)] + steps;
    OneMoreStep(u, Look(a, Subscribe(y)), steps, s4); steps := [Look(a, Subscribe(y))] + steps;
  }

  /** A closed candle finds no room, and is published to nobody. */
  function Unheeded(u: State, candle: Candle): State {
    u.(current := Some(|u.rooms|), rooms := u.rooms + [Room({}, None, Free)], log := u.log + [candle])
  }

  lemma GoesUnheeded(u: State, a: nat, candle: Candle) returns (steps: seq<Step>)
    requires u.current == None && a !in u.waiting && !candle.forming
    ensures Reaches(u, steps, Unheeded(u, candle))
  {
    var r := |u.rooms|;
    var s1 := AfterLook(u, a, Publish(candle));
    var s2 := AfterEnter(s1, a);
    assert s2.rooms == u.rooms + [Room({}, None, Storing(candle))] && s2.waiting == u.waiting;
    var s3 := AfterStore(s2, r, Stored);
    assert s3.rooms == Unheeded(u, candle).rooms;
    steps := [];
    OneMoreStep(s2, Store(r, Stored), steps, s3); steps := [Store(r, Stored)] + steps;
    OneMoreStep(s1, Enter(a), steps, s3); steps := [Enter(a)] + steps;
    OneMoreStep(u, Look(a, Publish(candle)), steps, s3); steps := [Look(a, Publish(candle))] + steps;
  }

  /** A waiting newcomer is let into the room nobody can find, and the next candle passes it by. */
  lemma NewcomerIsNeglected(u: State, id: nat, r: RoomId) returns (steps: seq<Step>, t: State)
    requires Adrift(u, id, r) && u.waiting[id].task.Subscribe?
    ensures Reaches(u, steps, t) && Neglected(t, u.waiting[id].task.x, |u.log|)
  {
    var x := u.waiting[id].task.x;
    var s1 := AfterEnter(u, id);
    var s2 := AfterRead(s1, r);
    var s3 := AfterGreet(s2, r, true);
    steps := [];
    OneMoreStep(s2, Greet(r, true), steps, s3); steps := [Greet(r, true)] + steps;
    OneMoreStep(s1, Read(r), steps, s3); steps := [Read(r)] + steps;
    OneMoreStep(u, Enter(id), steps, s3); steps := [Enter(id)] + steps;
    assert s3.inbox[x] == [Snapshot(|u.log|, None)];
    var a := Above(s3.waiting.Keys);
    var more := GoesUnheeded(s3, a, NEXT);
    t := Unheeded(s3, NEXT);
    OneRunAfterAnother(u, steps, s3, more, t);
    steps := steps + more;
    assert x in t.rooms[r].subscribers;
  }

  /** A waiting publish tells the room nobody is in, and not the newcomer in the one the table names. */
  lemma PublishIsLost(u: State, id: nat, r: RoomId) returns (steps: seq<Step>, t: State, x: Sub)
    requires Adrift(u, id, r) && u.waiting[id].task.Publish?
    ensures Reaches(u, steps, t) && Neglected(t, x, |u.log|)
  {
    var candle := u.waiting[id].task.candle;
    var a := Above(u.waiting.Keys);
    x := Above(u.known);
    var first := Joins(u, a, x);
    var s0 := Joined(u, x);
    var s1 := AfterEnter(s0, id);
    if candle.forming {
      t := s1;
      steps := [];
      OneMoreStep(s0, Enter(id), steps, t); steps := [Enter(id)] + steps;
    } else {
      t := AfterStore(s1, r, Stored);
      steps := [];
      OneMoreStep(s1, Store(r, Stored), steps, t); steps := [Store(r, Stored)] + steps;
      OneMoreStep(s0, Enter(id), steps, t); steps := [Enter(id)] + steps;
    }
    OneRunAfterAnother(u, first, s0, steps, t);
    steps := first + steps;
    assert x in t.rooms[|u.rooms|].subscribers;
  }

  /** A waiting leaver takes the room the table names now, with a newcomer in it, for the one it came to leave. */
  lemma LeaverStrands(u: State, id: nat, r: RoomId) returns (steps: seq<Step>, t: State, x: Sub)
    requires Adrift(u, id, r) && u.waiting[id].task.Unsubscribe?
    ensures Reaches(u, steps, t) && Neglected(t, x, |u.log|)
  {
    var a := Above(u.waiting.Keys);
    x := Above(u.known);
    var first := Joins(u, a, x);
    var s0 := Joined(u, x);
    var s1 := AfterEnter(s0, id);
    assert s1.current == None;
    var second := [Enter(id)];
    assert Reaches(s1, [], s1);
    OneMoreStep(s0, Enter(id), [], s1);
    assert [Enter(id)] + [] == second;
    var third := GoesUnheeded(s1, a, NEXT);
    t := Unheeded(s1, NEXT);
    OneRunAfterAnother(u, first, s0, second, s1);
    OneRunAfterAnother(u, first + second, s1, third, t);
    steps := first + second + third;
    assert x in t.rooms[|u.rooms|].subscribers;
  }

  /** After a step that takes the room away from under a waiter, whatever the waiter came for, there is a run in which an
      attached subscriber is neglected. */
  lemma TakenAwayNeglects(s: State, step: Step) returns (steps: seq<Step>, t: State, x: Sub, n: nat)
    requires Invariant(s) && Enabled(s, step) && TakesAway(s, step) && OthersWait(s, step)
    ensures Reaches(After(s, step), steps, t) && Neglected(t, x, n)
  {
    var other :| other in s.waiting && other != step.id;
    var u, r := After(s, step), s.waiting[other].room;
    TakenAwayIsAdrift(s, step, other);
    n := |u.log|;
    match u.waiting[other].task {
      case Subscribe(y) =>
        x := y;
        steps, t := NewcomerIsNeglected(u, other, r);
      case Publish(candle) => steps, t, x := PublishIsLost(u, other, r);
      case Unsubscribe(y) => steps, t, x := LeaverStrands(u, other, r);
    }
  }

  /** So a step is safe exactly when it takes no room from under a waiter: then no run without such a step ever neglects
      anyone, and otherwise some run does. */
  lemma SafeExactly(s: State, step: Step)
    requires Invariant(s) && Enabled(s, step)
    ensures !(TakesAway(s, step) && OthersWait(s, step)) ==>
      forall steps, t, x, n: nat ::
        Reaches(After(s, step), steps, t) && Undisturbed(After(s, step), steps) ==> !Neglected(t, x, n)
    ensures TakesAway(s, step) && OthersWait(s, step) ==>
      exists steps, t, x, n: nat :: Reaches(After(s, step), steps, t) && Neglected(t, x, n)
  {
    if TakesAway(s, step) && OthersWait(s, step) {
      var steps, t, x, n := TakenAwayNeglects(s, step);
    } else {
      StepKeepsExactly(s, step);
      forall steps, t, x, n: nat | Reaches(After(s, step), steps, t) && Undisturbed(After(s, step), steps)
        ensures !Neglected(t, x, n) {
        RunKeeps(After(s, step), steps, t);
        NobodyIsNeglected(t, x, n);
      }
    }
  }
}
