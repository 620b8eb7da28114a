/**
 The hub as it is written: each operation finds the pair's room, waits for it, holds it from beginning to end and lets it
 go. What each does to the room, the inboxes and the log is one of the runs of the machine in `Hub`.
 */
module HubRooms {
  import opened Wrappers
  import opened Hub

  lemma Stepped(start: State, steps: seq<Step>, s: State, step: Step, t: State) returns (more: seq<Step>)
    requires Reaches(start, steps, s) && Enabled(s, step) && t == After(s, step)
    ensures more == steps + [step] && Reaches(start, more, t)
  {
    hide Enabled, After;
    assert [step][1..] == [];
    assert Reaches(t, [], t);
    OneRunAfterAnother(start, steps, s, [step], t);
    more := steps + [step];
  }

  /** The subscribers as a copy of the set lists them: each once, in some order. */
  ghost predicate Lists(order: seq<Sub>, subs: set<Sub>) {
    && (forall x :: x in order <==> x in subs)
    && (forall i, j :: 0 <= i < j < |order| ==> order[i] != order[j])
  }

  function Rest(order: seq<Sub>, i: nat): set<Sub>
    requires i <= |order|
  {
    set x | x in order[i..]
  }

  lemma RestShrinks(order: seq<Sub>, i: nat, subs: set<Sub>)
    requires Lists(order, subs) && i < |order|
    ensures order[i] in Rest(order, i) && Rest(order, i) - {order[i]} == Rest(order, i + 1)
  {
  }

  class PairHub {
    var current: Option<RoomId>
    var rooms: seq<Room>
    var inbox: map<Sub, seq<Heard>>
    var log: seq<Candle>
    ghost var waiting: map<nat, Waiter>
    ghost var known: set<Sub>
    ghost var missed: set<(nat, Sub)>
    ghost var lost: set<nat>

    ghost function Now(): State
      reads this
    {
      State(current, rooms, waiting, known, log, inbox, missed, lost)
    }

    /** The pair's room, made if there is none; then its lock is waited for. */
    method FindRoom(ghost id: nat, ghost task: Task) returns (r: RoomId)
      requires !task.Unsubscribe? && (current.Some? ==> current.value < |rooms|)
      modifies `current, `rooms, `waiting, `known
      ensures Now() == AfterLook(old(Now()), id, task)
      ensures r < |rooms| && id in waiting && waiting[id] == Waiter(r, task)
      ensures rooms[r] == old(Live(Now()))
    {
      if current == None {
        current, rooms := Some(|rooms|), rooms + [Room({}, None, Free)];
      }
      r := current.value;
      waiting := waiting[id := Waiter(r, task)];
      known := if task.Subscribe? then known + {task.x} else known;
    }

    /** A newcomer: the snapshot is read and sent, and the newcomer joins, all under one hold. */
    method Subscribe(ghost id: nat, x: Sub, ok: bool) returns (ghost steps: seq<Step>)
      requires (current.Some? ==> current.value < |rooms|) && Live(Now()).holder == Free && id !in waiting && x !in known
      modifies this
      ensures Reaches(old(Now()), steps, Now())
      ensures Live(Now()).subscribers == old(Live(Now()).subscribers) + (if ok then {x} else {})
      ensures Live(Now()).holder == Free && (current.Some? && current.value < |rooms|)
    {
      ghost var start := Now();
      assert Reaches(start, [], start);
      var r := FindRoom(id, Task.Subscribe(x));
      hide Reaches;
      steps := Stepped(start, [], start, Look(id, Task.Subscribe(x)), Now());
      steps := Welcome(id, r, x, ok, start, steps);
    }

    method Welcome(ghost id: nat, r: RoomId, x: Sub, ok: bool, ghost start: State, ghost before: seq<Step>)
      returns (ghost steps: seq<Step>)
      requires Reaches(start, before, Now()) && r < |rooms| && current == Some(r) && rooms[r].holder == Free
      requires id in waiting && waiting[id] == Waiter(r, Task.Subscribe(x))
      modifies this
      ensures Reaches(start, steps, Now())
      ensures current == old(current) && |rooms| == |old(rooms)| && rooms[r].holder == Free
      ensures rooms[r].subscribers == old(rooms)[r].subscribers + (if ok then {x} else {})
    {
      hide Reaches;
      ghost var found := Now();
      waiting := waiting - {id};
      rooms := rooms[r := rooms[r].(holder := Reading(x))];
      steps := Stepped(start, before, found, Enter(id), Now());
      ghost var reading := Now();
      var snapshot := Snapshot(|log|, rooms[r].forming);
      rooms := rooms[r := rooms[r].(holder := Greeting(x, snapshot))];
      steps := Stepped(start, steps, reading, Read(r), Now());
      ghost var greeting := Now();
      if ok {
        inbox := Sent(inbox, x, snapshot);
        rooms := rooms[r := Room(rooms[r].subscribers + {x}, rooms[r].forming, Free)];
      } else {
        rooms := rooms[r := rooms[r].(holder := Free)];
      }
      steps := Stepped(start, steps, greeting, Greet(r, ok), Now());
    }

    /** Leaving takes the room with it when nobody is left in it and nothing is being built. */
    method Unsubscribe(ghost id: nat, x: Sub) returns (ghost steps: seq<Step>)
      requires (current.Some? ==> current.value < |rooms|) && Live(Now()).holder == Free && id !in waiting
      modifies this
      ensures Reaches(old(Now()), steps, Now())
      ensures Live(Now()).subscribers == old(Live(Now()).subscribers) - {x}
      ensures current ==
        if old(Live(Now()).subscribers) - {x} == {} && old(Live(Now()).forming) == None then None else old(current)
    {
      ghost var start := Now();
      assert Reaches(start, [], start);
      steps := [];
      if current.Some? {
        var r := current.value;
        waiting := waiting[id := Waiter(r, Task.Unsubscribe(x))];
        hide Reaches;
        steps := Stepped(start, steps, start, Look(id, Task.Unsubscribe(x)), Now());
        ghost var found := Now();
        waiting := waiting - {id};
        rooms := rooms[r := rooms[r].(subscribers := rooms[r].subscribers - {x})];
        if Empty(rooms[r]) {
          current := None;
        }
        steps := Stepped(start, steps, found, Enter(id), Now());
      }
    }

    /** A candle: stored first if it is closed, and sent to everyone in the room before the room is let go. `order` is how
        the copy of the room's set happens to list it, `answers` whose sends come through. */
    method Publish(ghost id: nat, candle: Candle, outcome: StoreOutcome, order: seq<Sub>, answers: Sub -> bool)
      returns (ghost steps: seq<Step>)
      requires (current.Some? ==> current.value < |rooms|) && Live(Now()).holder == Free && id !in waiting
      requires Lists(order, Live(Now()).subscribers)
      modifies this
      ensures Reaches(old(Now()), steps, Now()) && Live(Now()).holder == Free
      ensures candle.forming || outcome == Stored ==>
        && log == old(log) + [candle]
        && Live(Now()).forming == (if candle.forming then Some(candle) else None)
        && Live(Now()).subscribers == set x | x in old(Live(Now()).subscribers) && answers(x)
    {
      ghost var start := Now();
      assert Reaches(start, [], start);
      var r := FindRoom(id, Task.Publish(candle));
      hide Reaches;
      steps := Stepped(start, [], start, Look(id, Task.Publish(candle)), Now());
      if candle.forming {
        ghost var found := Now();
        waiting := waiting - {id};
        BeginTelling(r, candle);
        steps := Stepped(start, steps, found, Enter(id), Now());
      } else {
        steps := StoreFirst(id, r, candle, outcome, start, steps);
        if outcome != Stored {
          return;
        }
      }
      steps := SendToAll(r, order, answers, start, steps);
    }

    /** The candle is the room's news, and everyone in it is owed it. */
    method BeginTelling(r: RoomId, candle: Candle)
      requires r < |rooms|
      modifies `log, `rooms
      ensures Now() == Begin(old(Now()), r, candle)
    {
      rooms := rooms[r := Room(rooms[r].subscribers, if candle.forming then Some(candle) else None,
                               Telling(|log|, rooms[r].subscribers))];
      log := log + [candle];
    }

    /** A closed candle is written while the room is held. */
    method StoreFirst(ghost id: nat, r: RoomId, candle: Candle, outcome: StoreOutcome, ghost start: State,
                      ghost before: seq<Step>)
      returns (ghost steps: seq<Step>)
      requires Reaches(start, before, Now()) && r < |rooms| && current == Some(r) && rooms[r].holder == Free
      requires id in waiting && waiting[id] == Waiter(r, Task.Publish(candle)) && !candle.forming
      modifies `rooms, `log, `waiting, `missed, `lost
      ensures Reaches(start, steps, Now()) && |rooms| == |old(rooms)|
      ensures outcome == Stored ==>
        && log == old(log) + [candle]
        && rooms[r] == Room(old(rooms[r].subscribers), None, Telling(|log| - 1, old(rooms[r].subscribers)))
      ensures outcome != Stored ==> rooms[r].holder == Free
    {
      hide Reaches;
      ghost var found := Now();
      waiting := waiting - {id};
      rooms := rooms[r := rooms[r].(holder := Storing(candle))];
      steps := Stepped(start, before, found, Enter(id), Now());
      ghost var storing := Now();
      match outcome {
        case Stored => BeginTelling(r, candle);
        case Failed => rooms := rooms[r := rooms[r].(holder := Free)];
        case Lost =>
          missed := missed + PassedOver(|log|, rooms[r].subscribers);
          lost := lost + {|log|};
          log := log + [candle];
          rooms := rooms[r := rooms[r].(holder := Free)];
      }
      steps := Stepped(start, steps, storing, Store(r, outcome), Now());
    }

    /** Everyone in the room is sent the room's newest candle; whoever cannot be is dropped. */
    method SendToAll(r: RoomId, order: seq<Sub>, answers: Sub -> bool, ghost start: State, ghost before: seq<Step>)
      returns (ghost steps: seq<Step>)
      requires Reaches(start, before, Now()) && r < |rooms| && current == Some(r) && log != []
      requires Lists(order, rooms[r].subscribers) && rooms[r].holder == Telling(|log| - 1, rooms[r].subscribers)
      modifies `rooms, `inbox
      ensures Reaches(start, steps, Now())
      ensures |rooms| == |old(rooms)| && rooms[r].holder == Free && rooms[r].forming == old(rooms[r].forming)
      ensures rooms[r].subscribers == set x | x in old(rooms[r].subscribers) && answers(x)
    {
      hide Reaches;
      steps := before;
      ghost var subs, n := rooms[r].subscribers, |log| - 1;
      assert Rest(order, 0) == subs;
      for i := 0 to |order|
        invariant |rooms| == |old(rooms)| && rooms[r].forming == old(rooms[r].forming)
        invariant rooms[r].holder == Telling(n, Rest(order, i))
        invariant rooms[r].subscribers == set x | x in subs && (x in order[..i] ==> answers(x))
        invariant Reaches(start, steps, Now())
      {
        ghost var sending := Now();
        var x := order[i];
        RestShrinks(order, i, subs);
        var ok := answers(x);
        if ok {
          inbox := Sent(inbox, x, Change(|log| - 1, log[|log| - 1]));
        }
        rooms := rooms[r := Room(if ok then rooms[r].subscribers else rooms[r].subscribers - {x}, rooms[r].forming,
                                 Telling(|log| - 1, Rest(order, i + 1)))];
        steps := Stepped(start, steps, sending, Send(r, x, ok), Now());
        assert order[..i + 1] == order[..i] + [x];
      }
      assert order[..|order|] == order && Rest(order, |order|) == {};
    }
  }
}
