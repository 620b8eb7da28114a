/**
 The gate every provider request passes: at most `limit` in any `per` seconds. The gate keeps only the grants still young
 enough to matter; `granted` beside it is all of them, and what the gate does is told from that alone.
 */
module RateGate {
  import opened Wrappers

  type Time = real

  ghost predicate InOrder(granted: seq<Time>) {
    forall i, j :: 0 <= i < j < |granted| ==> granted[i] <= granted[j]
  }

  /** The grant `limit` places after another comes at least `per` later. */
  ghost predicate Spaced(granted: seq<Time>, limit: nat, per: Time) {
    forall i, j :: 0 <= i && j == i + limit < |granted| ==> granted[j] - granted[i] >= per
  }

  /** The last `limit` grants are all younger than `per`. */
  predicate Full(granted: seq<Time>, limit: nat, per: Time, now: Time) {
    limit <= |granted| && forall i :: |granted| - limit <= i < |granted| ==> now - granted[i] < per
  }

  function Within(granted: seq<Time>, t: Time, per: Time): set<nat> {
    set i: nat | i < |granted| && t <= granted[i] < t + per
  }

  lemma SizeOfRange(lo: int, hi: int, s: set<nat>)
    requires lo <= hi && forall i :: i in s ==> lo <= i < hi
    ensures |s| <= hi - lo
    decreases hi - lo
  {
    if lo == hi {
      assert s == {};
    } else {
      SizeOfRange(lo, hi - 1, set i: nat | i in s && i != hi - 1);
      if hi - 1 >= 0 && hi - 1 in s {
        assert s == (set i: nat | i in s && i != hi - 1) + {hi - 1};
      } else {
        assert s == set i: nat | i in s && i != hi - 1;
      }
    }
  }

  lemma LaterIsFarther(granted: seq<Time>, limit: nat, per: Time, first: nat)
    requires InOrder(granted) && Spaced(granted, limit, per)
    ensures forall i :: first + limit <= i < |granted| ==> granted[i] >= granted[first] + per
  {
    forall i | first + limit <= i < |granted| ensures granted[i] >= granted[first] + per {
      assert granted[first + limit] - granted[first] >= per;
      assert first + limit < i ==> granted[first + limit] <= granted[i];
    }
  }

  /** Every half-open window as long as `per` holds at most `limit` grants. */
  lemma WindowsHoldTheLimit(granted: seq<Time>, limit: nat, per: Time, t: Time)
    requires InOrder(granted) && Spaced(granted, limit, per)
    ensures |Within(granted, t, per)| <= limit
  {
    var s := Within(granted, t, per);
    if s != {} {
      var first := First(granted, t, per, 0);
      LaterIsFarther(granted, limit, per, first);
      SizeOfRange(first, first + limit, s);
    }
  }

  /** The first grant of a window that has one. */
  lemma First(granted: seq<Time>, t: Time, per: Time, i: nat) returns (first: nat)
    requires Within(granted, t, per) != {} && forall k :: k in Within(granted, t, per) ==> i <= k
    ensures first in Within(granted, t, per) && forall k :: k in Within(granted, t, per) ==> first <= k
    decreases |granted| - i
  {
    if i in Within(granted, t, per) {
      first := i;
    } else {
      assert i < |granted| by {
        var k := Pick(Within(granted, t, per));
        assert k in Within(granted, t, per);
      }
      first := First(granted, t, per, i + 1);
    }
  }

  class Gate {
    const limit: nat
    const per: Time
    var times: seq<Time>
    ghost var granted: seq<Time>
    ghost var clock: Time

    ghost predicate Valid()
      reads this
    {
      && |times| <= |granted| && |times| <= limit && times == granted[|granted| - |times|..]
      && InOrder(granted) && Spaced(granted, limit, per)
      && (forall i :: 0 <= i < |granted| ==> granted[i] <= clock)
      && (forall i :: 0 <= i < |granted| - |times| ==> clock - granted[i] >= per)
    }

    constructor (limit: nat, per: Time, ghost since: Time)
      ensures Valid() && granted == [] && clock == since && this.limit == limit && this.per == per
    {
      this.limit, this.per := limit, per;
      times, granted, clock := [], [], since;
    }

    /** The grants that are old enough are forgotten. */
    method Forget(now: Time)
      requires Valid() && now >= clock
      modifies `times, `clock
      ensures Valid() && clock == now
      ensures forall i :: 0 <= i < |times| ==> now - times[i] < per
    {
      clock := now;
      while times != [] && now - times[0] >= per
        invariant Valid() && clock == now
        decreases |times|
      {
        ForgetOne(now);
      }
      hide Spaced;
      forall i | 0 <= i < |times| ensures now - times[i] < per {
        assert times[0] == granted[|granted| - |times|] && times[i] == granted[|granted| - |times| + i];
      }
    }

    method ForgetOne(now: Time)
      requires Valid() && clock == now && times != [] && now - times[0] >= per
      modifies `times
      ensures Valid() && |times| == |old(times)| - 1
    {
      hide Spaced, InOrder;
      assert times[0] == granted[|granted| - |times|];
      times := times[1..];
    }

    method Grant(now: Time)
      requires Valid() && clock == now && |times| < limit
      modifies `times, `granted
      ensures Valid() && granted == old(granted) + [now]
    {
      assert |granted| >= limit ==> clock - granted[|granted| - limit] >= per;
      times, granted := times + [now], granted + [now];
    }

    lemma FullIsKept(now: Time)
      requires Valid() && clock == now && |times| == limit && forall i :: 0 <= i < |times| ==> now - times[i] < per
      ensures Full(granted, limit, per, now)
    {
    }

    lemma RoomIsSeen(now: Time)
      requires Valid() && clock == now && |times| < limit
      ensures !Full(granted, limit, per, now)
    {
      assert limit <= |granted| ==> clock - granted[|granted| - limit] >= per;
    }

    /** Waits until there is room, and takes it. `readings` is what the clock says each time it is asked; it never runs
        backwards, and gets past the wait in the end. A gate that lets nobody through has nothing to wait for and fails. */
    method Acquire(readings: nat -> Time, ghost enough: nat) returns (at: Option<Time>, waits: nat)
      requires Valid() && clock <= readings(0) && forall i: nat, j: nat :: i <= j ==> readings(i) <= readings(j)
      requires limit > 0 ==> !Full(granted, limit, per, readings(enough))
      modifies this
      ensures Valid()
      ensures at.None? <==> limit == 0
      ensures at.Some? ==>
        && at.value == readings(waits) && granted == old(granted) + [at.value]
        && !Full(old(granted), limit, per, at.value)
        && forall k: nat :: k < waits ==> Full(old(granted), limit, per, readings(k))
      ensures at.None? ==> granted == old(granted)
    {
      hide Full, InOrder, Spaced;
      waits := 0;
      var now := readings(0);
      Forget(now);
      while |times| >= limit
        invariant Valid() && clock == now == readings(waits) && granted == old(granted)
        invariant forall i :: 0 <= i < |times| ==> now - times[i] < per
        invariant forall k: nat :: k < waits ==> Full(granted, limit, per, readings(k))
        invariant limit > 0 ==> waits <= enough && !Full(granted, limit, per, readings(enough))
        decreases enough - waits
      {
        if times == [] {
          return None, waits;
        }
        FullIsKept(now);
        waits := waits + 1;
        now := readings(waits);
        Forget(now);
      }
      RoomIsSeen(now);
      Grant(now);
      at := Some(now);
    }
  }
}
