/** Which `let` variables can be computed one after another, and which cannot because a cycle stands in the way. */
module LetOrder {
  import opened Wrappers
  import opened Names

  type References = map<string, set<string>>

  // ---- the graph -------------------------------------------------------------------------------------------------

  /** `n` reads the variable `u`, itself included. */
  predicate Reads(refs: References, n: string, u: string) {
    n in refs && u in refs && u in refs[n]
  }

  ghost predicate IsWalk(refs: References, w: seq<string>) {
    && w != []
    && (forall i :: 0 <= i < |w| ==> w[i] in refs)
    && (forall i :: 0 <= i < |w| - 1 ==> Reads(refs, w[i], w[i + 1]))
  }

  ghost predicate Repeats(w: seq<string>) {
    exists i, j :: 0 <= i < j < |w| && w[i] == w[j]
  }

  /** Following the variables `n` reads, one can come back to a variable already passed. */
  ghost predicate ReachesCycle(refs: References, n: string) {
    exists w :: IsWalk(refs, w) && w[0] == n && Repeats(w)
  }

  // ---- what the ordering keeps -----------------------------------------------------------------------------------

  /** The other variables `n` uses. */
  function Uses(refs: References, n: string): set<string>
    requires n in refs
  {
    set u | u in refs[n] && u in refs && u != n
  }

  predicate Selfish(refs: References, n: string)
    requires n in refs
  {
    n in refs[n]
  }

  function Elements(s: seq<string>): set<string> { set x | x in s }

  /** Nothing `n` reads is still to come. */
  predicate Free(refs: References, n: string, done: set<string>) {
    n in refs && !Selfish(refs, n) && Uses(refs, n) <= done
  }

  /** Each variable comes once, after everything it reads, and is the first by name of those that could come there. */
  ghost predicate IsOrdering(refs: References, order: seq<string>) {
    && Distinct(order)
    && forall i :: 0 <= i < |order| ==>
         && Free(refs, order[i], Elements(order[..i]))
         && forall n :: Free(refs, n, Elements(order[..i])) && n !in order[..i] ==> Leq(order[i], n)
  }

  /** Nothing more can be ordered. */
  ghost predicate Exhausted(refs: References, order: seq<string>) {
    forall n :: Free(refs, n, Elements(order)) ==> n in order
  }

  lemma {:induction false} OrderedWalksFall(refs: References, order: seq<string>, w: seq<string>, at: nat)
    requires IsOrdering(refs, order) && IsWalk(refs, w)
    requires at < |order| && w[0] == order[at]
    ensures forall k :: 0 < k < |w| ==> w[k] in order[..at]
    ensures !Repeats(w)
  {
    if |w| > 1 {
      assert Free(refs, order[at], Elements(order[..at]));
      assert Reads(refs, w[0], w[1]);
      assert w[1] in Elements(order[..at]);
      var i :| 0 <= i < at && order[i] == w[1];
      var rest := w[1..];
      assert IsWalk(refs, rest) by {
        forall k | 0 <= k < |rest| - 1 ensures Reads(refs, rest[k], rest[k + 1]) {
          assert Reads(refs, w[k + 1], w[k + 2]);
        }
      }
      OrderedWalksFall(refs, order, rest, i);
      forall k | 0 < k < |w| ensures w[k] in order[..at] {
        if k > 1 { assert w[k] == rest[k - 1] && rest[k - 1] in order[..i]; }
      }
      assert order[at] !in order[..at];
      forall a, b | 0 <= a < b < |w| ensures w[a] != w[b] {
        if a > 0 { assert rest[a - 1] == w[a] && rest[b - 1] == w[b]; }
      }
    }
  }

  lemma DistinctIsShort(w: seq<string>, names: set<string>)
    requires forall i :: 0 <= i < |w| ==> w[i] in names
    requires !Repeats(w)
    ensures |w| <= |names|
  {
    if w != [] {
      var last := w[|w| - 1];
      var before := w[..|w| - 1];
      forall i, j | 0 <= i < j < |before| ensures before[i] != before[j] {
        assert w[i] != w[j];
      }
      forall i | 0 <= i < |before| ensures before[i] in names - {last} {
        assert before[i] == w[i] && w[i] != w[|w| - 1];
      }
      DistinctIsShort(before, names - {last});
    }
  }

  /** A variable left out reads itself or another left out. */
  lemma LeftOutReadsLeftOut(refs: References, order: seq<string>, n: string) returns (u: string)
    requires Exhausted(refs, order) && n in refs && n !in order
    ensures Reads(refs, n, u) && u !in order
  {
    if Selfish(refs, n) {
      u := n;
    } else {
      assert !Free(refs, n, Elements(order));
      u :| u in Uses(refs, n) && u !in Elements(order);
    }
  }

  lemma {:induction false} LongWalk(refs: References, order: seq<string>, n: string, length: nat) returns (w: seq<string>)
    requires Exhausted(refs, order) && n in refs && n !in order
    ensures IsWalk(refs, w) && w[0] == n && |w| == length + 1
    decreases length
  {
    if length == 0 {
      w := [n];
    } else {
      var u := LeftOutReadsLeftOut(refs, order, n);
      var rest := LongWalk(refs, order, u, length - 1);
      w := [n] + rest;
      forall i | 0 <= i < |w| - 1 ensures Reads(refs, w[i], w[i + 1]) {
        if i > 0 { assert Reads(refs, rest[i - 1], rest[i]); }
      }
    }
  }

  /** What an exhausted ordering leaves out is exactly what a cycle can be reached from. */
  lemma LeftOutExactly(refs: References, order: seq<string>, n: string)
    requires IsOrdering(refs, order) && Exhausted(refs, order) && n in refs
    ensures n in order <==> !ReachesCycle(refs, n)
  {
    if n in order {
      var at :| 0 <= at < |order| && order[at] == n;
      forall w | IsWalk(refs, w) && w[0] == n ensures !Repeats(w) {
        OrderedWalksFall(refs, order, w, at);
      }
    } else {
      var w := LongWalk(refs, order, n, |refs.Keys|);
      if !Repeats(w) { DistinctIsShort(w, refs.Keys); }
      assert IsWalk(refs, w) && w[0] == n && Repeats(w);
    }
  }

  // ---- Kahn's algorithm ------------------------------------------------------------------------------------------

  /** Each counter is the number of uses not yet ordered, and one more for those `pending` to be told of the last. */
  ghost predicate Counts(refs: References, waiting: map<string, int>, done: set<string>, pending: set<string>) {
    && waiting.Keys == refs.Keys
    && forall n :: n in refs ==> waiting[n] == |Uses(refs, n) - done| + (if n in pending then 1 else 0)
  }

  /** `ready` holds, once each, the free variables not yet taken, but for those still `pending`. */
  ghost predicate ReadyHolds(refs: References, ready: seq<string>, done: set<string>, pending: set<string>) {
    && Distinct(ready)
    && forall n :: n in ready <==> Free(refs, n, done) && n !in done && n !in pending
  }

  function UsersOf(refs: References, name: string): set<string> {
    set n | n in refs && name in Uses(refs, n)
  }

  lemma TakingOne(s: set<string>, done: set<string>, name: string)
    requires name !in done
    ensures |s - done| == |s - (done + {name})| + (if name in s then 1 else 0)
  {
    if name in s {
      assert s - done == (s - (done + {name})) + {name};
    } else {
      assert s - done == s - (done + {name});
    }
  }

  lemma NothingLeft(s: set<string>, done: set<string>)
    ensures |s - done| == 0 <==> s <= done
  {
    if |s - done| == 0 {
      forall x | x in s ensures x in done { assert x !in s - done; }
    } else {
      assert Pick(s - done) in s - done;
    }
  }

  lemma Elements1(order: seq<string>, name: string)
    ensures Elements(order + [name]) == Elements(order) + {name}
  {
  }

  lemma TakeCounts(refs: References, waiting: map<string, int>, done: set<string>, name: string)
    requires Counts(refs, waiting, done, {}) && name !in done
    ensures Counts(refs, waiting, done + {name}, UsersOf(refs, name))
  {
    forall n | n in refs
      ensures waiting[n] == |Uses(refs, n) - (done + {name})| + (if n in UsersOf(refs, name) then 1 else 0)
    {
      TakingOne(Uses(refs, n), done, name);
    }
  }

  lemma TakeReady(refs: References, ready: seq<string>, done: set<string>)
    requires ReadyHolds(refs, ready, done, {}) && ready != []
    ensures ready[0] in refs && ready[0] !in done
    ensures ReadyHolds(refs, ready[1..], done + {ready[0]}, UsersOf(refs, ready[0]))
  {
    var name, rest := ready[0], ready[1..];
    assert ready == [name] + rest;
    assert name in ready;
    forall n ensures n in rest <==> Free(refs, n, done + {name}) && n !in done + {name} && n !in UsersOf(refs, name) {
      assert n in rest <==> n in ready && n != name;
    }
  }

  lemma TakenIsNext(refs: References, order: seq<string>, ready: seq<string>)
    requires IsOrdering(refs, order) && ready != [] && InOrder(ready)
    requires ReadyHolds(refs, ready, Elements(order), {})
    ensures IsOrdering(refs, order + [ready[0]])
  {
    var next := order + [ready[0]];
    assert ready[0] in ready;
    LeqTotal(ready[0], ready[0]);
    forall i | 0 <= i < |next|
      ensures Free(refs, next[i], Elements(next[..i]))
      ensures forall n :: Free(refs, n, Elements(next[..i])) && n !in next[..i] ==> Leq(next[i], n)
    {
      assert next[..i] == order[..i];
      if i == |order| {
        assert order[..i] == order;
        forall n | Free(refs, n, Elements(order)) && n !in order ensures Leq(ready[0], n) {
          assert n in ready;
          var k :| 0 <= k < |ready| && ready[k] == n;
        }
      }
    }
  }

  lemma CountDown(refs: References, waiting: map<string, int>, done: set<string>, pending: set<string>, user: string)
    requires Counts(refs, waiting, done, pending) && user in pending && user in refs
    ensures user in waiting && waiting[user] - 1 == |Uses(refs, user) - done|
    ensures Counts(refs, waiting[user := waiting[user] - 1], done, pending - {user})
  {
    hide Uses;
    var less := waiting[user := waiting[user] - 1];
    forall n | n in refs ensures less[n] == |Uses(refs, n) - done| + (if n in pending - {user} then 1 else 0) {
      assert n == user || (n in pending <==> n in pending - {user});
    }
  }

  lemma TellCounts(refs: References, waiting: map<string, int>, done: set<string>, pending: set<string>, user: string)
    requires Counts(refs, waiting, done, pending) && user in pending && user in refs
    ensures user in waiting
    ensures
      var less := waiting[user := waiting[user] - 1];
      && Counts(refs, less, done, pending - {user})
      && (less[user] == 0 <==> Uses(refs, user) <= done)
  {
    NothingLeft(Uses(refs, user), done);
    CountDown(refs, waiting, done, pending, user);
    hide Uses, Counts;
  }

  lemma TellReady(refs: References, ready: seq<string>, done: set<string>, pending: set<string>, user: string)
    requires ReadyHolds(refs, ready, done, pending) && user in pending && user in refs && user !in done
    ensures ReadyHolds(refs, if Free(refs, user, done) then ready + [user] else ready, done, pending - {user})
  {
  }

  lemma UserComesLater(refs: References, order: seq<string>, name: string, user: string)
    requires IsOrdering(refs, order) && order != [] && order[|order| - 1] == name && user in UsersOf(refs, name)
    ensures user !in order
  {
  }

  lemma StartingCounts(refs: References)
    ensures Counts(refs, map name | name in refs :: |Uses(refs, name)|, {}, {})
  {
  }

  lemma StartingReady(refs: References, ready: seq<string>)
    requires Distinct(ready)
    requires forall n :: n in ready <==> n in refs && |Uses(refs, n)| == 0 && !Selfish(refs, n)
    ensures ReadyHolds(refs, ready, {}, {})
  {
  }

  lemma DistinctByCount(s: seq<string>, t: seq<string>)
    requires multiset(s) == multiset(t) && Distinct(s)
    ensures Distinct(t)
  {
    forall i, j | 0 <= i < j < |t| ensures t[i] != t[j] {
      assert t == t[..i] + [t[i]] + t[i + 1..j] + [t[j]] + t[j + 1..];
      if t[i] == t[j] {
        assert multiset(s)[t[i]] >= 2;
        AtMostOnce(s, t[i]);
      }
    }
  }

  lemma {:induction false} AtMostOnce(s: seq<string>, x: string)
    requires Distinct(s)
    ensures multiset(s)[x] <= 1
  {
    if s != [] {
      var before := s[..|s| - 1];
      assert s == before + [s[|s| - 1]];
      AtMostOnce(before, x);
      if x in before { assert x != s[|s| - 1]; }
    }
  }

  lemma SortedHolds(refs: References, ready: seq<string>, done: set<string>)
    requires ReadyHolds(refs, ready, done, {})
    ensures ReadyHolds(refs, Sorted(ready), done, {})
  {
    DistinctByCount(ready, Sorted(ready));
  }

  /** One variable taken: every variable that reads it has one use less to wait for, and is ready at none. */
  method TellUsers(refs: References, ghost order: seq<string>, ghost name: string, users: set<string>,
                   counters: map<string, int>, wereReady: seq<string>)
    returns (waiting: map<string, int>, ready: seq<string>)
    requires IsOrdering(refs, order) && order != [] && order[|order| - 1] == name && users == UsersOf(refs, name)
    requires Counts(refs, counters, Elements(order), users) && ReadyHolds(refs, wereReady, Elements(order), users)
    ensures Counts(refs, waiting, Elements(order), {}) && ReadyHolds(refs, ready, Elements(order), {})
  {
    hide Counts, ReadyHolds, IsOrdering, Elements, Free, Uses, Leq, InOrder;
    waiting, ready := counters, wereReady;
    var told := Listed(users);
    ghost var done, pending := Elements(order), users;
    for k := 0 to |told|
      invariant pending <= users
      invariant forall n :: n in pending <==> n in told[k..]
      invariant Counts(refs, waiting, done, pending) && ReadyHolds(refs, ready, done, pending)
    {
      var user := told[k];
      assert told[k..] == [user] + told[k + 1..];
      assert user in pending && user !in told[k + 1..];
      UserComesLater(refs, order, name, user);
      NotAnElement(order, user);
      TellCounts(refs, waiting, done, pending, user);
      TellReady(refs, ready, done, pending, user);
      waiting := waiting[user := waiting[user] - 1];
      FreeIs(refs, user, done);
      if waiting[user] == 0 && !Selfish(refs, user) {
        ready := ready + [user];
      }
      pending := pending - {user};
    }
    assert pending == {};
  }

  lemma NotAnElement(order: seq<string>, n: string)
    ensures n in Elements(order) <==> n in order
  {
  }

  /** Every variable no cycle can be reached from, each after everything it reads; and the rest, by name. */
  method Order(refs: References) returns (order: seq<string>, unordered: seq<string>)
    ensures IsOrdering(refs, order)
    ensures forall n :: n in order <==> n in refs && !ReachesCycle(refs, n)
    ensures InOrder(unordered) && Distinct(unordered)
    ensures forall n :: n in unordered <==> n in refs && ReachesCycle(refs, n)
  {
    hide Counts, ReadyHolds, IsOrdering, Elements, Free, Uses, Leq, InOrder, ReachesCycle, Exhausted, UsersOf, Distinct;
    var users := map name | name in refs :: UsersOf(refs, name);
    var waiting: map<string, int> := map name | name in refs :: |Uses(refs, name)|;
    var ready := Listed(set name | name in refs && waiting[name] == 0 && !Selfish(refs, name));
    StartingCounts(refs);
    StartingReady(refs, ready);
    EmptyOrdering(refs);
    order := [];
    ghost var done: set<string> := {};
    while ready != []
      invariant done == Elements(order) <= refs.Keys
      invariant IsOrdering(refs, order) && InOrder(ready)
      invariant Counts(refs, waiting, done, {})
      invariant ReadyHolds(refs, ready, done, {})
      decreases refs.Keys - done
    {
      var name := ready[0];
      TakeReady(refs, ready, done);
      TakeCounts(refs, waiting, done, name);
      TakenIsNext(refs, order, ready);
      Elements1(order, name);
      ready, order, done := ready[1..], order + [name], done + {name};
      waiting, ready := TellUsers(refs, order, name, users[name], waiting, ready);
      SortedHolds(refs, ready, done);
      ready := Sorted(ready);
    }
    unordered := Listed(refs.Keys - Elements(order));
    NothingReady(refs, order);
    forall n { NotAnElement(order, n); }
    forall n | n in refs ensures n in order <==> !ReachesCycle(refs, n) {
      LeftOutExactly(refs, order, n);
    }
  }

  lemma EmptyOrdering(refs: References)
    ensures IsOrdering(refs, []) && Elements([]) == {}
  {
  }

  lemma FreeIs(refs: References, n: string, done: set<string>)
    requires n in refs
    ensures Free(refs, n, done) <==> !Selfish(refs, n) && Uses(refs, n) <= done
  {
  }

  lemma NothingReady(refs: References, order: seq<string>)
    requires ReadyHolds(refs, [], Elements(order), {})
    ensures Exhausted(refs, order)
  {
  }
}
