/** Names in the order Python's `sorted` puts strings: character by character, a prefix first. */
module Names {
  import opened Wrappers

  predicate Leq(a: string, b: string) {
    a == [] || (b != [] && (a[0] < b[0] || (a[0] == b[0] && Leq(a[1..], b[1..]))))
  }

  /** The two go together up to some place, where the first ends or has the smaller character. */
  ghost predicate PartsAt(a: string, b: string, k: int) {
    0 <= k <= |a| && k <= |b| && a[..k] == b[..k] && (k == |a| || (k < |b| && a[k] < b[k]))
  }

  lemma {:induction false} LeqExactly(a: string, b: string)
    ensures Leq(a, b) <==> exists k :: PartsAt(a, b, k)
  {
    if a == [] {
      assert PartsAt(a, b, 0);
    } else if b != [] && a[0] < b[0] {
      assert PartsAt(a, b, 0);
    } else if b != [] && a[0] == b[0] {
      LeqExactly(a[1..], b[1..]);
      if exists k :: PartsAt(a[1..], b[1..], k) {
        var k :| PartsAt(a[1..], b[1..], k);
        assert a[..k + 1] == [a[0]] + a[1..][..k] && b[..k + 1] == [b[0]] + b[1..][..k];
        assert PartsAt(a, b, k + 1);
      }
      if exists k :: PartsAt(a, b, k) {
        var k :| PartsAt(a, b, k);
        assert a[1..][..k - 1] == a[..k][1..] && b[1..][..k - 1] == b[..k][1..];
        assert PartsAt(a[1..], b[1..], k - 1);
      }
    }
  }

  lemma {:induction false} LeqTotal(a: string, b: string)
    ensures Leq(a, b) || Leq(b, a)
    ensures Leq(a, b) && Leq(b, a) ==> a == b
  {
    if a != [] && b != [] {
      LeqTotal(a[1..], b[1..]);
      if a[0] == b[0] && a[1..] == b[1..] { assert a == [a[0]] + a[1..] && b == [b[0]] + b[1..]; }
    }
  }

  lemma {:induction false} LeqTransitive(a: string, b: string, c: string)
    requires Leq(a, b) && Leq(b, c)
    ensures Leq(a, c)
  {
    if a != [] && a[0] == b[0] && b[0] == c[0] { LeqTransitive(a[1..], b[1..], c[1..]); }
  }

  predicate InOrder(s: seq<string>) {
    forall i, j :: 0 <= i < j < |s| ==> Leq(s[i], s[j])
  }

  predicate Distinct<T(==)>(s: seq<T>) {
    forall i, j :: 0 <= i < j < |s| ==> s[i] != s[j]
  }

  function Insert(x: string, s: seq<string>): (r: seq<string>)
    requires InOrder(s)
    ensures InOrder(r) && multiset(r) == multiset(s) + multiset{x}
    ensures forall y :: y in r <==> y == x || y in s
  {
    if s == [] || Leq(x, s[0]) then
      InsertFirst(x, s);
      [x] + s
    else
      LeqTotal(x, s[0]);
      assert s == [s[0]] + s[1..];
      var rest := Insert(x, s[1..]);
      InsertLater(x, s, rest);
      [s[0]] + rest
  }

  lemma InsertFirst(x: string, s: seq<string>)
    requires InOrder(s) && (s == [] || Leq(x, s[0]))
    ensures InOrder([x] + s)
  {
    hide Leq;
    forall i | 0 <= i < |s| ensures Leq(x, s[i]) {
      if i > 0 { LeqTransitive(x, s[0], s[i]); }
    }
  }

  lemma InsertLater(x: string, s: seq<string>, rest: seq<string>)
    requires s != [] && InOrder(s) && Leq(s[0], x) && InOrder(rest) && forall y :: y in rest <==> y == x || y in s[1..]
    ensures InOrder([s[0]] + rest)
  {
    hide Leq;
    forall i | 0 <= i < |rest| ensures Leq(s[0], rest[i]) {
      assert rest[i] in rest;
    }
  }

  function Sorted(s: seq<string>): (r: seq<string>)
    ensures InOrder(r) && multiset(r) == multiset(s)
    ensures forall y :: y in r <==> y in s
  {
    if s == [] then []
    else
      assert s == [s[0]] + s[1..];
      Insert(s[0], Sorted(s[1..]))
  }

  predicate LeastOf(names: set<string>, x: string) { x in names && forall y :: y in names ==> Leq(x, y) }

  lemma LeastExists(names: set<string>)
    requires names != {}
    ensures exists x :: LeastOf(names, x)
  {
    hide Leq;
    var x := Pick(names);
    var rest := names - {x};
    LeqTotal(x, x);
    if rest == {} {
      assert forall y :: y in names ==> y == x || y in rest;
      assert LeastOf(names, x);
    } else {
      LeastExists(rest);
      var z :| LeastOf(rest, z);
      LeqTotal(x, z);
      LeastOfMore(names, x, z, if Leq(x, z) then x else z);
    }
  }

  lemma LeastOfMore(names: set<string>, x: string, z: string, least: string)
    requires x in names && LeastOf(names - {x}, z) && (least == x || least == z) && Leq(least, x) && Leq(least, z)
    ensures LeastOf(names, least)
  {
    hide Leq;
    forall y | y in names ensures Leq(least, y) {
      if y != x { LeqTransitive(least, z, y); }
    }
  }

  function Least(names: set<string>): (x: string)
    requires names != {}
    ensures x in names && forall y :: y in names ==> Leq(x, y)
  {
    LeastExists(names);
    assert forall x, z :: LeastOf(names, x) && LeastOf(names, z) ==> x == z by {
      forall x, z | LeastOf(names, x) && LeastOf(names, z) ensures x == z {
        LeqTotal(x, z);
      }
    }
    var x :| x in names && LeastOf(names, x);
    x
  }

  /** A set's names, each once, in order. */
  function Listed(names: set<string>): (r: seq<string>)
    ensures InOrder(r) && Distinct(r) && |r| == |names|
    ensures forall y :: y in r <==> y in names
  {
    if names == {} then []
    else
      var x := Least(names);
      var rest := Listed(names - {x});
      assert forall i :: 0 <= i < |rest| ==> rest[i] in rest;
      [x] + rest
  }
}
