/**
 What a formula is computed with: whole columns, one value a bar. Every operation gives a column of one kind and of its
 operands' length, and says of a bar only what its operands said up to that bar.
 */
module Columns {
  import opened Wrappers
  import opened Language

  /** A number, or none there: what is not finite counts as none. */
  type Float = Option<real>

  datatype Column = Numbers(x: seq<Float>) | Truths(b: seq<bool>) {
    function Length(): nat { if Numbers? then |x| else |b| }

    function Kind(): Type { if Numbers? then Number else Condition }

    function First(k: nat): Column
      requires k <= Length()
    {
      if Numbers? then Numbers(x[..k]) else Truths(b[..k])
    }
  }

  function Full<T>(size: nat, one: T): seq<T> { seq(size, i => one) }

  /** `early` is the first `k` bars of `a`, a column of that kind and length. */
  ghost predicate Agrees(a: Option<Column>, early: Option<Column>, t: Type, size: nat, k: nat) {
    && a.Some? && a.value.Kind() == t && a.value.Length() == size && k <= size
    && early.Some? && early.value.Kind() == t && early.value.Length() == k
    && (t == Number ==> forall i :: 0 <= i < k ==> early.value.x[i] == a.value.x[i])
    && (t == Condition ==> forall i :: 0 <= i < k ==> early.value.b[i] == a.value.b[i])
  }

  lemma AgreesIsFirst(a: Option<Column>, early: Option<Column>, t: Type, size: nat, k: nat)
    requires Agrees(a, early, t, size, k)
    ensures early == Some(a.value.First(k))
  {
    if t == Number {
      assert early.value.x == a.value.x[..k];
    } else {
      assert early.value.b == a.value.b[..k];
    }
  }

  // ---- bar by bar ------------------------------------------------------------------------------------------------

  function Calculate(op: Operation, a: Float, b: Float): Float {
    if a.None? || b.None? then None
    else
      match op
      case Plus => Some(a.value + b.value)
      case Minus => Some(a.value - b.value)
      case Times => Some(a.value * b.value)
      case Over => if b.value == 0.0 then None else Some(a.value / b.value)
  }

  predicate Holds(op: Comparison, a: Float, b: Float) {
    && a.Some? && b.Some?
    && match op {
         case Less => a.value < b.value
         case AtMost => a.value <= b.value
         case More => a.value > b.value
         case AtLeast => a.value >= b.value
         case Equal => a.value == b.value
         case Different => a.value != b.value
       }
  }

  /** An operation on a column of the other kind, or on columns of two lengths, has no answer. */
  function Negated(a: Option<Column>): Option<Column> {
    if a.Some? && a.value.Numbers? then
      var x := a.value.x;
      Some(Numbers(seq(|x|, i requires 0 <= i < |x| => Calculate(Minus, Some(0.0), x[i]))))
    else None
  }

  function Calculated(op: Operation, a: Option<Column>, b: Option<Column>): Option<Column> {
    if a.Some? && b.Some? && a.value.Numbers? && b.value.Numbers? && |a.value.x| == |b.value.x| then
      var x, y := a.value.x, b.value.x;
      Some(Numbers(seq(|x|, i requires 0 <= i < |x| => Calculate(op, x[i], y[i]))))
    else None
  }

  /** All of one kind and length. */
  predicate Alike(columns: seq<Option<Column>>, t: Type, size: nat) {
    forall j :: 0 <= j < |columns| ==> columns[j].Some? && columns[j].value.Kind() == t && columns[j].value.Length() == size
  }

  predicate ChainHolds(ops: seq<Comparison>, columns: seq<Option<Column>>, size: nat, i: nat)
    requires Alike(columns, Number, size) && i < size
  {
    forall j :: 0 <= j < |ops| && j + 1 < |columns| ==> Holds(ops[j], columns[j].value.x[i], columns[j + 1].value.x[i])
  }

  function Compared(ops: seq<Comparison>, columns: seq<Option<Column>>, size: nat): Option<Column> {
    if Alike(columns, Number, size) then
      Some(Truths(seq(size, i requires 0 <= i < size => ChainHolds(ops, columns, size, i))))
    else None
  }

  predicate JoinHolds(joint: Joint, columns: seq<Option<Column>>, size: nat, i: nat)
    requires Alike(columns, Condition, size) && i < size
  {
    if joint == And then forall j :: 0 <= j < |columns| ==> columns[j].value.b[i]
    else exists j :: 0 <= j < |columns| && columns[j].value.b[i]
  }

  function Joined(joint: Joint, columns: seq<Option<Column>>, size: nat): Option<Column> {
    if Alike(columns, Condition, size) then
      Some(Truths(seq(size, i requires 0 <= i < size => JoinHolds(joint, columns, size, i))))
    else None
  }

  function Inverted(a: Option<Column>): Option<Column> {
    if a.Some? && a.value.Truths? then
      var b := a.value.b;
      Some(Truths(seq(|b|, i requires 0 <= i < |b| => !b[i])))
    else None
  }

  function Choose<T>(test: seq<bool>, x: seq<T>, y: seq<T>): seq<T>
    requires |test| == |x| == |y|
  {
    seq(|test|, i requires 0 <= i < |test| => if test[i] then x[i] else y[i])
  }

  function Chosen(test: Option<Column>, x: Option<Column>, y: Option<Column>): Option<Column> {
    if && test.Some? && x.Some? && y.Some? && test.value.Truths? && x.value.Kind() == y.value.Kind()
       && test.value.Length() == x.value.Length() == y.value.Length()
    then
      if x.value.Numbers? then Some(Numbers(Choose(test.value.b, x.value.x, y.value.x)))
      else Some(Truths(Choose(test.value.b, x.value.b, y.value.b)))
    else None
  }

  // ---- further back ----------------------------------------------------------------------------------------------

  function Shift<T>(x: seq<T>, bars: nat, fill: T): seq<T> {
    seq(|x|, i requires 0 <= i < |x| => if i < bars then fill else x[i - bars])
  }

  /** The value so many bars back; nothing, or false, where there is no such bar. A negative offset would look ahead. */
  function Shifted(a: Option<Column>, bars: Option<int>): Option<Column> {
    if a.None? || bars.None? || bars.value < 0 then None
    else if a.value.Numbers? then Some(Numbers(Shift(a.value.x, bars.value, None)))
    else Some(Truths(Shift(a.value.b, bars.value, false)))
  }

  datatype Reducer = Highest | Lowest | Total | Average

  function Fold(how: Reducer, x: seq<Float>): Float
    requires x != []
  {
    if |x| == 1 then x[0]
    else
      var rest, last := Fold(how, x[..|x| - 1]), x[|x| - 1];
      if rest.None? || last.None? then None
      else
        match how
        case Highest => if last.value > rest.value then last else rest
        case Lowest => if last.value < rest.value then last else rest
        case _ => Some(rest.value + last.value)
  }

  function Reduce(how: Reducer, x: seq<Float>): Float
    requires x != []
  {
    if how == Average && Fold(how, x).Some? then Some(Fold(how, x).value / |x| as real) else Fold(how, x)
  }

  function LastOf(x: seq<Float>, n: nat, i: nat): seq<Float>
    requires n <= i + 1 <= |x|
  {
    x[i + 1 - n..i + 1]
  }

  /** Over the last `n` bars, this one included; nothing until there have been so many. */
  function Rolled(how: Reducer, a: Option<Column>, n: Option<int>): Option<Column> {
    if a.Some? && a.value.Numbers? && n.Some? && n.value >= 1 then
      var x, bars: nat := a.value.x, n.value;
      Some(Numbers(seq(|x|, i requires 0 <= i < |x| =>
                              if i + 1 < bars then None else Reduce(how, LastOf(x, bars, i)))))
    else None
  }

  predicate CrossesAt(up: bool, x: seq<Float>, y: seq<Float>, i: nat)
    requires |x| == |y| && i < |x|
  {
    && i > 0 && Holds(if up then AtMost else AtLeast, x[i - 1], y[i - 1]) && Holds(if up then More else Less, x[i], y[i])
  }

  function Crossed(up: bool, a: Option<Column>, b: Option<Column>): Option<Column> {
    if a.Some? && b.Some? && a.value.Numbers? && b.value.Numbers? && |a.value.x| == |b.value.x| then
      var x, y := a.value.x, b.value.x;
      Some(Truths(seq(|x|, i requires 0 <= i < |x| => CrossesAt(up, x, y, i))))
    else None
  }

  predicate StepAt(up: bool, x: seq<Float>, i: nat)
    requires i < |x|
  {
    i > 0 && Holds(if up then More else Less, x[i], x[i - 1])
  }

  /** The column moved that way on each of the last `n` bars. */
  predicate StepsAt(up: bool, x: seq<Float>, n: nat, i: nat)
    requires i < |x|
  {
    i + 1 >= n && forall j :: i - n < j <= i && j >= 0 ==> StepAt(up, x, j)
  }

  function Stepped(up: bool, a: Option<Column>, n: Option<int>): Option<Column> {
    if a.Some? && a.value.Numbers? && n.Some? && n.value >= 1 then
      var x, bars: nat := a.value.x, n.value;
      Some(Truths(seq(|x|, i requires 0 <= i < |x| => StepsAt(up, x, bars, i))))
    else None
  }

  /** The last bar up to this one on which the condition held, or -1. */
  function LastTrue(b: seq<bool>, i: nat): (last: int)
    requires i < |b|
    ensures -1 <= last <= i && (last >= 0 ==> b[last])
    ensures forall j :: last < j <= i ==> !b[j]
  {
    if b[i] then i else if i == 0 then -1 else LastTrue(b, i - 1)
  }

  function SinceTrue(a: Option<Column>): Option<Column> {
    if a.Some? && a.value.Truths? then
      var b := a.value.b;
      Some(Numbers(seq(|b|, i requires 0 <= i < |b| =>
                              var last := LastTrue(b, i); if last >= 0 then Some((i - last) as real) else None)))
    else None
  }

  function PickAt<T>(x: seq<T>, index: seq<int>, none: T): seq<T>
    requires forall i :: 0 <= i < |index| ==> index[i] < |x|
  {
    seq(|index|, i requires 0 <= i < |index| => if index[i] < 0 then none else x[index[i]])
  }

  /** The values at these places; -1 is no place at all. */
  function Picked(a: Option<Column>, index: seq<int>): Option<Column> {
    if a.None? || exists i :: 0 <= i < |index| && index[i] >= a.value.Length() then None
    else if a.value.Numbers? then Some(Numbers(PickAt(a.value.x, index, None)))
    else Some(Truths(PickAt(a.value.b, index, false)))
  }

  function ValuedWhen(a: Option<Column>, b: Option<Column>): Option<Column> {
    if a.Some? && a.value.Truths? then
      var test := a.value.b;
      Picked(b, seq(|test|, i requires 0 <= i < |test| => LastTrue(test, i)))
    else None
  }

  /** The best value since the condition last held, that bar included; nothing until it has. */
  function BestSince(highest: bool, test: seq<bool>, x: seq<Float>, i: nat): Float
    requires |test| == |x| && i < |x|
  {
    if test[i] then x[i]
    else if i == 0 || LastTrue(test, i) < 0 then None
    else
      var best := BestSince(highest, test, x, i - 1);
      if best.None? then x[i]
      else if x[i].None? then best
      else if (if highest then x[i].value > best.value else x[i].value < best.value) then x[i]
      else best
  }

  /** The loop that works it out, bar after bar. */
  method BestSinceEach(highest: bool, test: seq<bool>, x: seq<Float>) returns (found: seq<Float>)
    requires |test| == |x|
    ensures |found| == |x| && forall i :: 0 <= i < |x| ==> found[i] == BestSince(highest, test, x, i)
  {
    found := [];
    var best: Float := None;
    var seen := false;
    for i := 0 to |x|
      invariant |found| == i && forall j :: 0 <= j < i ==> found[j] == BestSince(highest, test, x, j)
      invariant seen <==> i > 0 && LastTrue(test, i - 1) >= 0
      invariant if seen then best == BestSince(highest, test, x, i - 1) else best == None
    {
      if test[i] {
        seen, best := true, x[i];
      } else if seen {
        if best.None? {
          best := x[i];
        } else if x[i].Some? && (if highest then x[i].value > best.value else x[i].value < best.value) {
          best := x[i];
        }
      }
      found := found + [best];
    }
  }

  function Since(highest: bool, a: Option<Column>, b: Option<Column>): Option<Column> {
    if a.Some? && b.Some? && a.value.Truths? && b.value.Numbers? && |a.value.b| == |b.value.x| then
      var test, x := a.value.b, b.value.x;
      Some(Numbers(seq(|x|, i requires 0 <= i < |x| => BestSince(highest, test, x, i))))
    else None
  }

  function Magnitude(a: Float): Float { if a.Some? && a.value < 0.0 then Some(-a.value) else a }

  function Absolute(a: Option<Column>): Option<Column> {
    if a.Some? && a.value.Numbers? then
      var x := a.value.x;
      Some(Numbers(seq(|x|, i requires 0 <= i < |x| => Magnitude(x[i]))))
    else None
  }

  function Better(least: bool, a: Float, b: Float): Float {
    if a.None? || b.None? then None else if (if least then b.value < a.value else b.value > a.value) then b else a
  }

  function Bettered(least: bool, a: Option<Column>, b: Option<Column>): Option<Column> {
    if a.Some? && b.Some? && a.value.Numbers? && b.value.Numbers? && |a.value.x| == |b.value.x| then
      var x, y := a.value.x, b.value.x;
      Some(Numbers(seq(|x|, i requires 0 <= i < |x| => Better(least, x[i], y[i]))))
    else None
  }

  function Extreme(least: bool, columns: seq<Option<Column>>): Option<Column>
    requires columns != []
  {
    if |columns| == 1 then columns[0]
    else Bettered(least, Extreme(least, columns[..|columns| - 1]), columns[|columns| - 1])
  }

  // ---- what each gives, and of what ------------------------------------------------------------------------------

  lemma NegatedAgrees(a: Option<Column>, early: Option<Column>, size: nat, k: nat)
    requires Agrees(a, early, Number, size, k)
    ensures Agrees(Negated(a), Negated(early), Number, size, k)
  {
  }

  lemma CalculatedAgrees(op: Operation, a: Option<Column>, b: Option<Column>, early: Option<Column>, other: Option<Column>,
                         size: nat, k: nat)
    requires Agrees(a, early, Number, size, k) && Agrees(b, other, Number, size, k)
    ensures Agrees(Calculated(op, a, b), Calculated(op, early, other), Number, size, k)
  {
    hide Calculate;
  }

  ghost predicate AllAgree(columns: seq<Option<Column>>, early: seq<Option<Column>>, t: Type, size: nat, k: nat) {
    |columns| == |early| && forall j :: 0 <= j < |columns| ==> Agrees(columns[j], early[j], t, size, k)
  }

  lemma ComparedAgrees(ops: seq<Comparison>, columns: seq<Option<Column>>, early: seq<Option<Column>>, size: nat, k: nat)
    requires AllAgree(columns, early, Number, size, k) && k <= size
    ensures Agrees(Compared(ops, columns, size), Compared(ops, early, k), Condition, size, k)
  {
    hide Holds;
    assert Alike(columns, Number, size) && Alike(early, Number, k);
    forall i | 0 <= i < k ensures ChainHolds(ops, columns, size, i) == ChainHolds(ops, early, k, i) {
      forall j | 0 <= j < |columns| ensures columns[j].value.x[i] == early[j].value.x[i] {
        assert Agrees(columns[j], early[j], Number, size, k);
      }
    }
  }

  lemma JoinedAgrees(joint: Joint, columns: seq<Option<Column>>, early: seq<Option<Column>>, size: nat, k: nat)
    requires AllAgree(columns, early, Condition, size, k) && k <= size
    ensures Agrees(Joined(joint, columns, size), Joined(joint, early, k), Condition, size, k)
  {
    assert Alike(columns, Condition, size) && Alike(early, Condition, k);
    forall i | 0 <= i < k ensures JoinHolds(joint, columns, size, i) == JoinHolds(joint, early, k, i) {
      forall j | 0 <= j < |columns| ensures columns[j].value.b[i] == early[j].value.b[i] {
        assert Agrees(columns[j], early[j], Condition, size, k);
      }
    }
  }

  lemma InvertedAgrees(a: Option<Column>, early: Option<Column>, size: nat, k: nat)
    requires Agrees(a, early, Condition, size, k)
    ensures Agrees(Inverted(a), Inverted(early), Condition, size, k)
  {
  }

  lemma ChosenAgrees(test: Option<Column>, a: Option<Column>, b: Option<Column>, early: Option<Column>, x: Option<Column>,
                     y: Option<Column>, t: Type, size: nat, k: nat)
    requires Agrees(test, early, Condition, size, k) && Agrees(a, x, t, size, k) && Agrees(b, y, t, size, k)
    ensures Agrees(Chosen(test, a, b), Chosen(early, x, y), t, size, k)
  {
  }

  lemma ShiftedAgrees(a: Option<Column>, early: Option<Column>, bars: Option<int>, t: Type, size: nat, k: nat)
    requires Agrees(a, early, t, size, k) && bars.Some? && bars.value >= 0
    ensures Agrees(Shifted(a, bars), Shifted(early, bars), t, size, k)
  {
  }

  lemma RolledAgrees(how: Reducer, a: Option<Column>, early: Option<Column>, n: Option<int>, size: nat, k: nat)
    requires Agrees(a, early, Number, size, k) && n.Some? && n.value >= 1
    ensures Agrees(Rolled(how, a, n), Rolled(how, early, n), Number, size, k)
  {
    hide Reduce;
    var x, y := a.value.x, early.value.x;
    forall i | n.value - 1 <= i < k ensures LastOf(y, n.value, i) == LastOf(x, n.value, i) {
    }
  }

  lemma CrossedAgrees(up: bool, a: Option<Column>, b: Option<Column>, early: Option<Column>, other: Option<Column>,
                      size: nat, k: nat)
    requires Agrees(a, early, Number, size, k) && Agrees(b, other, Number, size, k)
    ensures Agrees(Crossed(up, a, b), Crossed(up, early, other), Condition, size, k)
  {
    hide Holds;
  }

  lemma SteppedAgrees(up: bool, a: Option<Column>, early: Option<Column>, n: Option<int>, size: nat, k: nat)
    requires Agrees(a, early, Number, size, k) && n.Some? && n.value >= 1
    ensures Agrees(Stepped(up, a, n), Stepped(up, early, n), Condition, size, k)
  {
    hide Holds;
    var x, y := a.value.x, early.value.x;
    assert forall j :: 0 <= j < k ==> StepAt(up, y, j) == StepAt(up, x, j);
    hide StepAt;
  }

  lemma {:induction false} LastTrueIsEarly(b: seq<bool>, k: nat, i: nat)
    requires i < k <= |b|
    ensures LastTrue(b[..k], i) == LastTrue(b, i)
  {
    if i > 0 {
      LastTrueIsEarly(b, k, i - 1);
    }
  }

  lemma SinceTrueAgrees(a: Option<Column>, early: Option<Column>, size: nat, k: nat)
    requires Agrees(a, early, Condition, size, k)
    ensures Agrees(SinceTrue(a), SinceTrue(early), Number, size, k)
  {
    assert early.value.b == a.value.b[..k];
    forall i | 0 <= i < k ensures LastTrue(early.value.b, i) == LastTrue(a.value.b, i) {
      LastTrueIsEarly(a.value.b, k, i);
    }
  }

  lemma PickedAgrees(a: Option<Column>, early: Option<Column>, index: seq<int>, first: seq<int>, t: Type, size: nat, k: nat)
    requires Agrees(a, early, t, size, k) && |first| <= |index| && (forall i :: 0 <= i < |first| ==> first[i] == index[i])
    requires (forall i :: 0 <= i < |index| ==> index[i] < size) && (forall i :: 0 <= i < |first| ==> first[i] < k)
    ensures Agrees(Picked(a, index), Picked(early, first), t, |index|, |first|)
  {
  }

  lemma ValuedWhenAgrees(a: Option<Column>, b: Option<Column>, early: Option<Column>, other: Option<Column>, t: Type,
                         size: nat, k: nat)
    requires Agrees(a, early, Condition, size, k) && Agrees(b, other, t, size, k)
    ensures Agrees(ValuedWhen(a, b), ValuedWhen(early, other), t, size, k)
  {
    var test, first := a.value.b, early.value.b;
    assert first == test[..k];
    forall i | 0 <= i < k ensures LastTrue(first, i) == LastTrue(test, i) {
      LastTrueIsEarly(test, k, i);
    }
    PickedAgrees(b, other, seq(size, i requires 0 <= i < size => LastTrue(test, i)),
                 seq(k, i requires 0 <= i < k => LastTrue(first, i)), t, size, k);
    hide Picked;
  }

  lemma {:induction false} BestSinceIsEarly(highest: bool, test: seq<bool>, x: seq<Float>, k: nat, i: nat)
    requires |test| == |x| && i < k <= |x|
    ensures BestSince(highest, test[..k], x[..k], i) == BestSince(highest, test, x, i)
  {
    LastTrueIsEarly(test, k, i);
    if i > 0 {
      BestSinceIsEarly(highest, test, x, k, i - 1);
    }
  }

  lemma SinceAgrees(highest: bool, a: Option<Column>, b: Option<Column>, early: Option<Column>, other: Option<Column>,
                    size: nat, k: nat)
    requires Agrees(a, early, Condition, size, k) && Agrees(b, other, Number, size, k)
    ensures Agrees(Since(highest, a, b), Since(highest, early, other), Number, size, k)
  {
    hide BestSince;
    assert early.value.b == a.value.b[..k] && other.value.x == b.value.x[..k];
    forall i | 0 <= i < k
      ensures BestSince(highest, early.value.b, other.value.x, i) == BestSince(highest, a.value.b, b.value.x, i)
    {
      BestSinceIsEarly(highest, a.value.b, b.value.x, k, i);
    }
  }

  lemma AbsoluteAgrees(a: Option<Column>, early: Option<Column>, size: nat, k: nat)
    requires Agrees(a, early, Number, size, k)
    ensures Agrees(Absolute(a), Absolute(early), Number, size, k)
  {
    hide Magnitude;
  }

  lemma BetteredAgrees(least: bool, a: Option<Column>, b: Option<Column>, early: Option<Column>, other: Option<Column>,
                       size: nat, k: nat)
    requires Agrees(a, early, Number, size, k) && Agrees(b, other, Number, size, k)
    ensures Agrees(Bettered(least, a, b), Bettered(least, early, other), Number, size, k)
  {
    hide Better;
  }

  lemma {:induction false} ExtremeAgrees(least: bool, columns: seq<Option<Column>>, early: seq<Option<Column>>, size: nat, k: nat)
    requires columns != [] && AllAgree(columns, early, Number, size, k)
    ensures Agrees(Extreme(least, columns), Extreme(least, early), Number, size, k)
  {
    assert Agrees(columns[|columns| - 1], early[|early| - 1], Number, size, k);
    if |columns| > 1 {
      hide Agrees, Bettered;
      ExtremeAgrees(least, columns[..|columns| - 1], early[..|early| - 1], size, k);
      BetteredAgrees(least, Extreme(least, columns[..|columns| - 1]), columns[|columns| - 1],
                     Extreme(least, early[..|early| - 1]), early[|early| - 1], size, k);
    }
  }

  // ---- what the language says of its functions -------------------------------------------------------------------

  predicate AtLeastAsGood(highest: bool, a: real, b: real) { if highest then a >= b else a <= b }

  /** `best` is one of these bars' values and none of them is better; there is none only where none of them has a value. */
  ghost predicate BestOf(highest: bool, best: Float, x: seq<Float>, from: nat, upto: nat)
    requires from <= upto < |x|
  {
    if best.None? then forall j :: from <= j <= upto ==> x[j].None?
    else
      && (exists j :: from <= j <= upto && x[j] == best)
      && forall j :: from <= j <= upto && x[j].Some? ==> AtLeastAsGood(highest, best.value, x[j].value)
  }

  /** The highest, or the lowest, of a window is one of its values and none is higher, or lower; and there is none where any
      of them is missing. */
  lemma {:induction false} FoldIsBest(highest: bool, x: seq<Float>)
    requires x != []
    ensures var best := Fold(if highest then Highest else Lowest, x);
      && (best.None? <==> exists j :: 0 <= j < |x| && x[j].None?)
      && (best.Some? ==> BestOf(highest, best, x, 0, |x| - 1))
  {
    if |x| > 1 {
      FoldIsBest(highest, x[..|x| - 1]);
    }
  }

  /** The best since the condition held is the best of the bars from the last on which it did, whatever values are missing
      among them; and there is none before it ever did. */
  lemma {:induction false} BestSinceIs(highest: bool, test: seq<bool>, x: seq<Float>, i: nat)
    requires |test| == |x| && i < |x|
    ensures LastTrue(test, i) < 0 ==> BestSince(highest, test, x, i) == None
    ensures LastTrue(test, i) >= 0 ==> BestOf(highest, BestSince(highest, test, x, i), x, LastTrue(test, i), i)
  {
    if i > 0 && !test[i] && LastTrue(test, i) >= 0 {
      BestSinceIs(highest, test, x, i - 1);
    }
  }
}
