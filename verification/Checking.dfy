/**
 The checker as it walks: it gathers every problem instead of stopping at the first, and says the type it found. Each
 step is proved against the typing relation, which knows nothing of problems.
 */
module Checking {
  import opened Wrappers
  import opened Language

  datatype Why =
    | WrongType(wanted: Type) | BranchesDiffer | NotAField | NotAFunction | NotASeries | OnlyInExits | NotUnderAt
    | NotInALet | OnlyAfterAt | OnlyAsAnArgument | LetUnderAt | NeedsArguments | UnknownName | TwoResolutions
    | NotAContext | TwoInstruments | WrongPlace | ByName | WrongCount | NotASession | NotWhole | NotAWindow | OutOfRange
    | NotALine | ChooseALine | NoSuchLine | TooManyParams | NoSuchParam | GivenTwice | Undeclared

  datatype Problem = Problem(at: Node, why: Why)

  class Walk {
    const s: Scope
    var problems: seq<Problem>

    constructor (scope: Scope)
      ensures s == scope && problems == []
    {
      s, problems := scope, [];
    }

    method Refuse(at: Node, why: Why)
      modifies this
      ensures problems == old(problems) + [Problem(at, why)]
    {
      problems := problems + [Problem(at, why)];
    }

    /** The type of `n` where it stands; none after a problem, or for a variable refused where it was defined. */
    method TypeOf(n: Node, c: Context) returns (found: Option<Type>)
      requires s.WellFormed()
      modifies this
      ensures old(problems) <= problems
      ensures forall t :: Typed(s, n, t, c) <==> problems == old(problems) && found == t
      decreases n, 1
    {
      match n
      case Num(_) => return Some(Number);
      case Bool(_) => return Some(Condition);
      case Name(_) => found := NameType(n, c);
      case Param(name) =>
        var declared := Declared(n);
        return if declared.Some? then Some(Number) else None;
      case Neg(x) =>
        Expect(x, Number, c);
        return Some(Number);
      case Arith(_, x, y) =>
        Expect(x, Number, c);
        Expect(y, Number, c);
        return Some(Number);
      case Compare(_, xs) =>
        ExpectEach(xs, Number, c);
        return Some(Condition);
      case Logic(_, xs) =>
        ExpectEach(xs, Condition, c);
        return Some(Condition);
      case Not(x) =>
        Expect(x, Condition, c);
        return Some(Condition);
      case IfElse(test, x, y) =>
        Expect(test, Condition, c);
        var first := TypeOf(x, c);
        var second := TypeOf(y, c);
        if first.Some? && second.Some? && first != second {
          Refuse(n, BranchesDiffer);
          return None;
        }
        ghost var clean := problems == old(problems);
        assert clean ==> Typed(s, x, first, c) && Typed(s, y, second, c) && Agree(first, second);
        return if first.Some? then first else second;
      case Lag(x, bars) =>
        CheckBars(n, bars, 0);
        found := TypeOf(x, c.OverBars());
      case At(x, context) => found := AtType(n, c);
      case Field(x, line) =>
        if !x.Call? || x.callee !in s.catalogue || x.callee in s.v.functions {
          Refuse(n, NotAField);
          return None;
        }
        found := IndicatorType(x, Some(line));
      case Call(f, _, _) =>
        if f in s.v.functions {
          found := FunctionType(n, c);
        } else if f in s.catalogue {
          found := IndicatorType(n, None);
        } else {
          Refuse(n, NotAFunction);
          return None;
        }
    }

    method Expect(n: Node, wanted: Type, c: Context)
      requires s.WellFormed()
      modifies this
      ensures old(problems) <= problems
      ensures problems == old(problems) <==> Fits(s, n, wanted, c)
      decreases n, 2
    {
      var found := TypeOf(n, c);
      if found.Some? && found.value != wanted {
        Refuse(n, WrongType(wanted));
      }
    }

    method ExpectEach(xs: seq<Node>, wanted: Type, c: Context)
      requires s.WellFormed()
      modifies this
      ensures old(problems) <= problems
      ensures problems == old(problems) <==> forall x :: x in xs ==> Fits(s, x, wanted, c)
      decreases xs, 3
    {
      for i := 0 to |xs|
        invariant old(problems) <= problems
        invariant problems == old(problems) <==> forall j :: 0 <= j < i ==> Fits(s, xs[j], wanted, c)
      {
        Expect(xs[i], wanted, c);
      }
    }

    method NameType(n: Node, c: Context) returns (found: Option<Type>)
      requires n.Name?
      modifies this
      ensures old(problems) <= problems
      ensures forall t :: NameTyped(s, n.id, t, c) <==> problems == old(problems) && found == t
    {
      var id := n.id;
      found := None;
      if id in s.v.series || id in s.v.time || id in s.v.constants {
        return Some(Number);
      }
      if (id in s.v.position || id in s.v.history) && c.overBars && !c.Elsewhere() {
        Refuse(n, NotASeries);
      } else if id in s.v.position {
        if s.place != Exit {
          Refuse(n, OnlyInExits);
        } else if c.Elsewhere() {
          Refuse(n, NotUnderAt);
        } else {
          return Some(Number);
        }
      } else if id in s.v.history {
        if s.place == Let {
          Refuse(n, NotInALet);
        } else if c.Elsewhere() {
          Refuse(n, NotUnderAt);
        } else {
          return Some(Number);
        }
      } else if id in s.v.resolutions {
        Refuse(n, OnlyAfterAt);
      } else if id in s.v.sessions {
        Refuse(n, OnlyAsAnArgument);
      } else if id in s.untyped {
        return None;
      } else if id in s.lets {
        if c.Elsewhere() {
          Refuse(n, LetUnderAt);
        } else {
          return Some(s.lets[id]);
        }
      } else if id in s.v.functions || id in s.catalogue {
        Refuse(n, NeedsArguments);
      } else {
        Refuse(n, UnknownName);
      }
    }

    method AtType(n: Node, c: Context) returns (found: Option<Type>)
      requires s.WellFormed() && n.At?
      modifies this
      ensures old(problems) <= problems
      ensures forall t :: Typed(s, n, t, c) <==> problems == old(problems) && found == t
      decreases n, 0
    {
      var inner := Context(c.symbol, c.resolution, true);
      if n.context in s.v.resolutions {
        if c.resolution.Some? {
          Refuse(n, TwoResolutions);
          return None;
        }
        inner := inner.(resolution := Some(n.context));
      } else {
        if n.context in s.v.reserved || s.v.slip(n.context) {
          Refuse(n, NotAContext);
          return None;
        }
        if c.symbol.Some? {
          Refuse(n, TwoInstruments);
          return None;
        }
        inner := inner.(symbol := Some(n.context));
      }
      found := TypeOf(n.value, inner);
    }

    method FunctionType(n: Node, c: Context) returns (found: Option<Type>)
      requires s.WellFormed() && n.Call? && n.callee in s.v.functions
      modifies this
      ensures old(problems) <= problems
      ensures forall t :: Typed(s, n, t, c) <==> problems == old(problems) && found == t
      decreases n, 0
    {
      var f, args := n.callee, n.args;
      var spec := s.v.functions[f];
      if spec.places.Some? && s.place !in spec.places.value {
        Refuse(n, WrongPlace);
        return None;
      }
      if f == "at_entry" && (c.Elsewhere() || c.overBars) {
        Refuse(n, NotUnderAt);
        return None;
      }
      var argContext := if f in s.v.perBar then c else Context(c.symbol, c.resolution, true);
      if n.kwargs != [] {
        Refuse(n, ByName);
        return None;
      }
      if |args| < |spec.args| || (|args| > |spec.args| && !spec.variadic) {
        Refuse(n, WrongCount);
        return None;
      }
      for i := 0 to |args|
        invariant old(problems) <= problems
        invariant problems == old(problems) <==>
                  forall j :: 0 <= j < i ==> ArgFits(s, KindOf(spec, j), args[j], argContext)
      {
        match KindOf(spec, i)
        case Window => CheckWindow(args[i]);
        case Session =>
          if !(args[i].Name? && args[i].id in s.v.sessions) {
            Refuse(args[i], NotASession);
          }
        case OfType(t) => Expect(args[i], t, argContext);
      }
      return Some(spec.gives);
    }

    method CheckWindow(arg: Node)
      modifies this
      ensures old(problems) <= problems
      ensures problems == old(problems) <==> WindowFits(s, arg)
    {
      match arg
      case Num(number) =>
        if !IsInteger(number) {
          Refuse(arg, NotWhole);
        } else {
          CheckBars(arg, Count(number.Floor), 1);
        }
      case Param(name) => CheckBars(arg, FromParam(name), 1);
      case _ => Refuse(arg, NotAWindow);
    }

    method CheckBars(at: Node, bars: Bars, minimum: int)
      modifies this
      ensures old(problems) <= problems
      ensures problems == old(problems) <==> BarsFit(s, bars, minimum)
    {
      match bars
      case Count(n) =>
        if !(minimum <= n <= s.v.maxBars) {
          Refuse(at, OutOfRange);
        }
      case FromParam(name) =>
        var declared := Declared(Param(name));
        if declared.Some? {
          var d := declared.value;
          if !d.Integer() || d.min < minimum as real || d.max > s.v.maxBars as real {
            Refuse(Param(name), OutOfRange);
          }
        }
    }

    method Declared(p: Node) returns (declared: Option<ParamDecl>)
      requires p.Param?
      modifies this
      ensures old(problems) <= problems
      ensures problems == old(problems) <==> p.name in s.params
      ensures declared == if p.name in s.params then Some(s.params[p.name]) else None
    {
      if p.name in s.params {
        return Some(s.params[p.name]);
      }
      Refuse(p, Undeclared);
      return None;
    }

    method IndicatorType(n: Node, line: Option<string>) returns (found: Option<Type>)
      requires s.WellFormed() && n.Call? && n.callee in s.catalogue
      modifies this
      ensures old(problems) <= problems
      ensures problems == old(problems) <==> IndicatorFits(s, n.callee, n.args, n.kwargs, line)
      ensures problems == old(problems) ==> found == Some(Number)
    {
      var entry := s.catalogue[n.callee];
      if !entry.drawsLines {
        Refuse(n, NotALine);
        return None;
      }
      if line.None? && |entry.lines| > 1 {
        Refuse(n, ChooseALine);
        return None;
      }
      if line.Some? && line.value !in entry.lines {
        Refuse(n, NoSuchLine);
        return None;
      }
      if |n.args| > |entry.params| {
        Refuse(n, TooManyParams);
        return None;
      }
      ghost var start := problems;
      var given := Given(n, entry);
      ghost var gathered := problems == start;
      for i := 0 to |given|
        invariant start <= problems
        invariant problems == start <==> gathered && forall j :: 0 <= j < i ==> GivenFits(s, entry, given[j])
      {
        CheckIndicatorParam(ParamNamed(entry.params, given[i].0), given[i].1);
      }
      if gathered {
        AllGivenFit(s, n, entry, given);
      } else if forall k :: 0 <= k < |n.kwargs| ==> KeywordLands(s, entry, |n.args|, n.kwargs, k) {
        LandingGathers(s, n, entry);
      }
      hide KeywordLands, IndicatorParamFits, KeywordsFit, GivenFits;
      return Some(Number);
    }

    /** The arguments by the parameter each is for; one that is for none, or for one already given, is a problem. */
    method Given(n: Node, entry: Indicator) returns (given: seq<(string, Node)>)
      requires n.Call? && |n.args| <= |entry.params|
      modifies this
      ensures old(problems) <= problems
      ensures forall j :: 0 <= j < |given| ==> HasParam(entry.params, given[j].0)
      ensures problems == old(problems) <==> KeywordsFit(n, entry)
      ensures problems == old(problems) ==> given == Positional(n, entry) + n.kwargs
    {
      given := Positional(n, entry);
      forall j | 0 <= j < |given| ensures HasParam(entry.params, given[j].0) {
        assert entry.params[j].name == given[j].0;
      }
      for k := 0 to |n.kwargs|
        invariant old(problems) <= problems
        invariant forall j :: 0 <= j < |given| ==> HasParam(entry.params, given[j].0)
        invariant problems == old(problems) <==> forall l :: 0 <= l < k ==> KeywordFits(n, entry, l)
        invariant problems == old(problems) ==> given == Positional(n, entry) + n.kwargs[..k]
      {
        var (name, arg) := n.kwargs[k];
        ghost var fits := KeywordFits(n, entry, k);
        if !HasParam(entry.params, name) {
          Refuse(arg, NoSuchParam);
        } else if exists j :: 0 <= j < |given| && given[j].0 == name {
          if problems == old(problems) { TwiceGiven(n, entry, given, k); }
          Refuse(arg, GivenTwice);
        } else {
          if problems == old(problems) { OnceGiven(n, entry, given, k); }
          given := given + [n.kwargs[k]];
        }
      }
      assert n.kwargs[..|n.kwargs|] == n.kwargs;
    }

    method CheckIndicatorParam(p: IndicatorParam, arg: Node)
      modifies this
      ensures old(problems) <= problems
      ensures problems == old(problems) <==> IndicatorParamFits(s, p, arg)
    {
      match arg
      case Num(number) =>
        if p.integer && !IsInteger(number) {
          Refuse(arg, NotWhole);
        } else if !(p.min <= number <= p.max) {
          Refuse(arg, OutOfRange);
        }
      case Param(name) =>
        var declared := Declared(arg);
        if declared.Some? {
          var d := declared.value;
          if d.min < p.min || d.max > p.max || (p.integer && !d.Integer()) {
            Refuse(arg, OutOfRange);
          }
        }
      case _ => Refuse(arg, NotAWindow);
    }
  }

  // ---- an indicator's arguments ----------------------------------------------------------------------------------

  function ParamNamed(params: seq<IndicatorParam>, name: string): (p: IndicatorParam)
    requires HasParam(params, name)
    ensures p in params && p.name == name
  {
    if params[0].name == name then params[0]
    else
      assert exists i :: 0 <= i < |params[1..]| && params[1..][i].name == name by {
        var i :| 0 <= i < |params| && params[i].name == name;
        assert params[1..][i - 1].name == name;
      }
      ParamNamed(params[1..], name)
  }

  function Positional(n: Node, entry: Indicator): (given: seq<(string, Node)>)
    requires n.Call? && |n.args| <= |entry.params|
    ensures |given| == |n.args|
  {
    seq(|n.args|, i requires 0 <= i < |n.args| => (entry.params[i].name, n.args[i]))
  }

  ghost predicate KeywordFits(n: Node, entry: Indicator, k: nat)
    requires n.Call? && |n.args| <= |entry.params| && k < |n.kwargs|
  {
    && HasParam(entry.params, n.kwargs[k].0)
    && !HasParam(entry.params[..|n.args|], n.kwargs[k].0)
    && forall l :: 0 <= l < k ==> n.kwargs[l].0 != n.kwargs[k].0
  }

  ghost predicate KeywordsFit(n: Node, entry: Indicator)
    requires n.Call? && |n.args| <= |entry.params|
  {
    forall k :: 0 <= k < |n.kwargs| ==> KeywordFits(n, entry, k)
  }

  lemma TwiceGiven(n: Node, entry: Indicator, given: seq<(string, Node)>, k: nat)
    requires n.Call? && |n.args| <= |entry.params| && k < |n.kwargs|
    requires given == Positional(n, entry) + n.kwargs[..k]
    requires exists j :: 0 <= j < |given| && given[j].0 == n.kwargs[k].0
    ensures !KeywordFits(n, entry, k)
  {
  }

  lemma OnceGiven(n: Node, entry: Indicator, given: seq<(string, Node)>, k: nat)
    requires n.Call? && |n.args| <= |entry.params| && k < |n.kwargs|
    requires given == Positional(n, entry) + n.kwargs[..k] && HasParam(entry.params, n.kwargs[k].0)
    requires forall j :: 0 <= j < |given| ==> given[j].0 != n.kwargs[k].0
    ensures KeywordFits(n, entry, k)
  {
    forall i | 0 <= i < |n.args| ensures entry.params[..|n.args|][i].name != n.kwargs[k].0 {
      assert given[i].0 == entry.params[i].name;
    }
    forall l | 0 <= l < k ensures n.kwargs[l].0 != n.kwargs[k].0 {
      assert given[|n.args| + l] == n.kwargs[l];
    }
  }

  /** A gathered argument fits the parameter its name is for. */
  predicate GivenFits(s: Scope, entry: Indicator, g: (string, Node)) {
    HasParam(entry.params, g.0) && IndicatorParamFits(s, ParamNamed(entry.params, g.0), g.1)
  }

  lemma GivenFitsAt(s: Scope, entry: Indicator, i: nat, arg: Node)
    requires entry.Distinct() && i < |entry.params|
    ensures GivenFits(s, entry, (entry.params[i].name, arg)) <==> IndicatorParamFits(s, entry.params[i], arg)
  {
  }

  lemma KeywordLandsWhen(s: Scope, n: Node, entry: Indicator, k: nat)
    requires entry.Distinct() && n.Call? && |n.args| <= |entry.params| && k < |n.kwargs|
    ensures KeywordLands(s, entry, |n.args|, n.kwargs, k) <==> KeywordFits(n, entry, k) && GivenFits(s, entry, n.kwargs[k])
  {
  }

  /** Gathering and then checking each argument is the same as landing each where it belongs. */
  lemma AllGivenFit(s: Scope, n: Node, entry: Indicator, given: seq<(string, Node)>)
    requires entry.Distinct() && n.Call? && |n.args| <= |entry.params| && KeywordsFit(n, entry)
    requires given == Positional(n, entry) + n.kwargs
    ensures
      (forall j :: 0 <= j < |given| ==> GivenFits(s, entry, given[j])) <==>
      (&& (forall i :: 0 <= i < |n.args| ==> IndicatorParamFits(s, entry.params[i], n.args[i]))
       && (forall k :: 0 <= k < |n.kwargs| ==> KeywordLands(s, entry, |n.args|, n.kwargs, k)))
  {
    forall i | 0 <= i < |n.args|
      ensures GivenFits(s, entry, given[i]) <==> IndicatorParamFits(s, entry.params[i], n.args[i])
    {
      GivenFitsAt(s, entry, i, n.args[i]);
    }
    forall k | 0 <= k < |n.kwargs|
      ensures GivenFits(s, entry, given[|n.args| + k]) <==> KeywordLands(s, entry, |n.args|, n.kwargs, k)
    {
      assert KeywordFits(n, entry, k);
      KeywordLandsWhen(s, n, entry, k);
    }
    hide GivenFits, KeywordLands, IndicatorParamFits, KeywordsFit;
    if forall j :: 0 <= j < |given| ==> GivenFits(s, entry, given[j]) {
      forall i | 0 <= i < |n.args| ensures IndicatorParamFits(s, entry.params[i], n.args[i]) {
        assert GivenFits(s, entry, given[i]);
      }
      forall k | 0 <= k < |n.kwargs| ensures KeywordLands(s, entry, |n.args|, n.kwargs, k) {
        assert GivenFits(s, entry, given[|n.args| + k]);
      }
    }
    if (forall i :: 0 <= i < |n.args| ==> IndicatorParamFits(s, entry.params[i], n.args[i]))
       && (forall k :: 0 <= k < |n.kwargs| ==> KeywordLands(s, entry, |n.args|, n.kwargs, k))
    {
      forall j | 0 <= j < |given| ensures GivenFits(s, entry, given[j]) {
        if j >= |n.args| { assert KeywordLands(s, entry, |n.args|, n.kwargs, j - |n.args|); }
      }
    }
  }

  lemma LandingGathers(s: Scope, n: Node, entry: Indicator)
    requires entry.Distinct() && n.Call? && |n.args| <= |entry.params|
    requires forall k :: 0 <= k < |n.kwargs| ==> KeywordLands(s, entry, |n.args|, n.kwargs, k)
    ensures KeywordsFit(n, entry)
  {
    forall k | 0 <= k < |n.kwargs| ensures KeywordFits(n, entry, k) {
      KeywordLandsWhen(s, n, entry, k);
    }
  }

  // ---- the two doors ---------------------------------------------------------------------------------------------

  /** Every problem with a formula standing where a value of type `wanted` is: none, exactly when it has that type — or
      when only a variable already refused where it was defined keeps its type from being known. */
  method Check(n: Node, s: Scope, wanted: Type) returns (problems: seq<Problem>)
    requires s.WellFormed()
    ensures problems == [] <==> Fits(s, n, wanted, HERE)
  {
    var walk := new Walk(s);
    walk.Expect(n, wanted, HERE);
    return walk.problems;
  }

  /** The type of a `let` formula, and its problems. */
  method Infer(n: Node, s: Scope) returns (found: Option<Type>, problems: seq<Problem>)
    requires s.WellFormed()
    ensures forall t :: Typed(s, n, t, HERE) <==> problems == [] && found == t
  {
    var walk := new Walk(s);
    found := walk.TypeOf(n, HERE);
    return found, walk.problems;
  }
}
