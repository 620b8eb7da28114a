/** The formula language: its trees, its vocabulary, and which formulas mean something where they stand. */
module Language {
  import opened Wrappers

  datatype Type = Number | Condition

  datatype Place = Let | Entry | Exit | Limit

  datatype Operation = Plus | Minus | Times | Over

  datatype Comparison = Less | AtMost | More | AtLeast | Equal | Different

  datatype Joint = And | Or

  /** What an offset or a window is given as. */
  datatype Bars = Count(n: int) | FromParam(name: string)

  datatype Node =
    | Num(number: real)
    | Bool(truth: bool)
    | Name(id: string)
    | Param(name: string)
    | Neg(operand: Node)
    | Arith(op: Operation, left: Node, right: Node)
    | Compare(ops: seq<Comparison>, operands: seq<Node>)
    | Logic(joins: Joint, values: seq<Node>)
    | Not(operand: Node)
    | IfElse(condition: Node, then_: Node, otherwise: Node)
    | Call(callee: string, args: seq<Node>, kwargs: seq<(string, Node)>)
    | Field(value: Node, line: string)
    | Lag(value: Node, bars: Bars)
    | At(value: Node, context: string)

  // ---- the vocabulary --------------------------------------------------------------------------------------------

  datatype Arg = OfType(t: Type) | Window | Session

  datatype Function = Function(args: seq<Arg>, gives: Type, variadic: bool, places: Option<set<Place>>)

  datatype Vocabulary = Vocabulary(
    series: set<string>, time: set<string>, constants: set<string>, sessions: set<string>, position: set<string>,
    history: set<string>, resolutions: set<string>, reserved: set<string>, functions: map<string, Function>,
    perBar: set<string>, maxBars: int,
    // Whether a context name is a hair from a resolution, by `difflib` and the squeezed spelling.
    slip: string -> bool)
  {
    predicate State(id: string) { id in position || id in history }

    /** The names of the trade's state are no other kind of value. */
    predicate Separate() {
      && position + history !! series + time + constants + sessions
    }

    predicate WellFormed() {
      && Separate()
      && forall f :: f in functions ==> functions[f].args != []
    }
  }

  datatype ParamDecl = ParamDecl(default: real, min: real, max: real, step: real) {
    predicate Integer() { IsInteger(default) && IsInteger(min) && IsInteger(max) && IsInteger(step) }
  }

  predicate IsInteger(x: real) { x.Floor as real == x }

  datatype IndicatorParam = IndicatorParam(name: string, integer: bool, default: real, min: real, max: real)

  datatype Indicator = Indicator(drawsLines: bool, params: seq<IndicatorParam>, lines: seq<string>) {
    predicate Distinct() {
      forall i, j :: 0 <= i < j < |params| ==> params[i].name != params[j].name
    }
  }

  datatype Scope = Scope(
    v: Vocabulary, place: Place, params: map<string, ParamDecl>, lets: map<string, Type>,
    catalogue: map<string, Indicator>, untyped: set<string>)
  {
    predicate WellFormed() {
      && v.WellFormed()
      && forall f :: f in catalogue ==> catalogue[f].Distinct()
    }
  }

  /** Inside how many `@`, and which kind each named; and whether inside a series of past values. */
  datatype Context = Context(symbol: Option<string>, resolution: Option<string>, overBars: bool) {
    predicate Elsewhere() { symbol.Some? || resolution.Some? }

    function OverBars(): Context { this.(overBars := true) }
  }

  const HERE := Context(None, None, false)

  // ---- the declarative typing relation ---------------------------------------------------------------------------

  predicate NameTyped(s: Scope, id: string, t: Option<Type>, c: Context) {
    if id in s.v.series || id in s.v.time || id in s.v.constants then t == Some(Number)
    else if id in s.v.position then s.place == Exit && !c.Elsewhere() && !c.overBars && t == Some(Number)
    else if id in s.v.history then s.place != Let && !c.Elsewhere() && !c.overBars && t == Some(Number)
    else if id in s.v.resolutions || id in s.v.sessions then false
    else if id in s.untyped then t == None
    else id in s.lets && !c.Elsewhere() && t == Some(s.lets[id])
  }

  predicate BarsFit(s: Scope, bars: Bars, minimum: int) {
    match bars
    case Count(n) => minimum <= n <= s.v.maxBars
    case FromParam(name) =>
      && name in s.params && s.params[name].Integer()
      && s.params[name].min >= minimum as real && s.params[name].max <= s.v.maxBars as real
  }

  predicate WindowFits(s: Scope, arg: Node) {
    match arg
    case Num(value) => IsInteger(value) && BarsFit(s, Count(value.Floor), 1)
    case Param(name) => BarsFit(s, FromParam(name), 1)
    case _ => false
  }

  predicate SessionFits(s: Scope, arg: Node) { arg.Name? && arg.id in s.v.sessions }

  predicate IndicatorParamFits(s: Scope, p: IndicatorParam, arg: Node) {
    match arg
    case Num(value) => (p.integer ==> IsInteger(value)) && p.min <= value <= p.max
    case Param(name) =>
      && name in s.params && p.min <= s.params[name].min && s.params[name].max <= p.max
      && (p.integer ==> s.params[name].Integer())
    case _ => false
  }

  predicate HasParam(params: seq<IndicatorParam>, name: string) {
    exists i :: 0 <= i < |params| && params[i].name == name
  }

  /** Keyword `k` is for a parameter no earlier argument is for, and fits it. */
  predicate KeywordLands(s: Scope, entry: Indicator, positional: nat, kwargs: seq<(string, Node)>, k: nat)
    requires positional <= |entry.params| && k < |kwargs|
  {
    && !HasParam(entry.params[..positional], kwargs[k].0)
    && (forall l :: 0 <= l < k ==> kwargs[l].0 != kwargs[k].0)
    && exists i :: 0 <= i < |entry.params| && entry.params[i].name == kwargs[k].0
                   && IndicatorParamFits(s, entry.params[i], kwargs[k].1)
  }

  /** Every argument lands on a parameter of its own and fits it. */
  predicate IndicatorFits(s: Scope, f: string, args: seq<Node>, kwargs: seq<(string, Node)>, line: Option<string>)
    requires f in s.catalogue
  {
    var entry := s.catalogue[f];
    && entry.drawsLines
    && (if line.None? then |entry.lines| <= 1 else line.value in entry.lines)
    && |args| <= |entry.params|
    && (forall i :: 0 <= i < |args| ==> IndicatorParamFits(s, entry.params[i], args[i]))
    && (forall k :: 0 <= k < |kwargs| ==> KeywordLands(s, entry, |args|, kwargs, k))
  }

  predicate MayCall(s: Scope, f: string, c: Context)
    requires f in s.v.functions
  {
    && (s.v.functions[f].places.Some? ==> s.place in s.v.functions[f].places.value)
    && (f == "at_entry" ==> !c.Elsewhere() && !c.overBars)
  }

  predicate ArityFits(f: Function, count: nat) {
    |f.args| <= count && (count > |f.args| ==> f.variadic)
  }

  function ArgContext(s: Scope, f: string, c: Context): Context {
    if f in s.v.perBar then c else c.OverBars()
  }

  function KindOf(f: Function, i: nat): Arg
    requires f.args != []
  {
    f.args[if i < |f.args| then i else |f.args| - 1]
  }

  predicate MayReadAt(s: Scope, context: string, c: Context) {
    if context in s.v.resolutions then c.resolution.None?
    else context !in s.v.reserved && !s.v.slip(context) && c.symbol.None?
  }

  function InnerContext(s: Scope, context: string, c: Context): Context {
    if context in s.v.resolutions then Context(c.symbol, Some(context), true)
    else Context(Some(context), c.resolution, true)
  }

  predicate Agree(t: Option<Type>, u: Option<Type>) { t.None? || u.None? || t == u }

  /** `n` standing in `c` means a value of type `t` — or, with `t` absent, a value only a refused variable could type. */
  ghost predicate Typed(s: Scope, n: Node, t: Option<Type>, c: Context)
    requires s.WellFormed()
    decreases n, 1
  {
    match n
    case Num(_) => t == Some(Number)
    case Bool(_) => t == Some(Condition)
    case Name(id) => NameTyped(s, id, t, c)
    case Param(name) => name in s.params && t == Some(Number)
    case Neg(x) => Fits(s, x, Number, c) && t == Some(Number)
    case Arith(_, x, y) => Fits(s, x, Number, c) && Fits(s, y, Number, c) && t == Some(Number)
    case Compare(_, xs) => (forall x :: x in xs ==> Fits(s, x, Number, c)) && t == Some(Condition)
    case Logic(_, xs) => (forall x :: x in xs ==> Fits(s, x, Condition, c)) && t == Some(Condition)
    case Not(x) => Fits(s, x, Condition, c) && t == Some(Condition)
    case IfElse(test, x, y) =>
      && Fits(s, test, Condition, c)
      && (exists a, b :: Typed(s, x, a, c) && Typed(s, y, b, c) && Agree(a, b) && t == if a.Some? then a else b)
    case Lag(x, bars) => BarsFit(s, bars, 0) && Typed(s, x, t, c.OverBars())
    case At(x, context) => MayReadAt(s, context, c) && Typed(s, x, t, InnerContext(s, context, c))
    case Field(x, line) =>
      && x.Call? && x.callee in s.catalogue && x.callee !in s.v.functions
      && IndicatorFits(s, x.callee, x.args, x.kwargs, Some(line)) && t == Some(Number)
    case Call(f, args, kwargs) =>
      if f in s.v.functions then
        var spec := s.v.functions[f];
        && MayCall(s, f, c) && kwargs == [] && ArityFits(spec, |args|) && t == Some(spec.gives)
        && forall i :: 0 <= i < |args| ==> ArgFits(s, KindOf(spec, i), args[i], ArgContext(s, f, c))
      else
        f in s.catalogue && IndicatorFits(s, f, args, kwargs, None) && t == Some(Number)
  }

  /** `n` may stand where a value of type `t` is wanted. */
  ghost predicate Fits(s: Scope, n: Node, t: Type, c: Context)
    requires s.WellFormed()
    decreases n, 2
  {
    Typed(s, n, Some(t), c) || Typed(s, n, None, c)
  }

  ghost predicate ArgFits(s: Scope, kind: Arg, arg: Node, c: Context)
    requires s.WellFormed()
    decreases arg, 3
  {
    match kind
    case Window => WindowFits(s, arg)
    case Session => SessionFits(s, arg)
    case OfType(t) => Fits(s, arg, t, c)
  }

  // ---- what an accepted formula cannot do ------------------------------------------------------------------------

  /** With no variable refused where it was defined, what has no type has a problem. */
  lemma {:induction false} NothingIsUnknown(s: Scope, n: Node, c: Context)
    requires s.WellFormed() && s.untyped == {}
    ensures !Typed(s, n, None, c)
    decreases n
  {
    match n
    case IfElse(_, x, y) =>
      NothingIsUnknown(s, x, c);
      NothingIsUnknown(s, y, c);
    case Lag(x, _) => NothingIsUnknown(s, x, c.OverBars());
    case At(x, context) => NothingIsUnknown(s, x, InnerContext(s, context, c));
    case _ =>
  }

  /** A formula has one type at most. */
  lemma {:induction false} TypeIsUnique(s: Scope, n: Node, t: Option<Type>, u: Option<Type>, c: Context)
    requires s.WellFormed() && Typed(s, n, t, c) && Typed(s, n, u, c)
    ensures t == u
    decreases n
  {
    match n
    case IfElse(_, x, y) =>
      var a, b :| Typed(s, x, a, c) && Typed(s, y, b, c) && Agree(a, b) && t == if a.Some? then a else b;
      var a', b' :| Typed(s, x, a', c) && Typed(s, y, b', c) && Agree(a', b') && u == if a'.Some? then a' else b';
      TypeIsUnique(s, x, a, a', c);
      TypeIsUnique(s, y, b, b', c);
    case Lag(x, _) => TypeIsUnique(s, x, t, u, c.OverBars());
    case At(x, context) => TypeIsUnique(s, x, t, u, InnerContext(s, context, c));
    case _ =>
  }

  /** The formulas directly inside `n`. */
  function Children(n: Node): (inside: seq<Node>)
    ensures forall m :: m in inside ==> m < n
  {
    match n
    case Neg(x) => [x]
    case Not(x) => [x]
    case Arith(_, x, y) => [x, y]
    case Compare(_, xs) => xs
    case Logic(_, xs) => xs
    case IfElse(test, x, y) => [test, x, y]
    case Call(_, args, kwargs) => args + seq(|kwargs|, i requires 0 <= i < |kwargs| => kwargs[i].1)
    case Field(x, _) => [x]
    case Lag(x, _) => [x]
    case At(x, _) => [x]
    case _ => []
  }

  /** Whether what stands inside `n` is read as a series of past values: under an offset, `@`, or a function over bars. */
  predicate PastInside(v: Vocabulary, n: Node) {
    n.Lag? || n.At? || (n.Call? && n.callee !in v.perBar)
  }

  /** `id` is read somewhere in `n`, at any depth, as one of a series of past values — or anywhere, with `past` to begin
      with. */
  ghost predicate ReadsInPast(v: Vocabulary, n: Node, id: string, past: bool)
    decreases n
  {
    if n.Name? then past && n.id == id
    else exists m :: m in Children(n) && m < n && ReadsInPast(v, m, id, past || PastInside(v, n))
  }

  /** Where a name of the trade's state may not stand at all. */
  predicate Stateless(s: Scope, c: Context) { c.overBars || c.Elsewhere() || s.place == Let }

  /** Where this name of it may not: nowhere but in an exit is there an open position. */
  predicate Barred(s: Scope, c: Context, id: string) { Stateless(s, c) || (id in s.v.position && s.place != Exit) }

  ghost predicate NoPastRead(s: Scope, n: Node, id: string, c: Context) {
    forall past :: (past ==> Barred(s, c, id)) ==> !ReadsInPast(s.v, n, id, past)
  }

  lemma FitsOne(s: Scope, n: Node, t: Type, c: Context) returns (found: Option<Type>)
    requires s.WellFormed() && Fits(s, n, t, c)
    ensures Typed(s, n, found, c)
  {
    found := if Typed(s, n, None, c) then None else Some(t);
  }

  lemma PlainArgument(s: Scope, n: Node, id: string, past: bool)
    requires n.Num? || n.Param? || (n.Name? && n.id != id)
    ensures !ReadsInPast(s.v, n, id, past)
  {
  }

  /** No accepted formula, however deep, reads the trade's state beneath an offset, a function over bars or `@`: the state
      exists one bar at a time. */
  lemma {:induction false} NoStateInThePast(s: Scope, n: Node, t: Option<Type>, c: Context, id: string)
    requires s.WellFormed() && s.v.State(id) && Typed(s, n, t, c)
    ensures NoPastRead(s, n, id, c)
    decreases n, 4
  {
    hide Typed;
    forall past | past ==> Barred(s, c, id) ensures !ReadsInPast(s.v, n, id, past) {
      NodeClean(s, n, t, c, id, past);
    }
  }

  lemma NodeClean(s: Scope, n: Node, t: Option<Type>, c: Context, id: string, past: bool)
    requires s.WellFormed() && s.v.State(id) && Typed(s, n, t, c) && (past ==> Barred(s, c, id))
    ensures !ReadsInPast(s.v, n, id, past)
    decreases n, 3
  {
    match n
    case Neg(x) => ChildClean(s, n, x, Number, c, id, past);
    case Not(x) => ChildClean(s, n, x, Condition, c, id, past);
    case Arith(_, x, y) =>
      ChildClean(s, n, x, Number, c, id, past);
      ChildClean(s, n, y, Number, c, id, past);
    case Compare(_, xs) =>
      forall x | x in xs ensures !ReadsInPast(s.v, x, id, past) { ChildClean(s, n, x, Number, c, id, past); }
    case Logic(_, xs) =>
      forall x | x in xs ensures !ReadsInPast(s.v, x, id, past) { ChildClean(s, n, x, Condition, c, id, past); }
    case IfElse(_, _, _) => ChoiceClean(s, n, t, c, id, past);
    case Lag(x, _) =>
      NoStateInThePast(s, x, t, c.OverBars(), id);
      assert !ReadsInPast(s.v, x, id, true);
    case At(x, context) =>
      NoStateInThePast(s, x, t, InnerContext(s, context, c), id);
      assert !ReadsInPast(s.v, x, id, true);
    case Field(x, _) => IndicatorClean(s, x, id, past);
    case Call(f, _, _) =>
      if f in s.v.functions {
        CallClean(s, n, t, c, id, past);
      } else {
        IndicatorClean(s, n, id, past);
      }
    case _ =>
  }

  lemma ChoiceClean(s: Scope, n: Node, t: Option<Type>, c: Context, id: string, past: bool)
    requires s.WellFormed() && s.v.State(id) && Typed(s, n, t, c) && (past ==> Barred(s, c, id)) && n.IfElse?
    ensures !ReadsInPast(s.v, n, id, past)
    decreases n, 2
  {
    ChildClean(s, n, n.condition, Condition, c, id, past);
    var a, b :| Typed(s, n.then_, a, c) && Typed(s, n.otherwise, b, c);
    hide Typed;
    NoStateInThePast(s, n.then_, a, c, id);
    NoStateInThePast(s, n.otherwise, b, c, id);
  }

  lemma CallClean(s: Scope, n: Node, t: Option<Type>, c: Context, id: string, past: bool)
    requires s.WellFormed() && s.v.State(id) && Typed(s, n, t, c) && (past ==> Barred(s, c, id))
    requires n.Call? && n.callee in s.v.functions
    ensures !ReadsInPast(s.v, n, id, past)
    decreases n, 2
  {
    assert n.kwargs == [];
    hide Typed;
    var inside := past || PastInside(s.v, n);
    forall i | 0 <= i < |n.args| ensures !ReadsInPast(s.v, n.args[i], id, inside) {
      ArgumentClean(s, n, t, c, id, past, i);
    }
    assert Children(n) == n.args;
  }

  lemma ArgumentClean(s: Scope, n: Node, t: Option<Type>, c: Context, id: string, past: bool, i: nat)
    requires s.WellFormed() && s.v.State(id) && Typed(s, n, t, c) && (past ==> Barred(s, c, id))
    requires n.Call? && n.callee in s.v.functions && i < |n.args|
    ensures !ReadsInPast(s.v, n.args[i], id, past || PastInside(s.v, n))
    decreases n, 1
  {
    var spec, inside := s.v.functions[n.callee], past || PastInside(s.v, n);
    assert ArgFits(s, KindOf(spec, i), n.args[i], ArgContext(s, n.callee, c));
    match KindOf(spec, i)
    case OfType(wanted) => ChildClean(s, n, n.args[i], wanted, ArgContext(s, n.callee, c), id, inside);
    case _ => PlainArgument(s, n.args[i], id, inside);
  }

  lemma ChildClean(s: Scope, n: Node, x: Node, wanted: Type, c: Context, id: string, past: bool)
    requires s.WellFormed() && s.v.State(id) && x < n && Fits(s, x, wanted, c)
    requires past ==> Barred(s, c, id)
    ensures !ReadsInPast(s.v, x, id, past)
    decreases n, 0
  {
    var t := FitsOne(s, x, wanted, c);
    NoStateInThePast(s, x, t, c, id);
    assert NoPastRead(s, x, id, c);
  }

  lemma IndicatorClean(s: Scope, n: Node, id: string, past: bool)
    requires n.Call? && n.callee in s.catalogue
    requires exists line :: IndicatorFits(s, n.callee, n.args, n.kwargs, line)
    ensures !ReadsInPast(s.v, n, id, past)
  {
    forall m | m in Children(n) && m < n ensures !ReadsInPast(s.v, m, id, past || PastInside(s.v, n)) {
      var i :| 0 <= i < |Children(n)| && Children(n)[i] == m;
      if i < |n.args| {
        assert n.args[i] == m;
      } else {
        assert n.kwargs[i - |n.args|].1 == m;
        var line :| IndicatorFits(s, n.callee, n.args, n.kwargs, line);
        assert KeywordLands(s, s.catalogue[n.callee], |n.args|, n.kwargs, i - |n.args|);
      }
    }
  }

  /** A `let` formula, computed once for the whole range, reads none of the trade's state anywhere. */
  lemma LetReadsNoState(s: Scope, n: Node, t: Option<Type>, id: string)
    requires s.WellFormed() && s.place == Let && s.v.State(id) && Typed(s, n, t, HERE)
    ensures !ReadsInPast(s.v, n, id, true)
  {
    NoStateInThePast(s, n, t, HERE, id);
  }

  /** Nothing accepted outside the exits reads the open position, anywhere: before an entry there is none. */
  lemma NoPositionOutsideExits(s: Scope, n: Node, t: Option<Type>, c: Context, id: string)
    requires s.WellFormed() && s.place != Exit && id in s.v.position && Typed(s, n, t, c)
    ensures !ReadsInPast(s.v, n, id, true)
  {
    NoStateInThePast(s, n, t, c, id);
  }

  // ---- through the variables -------------------------------------------------------------------------------------

  /** The same, following a `let` variable into its formula up to `depth` times. */
  ghost predicate ReadsThrough(v: Vocabulary, lets: map<string, Node>, n: Node, id: string, past: bool, depth: nat)
    decreases depth, n
  {
    if n.Name? then
      (past && n.id == id) || (depth > 0 && n.id in lets && ReadsThrough(v, lets, lets[n.id], id, past, depth - 1))
    else
      exists m :: m in Children(n) && m < n && ReadsThrough(v, lets, m, id, past || PastInside(v, n), depth)
  }

  lemma {:induction false} ReadingLessIsFine(v: Vocabulary, n: Node, id: string)
    requires !ReadsInPast(v, n, id, true)
    ensures !ReadsInPast(v, n, id, false)
    decreases n
  {
    if !n.Name? {
      forall m | m in Children(n) && m < n ensures !ReadsInPast(v, m, id, PastInside(v, n)) {
        assert !ReadsInPast(v, m, id, true || PastInside(v, n));
        ReadingLessIsFine(v, m, id);
      }
    }
  }

  lemma {:induction false} VariablesHideNothing(v: Vocabulary, lets: map<string, Node>, n: Node, id: string, past: bool,
                                                depth: nat)
    requires !ReadsInPast(v, n, id, past)
    requires forall x :: x in lets ==> !ReadsInPast(v, lets[x], id, true)
    ensures !ReadsThrough(v, lets, n, id, past, depth)
    decreases depth, n
  {
    if n.Name? {
      if depth > 0 && n.id in lets {
        ReadingLessIsFine(v, lets[n.id], id);
        VariablesHideNothing(v, lets, lets[n.id], id, past, depth - 1);
      }
    } else {
      forall m | m in Children(n) && m < n ensures !ReadsThrough(v, lets, m, id, past || PastInside(v, n), depth) {
        VariablesHideNothing(v, lets, m, id, past || PastInside(v, n), depth);
      }
    }
  }

  /** In an accepted document — every variable accepted as a `let`, this formula accepted where it stands — no chain of
      variables reads the trade's state in the past either. */
  lemma DocumentReadsNoPastState(s: Scope, lets: map<string, Node>, n: Node, t: Option<Type>, id: string, depth: nat)
    requires s.WellFormed() && s.v.State(id) && Typed(s, n, t, HERE)
    requires forall x :: x in lets ==> exists u :: Typed(s.(place := Let), lets[x], u, HERE)
    ensures !ReadsThrough(s.v, lets, n, id, false, depth)
  {
    NoStateInThePast(s, n, t, HERE, id);
    forall x | x in lets ensures !ReadsInPast(s.v, lets[x], id, true) {
      var u :| Typed(s.(place := Let), lets[x], u, HERE);
      LetReadsNoState(s.(place := Let), lets[x], u, id);
    }
    VariablesHideNothing(s.v, lets, n, id, false, depth);
  }

  // ---- chains of `@` ---------------------------------------------------------------------------------------------

  /** The instrument and resolution a value is read in. */
  datatype Reading = Reading(symbol: string, resolution: string)

  function InnerReading(v: Vocabulary, r: Reading, name: string): Reading {
    if name in v.resolutions then r.(resolution := name) else r.(symbol := name)
  }

  /** A chain of `@` as one: what is read, and in which reading. */
  function ThroughAt(v: Vocabulary, n: Node, r: Reading): (through: (Node, Reading))
    ensures !through.0.At? && (if n.At? then through.0 < n else through.0 == n)
  {
    if n.At? then ThroughAt(v, n.value, InnerReading(v, r, n.context)) else (n, r)
  }

  method UnrollAt(v: Vocabulary, n: Node, r: Reading) returns (current: Node, reading: Reading)
    ensures (current, reading) == ThroughAt(v, n, r)
  {
    current, reading := n, r;
    while current.At?
      invariant ThroughAt(v, current, reading) == ThroughAt(v, n, r)
      decreases current
    {
      reading := InnerReading(v, reading, current.context);
      current := current.value;
    }
  }

  /** What the checker's context reads, for a strategy trading `traded`. */
  function ReadingOf(c: Context, traded: Reading): Reading {
    Reading(if c.symbol.Some? then c.symbol.value else traded.symbol,
            if c.resolution.Some? then c.resolution.value else traded.resolution)
  }

  /** The engine's unrolled chain reads an accepted formula exactly where the checker took it to be read. */
  lemma {:induction false} ThroughAtAgrees(s: Scope, n: Node, t: Option<Type>, c: Context, traded: Reading)
    returns (inner: Context)
    requires s.WellFormed() && Typed(s, n, t, c)
    ensures
      var (m, r) := ThroughAt(s.v, n, ReadingOf(c, traded));
      && !m.At? && Typed(s, m, t, inner) && r == ReadingOf(inner, traded)
      && (c.symbol.Some? ==> inner.symbol == c.symbol) && (c.resolution.Some? ==> inner.resolution == c.resolution)
    decreases n
  {
    if n.At? {
      inner := ThroughAtAgrees(s, n.value, t, InnerContext(s, n.context, c), traded);
    } else {
      inner := c;
    }
  }

  /** Which of an instrument and a resolution is named first makes no difference. */
  lemma AtCommutes(s: Scope, x: Node, a: string, b: string, t: Option<Type>, c: Context, r: Reading)
    requires s.WellFormed() && Typed(s, At(At(x, a), b), t, c)
    ensures Typed(s, At(At(x, b), a), t, c)
    ensures ThroughAt(s.v, At(At(x, a), b), r) == ThroughAt(s.v, At(At(x, b), a), r)
  {
    var inner := InnerContext(s, b, c);
    assert Typed(s, At(x, a), t, inner);
    assert Typed(s, x, t, InnerContext(s, a, inner));
    assert InnerContext(s, a, inner) == InnerContext(s, b, InnerContext(s, a, c));
    assert Typed(s, At(x, b), t, InnerContext(s, a, c));
    assert ThroughAt(s.v, At(At(x, a), b), r) == ThroughAt(s.v, At(x, a), InnerReading(s.v, r, b));
    assert ThroughAt(s.v, At(At(x, b), a), r) == ThroughAt(s.v, At(x, b), InnerReading(s.v, r, a));
  }
}
