/**
 Formulas turned into values. A formula that reads no trade state is computed for its whole axis at once, in another series
 where it says so; one that does is worked out bar by bar. Whatever the checker accepts has a value of its type on every bar,
 and no bar's value depends on anything that was not known by then.
 */
module Evaluation {
  import opened Wrappers
  import opened Language
  import opened Columns

  // ---- what there is to compute from -----------------------------------------------------------------------------

  /** A series: when each bar starts, when its values were known, and the values. */
  datatype Series = Series(starts: seq<int>, available: seq<int>, columns: map<string, seq<Float>>)

  /** One line of one indicator, drawn with these parameters over one series. */
  datatype Key = Key(reading: Reading, id: string, params: map<string, real>, line: string)

  datatype Clock = Hour | Minute | Weekday

  /** What a function's name stands for. */
  datatype Shape =
    | Rolling(how: Reducer) | Crossing(up: bool) | Stepping(up: bool) | BarsSince | ValueWhen | ExtremeSince(highest: bool)
    | AbsoluteOf | ExtremeOf(least: bool) | SessionBar | SessionClose | Stale | AtEntry

  function Signature(shape: Shape): (f: Function)
    ensures 1 <= |f.args| <= 2
  {
    match shape
    case Rolling(_) => Function([OfType(Number), Window], Number, false, None)
    case Crossing(_) => Function([OfType(Number), OfType(Number)], Condition, false, None)
    case Stepping(_) => Function([OfType(Number), Window], Condition, false, None)
    case BarsSince => Function([OfType(Condition)], Number, false, None)
    case ValueWhen => Function([OfType(Condition), OfType(Number)], Number, false, None)
    case ExtremeSince(_) => Function([OfType(Condition), OfType(Number)], Number, false, None)
    case AbsoluteOf => Function([OfType(Number)], Number, false, None)
    case ExtremeOf(_) => Function([OfType(Number), OfType(Number)], Number, true, None)
    case SessionBar => Function([Session], Number, false, None)
    case SessionClose => Function([Session], Number, false, None)
    case Stale => Function([OfType(Number)], Condition, false, None)
    case AtEntry => Function([OfType(Number)], Number, false, Some({Exit}))
  }

  /** Everything a run reads: the series, the indicators' lines, the parameters' values, and what the names mean. */
  datatype Market = Market(
    series: map<Reading, Series>, indicators: Key -> seq<Float>, params: map<string, real>, decision: Reading,
    shapes: map<string, Shape>, clocks: map<string, Clock>, constants: map<string, real>,
    sessionBar: (string, int, string) -> Float, sessionClose: (string, int) -> Float, period: string -> int)

  predicate Rising(times: seq<int>) { forall i, j :: 0 <= i < j < |times| ==> times[i] <= times[j] }

  /** How many of them have come by `moment`. */
  function Come(times: seq<int>, moment: int): (n: nat)
    ensures n <= |times|
    ensures Rising(times) ==> forall i :: 0 <= i < n ==> times[i] <= moment
    ensures Rising(times) ==> forall i :: n <= i < |times| ==> times[i] > moment
  {
    if times == [] || times[|times| - 1] <= moment then |times| else Come(times[..|times| - 1], moment)
  }

  // ---- names, windows, indicators --------------------------------------------------------------------------------

  function ClockAt(clock: Clock, start: int): Float {
    match clock
    case Hour => Some((start / 3600 % 24) as real)
    case Minute => Some((start / 60 % 60) as real)
    case Weekday => Some(((start / 86400 + 3) % 7) as real)
  }

  /** A name of the series', of its clock's, or a constant's. */
  function Own(m: Market, id: string, r: Reading): Option<Column>
    requires r in m.series
  {
    var x := m.series[r];
    if id in x.columns then Some(Numbers(x.columns[id]))
    else if id in m.clocks then
      Some(Numbers(seq(|x.starts|, i requires 0 <= i < |x.starts| => ClockAt(m.clocks[id], x.starts[i]))))
    else if id in m.constants then Some(Numbers(Full(|x.starts|, Some(m.constants[id]))))
    else None
  }

  function Truncated(x: real): int { if x >= 0.0 then x.Floor else -((-x).Floor) }

  function BarsOf(params: map<string, real>, bars: Bars): Option<int> {
    match bars
    case Count(n) => Some(n)
    case FromParam(name) => if name in params then Some(Truncated(params[name])) else None
  }

  function WindowOf(params: map<string, real>, arg: Node): Option<int> {
    match arg
    case Num(value) => Some(Truncated(value))
    case Param(name) => BarsOf(params, FromParam(name))
    case _ => None
  }

  function ArgValue(params: map<string, real>, arg: Node): Option<real> {
    match arg
    case Num(value) => Some(value)
    case Param(name) => if name in params then Some(params[name]) else None
    case _ => None
  }

  function Defaults(params: seq<IndicatorParam>): map<string, real> {
    if params == [] then map[]
    else Defaults(params[..|params| - 1])[params[|params| - 1].name := params[|params| - 1].default]
  }

  function ByName(kwargs: seq<(string, Node)>): map<string, Node> {
    if kwargs == [] then map[] else ByName(kwargs[..|kwargs| - 1])[kwargs[|kwargs| - 1].0 := kwargs[|kwargs| - 1].1]
  }

  function InOrder(params: seq<IndicatorParam>, args: seq<Node>, n: nat): map<string, Node>
    requires n <= |params| && n <= |args|
  {
    if n == 0 then map[] else InOrder(params, args, n - 1)[params[n - 1].name := args[n - 1]]
  }

  /** What is asked of the archive for a call of an indicator, if it can be. */
  function KeyOf(params: map<string, real>, catalogue: map<string, Indicator>, f: string, args: seq<Node>,
                 kwargs: seq<(string, Node)>, line: Option<string>, r: Reading): Option<Key>
  {
    if f !in catalogue then None
    else
      var entry := catalogue[f];
      var given := ByName(kwargs) + InOrder(entry.params, args, if |args| < |entry.params| then |args| else |entry.params|);
      var defaults := Defaults(entry.params);
      if (exists name :: name in given && ArgValue(params, given[name]).None?) || (line.None? && entry.lines == []) then None
      else
        Some(Key(r, f, map name | name in defaults.Keys + given.Keys ::
                         if name in given then ArgValue(params, given[name]).value else defaults[name],
                 if line.Some? then line.value else entry.lines[0]))
  }

  function Drawn(m: Market, catalogue: map<string, Indicator>, call: Node, line: Option<string>, r: Reading): Option<Column> {
    if !call.Call? then None
    else
      var key := KeyOf(m.params, catalogue, call.callee, call.args, call.kwargs, line, r);
      if key.Some? then Some(Numbers(m.indicators(key.value))) else None
  }

  // ---- another series --------------------------------------------------------------------------------------------

  /** The series read under the `@`s in a formula standing in `r`. */
  function ReadUnderAt(v: Vocabulary, n: Node, r: Reading): set<Reading>
    decreases n
  {
    if n.At? then
      var (x, inner) := ThroughAt(v, n, r);
      {inner} + ReadUnderAt(v, x, inner)
    else
      set i, q | 0 <= i < |Children(n)| && q in ReadUnderAt(v, Children(n)[i], r) :: q
  }

  /** For each moment, the last bar known by then, or -1. */
  function Aligned(available: seq<int>, moments: seq<int>): seq<int> {
    seq(|moments|, i requires 0 <= i < |moments| => Come(available, moments[i]) - 1)
  }

  /** Nothing of that series is known yet, or the last that is came more than a period ago. */
  predicate IsOld(m: Market, q: Reading, moment: int)
    requires q in m.series
  {
    var n := Come(m.series[q].available, moment);
    n == 0 || moment - m.series[q].available[n - 1] > m.period(q.resolution)
  }

  function StaleOf(m: Market, v: Vocabulary, n: Node, r: Reading): Option<Column>
    requires r in m.series
  {
    var under, moments := ReadUnderAt(v, n, r), m.series[r].available;
    if under <= m.series.Keys then
      Some(Truths(seq(|moments|, i requires 0 <= i < |moments| => exists q :: q in under && IsOld(m, q, moments[i]))))
    else None
  }

  /** A session's clock, by the bars' starts or by the moments they were known. */
  function SessionOf(m: Market, v: Vocabulary, arg: Node, bar: bool, r: Reading): Option<Column>
    requires r in m.series
  {
    if !arg.Name? || arg.id !in v.sessions then None
    else if bar then Some(Numbers(BarNumbers(m, arg.id, m.series[r].starts, r.resolution)))
    else Some(Numbers(MinutesLeft(m, arg.id, m.series[r].available)))
  }

  function BarNumbers(m: Market, session: string, starts: seq<int>, resolution: string): (x: seq<Float>)
    ensures |x| == |starts| && forall i :: 0 <= i < |x| ==> x[i] == m.sessionBar(session, starts[i], resolution)
  {
    if starts == [] then []
    else BarNumbers(m, session, starts[..|starts| - 1], resolution) + [m.sessionBar(session, starts[|starts| - 1], resolution)]
  }

  function MinutesLeft(m: Market, session: string, moments: seq<int>): (x: seq<Float>)
    ensures |x| == |moments| && forall i :: 0 <= i < |x| ==> x[i] == m.sessionClose(session, moments[i])
  {
    if moments == [] then []
    else MinutesLeft(m, session, moments[..|moments| - 1]) + [m.sessionClose(session, moments[|moments| - 1])]
  }

  /** A function of the language, given its arguments and, of those that are series, their columns. */
  function Applied(m: Market, v: Vocabulary, shape: Shape, args: seq<Node>, columns: seq<Option<Column>>, r: Reading)
    : Option<Column>
    requires |columns| == |args| && r in m.series
  {
    if |args| < |Signature(shape).args| then None
    else
      match shape
      case AbsoluteOf => Absolute(columns[0])
      case ExtremeOf(least) => Extreme(least, columns)
      case BarsSince => SinceTrue(columns[0])
      case Stale => StaleOf(m, v, args[0], r)
      case SessionBar => SessionOf(m, v, args[0], true, r)
      case SessionClose => SessionOf(m, v, args[0], false, r)
      case AtEntry => None
      case Rolling(how) => Rolled(how, columns[0], WindowOf(m.params, args[1]))
      case Stepping(up) => Stepped(up, columns[0], WindowOf(m.params, args[1]))
      case Crossing(up) => Crossed(up, columns[0], columns[1])
      case ValueWhen => ValuedWhen(columns[0], columns[1])
      case ExtremeSince(highest) => Since(highest, columns[0], columns[1])
  }

  // ---- phase one: whole axes -------------------------------------------------------------------------------------

  function LetAt(lets: seq<(string, Node)>, id: string): (k: Option<nat>)
    ensures k.Some? ==> k.value < |lets| && lets[k.value].0 == id
  {
    if lets == [] then None
    else if lets[|lets| - 1].0 == id then Some(|lets| - 1)
    else LetAt(lets[..|lets| - 1], id)
  }

  /** `n` on the axis of `r`, or nothing where it cannot be had. A variable is read on the axis of decisions, and names only
      those before it. */
  function Vector(m: Market, v: Vocabulary, catalogue: map<string, Indicator>, lets: seq<(string, Node)>, n: Node, r: Reading)
    : Option<Column>
    decreases |lets|, n
  {
    if r !in m.series then None
    else
      var size := |m.series[r].starts|;
      match n
      case Num(x) => Some(Numbers(Full(size, Some(x))))
      case Bool(b) => Some(Truths(Full(size, b)))
      case Param(name) => if name in m.params then Some(Numbers(Full(size, Some(m.params[name])))) else None
      case Name(id) =>
        if Own(m, id, r).Some? then Own(m, id, r)
        else
          var k := LetAt(lets, id);
          if k.None? then None else Vector(m, v, catalogue, lets[..k.value], lets[k.value].1, m.decision)
      case Neg(x) => Negated(Vector(m, v, catalogue, lets, x, r))
      case Arith(op, x, y) => Calculated(op, Vector(m, v, catalogue, lets, x, r), Vector(m, v, catalogue, lets, y, r))
      case Compare(ops, xs) =>
        Compared(ops, seq(|xs|, i requires 0 <= i < |xs| => Vector(m, v, catalogue, lets, xs[i], r)), size)
      case Logic(joint, xs) =>
        Joined(joint, seq(|xs|, i requires 0 <= i < |xs| => Vector(m, v, catalogue, lets, xs[i], r)), size)
      case Not(x) => Inverted(Vector(m, v, catalogue, lets, x, r))
      case IfElse(test, x, y) =>
        Chosen(Vector(m, v, catalogue, lets, test, r), Vector(m, v, catalogue, lets, x, r), Vector(m, v, catalogue, lets, y, r))
      case Lag(x, bars) => Shifted(Vector(m, v, catalogue, lets, x, r), BarsOf(m.params, bars))
      case At(_, _) =>
        var (x, inner) := ThroughAt(v, n, r);
        if inner !in m.series then None
        else Picked(Vector(m, v, catalogue, lets, x, inner), Aligned(m.series[inner].available, m.series[r].available))
      case Field(x, line) => Drawn(m, catalogue, x, Some(line), r)
      case Call(f, args, _) =>
        if f !in v.functions then Drawn(m, catalogue, n, None, r)
        else if f !in m.shapes then None
        else
          Applied(m, v, m.shapes[f], args,
                  seq(|args|, i requires 0 <= i < |args| => Vector(m, v, catalogue, lets, args[i], r)), r)
  }

  // ---- phase two: one bar, with the trade's state ----------------------------------------------------------------

  /** Whether the formula reads the trade's state anywhere. */
  predicate Stateful(v: Vocabulary, n: Node)
    decreases n
  {
    || (n.Name? && v.State(n.id)) || (n.Call? && n.callee == "at_entry")
    || exists i :: 0 <= i < |Children(n)| && Stateful(v, Children(n)[i])
  }

  /** A value on one bar. */
  datatype Cell = N(x: Float) | C(b: bool) {
    function Kind(): Type { if N? then Number else Condition }
  }

  /** The trade as the engine knows it on one bar: the values its names have, and the bar it was entered on, or -1. */
  datatype Trade = Trade(names: map<string, Float>, entryBar: int)

  function CellAt(a: Option<Column>, bar: int): Option<Cell> {
    if a.None? || bar < 0 || bar >= a.value.Length() then None
    else if a.value.Numbers? then Some(N(a.value.x[bar]))
    else Some(C(a.value.b[bar]))
  }

  predicate AllCells(cells: seq<Option<Cell>>, t: Type) {
    forall j :: 0 <= j < |cells| ==> cells[j].Some? && cells[j].value.Kind() == t
  }

  predicate CellChain(ops: seq<Comparison>, cells: seq<Option<Cell>>)
    requires AllCells(cells, Number)
  {
    forall j :: 0 <= j < |ops| && j + 1 < |cells| ==> Holds(ops[j], cells[j].value.x, cells[j + 1].value.x)
  }

  predicate CellJoin(joint: Joint, cells: seq<Option<Cell>>)
    requires AllCells(cells, Condition)
  {
    if joint == And then forall j :: 0 <= j < |cells| ==> cells[j].value.b
    else exists j :: 0 <= j < |cells| && cells[j].value.b
  }

  function BestCell(least: bool, cells: seq<Option<Cell>>): Float
    requires cells != [] && AllCells(cells, Number)
  {
    if |cells| == 1 then cells[0].value.x
    else Better(least, BestCell(least, cells[..|cells| - 1]), cells[|cells| - 1].value.x)
  }

  /** `n` on one bar of decisions, or nothing where it cannot be had. What reads no state is read from phase one. */
  function OnBar(m: Market, v: Vocabulary, catalogue: map<string, Indicator>, lets: seq<(string, Node)>, n: Node, bar: nat,
              trade: Trade): Option<Cell>
    decreases n
  {
    if !Stateful(v, n) then CellAt(Vector(m, v, catalogue, lets, n, m.decision), bar)
    else
      match n
      case Name(id) => if id in trade.names then Some(N(trade.names[id])) else None
      case Neg(x) =>
        var a := OnBar(m, v, catalogue, lets, x, bar, trade);
        if a.Some? && a.value.N? then Some(N(Calculate(Minus, Some(0.0), a.value.x))) else None
      case Arith(op, x, y) =>
        var a, b := OnBar(m, v, catalogue, lets, x, bar, trade), OnBar(m, v, catalogue, lets, y, bar, trade);
        if a.Some? && b.Some? && a.value.N? && b.value.N? then Some(N(Calculate(op, a.value.x, b.value.x))) else None
      case Compare(ops, xs) =>
        var cells := seq(|xs|, i requires 0 <= i < |xs| => OnBar(m, v, catalogue, lets, xs[i], bar, trade));
        if AllCells(cells, Number) then Some(C(CellChain(ops, cells))) else None
      case Logic(joint, xs) =>
        var cells := seq(|xs|, i requires 0 <= i < |xs| => OnBar(m, v, catalogue, lets, xs[i], bar, trade));
        if AllCells(cells, Condition) then Some(C(CellJoin(joint, cells))) else None
      case Not(x) =>
        var a := OnBar(m, v, catalogue, lets, x, bar, trade);
        if a.Some? && a.value.C? then Some(C(!a.value.b)) else None
      case IfElse(test, x, y) =>
        var a := OnBar(m, v, catalogue, lets, test, bar, trade);
        if a.None? || a.value.N? then None
        else if a.value.b then OnBar(m, v, catalogue, lets, x, bar, trade)
        else OnBar(m, v, catalogue, lets, y, bar, trade)
      case Call(f, args, _) =>
        if f !in m.shapes || args == [] then None
        else if m.shapes[f].AtEntry? then
          if trade.entryBar < 0 then Some(N(None))
          else CellAt(Vector(m, v, catalogue, lets, args[0], m.decision), trade.entryBar)
        else
          var cells := seq(|args|, i requires 0 <= i < |args| => OnBar(m, v, catalogue, lets, args[i], bar, trade));
          if !AllCells(cells, Number) then None
          else if m.shapes[f].AbsoluteOf? then Some(N(Magnitude(cells[0].value.x)))
          else if m.shapes[f].ExtremeOf? then Some(N(BestCell(m.shapes[f].least, cells)))
          else None
      case _ => None
  }
}
