/**
 The checker lets nothing through that cannot be computed: an accepted formula has, on every axis it is read on, a column of
 its type, with a value for every bar. And no value looks ahead: what a run knew by a moment is all that its values up to that
 moment depend on.
 */
module Soundness {
  import opened Wrappers
  import opened Language
  import opened Columns
  import opened Evaluation

  // ---- a run's inputs --------------------------------------------------------------------------------------------

  /** The tables hold the language's names, and each function is what its name stands for. */
  ghost predicate Implements(m: Market, v: Vocabulary) {
    && "at_entry" in m.shapes && v.functions.Keys == m.shapes.Keys && v.time == m.clocks.Keys && v.constants == m.constants.Keys
    && forall f :: f in m.shapes ==>
         && v.functions[f] == Signature(m.shapes[f]) && (f == "at_entry" <==> m.shapes[f].AtEntry?)
         && (f in v.perBar <==> m.shapes[f].AbsoluteOf? || m.shapes[f].ExtremeOf?)
  }

  ghost predicate WholeSeries(x: Series, v: Vocabulary) {
    && |x.available| == |x.starts| && Rising(x.available) && x.columns.Keys == v.series
    && forall id :: id in x.columns ==> |x.columns[id]| == |x.starts|
  }

  /** Every series has all its columns, and every indicator a value for each of its series' bars. */
  ghost predicate WholeMarket(m: Market, v: Vocabulary) {
    && (forall r :: r in m.series ==> WholeSeries(m.series[r], v))
    && forall key: Key :: key.reading in m.series ==> |m.indicators(key)| == |m.series[key.reading].starts|
  }

  /** Every declared parameter has a value within its bounds. */
  ghost predicate ParamsFit(s: Scope, params: map<string, real>) {
    forall p :: p in s.params ==> p in params && s.params[p].min <= params[p] <= s.params[p].max
  }

  /** Every indicator that draws lines draws one at least. */
  ghost predicate LinesDrawn(catalogue: map<string, Indicator>) {
    forall f :: f in catalogue && catalogue[f].drawsLines ==> catalogue[f].lines != []
  }

  function LetTypes(lets: seq<(string, Node)>, types: seq<Type>): map<string, Type>
    requires |types| == |lets|
  {
    if lets == [] then map[]
    else LetTypes(lets[..|lets| - 1], types[..|lets| - 1])[lets[|lets| - 1].0 := types[|lets| - 1]]
  }

  /** The scope the `k`-th variable is checked in: those before it. */
  function LetScope(s: Scope, lets: seq<(string, Node)>, types: seq<Type>, k: nat): Scope
    requires |types| == |lets| && k <= |lets|
  {
    s.(place := Let, lets := LetTypes(lets[..k], types[..k]), untyped := {})
  }

  /** The variables, in the order they are put in, were each accepted with this type. */
  ghost predicate LetsAccepted(s: Scope, lets: seq<(string, Node)>, types: seq<Type>)
    requires s.WellFormed() && |types| == |lets|
  {
    forall k :: 0 <= k < |lets| ==> Typed(LetScope(s, lets, types, k), lets[k].1, Some(types[k]), HERE)
  }

  /** The series a document reads have been read. */
  ghost predicate Served(m: Market, v: Vocabulary, lets: seq<(string, Node)>) {
    m.decision in m.series && forall k :: 0 <= k < |lets| ==> ReadUnderAt(v, lets[k].1, m.decision) <= m.series.Keys
  }

  /** An accepted document and all it is run with. */
  ghost predicate Ready(m: Market, s: Scope, lets: seq<(string, Node)>, types: seq<Type>) {
    && s.WellFormed() && Implements(m, s.v) && WholeMarket(m, s.v) && ParamsFit(s, m.params) && LinesDrawn(s.catalogue)
    && |types| == |lets| && LetsAccepted(s, lets, types) && Served(m, s.v, lets)
    && s.lets == LetTypes(lets, types) && s.untyped == {}
  }

  // ---- the same run, cut short -----------------------------------------------------------------------------------

  function First<T>(x: seq<T>, k: nat): seq<T> { if k <= |x| then x[..k] else x }

  /** How many bars of the series were known by `until`. */
  function Known(m: Market, r: Reading, until: int): nat
    requires r in m.series
  {
    Come(m.series[r].available, until)
  }

  function CutSeries(x: Series, k: nat): Series {
    Series(First(x.starts, k), First(x.available, k), map id | id in x.columns :: First(x.columns[id], k))
  }

  /** What was known by `until`. The archive's indicators are taken not to look ahead. */
  function Cut(m: Market, until: int): Market {
    m.(series := map r | r in m.series :: CutSeries(m.series[r], Known(m, r, until)),
       indicators := (key: Key) => if key.reading in m.series then First(m.indicators(key), Known(m, key.reading, until)) else [])
  }

  function Size(m: Market, r: Reading): nat
    requires r in m.series
  {
    |m.series[r].starts|
  }

  /** On the axis of `r` the formula has a column of this type with a value for every bar, and the run that stops at `until`
      has the same values for the bars it has. */
  ghost predicate Means(m: Market, s: Scope, lets: seq<(string, Node)>, n: Node, r: Reading, t: Type, until: int) {
    && r in m.series
    && Agrees(Vector(m, s.v, s.catalogue, lets, n, r), Vector(Cut(m, until), s.v, s.catalogue, lets, n, r), t,
              Size(m, r), Known(m, r, until))
  }

  lemma CutHas(m: Market, v: Vocabulary, r: Reading, until: int)
    requires WholeMarket(m, v) && r in m.series
    ensures r in Cut(m, until).series && Size(Cut(m, until), r) == Known(m, r, until) <= Size(m, r)
    ensures Cut(m, until).series[r].starts == m.series[r].starts[..Known(m, r, until)]
    ensures Cut(m, until).series[r].available == m.series[r].available[..Known(m, r, until)]
  {
    assert WholeSeries(m.series[r], v);
  }

  /** What the run cut short has in common with the whole one. */
  lemma CutKeeps(m: Market, v: Vocabulary, r: Reading, until: int)
    requires WholeMarket(m, v) && r in m.series
    ensures r in Cut(m, until).series && |Cut(m, until).series[r].starts| == Known(m, r, until) <= Size(m, r)
    ensures Cut(m, until).series.Keys == m.series.Keys && Cut(m, until).params == m.params
    ensures Cut(m, until).shapes == m.shapes && Cut(m, until).decision == m.decision
  {
    CutHas(m, v, r, until);
    hide CutSeries;
  }

  // ---- the leaves ------------------------------------------------------------------------------------------------

  lemma OwnAgrees(m: Market, s: Scope, id: string, r: Reading, until: int)
    requires WholeMarket(m, s.v) && Implements(m, s.v) && r in m.series
    requires id in s.v.series || id in s.v.time || id in s.v.constants
    ensures r in Cut(m, until).series
    ensures Agrees(Own(m, id, r), Own(Cut(m, until), id, r), Number, Size(m, r), Known(m, r, until))
  {
    CutHas(m, s.v, r, until);
    assert WholeSeries(m.series[r], s.v);
    assert Cut(m, until).series[r].columns.Keys == m.series[r].columns.Keys;
    if id in m.series[r].columns {
      CutColumn(m, s.v, id, r, until);
    }
    hide Cut, WholeMarket, WholeSeries, Rising, Come;
    OwnFirst(m, Cut(m, until), id, r, Known(m, r, until));
    hide Own, Agrees;
  }

  lemma OwnFirst(m: Market, early: Market, id: string, r: Reading, k: nat)
    requires r in m.series && r in early.series && early.clocks == m.clocks && early.constants == m.constants
    requires k <= Size(m, r) && early.series[r].starts == m.series[r].starts[..k]
    requires id in early.series[r].columns <==> id in m.series[r].columns
    requires id in m.series[r].columns ==>
      |m.series[r].columns[id]| == Size(m, r) && early.series[r].columns[id] == m.series[r].columns[id][..k]
    requires id in m.series[r].columns || id in m.clocks || id in m.constants
    ensures Agrees(Own(m, id, r), Own(early, id, r), Number, Size(m, r), k)
  {
    hide ClockAt;
  }

  lemma CutColumn(m: Market, v: Vocabulary, id: string, r: Reading, until: int)
    requires WholeMarket(m, v) && r in m.series && id in m.series[r].columns && r in Cut(m, until).series
    ensures id in Cut(m, until).series[r].columns
    ensures Cut(m, until).series[r].columns[id] == m.series[r].columns[id][..Known(m, r, until)]
    ensures |m.series[r].columns[id]| == Size(m, r)
  {
    assert WholeSeries(m.series[r], v);
  }

  lemma {:induction false} LetFound(lets: seq<(string, Node)>, types: seq<Type>, id: string)
    requires |types| == |lets|
    ensures id in LetTypes(lets, types) <==> LetAt(lets, id).Some?
    ensures id in LetTypes(lets, types) ==> LetTypes(lets, types)[id] == types[LetAt(lets, id).value]
  {
    if lets != [] {
      LetFound(lets[..|lets| - 1], types[..|lets| - 1], id);
    }
  }

  // ---- what is asked of the archive ------------------------------------------------------------------------------

  /** Parameters declared whole have been given whole values. */
  ghost predicate WholeParams(s: Scope, params: map<string, real>) {
    forall p :: p in s.params && p in params && s.params[p].Integer() ==> IsInteger(params[p])
  }

  lemma {:induction false} ByNameHas(kwargs: seq<(string, Node)>, name: string)
    requires name in ByName(kwargs)
    ensures exists k :: 0 <= k < |kwargs| && kwargs[k] == (name, ByName(kwargs)[name])
  {
    var last := kwargs[|kwargs| - 1];
    if last.0 != name {
      ByNameHas(kwargs[..|kwargs| - 1], name);
      var k :| 0 <= k < |kwargs| - 1 && kwargs[..|kwargs| - 1][k] == (name, ByName(kwargs)[name]);
      assert kwargs[k] == (name, ByName(kwargs)[name]);
    } else {
      assert kwargs[|kwargs| - 1] == (name, ByName(kwargs)[name]);
    }
  }

  lemma {:induction false} InOrderHas(params: seq<IndicatorParam>, args: seq<Node>, n: nat, name: string)
    requires n <= |params| && n <= |args|
    ensures name in InOrder(params, args, n) ==>
      exists i :: 0 <= i < n && params[i].name == name && InOrder(params, args, n)[name] == args[i]
    ensures (exists i :: 0 <= i < n && params[i].name == name) ==> name in InOrder(params, args, n)
  {
    if n > 0 {
      InOrderHas(params, args, n - 1, name);
    }
  }

  lemma {:induction false} DefaultsHas(params: seq<IndicatorParam>, name: string)
    ensures name in Defaults(params) <==> HasParam(params, name)
    ensures name in Defaults(params) ==>
      exists i :: 0 <= i < |params| && params[i].name == name && Defaults(params)[name] == params[i].default
  {
    if params != [] {
      var most := params[..|params| - 1];
      DefaultsHas(most, name);
      if HasParam(most, name) {
        var i :| 0 <= i < |most| && most[i].name == name;
        assert params[i].name == name;
      }
      if HasParam(params, name) && params[|params| - 1].name != name {
        var i :| 0 <= i < |params| && params[i].name == name;
        assert most[i].name == name;
      }
    }
  }

  function Given(entry: Indicator, args: seq<Node>, kwargs: seq<(string, Node)>): map<string, Node> {
    ByName(kwargs) + InOrder(entry.params, args, if |args| < |entry.params| then |args| else |entry.params|)
  }

  /** What an accepted call gives a parameter fits it. */
  lemma GivenFits(s: Scope, f: string, args: seq<Node>, kwargs: seq<(string, Node)>, line: Option<string>, name: string)
    returns (i: nat)
    requires s.WellFormed() && f in s.catalogue && IndicatorFits(s, f, args, kwargs, line)
    requires name in Given(s.catalogue[f], args, kwargs)
    ensures i < |s.catalogue[f].params| && s.catalogue[f].params[i].name == name
    ensures IndicatorParamFits(s, s.catalogue[f].params[i], Given(s.catalogue[f], args, kwargs)[name])
  {
    var entry := s.catalogue[f];
    InOrderHas(entry.params, args, |args|, name);
    if name in InOrder(entry.params, args, |args|) {
      i :| 0 <= i < |args| && entry.params[i].name == name && InOrder(entry.params, args, |args|)[name] == args[i];
    } else {
      ByNameHas(kwargs, name);
      var k :| 0 <= k < |kwargs| && kwargs[k] == (name, ByName(kwargs)[name]);
      assert KeywordLands(s, entry, |args|, kwargs, k);
      i :| 0 <= i < |entry.params| && entry.params[i].name == name && IndicatorParamFits(s, entry.params[i], kwargs[k].1);
    }
  }

  lemma ValueFits(s: Scope, params: map<string, real>, p: IndicatorParam, arg: Node)
    requires ParamsFit(s, params) && IndicatorParamFits(s, p, arg)
    ensures ArgValue(params, arg).Some? && p.min <= ArgValue(params, arg).value <= p.max
    ensures WholeParams(s, params) && p.integer ==> IsInteger(ArgValue(params, arg).value)
  {
  }

  /** An indicator's own defaults are within its bounds. */
  ghost predicate DefaultsFit(entry: Indicator) {
    forall i :: 0 <= i < |entry.params| ==>
      && entry.params[i].min <= entry.params[i].default <= entry.params[i].max
      && (entry.params[i].integer ==> IsInteger(entry.params[i].default))
  }

  lemma KeyIsThere(s: Scope, params: map<string, real>, f: string, args: seq<Node>, kwargs: seq<(string, Node)>,
                   line: Option<string>, r: Reading)
    requires s.WellFormed() && f in s.catalogue && IndicatorFits(s, f, args, kwargs, line)
    requires ParamsFit(s, params) && LinesDrawn(s.catalogue)
    ensures KeyOf(params, s.catalogue, f, args, kwargs, line, r).Some?
    ensures KeyOf(params, s.catalogue, f, args, kwargs, line, r).value.reading == r
  {
    var given := Given(s.catalogue[f], args, kwargs);
    forall name | name in given ensures ArgValue(params, given[name]).Some? {
      var i := GivenFits(s, f, args, kwargs, line, name);
      ValueFits(s, params, s.catalogue[f].params[i], given[name]);
    }
    hide Defaults, ByName, InOrder, IndicatorFits;
  }

  lemma KeyIs(s: Scope, params: map<string, real>, f: string, args: seq<Node>, kwargs: seq<(string, Node)>,
              line: Option<string>, r: Reading, name: string)
    requires f in s.catalogue && KeyOf(params, s.catalogue, f, args, kwargs, line, r).Some?
    ensures
      var key, entry := KeyOf(params, s.catalogue, f, args, kwargs, line, r).value, s.catalogue[f];
      var given := Given(entry, args, kwargs);
      && key.reading == r && key.id == f && (if line.Some? then key.line == line.value else key.line in entry.lines)
      && (name in key.params <==> name in given || name in Defaults(entry.params))
      && (name in given ==> ArgValue(params, given[name]) == Some(key.params[name]))
      && (name !in given && name in Defaults(entry.params) ==> key.params[name] == Defaults(entry.params)[name])
  {
    hide Defaults, ByName, InOrder, ArgValue;
  }

  lemma AskedNames(s: Scope, f: string, args: seq<Node>, kwargs: seq<(string, Node)>, line: Option<string>, name: string)
    requires s.WellFormed() && f in s.catalogue && IndicatorFits(s, f, args, kwargs, line)
    ensures name in Given(s.catalogue[f], args, kwargs) || name in Defaults(s.catalogue[f].params)
       <==> HasParam(s.catalogue[f].params, name)
  {
    DefaultsHas(s.catalogue[f].params, name);
    if name in Given(s.catalogue[f], args, kwargs) {
      var i := GivenFits(s, f, args, kwargs, line, name);
      hide IndicatorFits, Given, Defaults;
      assert HasParam(s.catalogue[f].params, name);
    }
  }

  lemma AskedValue(s: Scope, params: map<string, real>, f: string, args: seq<Node>, kwargs: seq<(string, Node)>,
                   line: Option<string>, i: nat, value: real)
    requires s.WellFormed() && f in s.catalogue && IndicatorFits(s, f, args, kwargs, line)
    requires ParamsFit(s, params) && DefaultsFit(s.catalogue[f]) && i < |s.catalogue[f].params|
    requires
      var name, given := s.catalogue[f].params[i].name, Given(s.catalogue[f], args, kwargs);
      if name in given then ArgValue(params, given[name]) == Some(value)
      else name in Defaults(s.catalogue[f].params) && value == Defaults(s.catalogue[f].params)[name]
    ensures s.catalogue[f].params[i].min <= value <= s.catalogue[f].params[i].max
    ensures WholeParams(s, params) && s.catalogue[f].params[i].integer ==> IsInteger(value)
  {
    var entry := s.catalogue[f];
    var p := entry.params[i];
    assert entry.Distinct();
    if p.name in Given(entry, args, kwargs) {
      var j := GivenFits(s, f, args, kwargs, line, p.name);
      ValueFits(s, params, p, Given(entry, args, kwargs)[p.name]);
    } else {
      DefaultsHas(entry.params, p.name);
    }
    hide IndicatorFits, Given, Defaults, ParamsFit, WholeParams;
  }

  /** Whatever the run's values, an accepted call asks the archive for one value of each of the indicator's parameters, each
      within the indicator's bounds. A whole one is asked for a parameter that takes whole values, as long as the run gave
      whole values to the parameters declared whole. */
  lemma AskedInRange(s: Scope, params: map<string, real>, f: string, args: seq<Node>, kwargs: seq<(string, Node)>,
                     line: Option<string>, r: Reading, i: nat)
    requires s.WellFormed() && f in s.catalogue && IndicatorFits(s, f, args, kwargs, line)
    requires ParamsFit(s, params) && LinesDrawn(s.catalogue) && DefaultsFit(s.catalogue[f])
    requires i < |s.catalogue[f].params|
    ensures KeyOf(params, s.catalogue, f, args, kwargs, line, r).Some?
    ensures
      var key, p := KeyOf(params, s.catalogue, f, args, kwargs, line, r).value, s.catalogue[f].params[i];
      && key.reading == r && key.id == f && key.line in s.catalogue[f].lines
      && (forall name :: name in key.params <==> HasParam(s.catalogue[f].params, name))
      && p.name in key.params && p.min <= key.params[p.name] <= p.max
      && (WholeParams(s, params) && p.integer ==> IsInteger(key.params[p.name]))
  {
    KeyIsThere(s, params, f, args, kwargs, line, r);
    assert line.Some? ==> line.value in s.catalogue[f].lines;
    hide KeyOf, IndicatorFits, Given, Defaults, DefaultsFit, ParamsFit, WholeParams, LinesDrawn, Scope.WellFormed;
    var key, p := KeyOf(params, s.catalogue, f, args, kwargs, line, r).value, s.catalogue[f].params[i];
    forall name ensures name in key.params <==> HasParam(s.catalogue[f].params, name) {
      KeyIs(s, params, f, args, kwargs, line, r, name);
      AskedNames(s, f, args, kwargs, line, name);
    }
    KeyIs(s, params, f, args, kwargs, line, r, p.name);
    assert HasParam(s.catalogue[f].params, p.name);
    AskedValue(s, params, f, args, kwargs, line, i, key.params[p.name]);
  }

  lemma DrawnAgrees(m: Market, s: Scope, call: Node, line: Option<string>, r: Reading, until: int)
    requires s.WellFormed() && WholeMarket(m, s.v) && ParamsFit(s, m.params) && LinesDrawn(s.catalogue) && r in m.series
    requires call.Call? && call.callee in s.catalogue && IndicatorFits(s, call.callee, call.args, call.kwargs, line)
    ensures Agrees(Drawn(m, s.catalogue, call, line, r), Drawn(Cut(m, until), s.catalogue, call, line, r), Number,
                   Size(m, r), Known(m, r, until))
  {
    KeyIsThere(s, m.params, call.callee, call.args, call.kwargs, line, r);
    hide KeyOf, IndicatorFits, LinesDrawn, ParamsFit, Scope.WellFormed;
    var key := KeyOf(m.params, s.catalogue, call.callee, call.args, call.kwargs, line, r).value;
    DrawnIs(m, s.catalogue, call, line, r);
    DrawnIs(Cut(m, until), s.catalogue, call, line, r);
    CutDraws(m, s.v, key, until);
    FirstNumbers(m.indicators(key), Known(m, r, until));
    hide *;
  }

  lemma FirstNumbers(x: seq<Float>, k: nat)
    requires k <= |x|
    ensures Agrees(Some(Numbers(x)), Some(Numbers(x[..k])), Number, |x|, k)
  {
  }

  lemma DrawnIs(m: Market, catalogue: map<string, Indicator>, call: Node, line: Option<string>, r: Reading)
    requires call.Call? && KeyOf(m.params, catalogue, call.callee, call.args, call.kwargs, line, r).Some?
    ensures Drawn(m, catalogue, call, line, r) ==
            Some(Numbers(m.indicators(KeyOf(m.params, catalogue, call.callee, call.args, call.kwargs, line, r).value)))
  {
    hide KeyOf;
  }

  lemma CutDraws(m: Market, v: Vocabulary, key: Key, until: int)
    requires WholeMarket(m, v) && key.reading in m.series
    ensures |m.indicators(key)| == Size(m, key.reading) >= Known(m, key.reading, until)
    ensures Cut(m, until).indicators(key) == m.indicators(key)[..Known(m, key.reading, until)]
  {
    assert WholeSeries(m.series[key.reading], v);
    hide CutSeries, Rising;
  }

  // ---- windows and offsets ---------------------------------------------------------------------------------------

  /** Whatever the run's values, an offset of an accepted formula looks back, and no further than the language allows; and so
      does a window, which holds one bar at least. */
  lemma BarsAreWithin(s: Scope, params: map<string, real>, bars: Bars, minimum: nat)
    requires ParamsFit(s, params) && BarsFit(s, bars, minimum)
    ensures BarsOf(params, bars).Some? && minimum <= BarsOf(params, bars).value <= s.v.maxBars
  {
  }

  lemma WindowsAreWithin(s: Scope, params: map<string, real>, arg: Node)
    requires ParamsFit(s, params) && WindowFits(s, arg)
    ensures WindowOf(params, arg).Some? && 1 <= WindowOf(params, arg).value <= s.v.maxBars
  {
    if arg.Param? {
      BarsAreWithin(s, params, FromParam(arg.name), 1);
    }
  }

  // ---- another series --------------------------------------------------------------------------------------------

  lemma ComeInOrder(times: seq<int>, moment: int, until: int)
    requires Rising(times) && moment <= until
    ensures Come(times, moment) <= Come(times, until)
  {
  }

  lemma ComeIs(times: seq<int>, moment: int, n: nat)
    requires Rising(times) && n <= |times|
    requires (n > 0 ==> times[n - 1] <= moment) && (n < |times| ==> times[n] > moment)
    ensures Come(times, moment) == n
  {
  }

  lemma ComeEarly(times: seq<int>, until: int, moment: int)
    requires Rising(times) && moment <= until
    ensures Rising(times[..Come(times, until)])
    ensures Come(times[..Come(times, until)], moment) == Come(times, moment)
  {
    var early := times[..Come(times, until)];
    assert Rising(early);
    ComeInOrder(times, moment, until);
    ComeIs(early, moment, Come(times, moment));
  }

  lemma AlignedAgrees(m: Market, v: Vocabulary, inner: Reading, r: Reading, until: int, a: Option<Column>,
                      early: Option<Column>, t: Type)
    requires WholeMarket(m, v) && inner in m.series && r in m.series
    requires Agrees(a, early, t, Size(m, inner), Known(m, inner, until))
    ensures inner in Cut(m, until).series && r in Cut(m, until).series
    ensures Agrees(Picked(a, Aligned(m.series[inner].available, m.series[r].available)),
                   Picked(early, Aligned(Cut(m, until).series[inner].available, Cut(m, until).series[r].available)), t,
                   Size(m, r), Known(m, r, until))
  {
    CutHas(m, v, inner, until);
    CutHas(m, v, r, until);
    assert WholeSeries(m.series[inner], v) && WholeSeries(m.series[r], v);
    var moments, known := m.series[r].available, m.series[inner].available;
    forall i | 0 <= i < Known(m, r, until)
      ensures Come(known[..Known(m, inner, until)], moments[i]) == Come(known, moments[i])
    {
      ComeEarly(known, until, moments[i]);
    }
    hide Cut, Rising, WholeMarket, WholeSeries;
    PickedAgrees(a, early, Aligned(known, moments),
                 Aligned(known[..Known(m, inner, until)], moments[..Known(m, r, until)]), t, Size(m, inner),
                 Known(m, inner, until));
    hide Picked, Agrees;
  }

  lemma OldEarly(m: Market, v: Vocabulary, q: Reading, moment: int, until: int)
    requires WholeMarket(m, v) && q in m.series && moment <= until
    ensures q in Cut(m, until).series && IsOld(Cut(m, until), q, moment) == IsOld(m, q, moment)
  {
    CutHas(m, v, q, until);
    assert WholeSeries(m.series[q], v);
    ComeEarly(m.series[q].available, until, moment);
    assert Come(m.series[q].available, moment) <= Known(m, q, until);
    hide CutSeries, Rising;
  }

  lemma StaleAgrees(m: Market, v: Vocabulary, n: Node, r: Reading, until: int)
    requires WholeMarket(m, v) && r in m.series && ReadUnderAt(v, n, r) <= m.series.Keys
    ensures r in Cut(m, until).series
    ensures Agrees(StaleOf(m, v, n, r), StaleOf(Cut(m, until), v, n, r), Condition, Size(m, r), Known(m, r, until))
  {
    CutHas(m, v, r, until);
    assert WholeSeries(m.series[r], v);
    var under, moments := ReadUnderAt(v, n, r), m.series[r].available;
    assert Cut(m, until).series.Keys == m.series.Keys;
    forall i | 0 <= i < Known(m, r, until)
      ensures (exists q :: q in under && IsOld(m, q, moments[i]))
         <==> exists q :: q in under && IsOld(Cut(m, until), q, moments[i])
    {
      forall q | q in under ensures IsOld(Cut(m, until), q, moments[i]) == IsOld(m, q, moments[i]) {
        OldEarly(m, v, q, moments[i], until);
      }
    }
    hide IsOld, ReadUnderAt, CutSeries, Rising, WholeMarket, WholeSeries;
  }

  lemma SessionAgrees(m: Market, s: Scope, arg: Node, bar: bool, r: Reading, until: int)
    requires WholeMarket(m, s.v) && r in m.series && SessionFits(s, arg)
    ensures r in Cut(m, until).series
    ensures Agrees(SessionOf(m, s.v, arg, bar, r), SessionOf(Cut(m, until), s.v, arg, bar, r), Number, Size(m, r),
                   Known(m, r, until))
  {
    CutHas(m, s.v, r, until);
    assert WholeSeries(m.series[r], s.v);
    hide BarNumbers, MinutesLeft, WholeMarket, WholeSeries, CutSeries, Rising;
  }

  // ---- the functions ---------------------------------------------------------------------------------------------

  /** An argument of a function, in the full run and in the one cut short: a column of its type, a window, or a session. */
  ghost predicate ArgAgrees(s: Scope, kind: Arg, arg: Node, a: Option<Column>, early: Option<Column>, size: nat, k: nat) {
    match kind
    case OfType(t) => Agrees(a, early, t, size, k)
    case Window => WindowFits(s, arg)
    case Session => SessionFits(s, arg)
  }

  ghost predicate ArgsAgree(s: Scope, shape: Shape, args: seq<Node>, columns: seq<Option<Column>>, early: seq<Option<Column>>,
                            size: nat, k: nat)
  {
    && |columns| == |early| == |args| && ArityFits(Signature(shape), |args|)
    && forall i :: 0 <= i < |args| ==> ArgAgrees(s, KindOf(Signature(shape), i), args[i], columns[i], early[i], size, k)
  }

  lemma OneArgument(s: Scope, shape: Shape, args: seq<Node>, columns: seq<Option<Column>>, early: seq<Option<Column>>,
                    size: nat, k: nat, i: nat)
    requires ArgsAgree(s, shape, args, columns, early, size, k) && i < |Signature(shape).args|
    ensures i < |args| && ArgAgrees(s, Signature(shape).args[i], args[i], columns[i], early[i], size, k)
  {
  }

  lemma AppliedAgrees(m: Market, s: Scope, shape: Shape, args: seq<Node>, columns: seq<Option<Column>>,
                      early: seq<Option<Column>>, r: Reading, until: int)
    requires WholeMarket(m, s.v) && ParamsFit(s, m.params) && r in m.series && !shape.AtEntry?
    requires ArgsAgree(s, shape, args, columns, early, Size(m, r), Known(m, r, until))
    requires shape.Stale? ==> ReadUnderAt(s.v, args[0], r) <= m.series.Keys
    ensures r in Cut(m, until).series
    ensures Agrees(Applied(m, s.v, shape, args, columns, r), Applied(Cut(m, until), s.v, shape, args, early, r),
                   Signature(shape).gives, Size(m, r), Known(m, r, until))
  {
    hide Cut, Agrees, WholeMarket, ParamsFit, Rising, ReadUnderAt, Come, Applied, ArgsAgree, Signature;
    CutKeeps(m, s.v, r, until);
    if shape.ExtremeOf? {
      ExtremesAgree(m, s, shape, args, columns, early, r, until);
    } else if |Signature(shape).args| == 1 {
      OneSeries(m, s, shape, args, columns, early, r, until);
    } else {
      TwoArguments(m, s, shape, args, columns, early, r, until);
    }
  }

  lemma ExtremesAgree(m: Market, s: Scope, shape: Shape, args: seq<Node>, columns: seq<Option<Column>>,
                      early: seq<Option<Column>>, r: Reading, until: int)
    requires r in m.series && r in Cut(m, until).series && shape.ExtremeOf?
    requires ArgsAgree(s, shape, args, columns, early, Size(m, r), Known(m, r, until))
    ensures Agrees(Applied(m, s.v, shape, args, columns, r), Applied(Cut(m, until), s.v, shape, args, early, r),
                   Signature(shape).gives, Size(m, r), Known(m, r, until))
  {
    hide Cut, Agrees, Applied, Come;
    forall i | 0 <= i < |columns| ensures Agrees(columns[i], early[i], Number, Size(m, r), Known(m, r, until)) {
      assert ArgAgrees(s, KindOf(Signature(shape), i), args[i], columns[i], early[i], Size(m, r), Known(m, r, until));
    }
    ExtremeApplied(m, s, shape, args, columns, r);
    ExtremeApplied(Cut(m, until), s, shape, args, early, r);
    hide Signature, KindOf, ArgAgrees;
    ExtremeAgrees(shape.least, columns, early, Size(m, r), Known(m, r, until));
  }

  lemma ExtremeApplied(m: Market, s: Scope, shape: Shape, args: seq<Node>, columns: seq<Option<Column>>, r: Reading)
    requires |columns| == |args| >= 2 && r in m.series && shape.ExtremeOf?
    ensures Applied(m, s.v, shape, args, columns, r) == Extreme(shape.least, columns) && Signature(shape).gives == Number
  {
    hide Extreme;
  }

  lemma OneApplied(m: Market, s: Scope, shape: Shape, args: seq<Node>, columns: seq<Option<Column>>, r: Reading)
    requires |columns| == |args| && args != [] && r in m.series && |Signature(shape).args| == 1 && !shape.AtEntry?
    ensures Applied(m, s.v, shape, args, columns, r) ==
      match shape {
        case AbsoluteOf => Absolute(columns[0])
        case BarsSince => SinceTrue(columns[0])
        case Stale => StaleOf(m, s.v, args[0], r)
        case _ => SessionOf(m, s.v, args[0], shape.SessionBar?, r)
      }
  {
    hide Absolute, SinceTrue, StaleOf, SessionOf;
  }

  lemma TwoApplied(m: Market, s: Scope, shape: Shape, args: seq<Node>, columns: seq<Option<Column>>, r: Reading)
    requires |columns| == |args| >= 2 && r in m.series && |Signature(shape).args| == 2 && !shape.ExtremeOf?
    ensures Applied(m, s.v, shape, args, columns, r) ==
      match shape {
        case Rolling(how) => Rolled(how, columns[0], WindowOf(m.params, args[1]))
        case Stepping(up) => Stepped(up, columns[0], WindowOf(m.params, args[1]))
        case Crossing(up) => Crossed(up, columns[0], columns[1])
        case ExtremeSince(highest) => Since(highest, columns[0], columns[1])
        case _ => ValuedWhen(columns[0], columns[1])
      }
  {
    hide Rolled, Stepped, Crossed, Since, ValuedWhen, WindowOf;
  }

  lemma OneSeries(m: Market, s: Scope, shape: Shape, args: seq<Node>, columns: seq<Option<Column>>,
                  early: seq<Option<Column>>, r: Reading, until: int)
    requires WholeMarket(m, s.v) && r in m.series && r in Cut(m, until).series
    requires |Signature(shape).args| == 1 && !shape.AtEntry?
    requires ArgsAgree(s, shape, args, columns, early, Size(m, r), Known(m, r, until))
    requires shape.Stale? ==> ReadUnderAt(s.v, args[0], r) <= m.series.Keys
    ensures Agrees(Applied(m, s.v, shape, args, columns, r), Applied(Cut(m, until), s.v, shape, args, early, r),
                   Signature(shape).gives, Size(m, r), Known(m, r, until))
  {
    OneArgument(s, shape, args, columns, early, Size(m, r), Known(m, r, until), 0);
    OneApplied(m, s, shape, args, columns, r);
    OneApplied(Cut(m, until), s, shape, args, early, r);
    hide Cut, Agrees, WholeMarket, StaleOf, SessionOf, SessionFits, ReadUnderAt, Absolute, SinceTrue, ArgsAgree, Come, Applied;
    match shape {
      case AbsoluteOf => AbsoluteAgrees(columns[0], early[0], Size(m, r), Known(m, r, until));
      case BarsSince => SinceTrueAgrees(columns[0], early[0], Size(m, r), Known(m, r, until));
      case Stale => StaleAgrees(m, s.v, args[0], r, until);
      case SessionBar => SessionAgrees(m, s, args[0], true, r, until);
      case SessionClose => SessionAgrees(m, s, args[0], false, r, until);
    }
  }

  lemma TwoArguments(m: Market, s: Scope, shape: Shape, args: seq<Node>, columns: seq<Option<Column>>,
                     early: seq<Option<Column>>, r: Reading, until: int)
    requires ParamsFit(s, m.params) && r in m.series && r in Cut(m, until).series && Cut(m, until).params == m.params
    requires |Signature(shape).args| == 2 && !shape.ExtremeOf?
    requires ArgsAgree(s, shape, args, columns, early, Size(m, r), Known(m, r, until))
    ensures Agrees(Applied(m, s.v, shape, args, columns, r), Applied(Cut(m, until), s.v, shape, args, early, r),
                   Signature(shape).gives, Size(m, r), Known(m, r, until))
  {
    OneArgument(s, shape, args, columns, early, Size(m, r), Known(m, r, until), 0);
    OneArgument(s, shape, args, columns, early, Size(m, r), Known(m, r, until), 1);
    TwoApplied(m, s, shape, args, columns, r);
    TwoApplied(Cut(m, until), s, shape, args, early, r);
    hide Cut, Agrees, WindowOf, WindowFits, ParamsFit, Rolled, Stepped, Crossed, ValuedWhen, Since, ArgsAgree, Come, Applied;
    match shape {
      case Rolling(how) =>
        WindowsAreWithin(s, m.params, args[1]);
        RolledAgrees(how, columns[0], early[0], WindowOf(m.params, args[1]), Size(m, r), Known(m, r, until));
      case Stepping(up) =>
        WindowsAreWithin(s, m.params, args[1]);
        SteppedAgrees(up, columns[0], early[0], WindowOf(m.params, args[1]), Size(m, r), Known(m, r, until));
      case Crossing(up) => CrossedAgrees(up, columns[0], columns[1], early[0], early[1], Size(m, r), Known(m, r, until));
      case ValueWhen => ValuedWhenAgrees(columns[0], columns[1], early[0], early[1], Number, Size(m, r), Known(m, r, until));
      case ExtremeSince(highest) =>
        SinceAgrees(highest, columns[0], columns[1], early[0], early[1], Size(m, r), Known(m, r, until));
    }
  }

  // ---- whole formulas --------------------------------------------------------------------------------------------

  /** Where the checker's context is read. */
  function AxisOf(m: Market, c: Context): Reading { ReadingOf(c, m.decision) }

  /** An accepted formula without state, with all it reads at hand. */
  ghost predicate Computable(m: Market, s: Scope, n: Node, t: Type, c: Context)
    requires s.WellFormed()
  {
    && Typed(s, n, Some(t), c) && !Stateful(s.v, n) && AxisOf(m, c) in m.series
    && ReadUnderAt(s.v, n, AxisOf(m, c)) <= m.series.Keys
  }

  lemma FitsIsTyped(s: Scope, n: Node, t: Type, c: Context)
    requires s.WellFormed() && s.untyped == {} && Fits(s, n, t, c)
    ensures Typed(s, n, Some(t), c)
  {
    NothingIsUnknown(s, n, c);
  }

  /** A part of a formula without state, standing on the same axis, is one too. */
  lemma PartIsComputable(m: Market, s: Scope, n: Node, i: nat, t: Type, c: Context, inner: Context)
    requires s.WellFormed() && s.untyped == {} && !Stateful(s.v, n) && !n.At? && i < |Children(n)|
    requires AxisOf(m, c) in m.series && ReadUnderAt(s.v, n, AxisOf(m, c)) <= m.series.Keys
    requires Fits(s, Children(n)[i], t, inner) && AxisOf(m, inner) == AxisOf(m, c)
    ensures Children(n)[i] < n && Computable(m, s, Children(n)[i], t, inner)
  {
    FitsIsTyped(s, Children(n)[i], t, inner);
    hide Typed, Fits;
    assert Children(n)[i] in Children(n);
    assert !Stateful(s.v, Children(n)[i]);
    forall q | q in ReadUnderAt(s.v, Children(n)[i], AxisOf(m, c)) ensures q in m.series.Keys {
      assert q in ReadUnderAt(s.v, n, AxisOf(m, c));
    }
  }

  lemma LeafMeans(m: Market, s: Scope, lets: seq<(string, Node)>, n: Node, r: Reading, t: Type, until: int)
    requires WholeMarket(m, s.v) && r in m.series
    requires (n.Num? && t == Number) || (n.Bool? && t == Condition) || (n.Param? && n.name in m.params && t == Number)
    ensures Means(m, s, lets, n, r, t, until)
  {
    CutKeeps(m, s.v, r, until);
    hide Cut, WholeMarket, Come;
  }

  lemma OwnNameMeans(m: Market, s: Scope, lets: seq<(string, Node)>, id: string, r: Reading, until: int)
    requires Implements(m, s.v) && WholeMarket(m, s.v) && r in m.series
    requires id in s.v.series || id in s.v.time || id in s.v.constants
    ensures Means(m, s, lets, Name(id), r, Number, until)
  {
    OwnAgrees(m, s, id, r, until);
    assert Own(m, id, r).Some? && Own(Cut(m, until), id, r).Some?;
    hide Cut, WholeMarket, Own, Implements, Agrees, Come;
    OwnVector(m, s, lets, id, r);
    OwnVector(Cut(m, until), s, lets, id, r);
    hide Vector;
  }

  lemma OwnVector(m: Market, s: Scope, lets: seq<(string, Node)>, id: string, r: Reading)
    requires r in m.series && Own(m, id, r).Some?
    ensures Vector(m, s.v, s.catalogue, lets, Name(id), r) == Own(m, id, r)
  {
    hide Own;
  }

  lemma LetsBefore(s: Scope, lets: seq<(string, Node)>, types: seq<Type>, k: nat)
    requires s.WellFormed() && |types| == |lets| && LetsAccepted(s, lets, types) && k < |lets|
    ensures LetScope(s, lets, types, k).WellFormed()
    ensures LetsAccepted(LetScope(s, lets, types, k), lets[..k], types[..k])
  {
    var inner := LetScope(s, lets, types, k);
    hide Typed, LetTypes;
    forall j | 0 <= j < k
      ensures Typed(LetScope(inner, lets[..k], types[..k], j), lets[..k][j].1, Some(types[..k][j]), HERE)
    {
      assert lets[..k][..j] == lets[..j] && types[..k][..j] == types[..j];
      assert LetScope(inner, lets[..k], types[..k], j) == LetScope(s, lets, types, j);
      assert Typed(LetScope(s, lets, types, j), lets[j].1, Some(types[j]), HERE);
    }
  }

  /** The variables before one are a document's own. */
  lemma ReadyBefore(m: Market, s: Scope, lets: seq<(string, Node)>, types: seq<Type>, k: nat)
    requires Ready(m, s, lets, types) && k < |lets|
    ensures Ready(m, LetScope(s, lets, types, k), lets[..k], types[..k])
  {
    LetsBefore(s, lets, types, k);
    hide Typed, WholeMarket, Implements, LetTypes, LinesDrawn, LetsAccepted, ReadUnderAt, Scope.WellFormed;
  }

  /** A variable reads no state, and stands on the axis of decisions. */
  lemma LetIsComputable(m: Market, s: Scope, lets: seq<(string, Node)>, types: seq<Type>, k: nat)
    requires Ready(m, s, lets, types) && k < |lets|
    ensures Computable(m, LetScope(s, lets, types, k), lets[k].1, types[k], HERE)
  {
    var inner := LetScope(s, lets, types, k);
    assert Typed(inner, lets[k].1, Some(types[k]), HERE);
    NotStateful(m, inner, lets[k].1, Some(types[k]), HERE);
    hide Typed, Stateful, ReadUnderAt, WholeMarket, LinesDrawn;
  }

  // ---- no state where none may stand -----------------------------------------------------------------------------

  lemma PlainIsNotStateful(v: Vocabulary, n: Node)
    requires n.Num? || n.Param? || (n.Name? && !v.State(n.id))
    ensures !Stateful(v, n)
  {
  }

  lemma PartsNotStateful(v: Vocabulary, n: Node)
    requires !n.Name? && (n.Call? ==> n.callee != "at_entry")
    requires forall i :: 0 <= i < |Children(n)| ==> !Stateful(v, Children(n)[i])
    ensures !Stateful(v, n)
  {
  }

  /** An operator: its parts are all of one type. */
  predicate IsOperator(n: Node) { n.Neg? || n.Not? || n.Arith? || n.Compare? || n.Logic? }

  function PartType(n: Node): Type { if n.Not? || n.Logic? then Condition else Number }

  function ResultType(n: Node): Type { if n.Neg? || n.Arith? then Number else Condition }

  lemma OperatorParts(s: Scope, n: Node, t: Option<Type>, c: Context)
    requires s.WellFormed() && Typed(s, n, t, c) && IsOperator(n)
    ensures t == Some(ResultType(n))
    ensures forall i :: 0 <= i < |Children(n)| ==> Fits(s, Children(n)[i], PartType(n), c)
  {
    hide Fits;
  }

  /** What is accepted where no state may stand reads none. */
  lemma {:induction false} NotStateful(m: Market, s: Scope, n: Node, t: Option<Type>, c: Context)
    requires s.WellFormed() && Implements(m, s.v) && Typed(s, n, t, c) && Stateless(s, c)
    ensures !Stateful(s.v, n)
    decreases n, 3
  {
    if IsOperator(n) {
      OperatorNotStateful(m, s, n, t, c);
    } else if n.IfElse? {
      ChoiceNotStateful(m, s, n, t, c);
    } else if n.Lag? || n.At? {
      ReadNotStateful(m, s, n, t, c);
    } else if n.Call? && n.callee in s.v.functions {
      CallNotStateful(m, s, n, t, c);
    } else if n.Call? {
      IndicatorNotStateful(m, s, n, None);
    } else if n.Field? {
      IndicatorNotStateful(m, s, n.value, Some(n.line));
      hide Typed;
      PartsNotStateful(s.v, n);
    } else {
      hide Implements;
    }
  }

  lemma OperatorNotStateful(m: Market, s: Scope, n: Node, t: Option<Type>, c: Context)
    requires s.WellFormed() && Implements(m, s.v) && Typed(s, n, t, c) && Stateless(s, c) && IsOperator(n)
    ensures !Stateful(s.v, n)
    decreases n, 2
  {
    OperatorParts(s, n, t, c);
    hide Typed, Fits, Implements, Stateless, Stateful, Scope.WellFormed;
    forall i | 0 <= i < |Children(n)| ensures !Stateful(s.v, Children(n)[i]) {
      assert Children(n)[i] in Children(n);
      ChildNotStateful(m, s, n, Children(n)[i], PartType(n), c);
    }
    PartsNotStateful(s.v, n);
  }

  lemma ChoiceNotStateful(m: Market, s: Scope, n: Node, t: Option<Type>, c: Context)
    requires s.WellFormed() && Implements(m, s.v) && Typed(s, n, t, c) && Stateless(s, c) && n.IfElse?
    ensures !Stateful(s.v, n)
    decreases n, 2
  {
    var a, b :| Fits(s, n.condition, Condition, c) && Typed(s, n.then_, a, c) && Typed(s, n.otherwise, b, c);
    hide Typed, Fits, Implements, Stateless, Stateful, Scope.WellFormed;
    ChildNotStateful(m, s, n, n.condition, Condition, c);
    NotStateful(m, s, n.then_, a, c);
    NotStateful(m, s, n.otherwise, b, c);
    PartsNotStateful(s.v, n);
  }

  lemma ReadNotStateful(m: Market, s: Scope, n: Node, t: Option<Type>, c: Context)
    requires s.WellFormed() && Implements(m, s.v) && Typed(s, n, t, c) && (n.Lag? || n.At?)
    ensures !Stateful(s.v, n)
    decreases n, 2
  {
    var inner := if n.Lag? then c.OverBars() else InnerContext(s, n.context, c);
    assert Typed(s, n.value, t, inner) && Stateless(s, inner);
    hide Typed, Fits, Implements, Stateful, Scope.WellFormed;
    NotStateful(m, s, n.value, t, inner);
    PartsNotStateful(s.v, n);
  }

  lemma ChildNotStateful(m: Market, s: Scope, n: Node, x: Node, wanted: Type, c: Context)
    requires s.WellFormed() && Implements(m, s.v) && x < n && Fits(s, x, wanted, c) && Stateless(s, c)
    ensures !Stateful(s.v, x)
    decreases n, 0
  {
    var t := FitsOne(s, x, wanted, c);
    NotStateful(m, s, x, t, c);
  }

  lemma IndicatorNotStateful(m: Market, s: Scope, n: Node, line: Option<string>)
    requires Implements(m, s.v) && n.Call? && n.callee in s.catalogue && n.callee !in s.v.functions
    requires IndicatorFits(s, n.callee, n.args, n.kwargs, line)
    ensures !Stateful(s.v, n)
  {
    forall i | 0 <= i < |Children(n)| ensures !Stateful(s.v, Children(n)[i]) {
      if i < |n.args| {
        PlainIsNotStateful(s.v, n.args[i]);
      } else {
        assert KeywordLands(s, s.catalogue[n.callee], |n.args|, n.kwargs, i - |n.args|);
        PlainIsNotStateful(s.v, n.kwargs[i - |n.args|].1);
      }
    }
    hide IndicatorFits;
    PartsNotStateful(s.v, n);
  }

  lemma CallNotStateful(m: Market, s: Scope, n: Node, t: Option<Type>, c: Context)
    requires s.WellFormed() && Implements(m, s.v) && Typed(s, n, t, c) && Stateless(s, c)
    requires n.Call? && n.callee in s.v.functions
    ensures !Stateful(s.v, n)
    decreases n, 2
  {
    assert n.kwargs == [] && MayCall(s, n.callee, c);
    forall i | 0 <= i < |n.args| ensures !Stateful(s.v, n.args[i]) {
      ArgNotStateful(m, s, n, t, c, i);
    }
    hide Typed;
    assert Children(n) == n.args;
    PartsNotStateful(s.v, n);
  }

  lemma ArgNotStateful(m: Market, s: Scope, n: Node, t: Option<Type>, c: Context, i: nat)
    requires s.WellFormed() && Implements(m, s.v) && Typed(s, n, t, c) && Stateless(s, c)
    requires n.Call? && n.callee in s.v.functions && i < |n.args|
    ensures !Stateful(s.v, n.args[i])
    decreases n, 1
  {
    var spec := s.v.functions[n.callee];
    assert ArgFits(s, KindOf(spec, i), n.args[i], ArgContext(s, n.callee, c));
    match KindOf(spec, i)
    case OfType(wanted) => ChildNotStateful(m, s, n, n.args[i], wanted, ArgContext(s, n.callee, c));
    case _ => PlainIsNotStateful(s.v, n.args[i]);
  }

  // ---- what an accepted formula means ----------------------------------------------------------------------------

  /** A part of a formula has its column. */
  lemma PartMeans(m: Market, s: Scope, lets: seq<(string, Node)>, types: seq<Type>, n: Node, i: nat, t: Type, c: Context,
                  inner: Context, until: int)
    requires Ready(m, s, lets, types) && !Stateful(s.v, n) && !n.At? && i < |Children(n)|
    requires AxisOf(m, c) in m.series && ReadUnderAt(s.v, n, AxisOf(m, c)) <= m.series.Keys
    requires Fits(s, Children(n)[i], t, inner) && AxisOf(m, inner) == AxisOf(m, c)
    ensures Means(m, s, lets, Children(n)[i], AxisOf(m, c), t, until)
    decreases |lets|, n, 0
  {
    PartIsComputable(m, s, n, i, t, c, inner);
    Evaluates(m, s, lets, types, Children(n)[i], t, inner, until);
  }

  /** On every axis an accepted formula without state is read on, it has a column of its type, with a value for every bar; and
      what was known by `until` is all that its values up to then depend on. */
  lemma {:induction false} Evaluates(m: Market, s: Scope, lets: seq<(string, Node)>, types: seq<Type>, n: Node, t: Type,
                                     c: Context, until: int)
    requires Ready(m, s, lets, types) && Computable(m, s, n, t, c)
    ensures Means(m, s, lets, n, AxisOf(m, c), t, until)
    decreases |lets|, n, 3
  {
    if n.Num? || n.Bool? || n.Param? {
      LeafMeans(m, s, lets, n, AxisOf(m, c), t, until);
    } else if n.Name? {
      NameMeans(m, s, lets, types, n, t, c, until);
    } else if IsOperator(n) {
      OperatorMeans(m, s, lets, types, n, t, c, until);
    } else if n.IfElse? {
      ChoiceMeans(m, s, lets, types, n, t, c, until);
    } else if n.Lag? {
      LagMeans(m, s, lets, types, n, t, c, until);
    } else if n.At? {
      AtMeans(m, s, lets, types, n, t, c, until);
    } else if n.Call? && n.callee in s.v.functions {
      CallMeans(m, s, lets, types, n, t, c, until);
    } else {
      IndicatorMeans(m, s, lets, n, t, c, until);
    }
  }

  lemma NameMeans(m: Market, s: Scope, lets: seq<(string, Node)>, types: seq<Type>, n: Node, t: Type, c: Context, until: int)
    requires Ready(m, s, lets, types) && Computable(m, s, n, t, c) && n.Name?
    ensures Means(m, s, lets, n, AxisOf(m, c), t, until)
    decreases |lets|, n, 2
  {
    if n.id in s.v.series || n.id in s.v.time || n.id in s.v.constants {
      OwnNameMeans(m, s, lets, n.id, AxisOf(m, c), until);
    } else {
      assert n.id in s.lets && !c.Elsewhere() && t == s.lets[n.id];
      LetFound(lets, types, n.id);
      var k := LetAt(lets, n.id).value;
      ReadyBefore(m, s, lets, types, k);
      LetIsComputable(m, s, lets, types, k);
      Evaluates(m, LetScope(s, lets, types, k), lets[..k], types[..k], lets[k].1, types[k], HERE, until);
      LetMeans(m, s, lets, types, n, k, until);
    }
  }

  lemma LetMeans(m: Market, s: Scope, lets: seq<(string, Node)>, types: seq<Type>, n: Node, k: nat, until: int)
    requires s.WellFormed() && Implements(m, s.v) && WholeMarket(m, s.v) && |types| == |lets|
    requires n.Name? && n.id !in s.v.series && n.id !in s.v.time && n.id !in s.v.constants && LetAt(lets, n.id) == Some(k)
    requires Means(m, LetScope(s, lets, types, k), lets[..k], lets[k].1, m.decision, types[k], until)
    ensures Means(m, s, lets, n, m.decision, types[k], until)
  {
    CutKeeps(m, s.v, m.decision, until);
    NotOwn(m, s.v, n.id, until);
    hide Cut, WholeMarket, Agrees, LetTypes, Come, Own, Implements, LetAt;
    LetVector(m, s, lets, n.id, k);
    LetVector(Cut(m, until), s, lets, n.id, k);
    hide Vector;
  }

  lemma NotOwn(m: Market, v: Vocabulary, id: string, until: int)
    requires Implements(m, v) && WholeMarket(m, v) && m.decision in m.series
    requires id !in v.series && id !in v.time && id !in v.constants
    ensures Own(m, id, m.decision) == None
    ensures m.decision in Cut(m, until).series && Own(Cut(m, until), id, m.decision) == None
  {
    assert WholeSeries(m.series[m.decision], v);
    assert Cut(m, until).series[m.decision].columns.Keys == m.series[m.decision].columns.Keys;
    hide ClockAt, Come;
  }

  lemma LetVector(m: Market, s: Scope, lets: seq<(string, Node)>, id: string, k: nat)
    requires m.decision in m.series && Own(m, id, m.decision) == None && LetAt(lets, id) == Some(k)
    ensures Vector(m, s.v, s.catalogue, lets, Name(id), m.decision) ==
            Vector(m, s.v, s.catalogue, lets[..k], lets[k].1, m.decision)
  {
    hide Own;
  }

  lemma OperatorMeans(m: Market, s: Scope, lets: seq<(string, Node)>, types: seq<Type>, n: Node, t: Type, c: Context, until: int)
    requires Ready(m, s, lets, types) && Computable(m, s, n, t, c) && IsOperator(n)
    ensures Means(m, s, lets, n, AxisOf(m, c), t, until)
    decreases |lets|, n, 2
  {
    OperatorParts(s, n, Some(t), c);
    hide Typed, Fits, Stateful, ReadUnderAt, Means, PartType;
    forall i | 0 <= i < |Children(n)| ensures Means(m, s, lets, Children(n)[i], AxisOf(m, c), PartType(n), until) {
      PartMeans(m, s, lets, types, n, i, PartType(n), c, c, until);
    }
    hide Ready;
    OperatorOf(m, s, lets, n, AxisOf(m, c), until);
  }

  lemma OperatorOf(m: Market, s: Scope, lets: seq<(string, Node)>, n: Node, r: Reading, until: int)
    requires WholeMarket(m, s.v) && r in m.series && IsOperator(n)
    requires forall i :: 0 <= i < |Children(n)| ==> Means(m, s, lets, Children(n)[i], r, PartType(n), until)
    ensures Means(m, s, lets, n, r, ResultType(n), until)
  {
    if n.Compare? || n.Logic? {
      ManyOf(m, s, lets, n, r, until);
    } else {
      FewOf(m, s, lets, n, r, until);
    }
  }

  lemma FewOf(m: Market, s: Scope, lets: seq<(string, Node)>, n: Node, r: Reading, until: int)
    requires WholeMarket(m, s.v) && r in m.series && (n.Neg? || n.Not? || n.Arith?)
    requires forall i :: 0 <= i < |Children(n)| ==> Means(m, s, lets, Children(n)[i], r, PartType(n), until)
    ensures Means(m, s, lets, n, r, ResultType(n), until)
  {
    CutKeeps(m, s.v, r, until);
    assert Means(m, s, lets, Children(n)[0], r, PartType(n), until);
    if n.Arith? { assert Means(m, s, lets, Children(n)[1], r, PartType(n), until); }
    hide Cut, WholeMarket, Agrees, Negated, Inverted, Calculated, Come;
    var k, early := Known(m, r, until), Cut(m, until);
    FewVector(m, s, lets, n, r);
    FewVector(early, s, lets, n, r);
    hide Vector;
    var x := Children(n)[0];
    var a, b := Vector(m, s.v, s.catalogue, lets, x, r), Vector(early, s.v, s.catalogue, lets, x, r);
    if n.Neg? {
      NegatedAgrees(a, b, Size(m, r), k);
    } else if n.Not? {
      InvertedAgrees(a, b, Size(m, r), k);
    } else {
      CalculatedAgrees(n.op, a, Vector(m, s.v, s.catalogue, lets, n.right, r), b,
                       Vector(early, s.v, s.catalogue, lets, n.right, r), Size(m, r), k);
    }
  }

  lemma FewVector(m: Market, s: Scope, lets: seq<(string, Node)>, n: Node, r: Reading)
    requires r in m.series && (n.Neg? || n.Not? || n.Arith?)
    ensures n.Neg? ==> Vector(m, s.v, s.catalogue, lets, n, r) == Negated(Vector(m, s.v, s.catalogue, lets, n.operand, r))
    ensures n.Not? ==> Vector(m, s.v, s.catalogue, lets, n, r) == Inverted(Vector(m, s.v, s.catalogue, lets, n.operand, r))
    ensures n.Arith? ==>
      Vector(m, s.v, s.catalogue, lets, n, r) ==
      Calculated(n.op, Vector(m, s.v, s.catalogue, lets, n.left, r), Vector(m, s.v, s.catalogue, lets, n.right, r))
  {
    hide Negated, Inverted, Calculated;
  }

  function Vectors(m: Market, s: Scope, lets: seq<(string, Node)>, xs: seq<Node>, r: Reading): (columns: seq<Option<Column>>)
    ensures |columns| == |xs| && forall i :: 0 <= i < |xs| ==> columns[i] == Vector(m, s.v, s.catalogue, lets, xs[i], r)
  {
    seq(|xs|, i requires 0 <= i < |xs| => Vector(m, s.v, s.catalogue, lets, xs[i], r))
  }

  lemma ManyOf(m: Market, s: Scope, lets: seq<(string, Node)>, n: Node, r: Reading, until: int)
    requires WholeMarket(m, s.v) && r in m.series && (n.Compare? || n.Logic?)
    requires forall i :: 0 <= i < |Children(n)| ==> Means(m, s, lets, Children(n)[i], r, PartType(n), until)
    ensures Means(m, s, lets, n, r, Condition, until)
  {
    CutKeeps(m, s.v, r, until);
    var xs := Children(n);
    var columns, early := Vectors(m, s, lets, xs, r), Vectors(Cut(m, until), s, lets, xs, r);
    var size, k := Size(m, r), Known(m, r, until);
    forall i | 0 <= i < |xs| ensures Agrees(columns[i], early[i], PartType(n), size, k) {
      assert Means(m, s, lets, xs[i], r, PartType(n), until);
    }
    ManyVector(m, s, lets, n, r);
    ManyVector(Cut(m, until), s, lets, n, r);
    hide Cut, WholeMarket, Agrees, Come, Vector, Vectors, Compared, Joined;
    if n.Compare? {
      ComparedAgrees(n.ops, columns, early, size, k);
    } else {
      JoinedAgrees(n.joins, columns, early, size, k);
    }
  }

  lemma ManyVector(m: Market, s: Scope, lets: seq<(string, Node)>, n: Node, r: Reading)
    requires r in m.series && (n.Compare? || n.Logic?)
    ensures n.Compare? ==>
      Vector(m, s.v, s.catalogue, lets, n, r) == Compared(n.ops, Vectors(m, s, lets, n.operands, r), |m.series[r].starts|)
    ensures n.Logic? ==>
      Vector(m, s.v, s.catalogue, lets, n, r) == Joined(n.joins, Vectors(m, s, lets, n.values, r), |m.series[r].starts|)
  {
    hide Compared, Joined;
    if n.Compare? {
      assert seq(|n.operands|, i requires 0 <= i < |n.operands| => Vector(m, s.v, s.catalogue, lets, n.operands[i], r))
             == Vectors(m, s, lets, n.operands, r);
    } else {
      assert seq(|n.values|, i requires 0 <= i < |n.values| => Vector(m, s.v, s.catalogue, lets, n.values[i], r))
             == Vectors(m, s, lets, n.values, r);
    }
  }

  lemma ChoiceParts(s: Scope, n: Node, t: Type, c: Context)
    requires s.WellFormed() && s.untyped == {} && Typed(s, n, Some(t), c) && n.IfElse?
    ensures Fits(s, n.condition, Condition, c) && Fits(s, n.then_, t, c) && Fits(s, n.otherwise, t, c)
  {
    var a, b :| Typed(s, n.then_, a, c) && Typed(s, n.otherwise, b, c) && Agree(a, b) && Some(t) == if a.Some? then a else b;
    NothingIsUnknown(s, n.then_, c);
    NothingIsUnknown(s, n.otherwise, c);
  }

  lemma ChoiceMeans(m: Market, s: Scope, lets: seq<(string, Node)>, types: seq<Type>, n: Node, t: Type, c: Context, until: int)
    requires Ready(m, s, lets, types) && Computable(m, s, n, t, c) && n.IfElse?
    ensures Means(m, s, lets, n, AxisOf(m, c), t, until)
    decreases |lets|, n, 2
  {
    hide Typed, Fits, Stateful, ReadUnderAt, Means, WholeMarket, Implements, LetsAccepted, Served, LinesDrawn, LetTypes,
      ParamsFit, Scope.WellFormed;
    ChoiceParts(s, n, t, c);
    assert Children(n) == [n.condition, n.then_, n.otherwise];
    PartMeans(m, s, lets, types, n, 0, Condition, c, c, until);
    PartMeans(m, s, lets, types, n, 1, t, c, c, until);
    PartMeans(m, s, lets, types, n, 2, t, c, c, until);
    ChoiceOf(m, s, lets, n, AxisOf(m, c), t, until);
  }

  lemma ChoiceOf(m: Market, s: Scope, lets: seq<(string, Node)>, n: Node, r: Reading, t: Type, until: int)
    requires WholeMarket(m, s.v) && r in m.series && n.IfElse?
    requires Means(m, s, lets, n.condition, r, Condition, until)
    requires Means(m, s, lets, n.then_, r, t, until) && Means(m, s, lets, n.otherwise, r, t, until)
    ensures Means(m, s, lets, n, r, t, until)
  {
    CutKeeps(m, s.v, r, until);
    hide Cut, WholeMarket, Agrees, Chosen, Come;
    var early := Cut(m, until);
    ChosenAgrees(Vector(m, s.v, s.catalogue, lets, n.condition, r), Vector(m, s.v, s.catalogue, lets, n.then_, r),
                 Vector(m, s.v, s.catalogue, lets, n.otherwise, r), Vector(early, s.v, s.catalogue, lets, n.condition, r),
                 Vector(early, s.v, s.catalogue, lets, n.then_, r), Vector(early, s.v, s.catalogue, lets, n.otherwise, r), t,
                 Size(m, r), Known(m, r, until));
  }

  lemma LagParts(s: Scope, n: Node, t: Type, c: Context)
    requires s.WellFormed() && Typed(s, n, Some(t), c) && n.Lag?
    ensures BarsFit(s, n.bars, 0) && Fits(s, n.value, t, c.OverBars())
  {
    hide BarsFit;
  }

  lemma LagMeans(m: Market, s: Scope, lets: seq<(string, Node)>, types: seq<Type>, n: Node, t: Type, c: Context, until: int)
    requires Ready(m, s, lets, types) && Computable(m, s, n, t, c) && n.Lag?
    ensures Means(m, s, lets, n, AxisOf(m, c), t, until)
    decreases |lets|, n, 2
  {
    hide Typed, Fits, Stateful, ReadUnderAt, Means, BarsFit, WholeMarket, Implements, LetsAccepted, Served, LinesDrawn, LetTypes,
      ParamsFit, Scope.WellFormed, BarsOf;
    LagParts(s, n, t, c);
    BarsAreWithin(s, m.params, n.bars, 0);
    PartMeans(m, s, lets, types, n, 0, t, c, c.OverBars(), until);
    LagOf(m, s, lets, n, AxisOf(m, c), t, until);
  }

  lemma LagOf(m: Market, s: Scope, lets: seq<(string, Node)>, n: Node, r: Reading, t: Type, until: int)
    requires WholeMarket(m, s.v) && r in m.series && n.Lag? && Means(m, s, lets, n.value, r, t, until)
    requires BarsOf(m.params, n.bars).Some? && BarsOf(m.params, n.bars).value >= 0
    ensures Means(m, s, lets, n, r, t, until)
  {
    CutKeeps(m, s.v, r, until);
    hide Cut, WholeMarket, Agrees, Shifted, Come, BarsOf;
    ShiftedAgrees(Vector(m, s.v, s.catalogue, lets, n.value, r), Vector(Cut(m, until), s.v, s.catalogue, lets, n.value, r),
                  BarsOf(m.params, n.bars), t, Size(m, r), Known(m, r, until));
  }

  // ---- another series ---------------------------------------------------------------------------------------------

  lemma {:induction false} ThroughIsStateless(v: Vocabulary, n: Node, r: Reading)
    requires !Stateful(v, n)
    ensures !Stateful(v, ThroughAt(v, n, r).0)
    decreases n
  {
    if n.At? {
      assert Children(n)[0] == n.value;
      assert !Stateful(v, n.value);
      ThroughIsStateless(v, n.value, InnerReading(v, r, n.context));
    }
  }

  lemma AtMeans(m: Market, s: Scope, lets: seq<(string, Node)>, types: seq<Type>, n: Node, t: Type, c: Context, until: int)
    requires Ready(m, s, lets, types) && Computable(m, s, n, t, c) && n.At?
    ensures Means(m, s, lets, n, AxisOf(m, c), t, until)
    decreases |lets|, n, 2
  {
    var inner := ThroughAtAgrees(s, n, Some(t), c, m.decision);
    ThroughIsStateless(s.v, n, AxisOf(m, c));
    var (x, reading) := ThroughAt(s.v, n, AxisOf(m, c));
    assert ReadUnderAt(s.v, n, AxisOf(m, c)) == {reading} + ReadUnderAt(s.v, x, reading);
    assert reading in m.series && x < n;
    hide Typed, Fits, Stateful, ReadUnderAt, Means, WholeMarket, Implements, LetsAccepted, Served, LinesDrawn, LetTypes,
      ParamsFit, Scope.WellFormed;
    Evaluates(m, s, lets, types, x, t, inner, until);
    AtOf(m, s, lets, n, x, AxisOf(m, c), reading, t, until);
  }

  lemma AtOf(m: Market, s: Scope, lets: seq<(string, Node)>, n: Node, x: Node, r: Reading, inner: Reading, t: Type, until: int)
    requires WholeMarket(m, s.v) && r in m.series && n.At? && ThroughAt(s.v, n, r) == (x, inner)
    requires Means(m, s, lets, x, inner, t, until)
    ensures Means(m, s, lets, n, r, t, until)
  {
    CutKeeps(m, s.v, r, until);
    CutKeeps(m, s.v, inner, until);
    AlignedAgrees(m, s.v, inner, r, until, Vector(m, s.v, s.catalogue, lets, x, inner),
                  Vector(Cut(m, until), s.v, s.catalogue, lets, x, inner), t);
    hide Cut, WholeMarket, Agrees, Picked, Come, ThroughAt, Aligned;
    AtVector(m, s, lets, n, x, r, inner);
    AtVector(Cut(m, until), s, lets, n, x, r, inner);
    hide Vector;
  }

  lemma AtVector(m: Market, s: Scope, lets: seq<(string, Node)>, n: Node, x: Node, r: Reading, inner: Reading)
    requires r in m.series && inner in m.series && n.At? && ThroughAt(s.v, n, r) == (x, inner)
    ensures Vector(m, s.v, s.catalogue, lets, n, r) ==
            Picked(Vector(m, s.v, s.catalogue, lets, x, inner), Aligned(m.series[inner].available, m.series[r].available))
  {
    hide Picked, Aligned, ThroughAt;
  }

  // ---- functions and indicators ----------------------------------------------------------------------------------

  lemma IndicatorMeans(m: Market, s: Scope, lets: seq<(string, Node)>, n: Node, t: Type, c: Context, until: int)
    requires s.WellFormed() && WholeMarket(m, s.v) && ParamsFit(s, m.params) && LinesDrawn(s.catalogue)
    requires Computable(m, s, n, t, c) && (n.Field? || (n.Call? && n.callee !in s.v.functions))
    ensures Means(m, s, lets, n, AxisOf(m, c), t, until)
  {
    var call, line := if n.Field? then n.value else n, if n.Field? then Some(n.line) else None;
    assert call.Call? && call.callee in s.catalogue && IndicatorFits(s, call.callee, call.args, call.kwargs, line) && t == Number;
    CutKeeps(m, s.v, AxisOf(m, c), until);
    hide Typed, Fits, Stateful, ReadUnderAt, IndicatorFits, WholeMarket, Cut, Agrees, Drawn, LinesDrawn, ParamsFit, Come,
      Scope.WellFormed;
    DrawnAgrees(m, s, call, line, AxisOf(m, c), until);
    DrawnVector(m, s, lets, n, AxisOf(m, c));
    DrawnVector(Cut(m, until), s, lets, n, AxisOf(m, c));
    hide Vector;
  }

  lemma DrawnVector(m: Market, s: Scope, lets: seq<(string, Node)>, n: Node, r: Reading)
    requires r in m.series && (n.Field? || (n.Call? && n.callee !in s.v.functions))
    ensures Vector(m, s.v, s.catalogue, lets, n, r) ==
            Drawn(m, s.catalogue, if n.Field? then n.value else n, if n.Field? then Some(n.line) else None, r)
  {
    hide Drawn;
  }

  lemma CallParts(s: Scope, n: Node, t: Type, c: Context)
    requires s.WellFormed() && Typed(s, n, Some(t), c) && n.Call? && n.callee in s.v.functions
    ensures ArityFits(s.v.functions[n.callee], |n.args|) && t == s.v.functions[n.callee].gives && Children(n) == n.args
    ensures forall i :: 0 <= i < |n.args| ==>
      ArgFits(s, KindOf(s.v.functions[n.callee], i), n.args[i], ArgContext(s, n.callee, c))
  {
    hide Fits, ArgFits;
    assert n.kwargs == [];
  }

  lemma CallMeans(m: Market, s: Scope, lets: seq<(string, Node)>, types: seq<Type>, n: Node, t: Type, c: Context, until: int)
    requires Ready(m, s, lets, types) && Computable(m, s, n, t, c) && n.Call? && n.callee in s.v.functions
    ensures Means(m, s, lets, n, AxisOf(m, c), t, until)
    decreases |lets|, n, 2
  {
    CallParts(s, n, t, c);
    CallIsNoEntry(m, s, n);
    var r := AxisOf(m, c);
    hide Typed, Stateful, ReadUnderAt, Vector, ArgAgrees, Vectors, Cut, ArgFits, ArgContext;
    forall i | 0 <= i < |n.args| ensures ArgIs(m, s, lets, n, i, r, until) {
      ArgMeans(m, s, lets, types, n, t, c, i, until);
    }
    hide ArgIs;
    CallOf(m, s, lets, n, r, until);
  }

  lemma CallIsNoEntry(m: Market, s: Scope, n: Node)
    requires Implements(m, s.v) && n.Call? && n.callee in s.v.functions && !Stateful(s.v, n)
    ensures n.callee in m.shapes && !m.shapes[n.callee].AtEntry? && s.v.functions[n.callee] == Signature(m.shapes[n.callee])
  {
  }

  ghost predicate ArgIs(m: Market, s: Scope, lets: seq<(string, Node)>, n: Node, i: nat, r: Reading, until: int)
    requires n.Call? && n.callee in m.shapes && i < |n.args|
  {
    && r in m.series
    && ArgAgrees(s, KindOf(Signature(m.shapes[n.callee]), i), n.args[i], Vector(m, s.v, s.catalogue, lets, n.args[i], r),
                 Vector(Cut(m, until), s.v, s.catalogue, lets, n.args[i], r), Size(m, r), Known(m, r, until))
  }

  lemma ArgMeans(m: Market, s: Scope, lets: seq<(string, Node)>, types: seq<Type>, n: Node, t: Type, c: Context, i: nat,
                 until: int)
    requires Ready(m, s, lets, types) && Computable(m, s, n, t, c) && n.Call? && n.callee in s.v.functions && i < |n.args|
    requires n.callee in m.shapes && s.v.functions[n.callee] == Signature(m.shapes[n.callee])
    ensures ArgIs(m, s, lets, n, i, AxisOf(m, c), until)
    decreases |lets|, n, 1
  {
    CallParts(s, n, t, c);
    var kind := KindOf(Signature(m.shapes[n.callee]), i);
    assert ArgFits(s, kind, n.args[i], ArgContext(s, n.callee, c));
    hide Typed, Stateful, ReadUnderAt, Vector, Cut, Agrees, WindowFits, SessionFits;
    if kind.OfType? {
      PartMeans(m, s, lets, types, n, i, kind.t, c, ArgContext(s, n.callee, c), until);
    }
    hide Fits;
  }

  lemma CallOf(m: Market, s: Scope, lets: seq<(string, Node)>, n: Node, r: Reading, until: int)
    requires Implements(m, s.v) && WholeMarket(m, s.v) && ParamsFit(s, m.params) && r in m.series
    requires n.Call? && n.callee in s.v.functions && n.callee in m.shapes && !m.shapes[n.callee].AtEntry?
    requires s.v.functions[n.callee] == Signature(m.shapes[n.callee]) && ArityFits(s.v.functions[n.callee], |n.args|)
    requires ReadUnderAt(s.v, n, r) <= m.series.Keys
    requires forall i :: 0 <= i < |n.args| ==> ArgIs(m, s, lets, n, i, r, until)
    ensures Means(m, s, lets, n, r, s.v.functions[n.callee].gives, until)
  {
    assert n.args != [];
    hide *;
    CutKeeps(m, s.v, r, until);
    var columns, early := Vectors(m, s, lets, n.args, r), Vectors(Cut(m, until), s, lets, n.args, r);
    CallVector(m, s, lets, n, r);
    CallVector(Cut(m, until), s, lets, n, r);
    FirstReads(m, s, n, r);
    ArgsGathered(m, s, lets, n, r, until);
    AppliedAgrees(m, s, m.shapes[n.callee], n.args, columns, early, r, until);
    MeansIs(m, s, lets, n, r, s.v.functions[n.callee].gives, until);
  }

  lemma MeansIs(m: Market, s: Scope, lets: seq<(string, Node)>, n: Node, r: Reading, t: Type, until: int)
    requires r in m.series
    requires Agrees(Vector(m, s.v, s.catalogue, lets, n, r), Vector(Cut(m, until), s.v, s.catalogue, lets, n, r), t,
                    Size(m, r), Known(m, r, until))
    ensures Means(m, s, lets, n, r, t, until)
  {
    hide Agrees, Vector, Cut;
  }

  lemma ArgsGathered(m: Market, s: Scope, lets: seq<(string, Node)>, n: Node, r: Reading, until: int)
    requires r in m.series && n.Call? && n.callee in m.shapes && ArityFits(Signature(m.shapes[n.callee]), |n.args|)
    requires forall i :: 0 <= i < |n.args| ==> ArgIs(m, s, lets, n, i, r, until)
    ensures ArgsAgree(s, m.shapes[n.callee], n.args, Vectors(m, s, lets, n.args, r), Vectors(Cut(m, until), s, lets, n.args, r),
                      Size(m, r), Known(m, r, until))
  {
    hide Cut, ArgAgrees, Vector, Come, Signature;
    forall i | 0 <= i < |n.args|
      ensures ArgAgrees(s, KindOf(Signature(m.shapes[n.callee]), i), n.args[i], Vectors(m, s, lets, n.args, r)[i],
                        Vectors(Cut(m, until), s, lets, n.args, r)[i], Size(m, r), Known(m, r, until))
    {
      assert ArgIs(m, s, lets, n, i, r, until);
    }
  }

  lemma CallVector(m: Market, s: Scope, lets: seq<(string, Node)>, n: Node, r: Reading)
    requires r in m.series && n.Call? && n.callee in s.v.functions && n.callee in m.shapes
    ensures Vector(m, s.v, s.catalogue, lets, n, r) ==
            Applied(m, s.v, m.shapes[n.callee], n.args, Vectors(m, s, lets, n.args, r), r)
  {
    hide Applied;
    assert seq(|n.args|, i requires 0 <= i < |n.args| => Vector(m, s.v, s.catalogue, lets, n.args[i], r))
           == Vectors(m, s, lets, n.args, r);
  }

  lemma FirstReads(m: Market, s: Scope, n: Node, r: Reading)
    requires n.Call? && ReadUnderAt(s.v, n, r) <= m.series.Keys
    ensures n.args != [] ==> ReadUnderAt(s.v, n.args[0], r) <= m.series.Keys
  {
    if n.args != [] {
      assert Children(n)[0] == n.args[0];
      forall q | q in ReadUnderAt(s.v, n.args[0], r) ensures q in m.series.Keys {
        assert q in ReadUnderAt(s.v, n, r);
      }
    }
  }

  /** What the run cut short has of an accepted formula is what the whole run had by then. */
  lemma NothingLooksAhead(m: Market, s: Scope, lets: seq<(string, Node)>, types: seq<Type>, n: Node, t: Type, c: Context,
                          until: int)
    requires Ready(m, s, lets, types) && Computable(m, s, n, t, c)
    ensures var all := Vector(m, s.v, s.catalogue, lets, n, AxisOf(m, c));
      && all.Some? && all.value.Kind() == t && all.value.Length() == Size(m, AxisOf(m, c)) >= Known(m, AxisOf(m, c), until)
      && Vector(Cut(m, until), s.v, s.catalogue, lets, n, AxisOf(m, c)) == Some(all.value.First(Known(m, AxisOf(m, c), until)))
  {
    Evaluates(m, s, lets, types, n, t, c, until);
    var r := AxisOf(m, c);
    AgreesIsFirst(Vector(m, s.v, s.catalogue, lets, n, r), Vector(Cut(m, until), s.v, s.catalogue, lets, n, r), t, Size(m, r),
                  Known(m, r, until));
    hide Ready, Computable, Vector, Cut, Come;
  }

  // ---- one bar, with the trade's state ---------------------------------------------------------------------------

  /** A formula as the engine asks for it, on one bar of decisions. */
  ghost predicate Askable(m: Market, s: Scope, n: Node, t: Type, bar: nat, trade: Trade)
    requires s.WellFormed()
  {
    && Typed(s, n, Some(t), HERE) && m.decision in m.series && ReadUnderAt(s.v, n, m.decision) <= m.series.Keys
    && trade.entryBar <= bar < Size(m, m.decision) && trade.names.Keys == s.v.position + s.v.history
  }

  /** It has a value of its type, which is the same in a run that stops once the bar is known. */
  ghost predicate BarMeans(m: Market, s: Scope, lets: seq<(string, Node)>, n: Node, t: Type, bar: nat, trade: Trade, until: int)
    requires m.decision in m.series
  {
    var cell := OnBar(m, s.v, s.catalogue, lets, n, bar, trade);
    && cell.Some? && cell.value.Kind() == t
    && (bar < Known(m, m.decision, until) ==> OnBar(Cut(m, until), s.v, s.catalogue, lets, n, bar, trade) == cell)
  }

  lemma CellAgrees(a: Option<Column>, early: Option<Column>, t: Type, size: nat, k: nat, bar: nat)
    requires Agrees(a, early, t, size, k) && bar < size
    ensures CellAt(a, bar).Some? && CellAt(a, bar).value.Kind() == t && (bar < k ==> CellAt(early, bar) == CellAt(a, bar))
  {
  }

  lemma PlainBar(m: Market, s: Scope, lets: seq<(string, Node)>, types: seq<Type>, n: Node, t: Type, bar: nat, trade: Trade,
                 until: int)
    requires Ready(m, s, lets, types) && Askable(m, s, n, t, bar, trade) && !Stateful(s.v, n)
    ensures BarMeans(m, s, lets, n, t, bar, trade, until)
  {
    hide Ready, Vector, Cut, Come, Agrees, CellAt, BarMeans, OnBar;
    assert AxisOf(m, HERE) == m.decision;
    Evaluates(m, s, lets, types, n, t, HERE, until);
    hide Typed, ReadUnderAt, Stateful;
    PlainOnBar(m, s, lets, n, t, bar, trade, until);
  }

  lemma PlainOnBar(m: Market, s: Scope, lets: seq<(string, Node)>, n: Node, t: Type, bar: nat, trade: Trade, until: int)
    requires m.decision in m.series && bar < Size(m, m.decision) && !Stateful(s.v, n)
    requires Means(m, s, lets, n, m.decision, t, until)
    ensures BarMeans(m, s, lets, n, t, bar, trade, until)
  {
    CellAgrees(Vector(m, s.v, s.catalogue, lets, n, m.decision), Vector(Cut(m, until), s.v, s.catalogue, lets, n, m.decision), t,
               Size(m, m.decision), Known(m, m.decision, until), bar);
    assert Cut(m, until).decision == m.decision;
    PlainCell(m, s, lets, n, bar, trade);
    PlainCell(Cut(m, until), s, lets, n, bar, trade);
    hide Vector, Cut, Come, Agrees, CellAt, Stateful, OnBar;
  }

  lemma PlainCell(m: Market, s: Scope, lets: seq<(string, Node)>, n: Node, bar: nat, trade: Trade)
    requires !Stateful(s.v, n)
    ensures OnBar(m, s.v, s.catalogue, lets, n, bar, trade) == CellAt(Vector(m, s.v, s.catalogue, lets, n, m.decision), bar)
  {
    hide Vector, CellAt, Stateful;
  }

  /** Only a name, an operator, a choice, the entry's own function and the functions of one bar can carry the trade's state in
      an accepted formula. */
  lemma StateIsCarriedBy(m: Market, s: Scope, n: Node, t: Option<Type>, c: Context)
    requires s.WellFormed() && Implements(m, s.v) && Typed(s, n, t, c) && Stateful(s.v, n)
    ensures n.Name? || IsOperator(n) || n.IfElse?
            || (n.Call? && n.callee in s.v.functions && n.callee in m.shapes
                && (m.shapes[n.callee].AtEntry? || m.shapes[n.callee].AbsoluteOf? || m.shapes[n.callee].ExtremeOf?))
  {
    if n.Lag? || n.At? {
      ReadNotStateful(m, s, n, t, c);
    } else if n.Field? {
      IndicatorNotStateful(m, s, n.value, Some(n.line));
      hide Typed;
      PartsNotStateful(s.v, n);
    } else if n.Call? && n.callee !in s.v.functions {
      IndicatorNotStateful(m, s, n, None);
    } else if n.Call? && n.callee !in s.v.perBar {
      SeriesCallNotStateful(m, s, n, t, c);
    } else {
      hide Typed;
    }
  }

  lemma SeriesCallNotStateful(m: Market, s: Scope, n: Node, t: Option<Type>, c: Context)
    requires s.WellFormed() && Implements(m, s.v) && Typed(s, n, t, c)
    requires n.Call? && n.callee in s.v.functions && n.callee !in s.v.perBar
    ensures !Stateful(s.v, n) || n.callee == "at_entry"
  {
    forall i | 0 <= i < |n.args| ensures !Stateful(s.v, n.args[i]) {
      var spec := s.v.functions[n.callee];
      assert ArgFits(s, KindOf(spec, i), n.args[i], ArgContext(s, n.callee, c));
      match KindOf(spec, i)
      case OfType(wanted) => ChildNotStateful(m, s, n, n.args[i], wanted, ArgContext(s, n.callee, c));
      case _ => PlainIsNotStateful(s.v, n.args[i]);
    }
    assert n.kwargs == [];
    hide Typed;
    assert Children(n) == n.args;
    if n.callee != "at_entry" {
      PartsNotStateful(s.v, n);
    }
  }

  /** Each part of a formula is asked for on the same bar. */
  lemma PartBar(m: Market, s: Scope, lets: seq<(string, Node)>, types: seq<Type>, n: Node, i: nat, t: Type, bar: nat,
                trade: Trade, until: int)
    requires Ready(m, s, lets, types) && !n.At? && i < |Children(n)| && Fits(s, Children(n)[i], t, HERE)
    requires m.decision in m.series && ReadUnderAt(s.v, n, m.decision) <= m.series.Keys
    requires trade.entryBar <= bar < Size(m, m.decision) && trade.names.Keys == s.v.position + s.v.history
    ensures BarMeans(m, s, lets, Children(n)[i], t, bar, trade, until)
    decreases n, 0
  {
    FitsIsTyped(s, Children(n)[i], t, HERE);
    PartReads(m, s.v, n, i, m.decision);
    assert Children(n)[i] in Children(n);
    hide Typed, Fits, ReadUnderAt, Ready, Stateful;
    EveryBar(m, s, lets, types, Children(n)[i], t, bar, trade, until);
  }

  lemma PartReads(m: Market, v: Vocabulary, n: Node, i: nat, r: Reading)
    requires !n.At? && i < |Children(n)| && ReadUnderAt(v, n, r) <= m.series.Keys
    ensures ReadUnderAt(v, Children(n)[i], r) <= m.series.Keys
  {
    forall q | q in ReadUnderAt(v, Children(n)[i], r) ensures q in m.series.Keys {
      assert q in ReadUnderAt(v, n, r);
    }
  }

  /** On every bar of decisions an accepted formula has a value of its type, whatever the trade's state; and the value depends
      on nothing that was not known by then. */
  lemma {:induction false} EveryBar(m: Market, s: Scope, lets: seq<(string, Node)>, types: seq<Type>, n: Node, t: Type, bar: nat,
                                    trade: Trade, until: int)
    requires Ready(m, s, lets, types) && Askable(m, s, n, t, bar, trade)
    ensures BarMeans(m, s, lets, n, t, bar, trade, until)
    decreases n, 3
  {
    hide Typed, ReadUnderAt, BarMeans, WholeMarket, LetsAccepted, Served, LinesDrawn, LetTypes, ParamsFit, Scope.WellFormed,
      Implements, Come;
    if !Stateful(s.v, n) {
      PlainBar(m, s, lets, types, n, t, bar, trade, until);
    } else {
      StateIsCarriedBy(m, s, n, Some(t), HERE);
      if n.Name? {
        NameBar(m, s, lets, n, t, bar, trade, until);
      } else if IsOperator(n) {
        OperatorBar(m, s, lets, types, n, t, bar, trade, until);
      } else if n.IfElse? {
        ChoiceBar(m, s, lets, types, n, t, bar, trade, until);
      } else {
        CallBar(m, s, lets, types, n, t, bar, trade, until);
      }
    }
  }

  lemma NameBar(m: Market, s: Scope, lets: seq<(string, Node)>, n: Node, t: Type, bar: nat, trade: Trade, until: int)
    requires s.WellFormed() && Askable(m, s, n, t, bar, trade) && n.Name? && Stateful(s.v, n)
    ensures BarMeans(m, s, lets, n, t, bar, trade, until)
  {
    assert s.v.State(n.id) && t == Number;
    hide Typed, ReadUnderAt, Cut, Come, Vector;
  }

  lemma OperatorBar(m: Market, s: Scope, lets: seq<(string, Node)>, types: seq<Type>, n: Node, t: Type, bar: nat, trade: Trade,
                    until: int)
    requires Ready(m, s, lets, types) && Askable(m, s, n, t, bar, trade) && IsOperator(n) && Stateful(s.v, n)
    ensures BarMeans(m, s, lets, n, t, bar, trade, until)
    decreases n, 2
  {
    OperatorParts(s, n, Some(t), HERE);
    hide Typed, Fits, ReadUnderAt, BarMeans, Ready, Come, PartType;
    forall i | 0 <= i < |Children(n)| ensures BarMeans(m, s, lets, Children(n)[i], PartType(n), bar, trade, until) {
      PartBar(m, s, lets, types, n, i, PartType(n), bar, trade, until);
    }
    OperatorOnBar(m, s, lets, n, bar, trade, until);
  }

  lemma OperatorOnBar(m: Market, s: Scope, lets: seq<(string, Node)>, n: Node, bar: nat, trade: Trade, until: int)
    requires m.decision in m.series && IsOperator(n) && Stateful(s.v, n)
    requires forall i :: 0 <= i < |Children(n)| ==> BarMeans(m, s, lets, Children(n)[i], PartType(n), bar, trade, until)
    ensures BarMeans(m, s, lets, n, ResultType(n), bar, trade, until)
  {
    hide Come, Stateful;
    if n.Compare? || n.Logic? {
      ManyOnBar(m, s, lets, n, bar, trade, until);
    } else {
      assert BarMeans(m, s, lets, Children(n)[0], PartType(n), bar, trade, until);
      if n.Arith? { assert BarMeans(m, s, lets, Children(n)[1], PartType(n), bar, trade, until); }
      hide Cut, Vector, Calculate;
    }
  }

  function Cells(m: Market, s: Scope, lets: seq<(string, Node)>, xs: seq<Node>, bar: nat, trade: Trade)
    : (cells: seq<Option<Cell>>)
    ensures |cells| == |xs| && forall i :: 0 <= i < |xs| ==> cells[i] == OnBar(m, s.v, s.catalogue, lets, xs[i], bar, trade)
  {
    seq(|xs|, i requires 0 <= i < |xs| => OnBar(m, s.v, s.catalogue, lets, xs[i], bar, trade))
  }

  lemma ManyOnBar(m: Market, s: Scope, lets: seq<(string, Node)>, n: Node, bar: nat, trade: Trade, until: int)
    requires m.decision in m.series && (n.Compare? || n.Logic?) && Stateful(s.v, n)
    requires forall i :: 0 <= i < |Children(n)| ==> BarMeans(m, s, lets, Children(n)[i], PartType(n), bar, trade, until)
    ensures BarMeans(m, s, lets, n, Condition, bar, trade, until)
  {
    var xs := Children(n);
    var cells, early := Cells(m, s, lets, xs, bar, trade), Cells(Cut(m, until), s, lets, xs, bar, trade);
    ManyCells(m, s, lets, n, bar, trade);
    ManyCells(Cut(m, until), s, lets, n, bar, trade);
    hide Cut, Come, Stateful, OnBar, Cells, CellChain, CellJoin;
    forall i | 0 <= i < |xs|
      ensures cells[i].Some? && cells[i].value.Kind() == PartType(n)
      ensures bar < Known(m, m.decision, until) ==> early[i] == cells[i]
    {
      assert BarMeans(m, s, lets, xs[i], PartType(n), bar, trade, until);
    }
    assert bar < Known(m, m.decision, until) ==> early == cells;
  }

  lemma ManyCells(m: Market, s: Scope, lets: seq<(string, Node)>, n: Node, bar: nat, trade: Trade)
    requires (n.Compare? || n.Logic?) && Stateful(s.v, n)
    ensures var cells := Cells(m, s, lets, Children(n), bar, trade);
      && (n.Compare? ==>
            OnBar(m, s.v, s.catalogue, lets, n, bar, trade) ==
            if AllCells(cells, Number) then Some(C(CellChain(n.ops, cells))) else None)
      && (n.Logic? ==>
            OnBar(m, s.v, s.catalogue, lets, n, bar, trade) ==
            if AllCells(cells, Condition) then Some(C(CellJoin(n.joins, cells))) else None)
  {
    hide Stateful, CellChain, CellJoin, AllCells;
    var xs := Children(n);
    assert seq(|xs|, i requires 0 <= i < |xs| => OnBar(m, s.v, s.catalogue, lets, xs[i], bar, trade))
           == Cells(m, s, lets, xs, bar, trade);
  }

  lemma ChoiceBar(m: Market, s: Scope, lets: seq<(string, Node)>, types: seq<Type>, n: Node, t: Type, bar: nat, trade: Trade,
                  until: int)
    requires Ready(m, s, lets, types) && Askable(m, s, n, t, bar, trade) && n.IfElse? && Stateful(s.v, n)
    ensures BarMeans(m, s, lets, n, t, bar, trade, until)
    decreases n, 2
  {
    hide Typed, Fits, ReadUnderAt, BarMeans, Come, WholeMarket, Implements, LetsAccepted, Served, LinesDrawn, LetTypes, ParamsFit,
      Scope.WellFormed, Stateful;
    ChoiceParts(s, n, t, HERE);
    assert Children(n) == [n.condition, n.then_, n.otherwise];
    PartBar(m, s, lets, types, n, 0, Condition, bar, trade, until);
    PartBar(m, s, lets, types, n, 1, t, bar, trade, until);
    PartBar(m, s, lets, types, n, 2, t, bar, trade, until);
    ChoiceOnBar(m, s, lets, n, t, bar, trade, until);
  }

  lemma ChoiceOnBar(m: Market, s: Scope, lets: seq<(string, Node)>, n: Node, t: Type, bar: nat, trade: Trade, until: int)
    requires m.decision in m.series && n.IfElse? && Stateful(s.v, n)
    requires BarMeans(m, s, lets, n.condition, Condition, bar, trade, until)
    requires BarMeans(m, s, lets, n.then_, t, bar, trade, until) && BarMeans(m, s, lets, n.otherwise, t, bar, trade, until)
    ensures BarMeans(m, s, lets, n, t, bar, trade, until)
  {
    hide Cut, Come, Stateful, Vector;
  }

  lemma CallBar(m: Market, s: Scope, lets: seq<(string, Node)>, types: seq<Type>, n: Node, t: Type, bar: nat, trade: Trade,
                until: int)
    requires Ready(m, s, lets, types) && Askable(m, s, n, t, bar, trade) && Stateful(s.v, n)
    requires n.Call? && n.callee in s.v.functions && n.callee in m.shapes
    requires m.shapes[n.callee].AtEntry? || m.shapes[n.callee].AbsoluteOf? || m.shapes[n.callee].ExtremeOf?
    ensures BarMeans(m, s, lets, n, t, bar, trade, until)
    decreases n, 2
  {
    hide Typed, Fits, ReadUnderAt, BarMeans, Come, WholeMarket, LetsAccepted, Served, LinesDrawn, LetTypes, ParamsFit,
      Scope.WellFormed, Stateful;
    CallParts(s, n, t, HERE);
    assert s.v.functions[n.callee] == Signature(m.shapes[n.callee]) && t == Number && n.args != [];
    if m.shapes[n.callee].AtEntry? {
      EntryBar(m, s, lets, types, n, bar, trade, until);
    } else {
      forall i | 0 <= i < |n.args| ensures BarMeans(m, s, lets, n.args[i], Number, bar, trade, until) {
        assert ArgFits(s, KindOf(s.v.functions[n.callee], i), n.args[i], ArgContext(s, n.callee, HERE));
        PartBar(m, s, lets, types, n, i, Number, bar, trade, until);
      }
      PerBarOnBar(m, s, lets, n, bar, trade, until);
    }
  }

  lemma EntryArgument(m: Market, s: Scope, n: Node)
    requires s.WellFormed() && s.untyped == {} && Implements(m, s.v)
    requires n.Call? && n.callee in s.v.functions && n.callee in m.shapes && m.shapes[n.callee].AtEntry? && n.args != []
    requires ArgFits(s, KindOf(s.v.functions[n.callee], 0), n.args[0], ArgContext(s, n.callee, HERE))
    requires m.decision in m.series && ReadUnderAt(s.v, n, m.decision) <= m.series.Keys
    ensures Computable(m, s, n.args[0], Number, HERE.OverBars())
  {
    FitsIsTyped(s, n.args[0], Number, HERE.OverBars());
    NotStateful(m, s, n.args[0], Some(Number), HERE.OverBars());
    FirstReads(m, s, n, m.decision);
    hide Typed, Fits, Stateful, ReadUnderAt;
  }

  lemma EntryBar(m: Market, s: Scope, lets: seq<(string, Node)>, types: seq<Type>, n: Node, bar: nat, trade: Trade, until: int)
    requires Ready(m, s, lets, types) && m.decision in m.series && ReadUnderAt(s.v, n, m.decision) <= m.series.Keys
    requires n.Call? && n.callee in s.v.functions && n.callee in m.shapes && m.shapes[n.callee].AtEntry? && n.args != []
    requires ArgFits(s, KindOf(s.v.functions[n.callee], 0), n.args[0], ArgContext(s, n.callee, HERE))
    requires Stateful(s.v, n) && trade.entryBar <= bar < Size(m, m.decision)
    ensures BarMeans(m, s, lets, n, Number, bar, trade, until)
  {
    EntryArgument(m, s, n);
    hide Ready, Typed, Fits, ArgFits, ReadUnderAt, Stateful, Come, Vector, Agrees, CellAt, Implements;
    assert AxisOf(m, HERE.OverBars()) == m.decision;
    Evaluates(m, s, lets, types, n.args[0], Number, HERE.OverBars(), until);
    EntryOnBar(m, s, lets, n, bar, trade, until);
  }

  lemma EntryOnBar(m: Market, s: Scope, lets: seq<(string, Node)>, n: Node, bar: nat, trade: Trade, until: int)
    requires m.decision in m.series && trade.entryBar <= bar < Size(m, m.decision) && Stateful(s.v, n)
    requires n.Call? && n.callee in m.shapes && m.shapes[n.callee].AtEntry? && n.args != []
    requires Means(m, s, lets, n.args[0], m.decision, Number, until)
    ensures BarMeans(m, s, lets, n, Number, bar, trade, until)
  {
    var a, early := Vector(m, s.v, s.catalogue, lets, n.args[0], m.decision),
                    Vector(Cut(m, until), s.v, s.catalogue, lets, n.args[0], m.decision);
    if trade.entryBar >= 0 {
      CellAgrees(a, early, Number, Size(m, m.decision), Known(m, m.decision, until), trade.entryBar);
    }
    assert Cut(m, until).shapes == m.shapes && Cut(m, until).decision == m.decision;
    hide Stateful, Come, Vector, Agrees, Cut, CellAt;
  }

  lemma PerBarOnBar(m: Market, s: Scope, lets: seq<(string, Node)>, n: Node, bar: nat, trade: Trade, until: int)
    requires m.decision in m.series && n.Call? && n.callee in m.shapes && n.args != [] && Stateful(s.v, n)
    requires m.shapes[n.callee].AbsoluteOf? || m.shapes[n.callee].ExtremeOf?
    requires forall i :: 0 <= i < |n.args| ==> BarMeans(m, s, lets, n.args[i], Number, bar, trade, until)
    ensures BarMeans(m, s, lets, n, Number, bar, trade, until)
  {
    var cells, early := Cells(m, s, lets, n.args, bar, trade), Cells(Cut(m, until), s, lets, n.args, bar, trade);
    assert Cut(m, until).shapes == m.shapes && Cut(m, until).decision == m.decision;
    PerBarCells(m, s, lets, n, bar, trade);
    PerBarCells(Cut(m, until), s, lets, n, bar, trade);
    hide Cut, Come, Stateful, OnBar, Cells, Magnitude, BestCell;
    forall i | 0 <= i < |n.args|
      ensures cells[i].Some? && cells[i].value.Kind() == Number && (bar < Known(m, m.decision, until) ==> early[i] == cells[i])
    {
      assert BarMeans(m, s, lets, n.args[i], Number, bar, trade, until);
    }
    assert bar < Known(m, m.decision, until) ==> early == cells;
  }

  lemma PerBarCells(m: Market, s: Scope, lets: seq<(string, Node)>, n: Node, bar: nat, trade: Trade)
    requires n.Call? && n.callee in m.shapes && n.args != [] && Stateful(s.v, n)
    requires m.shapes[n.callee].AbsoluteOf? || m.shapes[n.callee].ExtremeOf?
    ensures var cells := Cells(m, s, lets, n.args, bar, trade);
      OnBar(m, s.v, s.catalogue, lets, n, bar, trade) ==
      if !AllCells(cells, Number) then None
      else if m.shapes[n.callee].AbsoluteOf? then Some(N(Magnitude(cells[0].value.x)))
      else Some(N(BestCell(m.shapes[n.callee].least, cells)))
  {
    hide Stateful, Magnitude, BestCell;
    assert seq(|n.args|, i requires 0 <= i < |n.args| => OnBar(m, s.v, s.catalogue, lets, n.args[i], bar, trade))
           == Cells(m, s, lets, n.args, bar, trade);
  }

  // ---- where the promise ends ------------------------------------------------------------------------------------

  /** A parameter declared whole is checked to stay within its bounds, not to be given a whole value: an indicator that takes
      whole values is asked for one exactly when the run gave one. */
  lemma AskedWholeExactly(s: Scope, params: map<string, real>, p: string, f: string, q: IndicatorParam, line: string, r: Reading)
    requires s.WellFormed() && ParamsFit(s, params) && p in s.params && s.params[p].Integer()
    requires f in s.catalogue && f !in s.v.functions && s.catalogue[f] == Indicator(true, [q], [line])
    requires q.integer && q.min <= s.params[p].min && s.params[p].max <= q.max
    ensures Typed(s, Call(f, [Param(p)], []), Some(Number), HERE)
    ensures KeyOf(params, s.catalogue, f, [Param(p)], [], None, r).Some?
    ensures q.name in KeyOf(params, s.catalogue, f, [Param(p)], [], None, r).value.params
    ensures IsInteger(KeyOf(params, s.catalogue, f, [Param(p)], [], None, r).value.params[q.name]) <==> IsInteger(params[p])
  {
    assert IndicatorFits(s, f, [Param(p)], [], None);
    var given := Given(s.catalogue[f], [Param(p)], []);
    assert InOrder([q], [Param(p)], 0) == map[];
    assert given == map[q.name := Param(p)];
  }

  /** An indicator that draws lines but names none is accepted, and there is nothing to ask the archive for. */
  lemma LinelessHasNoKey(s: Scope, params: map<string, real>, f: string, args: seq<Node>, kwargs: seq<(string, Node)>, r: Reading)
    requires s.WellFormed() && f in s.catalogue && f !in s.v.functions
    requires s.catalogue[f].drawsLines && s.catalogue[f].lines == []
    ensures KeyOf(params, s.catalogue, f, args, kwargs, None, r) == None
    ensures Typed(s, Call(f, [], []), Some(Number), HERE)
  {
    assert IndicatorFits(s, f, [], [], None);
  }
}
