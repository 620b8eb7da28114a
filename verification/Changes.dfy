/** What one revision of a document changed against another, and that the list says all of it. */
module Changes {
  import opened Wrappers

  datatype Json =
    | Null
    | Bool(truth: bool)
    | Num(number: real)
    | Text(text: string)
    | List(items: seq<Json>)
    | Dict(entries: seq<(string, Json)>)

  // ---- dictionaries ----------------------------------------------------------------------------------------------

  function Get(entries: seq<(string, Json)>, key: string): (value: Option<Json>)
    ensures value.Some? ==> (key, value.value) in entries
  {
    if entries == [] then None
    else if entries[0].0 == key then Some(entries[0].1)
    else Get(entries[1..], key)
  }

  function Keys(entries: seq<(string, Json)>): (keys: seq<string>)
    ensures |keys| == |entries|
    ensures forall k :: k in keys <==> Get(entries, k).Some?
  {
    if entries == [] then [] else [entries[0].0] + Keys(entries[1..])
  }

  predicate Distinct<T(==)>(s: seq<T>) {
    forall i, j :: 0 <= i < j < |s| ==> s[i] != s[j]
  }

  /** A dictionary holds each key once, at every depth. */
  predicate Valid(v: Json) {
    match v
    case List(items) => forall x :: x in items ==> Valid(x)
    case Dict(entries) => Distinct(Keys(entries)) && forall e :: e in entries ==> Valid(e.1)
    case _ => true
  }

  predicate ValidSlot(v: Option<Json>) { v.Some? ==> Valid(v.value) }

  function Item(items: seq<Json>, i: nat): (value: Option<Json>)
    ensures value.Some? ==> value.value in items
  {
    if i < |items| then Some(items[i]) else None
  }

  // ---- size, for the recursions that follow two documents at once ------------------------------------------------

  function Size(v: Json): nat
    decreases v, 1, 0
  {
    match v
    case List(items) => 1 + ItemsSize(v, 0)
    case Dict(entries) => 1 + EntriesSize(v, 0)
    case _ => 1
  }

  function ItemsSize(v: Json, from: nat): nat
    requires v.List? && from <= |v.items|
    decreases v, 0, |v.items| - from
  {
    if from == |v.items| then 0 else Size(v.items[from]) + ItemsSize(v, from + 1)
  }

  function EntriesSize(v: Json, from: nat): nat
    requires v.Dict? && from <= |v.entries|
    decreases v, 0, |v.entries| - from
  {
    if from == |v.entries| then 0 else Size(v.entries[from].1) + EntriesSize(v, from + 1)
  }

  function SlotSize(v: Option<Json>): nat { if v.Some? then Size(v.value) else 0 }

  lemma {:induction false} ItemIsSmaller(v: Json, from: nat, i: nat)
    requires v.List? && from <= |v.items| && from <= i
    ensures SlotSize(Item(v.items, i)) <= ItemsSize(v, from)
    decreases |v.items| - from
  {
    if from < i && from < |v.items| { ItemIsSmaller(v, from + 1, i); }
  }

  lemma {:induction false} EntryIsSmaller(v: Json, from: nat, key: string)
    requires v.Dict? && from <= |v.entries|
    ensures SlotSize(Get(v.entries[from..], key)) <= EntriesSize(v, from)
    decreases |v.entries| - from
  {
    if from < |v.entries| {
      EntryIsSmaller(v, from + 1, key);
      assert v.entries[from..][1..] == v.entries[from + 1..];
    }
  }

  lemma ChildIsSmaller(v: Json, key: string)
    requires v.Dict?
    ensures SlotSize(Get(v.entries, key)) < Size(v)
  {
    EntryIsSmaller(v, 0, key);
    assert v.entries[0..] == v.entries;
  }

  lemma ItemOfIsSmaller(v: Json, i: nat)
    requires v.List?
    ensures SlotSize(Item(v.items, i)) < Size(v)
  {
    ItemIsSmaller(v, 0, i);
  }

  // ---- equality as Python has it ---------------------------------------------------------------------------------

  /** `True` is `1` and `False` is `0`. */
  function Numeric(v: Json): Option<real> {
    match v
    case Bool(truth) => Some(if truth then 1.0 else 0.0)
    case Num(number) => Some(number)
    case _ => None
  }

  /** Dictionaries by key, whatever their order; lists by position. */
  predicate Equal(a: Json, b: Json)
    decreases Size(a)
  {
    match (a, b)
    case (List(xs), List(ys)) =>
      |xs| == |ys| && forall i | 0 <= i < |xs| :: (ItemOfIsSmaller(a, i); Equal(xs[i], ys[i]))
    case (Dict(es), Dict(fs)) =>
      && (forall k | k in Keys(fs) :: Get(es, k).Some?)
      && (forall k | k in Keys(es) ::
            (ChildIsSmaller(a, k); Get(fs, k).Some? && Equal(Get(es, k).value, Get(fs, k).value)))
    case _ => if Numeric(a).Some? then Numeric(a) == Numeric(b) else a == b && !a.List? && !a.Dict?
  }

  predicate EqualSlots(a: Option<Json>, b: Option<Json>) {
    (a.None? && b.None?) || (a.Some? && b.Some? && Equal(a.value, b.value))
  }

  // ---- the walk --------------------------------------------------------------------------------------------------

  datatype Step = Key(key: string) | Index(i: nat)

  type Path = seq<Step>

  datatype Kind = Added | Removed | Changed

  datatype Change = Change(path: Path, kind: Kind, before: Json, after: Json)

  function Between(before: Json, after: Json): seq<Change> { Walk(Some(before), Some(after), []) }

  /** `before`'s keys, then those only `after` has. */
  function AllKeys(es: seq<(string, Json)>, fs: seq<(string, Json)>): seq<string> {
    Keys(es) + Without(Keys(fs), Keys(es))
  }

  function Without(keys: seq<string>, held: seq<string>): (rest: seq<string>)
    ensures forall k :: k in rest <==> k in keys && k !in held
  {
    if keys == [] then []
    else if keys[0] in held then Without(keys[1..], held)
    else [keys[0]] + Without(keys[1..], held)
  }

  predicate BothDicts(b: Option<Json>, a: Option<Json>) { b.Some? && a.Some? && b.value.Dict? && a.value.Dict? }

  predicate BothLists(b: Option<Json>, a: Option<Json>) { b.Some? && a.Some? && b.value.List? && a.value.List? }

  function Longer(xs: seq<Json>, ys: seq<Json>): nat { if |xs| > |ys| then |xs| else |ys| }

  function Walk(before: Option<Json>, after: Option<Json>, path: Path): seq<Change>
    decreases SlotSize(before) + SlotSize(after), 1, 0
  {
    if BothDicts(before, after) then
      WalkKeys(AllKeys(before.value.entries, after.value.entries), before, after, path)
    else if BothLists(before, after) then
      WalkItems(0, Longer(before.value.items, after.value.items), before, after, path)
    else if before.None? && after.None? then []
    else if before.None? then [Change(path, Added, Null, after.value)]
    else if after.None? then [Change(path, Removed, before.value, Null)]
    else if !Equal(before.value, after.value) then [Change(path, Changed, before.value, after.value)]
    else []
  }

  function WalkKeys(keys: seq<string>, before: Option<Json>, after: Option<Json>, path: Path): seq<Change>
    requires BothDicts(before, after)
    decreases SlotSize(before) + SlotSize(after), 0, |keys|
  {
    if keys == [] then []
    else
      ChildIsSmaller(before.value, keys[0]);
      ChildIsSmaller(after.value, keys[0]);
      Walk(Get(before.value.entries, keys[0]), Get(after.value.entries, keys[0]), path + [Key(keys[0])])
      + WalkKeys(keys[1..], before, after, path)
  }

  function WalkItems(i: nat, n: nat, before: Option<Json>, after: Option<Json>, path: Path): seq<Change>
    requires i <= n && BothLists(before, after)
    decreases SlotSize(before) + SlotSize(after), 0, n - i
  {
    if i == n then []
    else
      ItemOfIsSmaller(before.value, i);
      ItemOfIsSmaller(after.value, i);
      Walk(Item(before.value.items, i), Item(after.value.items, i), path + [Index(i)])
      + WalkItems(i + 1, n, before, after, path)
  }

  // ---- what a list of changes says -------------------------------------------------------------------------------

  /** The changes whose path takes `step` at depth `d`. */
  function Under(cs: seq<Change>, d: nat, step: Step): seq<Change> {
    if cs == [] then []
    else (if Takes(cs[0], d, step) then [cs[0]] else []) + Under(cs[1..], d, step)
  }

  predicate Takes(c: Change, d: nat, step: Step) { |c.path| > d && c.path[d] == step }

  lemma {:induction false} UnderHas(cs: seq<Change>, d: nat, step: Step, c: Change)
    ensures c in Under(cs, d, step) <==> c in cs && Takes(c, d, step)
  {
    if cs != [] { UnderHas(cs[1..], d, step, c); }
  }

  /** One change says what became of a value that is not a dictionary or a list on both sides. */
  predicate Says(c: Change, before: Option<Json>, after: Option<Json>) {
    match c.kind
    case Added => before.None? && after == Some(c.after) && c.before == Null
    case Removed => before == Some(c.before) && after.None? && c.after == Null
    case Changed => before == Some(c.before) && after == Some(c.after)
  }

  /** In whatever order, `cs` says what `before` became, the paths read from depth `d`: under every key and index what
      became of that part, and nothing else. */
  ghost predicate Describes(before: Option<Json>, after: Option<Json>, cs: seq<Change>, d: nat)
    decreases SlotSize(before) + SlotSize(after)
  {
    if BothDicts(before, after) then
      var es, fs := before.value.entries, after.value.entries;
      && (forall c :: c in cs ==> |c.path| > d && c.path[d].Key?)
      && forall k: string {:trigger Under(cs, d, Key(k))} ::
           (ChildIsSmaller(before.value, k); ChildIsSmaller(after.value, k);
            Describes(Get(es, k), Get(fs, k), Under(cs, d, Key(k)), d + 1))
    else if BothLists(before, after) then
      var xs, ys := before.value.items, after.value.items;
      && (forall c :: c in cs ==> |c.path| > d && c.path[d].Index?)
      && forall i: nat {:trigger Under(cs, d, Index(i))} ::
           (ItemOfIsSmaller(before.value, i); ItemOfIsSmaller(after.value, i);
            Describes(Item(xs, i), Item(ys, i), Under(cs, d, Index(i)), d + 1))
    else
      && |cs| <= 1 && (cs == [] <==> EqualSlots(before, after))
      && forall c :: c in cs ==> |c.path| == d && Says(c, before, after)
  }

  ghost predicate AllFrom(cs: seq<Change>, path: Path) {
    forall c :: c in cs ==> path <= c.path
  }

  lemma {:induction false} UnderConcat(cs: seq<Change>, more: seq<Change>, d: nat, step: Step)
    ensures Under(cs + more, d, step) == Under(cs, d, step) + Under(more, d, step)
  {
    hide Takes;
    if cs == [] {
      assert cs + more == more;
    } else {
      UnderConcat(cs[1..], more, d, step);
      UnderOneMore(cs[0], cs[1..] + more, d, step);
      UnderOneMore(cs[0], cs[1..], d, step);
      assert cs + more == [cs[0]] + (cs[1..] + more) && cs == [cs[0]] + cs[1..];
    }
  }

  lemma UnderOneMore(c: Change, cs: seq<Change>, d: nat, step: Step)
    ensures Under([c] + cs, d, step) == (if Takes(c, d, step) then [c] else []) + Under(cs, d, step)
  {
  }

  lemma {:induction false} UnderItsOwn(cs: seq<Change>, path: Path, own: Step, step: Step)
    requires AllFrom(cs, path + [own])
    ensures Under(cs, |path|, step) == if step == own then cs else []
  {
    if cs != [] {
      assert cs[0] in cs && path + [own] <= cs[0].path;
      assert cs[0].path[|path|] == (path + [own])[|path|];
      UnderItsOwn(cs[1..], path, own, step);
    }
  }

  lemma {:induction false} AllKeysDistinct(es: seq<(string, Json)>, fs: seq<(string, Json)>)
    requires Distinct(Keys(es)) && Distinct(Keys(fs))
    ensures Distinct(AllKeys(es, fs))
    ensures forall k :: k in AllKeys(es, fs) <==> Get(es, k).Some? || Get(fs, k).Some?
  {
    WithoutDistinct(Keys(fs), Keys(es));
    var held, rest := Keys(es), Without(Keys(fs), Keys(es));
    forall i, j | 0 <= i < |held| && 0 <= j < |rest| ensures held[i] != rest[j] {
      assert held[i] in held && rest[j] in rest;
    }
  }

  lemma {:induction false} WithoutDistinct(keys: seq<string>, held: seq<string>)
    requires Distinct(keys)
    ensures Distinct(Without(keys, held))
  {
    if keys != [] {
      WithoutDistinct(keys[1..], held);
      assert keys[0] !in keys[1..];
    }
  }

  lemma {:induction false} WalkFrom(before: Option<Json>, after: Option<Json>, path: Path)
    ensures AllFrom(Walk(before, after, path), path)
    decreases SlotSize(before) + SlotSize(after), 1, 0
  {
    if BothDicts(before, after) {
      WalkKeysFrom(AllKeys(before.value.entries, after.value.entries), before, after, path);
    } else if BothLists(before, after) {
      WalkItemsFrom(0, Longer(before.value.items, after.value.items), before, after, path);
    }
  }

  lemma {:induction false} WalkKeysFrom(keys: seq<string>, before: Option<Json>, after: Option<Json>, path: Path)
    requires BothDicts(before, after)
    ensures AllFrom(WalkKeys(keys, before, after, path), path)
    decreases SlotSize(before) + SlotSize(after), 0, |keys|
  {
    if keys != [] {
      ChildIsSmaller(before.value, keys[0]);
      ChildIsSmaller(after.value, keys[0]);
      WalkFrom(Get(before.value.entries, keys[0]), Get(after.value.entries, keys[0]), path + [Key(keys[0])]);
      WalkKeysFrom(keys[1..], before, after, path);
    }
  }

  lemma {:induction false} WalkItemsFrom(i: nat, n: nat, before: Option<Json>, after: Option<Json>, path: Path)
    requires i <= n && BothLists(before, after)
    ensures AllFrom(WalkItems(i, n, before, after, path), path)
    decreases SlotSize(before) + SlotSize(after), 0, n - i
  {
    if i < n {
      ItemOfIsSmaller(before.value, i);
      ItemOfIsSmaller(after.value, i);
      WalkFrom(Item(before.value.items, i), Item(after.value.items, i), path + [Index(i)]);
      WalkItemsFrom(i + 1, n, before, after, path);
    }
  }

  lemma {:induction false} WalkKeysUnder(keys: seq<string>, before: Option<Json>, after: Option<Json>, path: Path, k: string)
    requires BothDicts(before, after) && Distinct(keys)
    ensures Under(WalkKeys(keys, before, after, path), |path|, Key(k)) ==
            if k in keys then Walk(Get(before.value.entries, k), Get(after.value.entries, k), path + [Key(k)]) else []
  {
    if keys != [] {
      var first := Walk(Get(before.value.entries, keys[0]), Get(after.value.entries, keys[0]), path + [Key(keys[0])]);
      WalkFrom(Get(before.value.entries, keys[0]), Get(after.value.entries, keys[0]), path + [Key(keys[0])]);
      UnderItsOwn(first, path, Key(keys[0]), Key(k));
      WalkKeysUnder(keys[1..], before, after, path, k);
      UnderConcat(first, WalkKeys(keys[1..], before, after, path), |path|, Key(k));
      assert keys == [keys[0]] + keys[1..];
    }
  }

  lemma {:induction false} WalkItemsUnder(i: nat, n: nat, before: Option<Json>, after: Option<Json>, path: Path, j: nat)
    requires i <= n && BothLists(before, after)
    ensures Under(WalkItems(i, n, before, after, path), |path|, Index(j)) ==
            if i <= j < n then Walk(Item(before.value.items, j), Item(after.value.items, j), path + [Index(j)]) else []
    decreases n - i
  {
    if i < n {
      var first := Walk(Item(before.value.items, i), Item(after.value.items, i), path + [Index(i)]);
      WalkFrom(Item(before.value.items, i), Item(after.value.items, i), path + [Index(i)]);
      UnderItsOwn(first, path, Index(i), Index(j));
      WalkItemsUnder(i + 1, n, before, after, path, j);
      UnderConcat(first, WalkItems(i + 1, n, before, after, path), |path|, Index(j));
    }
  }

  lemma {:induction false} WalkKeysAreKeys(keys: seq<string>, before: Option<Json>, after: Option<Json>, path: Path)
    requires BothDicts(before, after)
    ensures forall c :: c in WalkKeys(keys, before, after, path) ==> |c.path| > |path| && c.path[|path|].Key?
  {
    if keys != [] {
      var own := path + [Key(keys[0])];
      WalkFrom(Get(before.value.entries, keys[0]), Get(after.value.entries, keys[0]), own);
      forall c | c in Walk(Get(before.value.entries, keys[0]), Get(after.value.entries, keys[0]), own)
        ensures |c.path| > |path| && c.path[|path|].Key?
      {
        assert own <= c.path && c.path[|path|] == own[|path|];
      }
      WalkKeysAreKeys(keys[1..], before, after, path);
    }
  }

  lemma {:induction false} WalkItemsAreIndices(i: nat, n: nat, before: Option<Json>, after: Option<Json>, path: Path)
    requires i <= n && BothLists(before, after)
    ensures forall c :: c in WalkItems(i, n, before, after, path) ==> |c.path| > |path| && c.path[|path|].Index?
    decreases n - i
  {
    if i < n {
      var own := path + [Index(i)];
      WalkFrom(Item(before.value.items, i), Item(after.value.items, i), own);
      forall c | c in Walk(Item(before.value.items, i), Item(after.value.items, i), own)
        ensures |c.path| > |path| && c.path[|path|].Index?
      {
        assert own <= c.path && c.path[|path|] == own[|path|];
      }
      WalkItemsAreIndices(i + 1, n, before, after, path);
    }
  }

  lemma GetIsValid(v: Json, k: string)
    requires v.Dict? && Valid(v)
    ensures ValidSlot(Get(v.entries, k))
  {
  }

  lemma ItemIsValid(v: Json, i: nat)
    requires v.List? && Valid(v)
    ensures ValidSlot(Item(v.items, i))
  {
  }

  lemma {:induction false} WalkDescribes(before: Option<Json>, after: Option<Json>, path: Path)
    requires ValidSlot(before) && ValidSlot(after)
    ensures Describes(before, after, Walk(before, after, path), |path|)
    decreases SlotSize(before) + SlotSize(after), 1
  {
    if BothDicts(before, after) {
      var keys := AllKeys(before.value.entries, after.value.entries);
      AllKeysDistinct(before.value.entries, after.value.entries);
      WalkKeysAreKeys(keys, before, after, path);
      forall k: string { WalkDescribesKey(before, after, path, k); }
      hide AllKeys, WalkKeys, Under, Valid, Size;
    } else if BothLists(before, after) {
      WalkItemsAreIndices(0, Longer(before.value.items, after.value.items), before, after, path);
      forall i: nat { WalkDescribesItem(before, after, path, i); }
      hide WalkItems, Under, Valid, Size;
    }
  }

  /** Under a key, the walk says what it says of that key's values. */
  lemma WalkUnderKey(before: Option<Json>, after: Option<Json>, path: Path, k: string)
    requires BothDicts(before, after) && ValidSlot(before) && ValidSlot(after)
    ensures Under(Walk(before, after, path), |path|, Key(k)) ==
            Walk(Get(before.value.entries, k), Get(after.value.entries, k), path + [Key(k)])
  {
    var es, fs := before.value.entries, after.value.entries;
    AllKeysDistinct(es, fs);
    WalkKeysUnder(AllKeys(es, fs), before, after, path, k);
    hide AllKeys, WalkKeys, Under, Size, Valid, Keys;
  }

  lemma WalkDescribesKey(before: Option<Json>, after: Option<Json>, path: Path, k: string)
    requires BothDicts(before, after) && ValidSlot(before) && ValidSlot(after)
    ensures (ChildIsSmaller(before.value, k); ChildIsSmaller(after.value, k);
             Describes(Get(before.value.entries, k), Get(after.value.entries, k),
                       Under(Walk(before, after, path), |path|, Key(k)), |path| + 1))
    decreases SlotSize(before) + SlotSize(after), 0
  {
    var es, fs := before.value.entries, after.value.entries;
    ChildIsSmaller(before.value, k);
    ChildIsSmaller(after.value, k);
    GetIsValid(before.value, k);
    GetIsValid(after.value, k);
    WalkUnderKey(before, after, path, k);
    hide Walk, Under, Valid, Keys, Describes;
    WalkDescribes(Get(es, k), Get(fs, k), path + [Key(k)]);
  }

  lemma WalkDescribesItem(before: Option<Json>, after: Option<Json>, path: Path, i: nat)
    requires BothLists(before, after) && ValidSlot(before) && ValidSlot(after)
    ensures (ItemOfIsSmaller(before.value, i); ItemOfIsSmaller(after.value, i);
             Describes(Item(before.value.items, i), Item(after.value.items, i),
                       Under(Walk(before, after, path), |path|, Index(i)), |path| + 1))
    decreases SlotSize(before) + SlotSize(after), 0
  {
    var xs, ys := before.value.items, after.value.items;
    ItemOfIsSmaller(before.value, i);
    ItemOfIsSmaller(after.value, i);
    ItemIsValid(before.value, i);
    ItemIsValid(after.value, i);
    WalkDescribes(Item(xs, i), Item(ys, i), path + [Index(i)]);
    WalkItemsUnder(0, Longer(xs, ys), before, after, path, i);
  }

  // ---- nothing said, nothing changed -----------------------------------------------------------------------------

  ghost predicate AgreeOnKeys(es: seq<(string, Json)>, fs: seq<(string, Json)>) {
    forall k: string :: EqualSlots(Get(es, k), Get(fs, k))
  }

  lemma EqualDicts(a: Json, b: Json)
    requires a.Dict? && b.Dict?
    ensures Equal(a, b) <==> AgreeOnKeys(a.entries, b.entries)
  {
  }

  lemma EqualLists(a: Json, b: Json)
    requires a.List? && b.List?
    ensures Equal(a, b) <==> forall i: nat :: EqualSlots(Item(a.items, i), Item(b.items, i))
  {
    if forall i: nat :: EqualSlots(Item(a.items, i), Item(b.items, i)) {
      assert EqualSlots(Item(a.items, |a.items|), Item(b.items, |a.items|));
      assert EqualSlots(Item(a.items, |b.items|), Item(b.items, |b.items|));
      forall i | 0 <= i < |a.items| ensures Equal(a.items[i], b.items[i]) {
        assert EqualSlots(Item(a.items, i), Item(b.items, i));
      }
    }
  }

  /** A list that describes what became of a value is empty exactly when nothing did. */
  lemma {:induction false} NothingSaidExactly(before: Option<Json>, after: Option<Json>, cs: seq<Change>, d: nat)
    requires Describes(before, after, cs, d)
    ensures cs == [] <==> EqualSlots(before, after)
    decreases SlotSize(before) + SlotSize(after)
  {
    if BothDicts(before, after) {
      forall k: string
        ensures Under(cs, d, Key(k)) == [] <==> EqualSlots(Get(before.value.entries, k), Get(after.value.entries, k))
      {
        ChildIsSmaller(before.value, k);
        ChildIsSmaller(after.value, k);
        NothingSaidExactly(Get(before.value.entries, k), Get(after.value.entries, k), Under(cs, d, Key(k)), d + 1);
      }
      SaidUnderKeys(cs, d);
      EqualDicts(before.value, after.value);
      hide Describes, Under, Equal, Get, Size;
      assert AgreeOnKeys(before.value.entries, after.value.entries) <==> forall k: string :: Under(cs, d, Key(k)) == [];
    } else if BothLists(before, after) {
      forall i: nat
        ensures Under(cs, d, Index(i)) == [] <==> EqualSlots(Item(before.value.items, i), Item(after.value.items, i))
      {
        ItemOfIsSmaller(before.value, i);
        ItemOfIsSmaller(after.value, i);
        NothingSaidExactly(Item(before.value.items, i), Item(after.value.items, i), Under(cs, d, Index(i)), d + 1);
      }
      SaidUnderIndices(cs, d);
      EqualLists(before.value, after.value);
      hide Describes, Under, Equal, Item, Size;
    }
  }

  lemma SaidUnderKeys(cs: seq<Change>, d: nat)
    requires forall c :: c in cs ==> |c.path| > d && c.path[d].Key?
    ensures cs == [] <==> forall k: string :: Under(cs, d, Key(k)) == []
  {
    if cs != [] { UnderHas(cs, d, Key(cs[0].path[d].key), cs[0]); }
  }

  lemma SaidUnderIndices(cs: seq<Change>, d: nat)
    requires forall c :: c in cs ==> |c.path| > d && c.path[d].Index?
    ensures cs == [] <==> forall i: nat :: Under(cs, d, Index(i)) == []
  {
    if cs != [] { UnderHas(cs, d, Index(cs[0].path[d].i), cs[0]); }
  }

  /** The list is empty exactly when the two documents are equal. */
  lemma BetweenIsEmptyExactly(before: Json, after: Json)
    requires Valid(before) && Valid(after)
    ensures Between(before, after) == [] <==> Equal(before, after)
  {
    WalkDescribes(Some(before), Some(after), []);
    NothingSaidExactly(Some(before), Some(after), Between(before, after), 0);
  }

  // ---- the list read backwards -----------------------------------------------------------------------------------

  function Opposite(c: Change): Change {
    Change(c.path, match c.kind case Added => Removed case Removed => Added case Changed => Changed, c.after, c.before)
  }

  function Reversed(cs: seq<Change>): seq<Change> {
    if cs == [] then [] else [Opposite(cs[0])] + Reversed(cs[1..])
  }

  lemma {:induction false} ReversedUnder(cs: seq<Change>, d: nat, step: Step)
    ensures Under(Reversed(cs), d, step) == Reversed(Under(cs, d, step))
  {
    if cs != [] {
      ReversedUnder(cs[1..], d, step);
      assert Reversed(cs)[0] == Opposite(cs[0]) && Reversed(cs)[1..] == Reversed(cs[1..]);
      var rest := Under(cs[1..], d, step);
      if Takes(cs[0], d, step) {
        assert Under(cs, d, step) == [cs[0]] + rest && ([cs[0]] + rest)[1..] == rest;
      } else {
        assert Under(cs, d, step) == rest;
      }
    }
  }

  lemma {:induction false} ReversedHas(cs: seq<Change>, c: Change)
    requires c in Reversed(cs)
    ensures Opposite(c) in cs
  {
    if c != Opposite(cs[0]) { ReversedHas(cs[1..], c); }
  }

  lemma {:induction false} EqualIsSymmetric(a: Json, b: Json)
    requires !(a.Dict? && b.Dict?) && !(a.List? && b.List?)
    ensures Equal(a, b) <==> Equal(b, a)
  {
  }

  lemma {:induction false} ReversedDescribes(before: Option<Json>, after: Option<Json>, cs: seq<Change>, d: nat)
    requires Describes(before, after, cs, d)
    ensures Describes(after, before, Reversed(cs), d)
    decreases SlotSize(before) + SlotSize(after)
  {
    forall c | c in Reversed(cs) ensures Opposite(c) in cs { ReversedHas(cs, c); }
    hide Under, Size, Equal;
    if BothDicts(before, after) {
      hide Reversed;
      forall k: string
        ensures (ChildIsSmaller(before.value, k); ChildIsSmaller(after.value, k);
                 Describes(Get(after.value.entries, k), Get(before.value.entries, k), Under(Reversed(cs), d, Key(k)), d + 1))
      {
        ChildIsSmaller(before.value, k);
        ChildIsSmaller(after.value, k);
        ReversedUnder(cs, d, Key(k));
        ReversedDescribes(Get(before.value.entries, k), Get(after.value.entries, k), Under(cs, d, Key(k)), d + 1);
      }
    } else if BothLists(before, after) {
      hide Reversed;
      forall i: nat
        ensures (ItemOfIsSmaller(before.value, i); ItemOfIsSmaller(after.value, i);
                 Describes(Item(after.value.items, i), Item(before.value.items, i), Under(Reversed(cs), d, Index(i)), d + 1))
      {
        ItemOfIsSmaller(before.value, i);
        ItemOfIsSmaller(after.value, i);
        ReversedUnder(cs, d, Index(i));
        ReversedDescribes(Item(before.value.items, i), Item(after.value.items, i), Under(cs, d, Index(i)), d + 1);
      }
    } else {
      if before.Some? && after.Some? { EqualIsSymmetric(before.value, after.value); }
    }
  }

  // ---- applying a list -------------------------------------------------------------------------------------------

  function Deepest(cs: seq<Change>): (n: nat)
    ensures forall c :: c in cs ==> |c.path| <= n
  {
    if cs == [] then 0
    else
      var rest := Deepest(cs[1..]);
      if |cs[0].path| > rest then |cs[0].path| else rest
  }

  lemma {:induction false} UnderIsNoDeeper(cs: seq<Change>, d: nat, step: Step)
    ensures Deepest(Under(cs, d, step)) <= Deepest(cs)
  {
    if cs != [] {
      UnderIsNoDeeper(cs[1..], d, step);
      var rest := Under(cs[1..], d, step);
      if Takes(cs[0], d, step) {
        assert Under(cs, d, step) == [cs[0]] + rest && ([cs[0]] + rest)[1..] == rest;
      } else {
        assert Under(cs, d, step) == rest;
      }
    }
  }

  /** The keys the changes add to a dictionary at depth `d`. */
  function NewKeys(cs: seq<Change>, d: nat, held: seq<string>): (keys: seq<string>)
    ensures Distinct(keys) && forall k :: k in keys ==> k !in held
  {
    if cs == [] then []
    else
      var rest := NewKeys(cs[1..], d, held);
      if |cs[0].path| > d && cs[0].path[d].Key? && cs[0].path[d].key !in held && cs[0].path[d].key !in rest
      then [cs[0].path[d].key] + rest else rest
  }

  lemma {:induction false} NewKeysHas(cs: seq<Change>, d: nat, held: seq<string>, k: string)
    requires k !in held && Under(cs, d, Key(k)) != []
    ensures k in NewKeys(cs, d, held)
  {
    if !Takes(cs[0], d, Key(k)) { NewKeysHas(cs[1..], d, held, k); }
  }

  function Reach(cs: seq<Change>, d: nat, length: nat): (n: nat)
    ensures n >= length
  {
    if cs == [] then length
    else
      var rest := Reach(cs[1..], d, length);
      if |cs[0].path| > d && cs[0].path[d].Index? && cs[0].path[d].i >= rest then cs[0].path[d].i + 1 else rest
  }

  lemma {:induction false} ReachHas(cs: seq<Change>, d: nat, length: nat, i: nat)
    requires Under(cs, d, Index(i)) != []
    ensures i < Reach(cs, d, length)
  {
    if !Takes(cs[0], d, Index(i)) { ReachHas(cs[1..], d, length, i); }
  }

  /** The document the changes make of `v`, reading nothing but the changes: a change at this depth puts its own value
      here; the rest are handed down by the step they take. */
  function Patch(v: Option<Json>, cs: seq<Change>, d: nat): Option<Json>
    decreases if Deepest(cs) > d then Deepest(cs) - d else 0, 1, 0
  {
    if Deepest(cs) > d && v.Some? && v.value.Dict? && (forall c :: c in cs ==> |c.path| > d) then
      var es := v.value.entries;
      Some(Dict(PatchKeys(Keys(es) + NewKeys(cs, d, Keys(es)), es, cs, d)))
    else if Deepest(cs) > d && v.Some? && v.value.List? && (forall c :: c in cs ==> |c.path| > d) then
      Some(List(PatchItems(0, Reach(cs, d, |v.value.items|), v.value.items, cs, d)))
    else if cs == [] then v
    else if cs[0].kind == Removed then None
    else Some(cs[0].after)
  }

  function PatchKeys(keys: seq<string>, es: seq<(string, Json)>, cs: seq<Change>, d: nat): seq<(string, Json)>
    requires Deepest(cs) > d
    decreases Deepest(cs) - d, 0, |keys|
  {
    if keys == [] then []
    else
      UnderIsNoDeeper(cs, d, Key(keys[0]));
      var patched := Patch(Get(es, keys[0]), Under(cs, d, Key(keys[0])), d + 1);
      (if patched.Some? then [(keys[0], patched.value)] else []) + PatchKeys(keys[1..], es, cs, d)
  }

  function PatchItems(i: nat, n: nat, items: seq<Json>, cs: seq<Change>, d: nat): seq<Json>
    requires Deepest(cs) > d && i <= n
    decreases Deepest(cs) - d, 0, n - i
  {
    if i == n then []
    else
      UnderIsNoDeeper(cs, d, Index(i));
      var patched := Patch(Item(items, i), Under(cs, d, Index(i)), d + 1);
      (if patched.Some? then [patched.value] else []) + PatchItems(i + 1, n, items, cs, d)
  }

  lemma {:induction false} PatchKeysGet(keys: seq<string>, es: seq<(string, Json)>, cs: seq<Change>, d: nat, k: string)
    requires Deepest(cs) > d && Distinct(keys)
    ensures Get(PatchKeys(keys, es, cs, d), k) == if k in keys then Patch(Get(es, k), Under(cs, d, Key(k)), d + 1) else None
  {
    if keys != [] {
      PatchKeysGet(keys[1..], es, cs, d, k);
      assert keys == [keys[0]] + keys[1..];
      var patched := Patch(Get(es, keys[0]), Under(cs, d, Key(keys[0])), d + 1);
      var rest := PatchKeys(keys[1..], es, cs, d);
      if patched.Some? {
        assert PatchKeys(keys, es, cs, d) == [(keys[0], patched.value)] + rest;
        assert ([(keys[0], patched.value)] + rest)[1..] == rest;
      } else {
        assert PatchKeys(keys, es, cs, d) == rest;
      }
    }
  }

  /** What becomes of the item in one place. */
  function ItemPatched(items: seq<Json>, cs: seq<Change>, d: nat, j: nat): Option<Json>
    requires Deepest(cs) > d
  {
    Patch(Item(items, j), Under(cs, d, Index(j)), d + 1)
  }

  lemma PatchItemsNext(i: nat, n: nat, items: seq<Json>, cs: seq<Change>, d: nat)
    requires Deepest(cs) > d && i < n
    ensures PatchItems(i, n, items, cs, d) ==
      (if ItemPatched(items, cs, d, i).Some? then [ItemPatched(items, cs, d, i).value] else [])
      + PatchItems(i + 1, n, items, cs, d)
  {
  }

  /** These are what becomes of the items from the `i`-th on. */
  ghost predicate AreFrom(made: seq<Json>, items: seq<Json>, cs: seq<Change>, d: nat, i: nat)
    requires Deepest(cs) > d
  {
    forall k :: 0 <= k < |made| ==> Some(made[k]) == ItemPatched(items, cs, d, i + k)
  }

  lemma OneMoreFrom(first: Json, rest: seq<Json>, items: seq<Json>, cs: seq<Change>, d: nat, i: nat)
    requires Deepest(cs) > d && Some(first) == ItemPatched(items, cs, d, i) && AreFrom(rest, items, cs, d, i + 1)
    ensures AreFrom([first] + rest, items, cs, d, i)
  {
    hide ItemPatched, Deepest;
    forall k | 0 <= k < |rest| + 1 ensures Some(([first] + rest)[k]) == ItemPatched(items, cs, d, i + k) {
      if k > 0 {
        assert Some(rest[k - 1]) == ItemPatched(items, cs, d, i + 1 + (k - 1));
      }
    }
  }

  lemma {:induction false} PatchItemsGet(i: nat, n: nat, items: seq<Json>, cs: seq<Change>, d: nat, length: nat)
    requires Deepest(cs) > d && i <= length <= n
    requires forall j :: i <= j < n ==> (ItemPatched(items, cs, d, j).Some? <==> j < length)
    ensures |PatchItems(i, n, items, cs, d)| == length - i && AreFrom(PatchItems(i, n, items, cs, d), items, cs, d, i)
    decreases n - i
  {
    if i < length {
      PatchItemsNext(i, n, items, cs, d);
      hide PatchItems, ItemPatched, Deepest, AreFrom;
      PatchItemsGet(i + 1, n, items, cs, d, length);
      OneMoreFrom(ItemPatched(items, cs, d, i).value, PatchItems(i + 1, n, items, cs, d), items, cs, d, i);
    } else {
      PatchItemsNone(i, n, items, cs, d);
    }
  }

  lemma {:induction false} PatchItemsNone(i: nat, n: nat, items: seq<Json>, cs: seq<Change>, d: nat)
    requires Deepest(cs) > d && i <= n
    requires forall j :: i <= j < n ==> ItemPatched(items, cs, d, j).None?
    ensures PatchItems(i, n, items, cs, d) == []
    decreases n - i
  {
    if i < n {
      PatchItemsNext(i, n, items, cs, d);
      hide PatchItems, ItemPatched;
      PatchItemsNone(i + 1, n, items, cs, d);
    }
  }

  /** A list that describes what became of a value makes it become that. */
  lemma {:induction false} PatchGives(before: Option<Json>, after: Option<Json>, cs: seq<Change>, d: nat)
    requires ValidSlot(before) && Describes(before, after, cs, d)
    ensures EqualSlots(Patch(before, cs, d), after)
    decreases SlotSize(before) + SlotSize(after), 1
  {
    NothingSaidExactly(before, after, cs, d);
    if cs != [] {
      if BothDicts(before, after) {
        PatchGivesDict(before, after, cs, d);
      } else if BothLists(before, after) {
        PatchGivesList(before, after, cs, d);
      } else {
        assert cs[0] in cs && cs == [cs[0]];
        if after.Some? { EqualIsReflexive(after.value); }
      }
    }
  }

  lemma {:induction false} EqualIsReflexive(a: Json)
    ensures Equal(a, a)
    decreases Size(a)
  {
    match a
    case List(xs) => forall i | 0 <= i < |xs| ensures Equal(xs[i], xs[i]) { ItemOfIsSmaller(a, i); EqualIsReflexive(xs[i]); }
    case Dict(es) =>
      forall k | k in Keys(es) ensures Equal(Get(es, k).value, Get(es, k).value) {
        ChildIsSmaller(a, k);
        EqualIsReflexive(Get(es, k).value);
      }
    case _ =>
  }

  lemma {:induction false} PatchGivesKey(before: Option<Json>, after: Option<Json>, cs: seq<Change>, d: nat, k: string)
    requires ValidSlot(before) && Describes(before, after, cs, d) && BothDicts(before, after)
    ensures EqualSlots(Patch(Get(before.value.entries, k), Under(cs, d, Key(k)), d + 1), Get(after.value.entries, k))
    ensures k !in AllTold(before.value.entries, cs, d) ==> Get(after.value.entries, k).None?
    decreases SlotSize(before) + SlotSize(after), 0, 0
  {
    var es, fs := before.value.entries, after.value.entries;
    ChildIsSmaller(before.value, k);
    ChildIsSmaller(after.value, k);
    GetIsValid(before.value, k);
    PatchGives(Get(es, k), Get(fs, k), Under(cs, d, Key(k)), d + 1);
    if k !in AllTold(es, cs, d) {
      if Under(cs, d, Key(k)) != [] { NewKeysHas(cs, d, Keys(es), k); }
      NothingSaidExactly(Get(es, k), Get(fs, k), Under(cs, d, Key(k)), d + 1);
    }
  }

  /** The keys held, and after them those the changes name besides. */
  function AllTold(es: seq<(string, Json)>, cs: seq<Change>, d: nat): (keys: seq<string>) { Keys(es) + NewKeys(cs, d, Keys(es)) }

  lemma AllToldDistinct(es: seq<(string, Json)>, cs: seq<Change>, d: nat)
    requires Distinct(Keys(es))
    ensures Distinct(AllTold(es, cs, d))
  {
    var held, added := Keys(es), NewKeys(cs, d, Keys(es));
    forall i, j | 0 <= i < |held| && 0 <= j < |added| ensures held[i] != added[j] {
      assert held[i] in held && added[j] in added;
    }
  }

  lemma PatchDictIs(v: Json, cs: seq<Change>, d: nat)
    requires v.Dict? && cs != [] && forall c :: c in cs ==> |c.path| > d
    ensures Deepest(cs) > d
    ensures Patch(Some(v), cs, d) == Some(Dict(PatchKeys(AllTold(v.entries, cs, d), v.entries, cs, d)))
  {
  }

  lemma {:induction false} PatchGivesDict(before: Option<Json>, after: Option<Json>, cs: seq<Change>, d: nat)
    requires ValidSlot(before) && Describes(before, after, cs, d) && BothDicts(before, after) && cs != []
    ensures EqualSlots(Patch(before, cs, d), after)
    decreases SlotSize(before) + SlotSize(after), 0, 1
  {
    var es, fs := before.value.entries, after.value.entries;
    PatchDictIs(before.value, cs, d);
    AllToldDistinct(es, cs, d);
    hide Under, Patch, PatchKeys, Deepest, Equal, AllTold;
    var keys := AllTold(es, cs, d);
    var patched := PatchKeys(keys, es, cs, d);
    forall k: string ensures EqualSlots(Get(patched, k), Get(fs, k)) {
      PatchGivesKey(before, after, cs, d, k);
      PatchKeysGet(keys, es, cs, d, k);
    }
    hide Describes, Size, Valid;
    EqualDicts(Dict(patched), after.value);
  }

  lemma {:induction false} PatchGivesItem(before: Option<Json>, after: Option<Json>, cs: seq<Change>, d: nat, i: nat)
    requires ValidSlot(before) && Describes(before, after, cs, d) && BothLists(before, after)
    requires Deepest(cs) > d
    ensures EqualSlots(ItemPatched(before.value.items, cs, d, i), Item(after.value.items, i))
    ensures i < |after.value.items| ==> i < Reach(cs, d, |before.value.items|)
    decreases SlotSize(before) + SlotSize(after), 0, 0
  {
    var xs, ys := before.value.items, after.value.items;
    ItemOfIsSmaller(before.value, i);
    ItemOfIsSmaller(after.value, i);
    ItemIsValid(before.value, i);
    PatchGives(Item(xs, i), Item(ys, i), Under(cs, d, Index(i)), d + 1);
    if |xs| <= i < |ys| {
      NothingSaidExactly(Item(xs, i), Item(ys, i), Under(cs, d, Index(i)), d + 1);
      ReachHas(cs, d, |xs|, i);
    }
  }

  lemma PatchListIs(v: Json, cs: seq<Change>, d: nat)
    requires v.List? && cs != [] && forall c :: c in cs ==> |c.path| > d
    ensures Deepest(cs) > d
    ensures Patch(Some(v), cs, d) == Some(List(PatchItems(0, Reach(cs, d, |v.items|), v.items, cs, d)))
  {
  }

  /** The items the changes make of a list are as many as `after` has, each in its own place. */
  lemma PatchedItemsAre(xs: seq<Json>, ys: seq<Json>, cs: seq<Change>, d: nat, n: nat)
    requires Deepest(cs) > d && |ys| <= n
    requires forall i: nat :: EqualSlots(ItemPatched(xs, cs, d, i), Item(ys, i))
    ensures var patched := PatchItems(0, n, xs, cs, d);
      |patched| == |ys| && forall i :: 0 <= i < |ys| ==> Some(patched[i]) == ItemPatched(xs, cs, d, i)
  {
    hide PatchItems, Deepest, Equal, ItemPatched;
    forall j | 0 <= j < n ensures ItemPatched(xs, cs, d, j).Some? <==> j < |ys| {
      assert EqualSlots(ItemPatched(xs, cs, d, j), Item(ys, j));
    }
    PatchItemsGet(0, n, xs, cs, d, |ys|);
    var patched := PatchItems(0, n, xs, cs, d);
    forall i | 0 <= i < |ys| ensures Some(patched[i]) == ItemPatched(xs, cs, d, i) {
      assert Some(patched[i]) == ItemPatched(xs, cs, d, 0 + i);
    }
  }

  /** So item for item the list is what `after` holds. */
  lemma PatchedListIs(before: Option<Json>, after: Option<Json>, cs: seq<Change>, d: nat)
    requires BothLists(before, after) && cs != [] && forall c :: c in cs ==> |c.path| > d
    requires Deepest(cs) > d && |after.value.items| <= Reach(cs, d, |before.value.items|)
    requires forall i: nat :: EqualSlots(ItemPatched(before.value.items, cs, d, i), Item(after.value.items, i))
    ensures Patch(before, cs, d).Some? && Patch(before, cs, d).value.List?
    ensures forall i: nat :: (
      Item(Patch(before, cs, d).value.items, i)
      == if i < |after.value.items| then ItemPatched(before.value.items, cs, d, i) else None)
  {
    var xs, ys := before.value.items, after.value.items;
    PatchListIs(before.value, cs, d);
    hide Reach, Patch, PatchItems, Deepest, Equal, ItemPatched;
    PatchedItemsAre(xs, ys, cs, d, Reach(cs, d, |xs|));
  }

  lemma {:induction false} PatchedListFits(before: Option<Json>, after: Option<Json>, cs: seq<Change>, d: nat)
    requires ValidSlot(before) && Describes(before, after, cs, d) && BothLists(before, after) && cs != []
    ensures (forall c :: c in cs ==> |c.path| > d) && Deepest(cs) > d
    ensures |after.value.items| <= Reach(cs, d, |before.value.items|)
    ensures forall i: nat :: EqualSlots(ItemPatched(before.value.items, cs, d, i), Item(after.value.items, i))
    decreases SlotSize(before) + SlotSize(after), 0, 1
  {
    PatchListIs(before.value, cs, d);
    hide Reach, Patch, PatchItems, Deepest, Equal, ItemPatched;
    forall i: nat ensures EqualSlots(ItemPatched(before.value.items, cs, d, i), Item(after.value.items, i)) {
      PatchGivesItem(before, after, cs, d, i);
    }
    if |after.value.items| > 0 { PatchGivesItem(before, after, cs, d, |after.value.items| - 1); }
  }

  lemma {:induction false} PatchGivesList(before: Option<Json>, after: Option<Json>, cs: seq<Change>, d: nat)
    requires ValidSlot(before) && Describes(before, after, cs, d) && BothLists(before, after) && cs != []
    ensures EqualSlots(Patch(before, cs, d), after)
    decreases SlotSize(before) + SlotSize(after), 0, 2
  {
    PatchedListFits(before, after, cs, d);
    hide Reach, Patch, PatchItems, Deepest, Equal, ItemPatched, Describes, Size, Valid;
    PatchedListIs(before, after, cs, d);
    EqualLists(Patch(before, cs, d).value, after.value);
  }

  // ---- no path equals or extends another -------------------------------------------------------------------------

  ghost predicate Apart(cs: seq<Change>) {
    forall i, j :: 0 <= i < |cs| && 0 <= j < |cs| && i != j ==> !(cs[i].path <= cs[j].path)
  }

  lemma JoinedApart(first: seq<Change>, rest: seq<Change>, path: Path, own: Step)
    requires Apart(first) && Apart(rest) && AllFrom(first, path + [own]) && AllFrom(rest, path)
    requires forall c :: c in rest ==> |c.path| > |path| && c.path[|path|] != own
    ensures Apart(first + rest)
  {
  }

  lemma {:induction false} WalkIsApart(before: Option<Json>, after: Option<Json>, path: Path)
    requires ValidSlot(before) && ValidSlot(after)
    ensures Apart(Walk(before, after, path))
    decreases SlotSize(before) + SlotSize(after), 1, 0
  {
    if BothDicts(before, after) {
      AllKeysDistinct(before.value.entries, after.value.entries);
      WalkKeysApart(AllKeys(before.value.entries, after.value.entries), before, after, path);
    } else if BothLists(before, after) {
      WalkItemsApart(0, Longer(before.value.items, after.value.items), before, after, path);
    }
  }

  lemma {:induction false} WalkKeysApart(keys: seq<string>, before: Option<Json>, after: Option<Json>, path: Path)
    requires BothDicts(before, after) && ValidSlot(before) && ValidSlot(after) && Distinct(keys)
    ensures Apart(WalkKeys(keys, before, after, path))
    decreases SlotSize(before) + SlotSize(after), 0, |keys|
  {
    if keys != [] {
      var own := Key(keys[0]);
      var b, a := Get(before.value.entries, keys[0]), Get(after.value.entries, keys[0]);
      ChildIsSmaller(before.value, keys[0]);
      ChildIsSmaller(after.value, keys[0]);
      GetIsValid(before.value, keys[0]);
      GetIsValid(after.value, keys[0]);
      WalkIsApart(b, a, path + [own]);
      WalkFrom(b, a, path + [own]);
      var rest := WalkKeys(keys[1..], before, after, path);
      WalkKeysApart(keys[1..], before, after, path);
      WalkKeysFrom(keys[1..], before, after, path);
      WalkKeysAreKeys(keys[1..], before, after, path);
      WalkKeysUnder(keys[1..], before, after, path, keys[0]);
      forall c | c in rest ensures c.path[|path|] != own { UnderHas(rest, |path|, own, c); }
      JoinedApart(Walk(b, a, path + [own]), rest, path, own);
    }
  }

  lemma {:induction false} WalkItemsApart(i: nat, n: nat, before: Option<Json>, after: Option<Json>, path: Path)
    requires i <= n && BothLists(before, after) && ValidSlot(before) && ValidSlot(after)
    ensures Apart(WalkItems(i, n, before, after, path))
    decreases SlotSize(before) + SlotSize(after), 0, n - i
  {
    if i < n {
      var own := Index(i);
      var b, a := Item(before.value.items, i), Item(after.value.items, i);
      ItemOfIsSmaller(before.value, i);
      ItemOfIsSmaller(after.value, i);
      ItemIsValid(before.value, i);
      ItemIsValid(after.value, i);
      WalkIsApart(b, a, path + [own]);
      WalkFrom(b, a, path + [own]);
      var rest := WalkItems(i + 1, n, before, after, path);
      WalkItemsApart(i + 1, n, before, after, path);
      WalkItemsFrom(i + 1, n, before, after, path);
      WalkItemsAreIndices(i + 1, n, before, after, path);
      WalkItemsUnder(i + 1, n, before, after, path, i);
      forall c | c in rest ensures c.path[|path|] != own { UnderHas(rest, |path|, own, c); }
      JoinedApart(Walk(b, a, path + [own]), rest, path, own);
    }
  }

  /** No two changes speak of the same part of the document, or one of a part of the other's. */
  lemma BetweenPathsApart(before: Json, after: Json)
    requires Valid(before) && Valid(after)
    ensures Apart(Between(before, after))
  {
    WalkIsApart(Some(before), Some(after), []);
  }

  // ---- where Python's equality says less than the text -----------------------------------------------------------

  /** Equal as written, but for the order of keys. */
  predicate Same(a: Json, b: Json)
    decreases Size(a)
  {
    match (a, b)
    case (List(xs), List(ys)) =>
      |xs| == |ys| && forall i | 0 <= i < |xs| :: (ItemOfIsSmaller(a, i); Same(xs[i], ys[i]))
    case (Dict(es), Dict(fs)) =>
      && (forall k | k in Keys(fs) :: Get(es, k).Some?)
      && (forall k | k in Keys(es) ::
            (ChildIsSmaller(a, k); Get(fs, k).Some? && Same(Get(es, k).value, Get(fs, k).value)))
    case _ => a == b && !a.List? && !a.Dict?
  }

  /** Nowhere does one hold a truth value where the other holds the number it equals. */
  predicate NeverConfused(a: Json, b: Json)
    decreases Size(a)
  {
    match (a, b)
    case (List(xs), List(ys)) =>
      forall i | 0 <= i < |xs| && i < |ys| :: (ItemOfIsSmaller(a, i); NeverConfused(xs[i], ys[i]))
    case (Dict(es), Dict(fs)) =>
      forall k | k in Keys(es) :: (ChildIsSmaller(a, k); Get(fs, k).Some? ==> NeverConfused(Get(es, k).value, Get(fs, k).value))
    case _ => Numeric(a).Some? && Numeric(a) == Numeric(b) ==> a.Bool? == b.Bool?
  }

  lemma TrueReadsAsOne()
    ensures Between(Dict([("on", Bool(true))]), Dict([("on", Num(1.0))])) == []
  {
  }

  /** A silent diff means the same text exactly when no truth value stands where the number it equals does. */
  lemma {:induction false} SameExactly(a: Json, b: Json)
    ensures Same(a, b) <==> Equal(a, b) && NeverConfused(a, b)
    decreases Size(a)
  {
    if a.List? && b.List? {
      forall i | 0 <= i < |a.items| && i < |b.items|
        ensures Same(a.items[i], b.items[i]) <==> Equal(a.items[i], b.items[i]) && NeverConfused(a.items[i], b.items[i])
      {
        ItemOfIsSmaller(a, i);
        SameExactly(a.items[i], b.items[i]);
      }
    } else if a.Dict? && b.Dict? {
      forall k | k in Keys(a.entries) && Get(b.entries, k).Some?
        ensures var x, y := Get(a.entries, k).value, Get(b.entries, k).value; Same(x, y) <==> Equal(x, y) && NeverConfused(x, y)
      {
        ChildIsSmaller(a, k);
        SameExactly(Get(a.entries, k).value, Get(b.entries, k).value);
      }
    }
  }

  predicate NeverConfusedSlots(a: Option<Json>, b: Option<Json>) {
    a.Some? && b.Some? ==> NeverConfused(a.value, b.value)
  }

  lemma {:induction false} NeverConfusedIsReflexive(a: Json)
    ensures NeverConfused(a, a)
    decreases Size(a)
  {
    match a
    case List(xs) =>
      forall i | 0 <= i < |xs| ensures NeverConfused(xs[i], xs[i]) {
        ItemOfIsSmaller(a, i);
        NeverConfusedIsReflexive(xs[i]);
      }
    case Dict(es) =>
      forall k | k in Keys(es) ensures NeverConfused(Get(es, k).value, Get(es, k).value) {
        ChildIsSmaller(a, k);
        NeverConfusedIsReflexive(Get(es, k).value);
      }
    case _ =>
  }

  lemma {:induction false} NeverConfusedIsSymmetric(a: Json, b: Json)
    requires NeverConfused(a, b)
    ensures NeverConfused(b, a)
    decreases Size(a)
  {
    if a.List? && b.List? {
      forall i | 0 <= i < |b.items| && i < |a.items| ensures NeverConfused(b.items[i], a.items[i]) {
        ItemOfIsSmaller(a, i);
        NeverConfusedIsSymmetric(a.items[i], b.items[i]);
      }
    } else if a.Dict? && b.Dict? {
      forall k | k in Keys(b.entries) && Get(a.entries, k).Some?
        ensures NeverConfused(Get(b.entries, k).value, Get(a.entries, k).value)
      {
        ChildIsSmaller(a, k);
        NeverConfusedIsSymmetric(Get(a.entries, k).value, Get(b.entries, k).value);
      }
    }
  }

  ghost predicate NeverConfusedByKey(es: seq<(string, Json)>, fs: seq<(string, Json)>) {
    forall k: string :: NeverConfusedSlots(Get(es, k), Get(fs, k))
  }

  lemma ConfusedByKey(a: Json, b: Json)
    requires a.Dict? && b.Dict?
    ensures NeverConfused(a, b) <==> NeverConfusedByKey(a.entries, b.entries)
  {
  }

  lemma ConfusedByItem(a: Json, b: Json)
    requires a.List? && b.List?
    ensures NeverConfused(a, b) <==> forall i: nat :: NeverConfusedSlots(Item(a.items, i), Item(b.items, i))
  {
    if forall i: nat :: NeverConfusedSlots(Item(a.items, i), Item(b.items, i)) {
      forall i | 0 <= i < |a.items| && i < |b.items| ensures NeverConfused(a.items[i], b.items[i]) {
        assert NeverConfusedSlots(Item(a.items, i), Item(b.items, i));
      }
    }
  }

  /** What the changes make of a value and what it became confuse a truth value with a number exactly where the value and what
      it became did. */
  lemma {:induction false} PatchConfusesExactly(before: Option<Json>, after: Option<Json>, cs: seq<Change>, d: nat)
    requires ValidSlot(before) && Describes(before, after, cs, d)
    ensures NeverConfusedSlots(Patch(before, cs, d), after) <==> NeverConfusedSlots(before, after)
    decreases SlotSize(before) + SlotSize(after), 1
  {
    NothingSaidExactly(before, after, cs, d);
    if cs != [] {
      if BothDicts(before, after) {
        PatchConfusesDict(before, after, cs, d);
      } else if BothLists(before, after) {
        PatchConfusesList(before, after, cs, d);
      } else {
        assert cs[0] in cs && cs == [cs[0]];
        if after.Some? { NeverConfusedIsReflexive(after.value); }
      }
    }
  }

  lemma {:induction false} PatchConfusesDict(before: Option<Json>, after: Option<Json>, cs: seq<Change>, d: nat)
    requires ValidSlot(before) && Describes(before, after, cs, d) && BothDicts(before, after) && cs != []
    ensures NeverConfusedSlots(Patch(before, cs, d), after) <==> NeverConfusedSlots(before, after)
    decreases SlotSize(before) + SlotSize(after), 0, 1
  {
    var es, fs := before.value.entries, after.value.entries;
    PatchDictIs(before.value, cs, d);
    AllToldDistinct(es, cs, d);
    hide Under, Patch, PatchKeys, Deepest, NeverConfused, AllTold;
    var keys := AllTold(es, cs, d);
    var patched := PatchKeys(keys, es, cs, d);
    forall k: string
      ensures NeverConfusedSlots(Get(patched, k), Get(fs, k)) <==> NeverConfusedSlots(Get(es, k), Get(fs, k))
    {
      PatchConfusesKey(before, after, cs, d, k);
      PatchKeysGet(keys, es, cs, d, k);
    }
    hide Describes, Size, Valid;
    ConfusedByKey(Dict(patched), after.value);
    ConfusedByKey(before.value, after.value);
  }

  lemma {:induction false} PatchConfusesKey(before: Option<Json>, after: Option<Json>, cs: seq<Change>, d: nat, k: string)
    requires ValidSlot(before) && Describes(before, after, cs, d) && BothDicts(before, after)
    ensures NeverConfusedSlots(Patch(Get(before.value.entries, k), Under(cs, d, Key(k)), d + 1), Get(after.value.entries, k))
       <==> NeverConfusedSlots(Get(before.value.entries, k), Get(after.value.entries, k))
    ensures k !in AllTold(before.value.entries, cs, d) ==> Get(after.value.entries, k).None?
    decreases SlotSize(before) + SlotSize(after), 0, 0
  {
    ChildIsSmaller(before.value, k);
    ChildIsSmaller(after.value, k);
    GetIsValid(before.value, k);
    PatchGivesKey(before, after, cs, d, k);
    hide AllTold, NeverConfused, Patch, Equal;
    PatchConfusesExactly(Get(before.value.entries, k), Get(after.value.entries, k), Under(cs, d, Key(k)), d + 1);
  }

  lemma {:induction false} PatchConfusesList(before: Option<Json>, after: Option<Json>, cs: seq<Change>, d: nat)
    requires ValidSlot(before) && Describes(before, after, cs, d) && BothLists(before, after) && cs != []
    ensures NeverConfusedSlots(Patch(before, cs, d), after) <==> NeverConfusedSlots(before, after)
    decreases SlotSize(before) + SlotSize(after), 0, 1
  {
    var xs, ys := before.value.items, after.value.items;
    PatchedListFits(before, after, cs, d);
    hide Reach, Patch, PatchItems, Deepest, Equal, NeverConfused, ItemPatched;
    PatchedListIs(before, after, cs, d);
    var patched := Patch(before, cs, d).value;
    forall i: nat
      ensures NeverConfusedSlots(Item(patched.items, i), Item(ys, i)) <==> NeverConfusedSlots(Item(xs, i), Item(ys, i))
    {
      PatchConfusesItem(before, after, cs, d, i);
    }
    hide Describes, Size, Valid;
    ConfusedByItem(patched, after.value);
    ConfusedByItem(before.value, after.value);
  }

  lemma {:induction false} PatchConfusesItem(before: Option<Json>, after: Option<Json>, cs: seq<Change>, d: nat, i: nat)
    requires ValidSlot(before) && Describes(before, after, cs, d) && BothLists(before, after) && Deepest(cs) > d
    ensures NeverConfusedSlots(ItemPatched(before.value.items, cs, d, i), Item(after.value.items, i))
       <==> NeverConfusedSlots(Item(before.value.items, i), Item(after.value.items, i))
    decreases SlotSize(before) + SlotSize(after), 0, 0
  {
    ItemOfIsSmaller(before.value, i);
    ItemOfIsSmaller(after.value, i);
    ItemIsValid(before.value, i);
    hide NeverConfused, Patch, Equal;
    PatchConfusesExactly(Item(before.value.items, i), Item(after.value.items, i), Under(cs, d, Index(i)), d + 1);
  }

  /** What comes back is the very text exactly when no truth value stands where the number it equals does. */
  lemma PatchGivesTextExactly(before: Json, after: Json, cs: seq<Change>)
    requires Valid(before) && Describes(Some(before), Some(after), cs, 0)
    ensures Patch(Some(before), cs, 0).Some?
    ensures Same(Patch(Some(before), cs, 0).value, after) <==> NeverConfused(before, after)
  {
    PatchGives(Some(before), Some(after), cs, 0);
    PatchConfusesExactly(Some(before), Some(after), cs, 0);
    SameExactly(Patch(Some(before), cs, 0).value, after);
  }

  /** The list loses nothing: applied to `before` it makes `after`, and read backwards it makes `before` of `after`, each up to
      Python's equality; and each to the letter exactly when no truth value was changed into the number it equals, or back. */
  lemma BetweenIsLossless(before: Json, after: Json)
    requires Valid(before) && Valid(after)
    ensures
      var forth, back := Patch(Some(before), Between(before, after), 0), Patch(Some(after), Reversed(Between(before, after)), 0);
      && EqualSlots(forth, Some(after)) && EqualSlots(back, Some(before))
      && (Same(forth.value, after) <==> NeverConfused(before, after))
      && (Same(back.value, before) <==> NeverConfused(before, after))
  {
    WalkDescribes(Some(before), Some(after), []);
    PatchGives(Some(before), Some(after), Between(before, after), 0);
    PatchGivesTextExactly(before, after, Between(before, after));
    ReversedDescribes(Some(before), Some(after), Between(before, after), 0);
    PatchGives(Some(after), Some(before), Reversed(Between(before, after)), 0);
    PatchGivesTextExactly(after, before, Reversed(Between(before, after)));
    hide Patch, NeverConfused, Same, Equal, Between, Reversed;
    if NeverConfused(before, after) { NeverConfusedIsSymmetric(before, after); }
    if NeverConfused(after, before) { NeverConfusedIsSymmetric(after, before); }
  }
}
