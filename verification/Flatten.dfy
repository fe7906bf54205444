/** flatten_dict: a nested result becomes one dictionary with dotted keys. */
module Flatten {
  import opened Text

  /** The values benchmarks.py nests: strings, numbers, None, dictionaries in insertion order, and other iterables. */
  datatype Data =
    | Str(s: string)
    | Number(r: real)
    | NoneValue
    | Dict(entries: seq<Entry>)
    | Items(values: seq<Data>)

  datatype Entry = Entry(key: string, value: Data)

  /** The assignments that flatten_dict_internal makes to dst, in order. */
  function Writes(prefix: string, data: Data): seq<(string, Data)>
    decreases data, 1
  {
    match data
    case Str(_) => [(prefix, data)]
    case Number(_) => [(prefix, data)]
    case NoneValue => []
    case Dict(entries) => EntryWrites(prefix, entries)
    case Items(values) => ItemWrites(prefix, values, 0)
  }

  function FullPrefix(prefix: string, key: string): string
  {
    if |prefix| > 0 then prefix + "." + key else key
  }

  function EntryWrites(prefix: string, entries: seq<Entry>): seq<(string, Data)>
    decreases entries, 0
  {
    if entries == [] then []
    else Writes(FullPrefix(prefix, entries[0].key), entries[0].value) + EntryWrites(prefix, entries[1..])
  }

  function ItemWrites(prefix: string, values: seq<Data>, i: nat): seq<(string, Data)>
    decreases values, 0
  {
    if values == [] then []
    else Writes(prefix + "." + Decimal(i), values[0]) + ItemWrites(prefix, values[1..], i + 1)
  }

  /** The dictionary after a list of assignments: the last one to a key wins. */
  function Store(dst: map<string, Data>, writes: seq<(string, Data)>): map<string, Data>
    decreases |writes|
  {
    if writes == [] then dst else Store(dst[writes[0].0 := writes[0].1], writes[1..])
  }

  lemma {:induction false} StoreConcat(dst: map<string, Data>, a: seq<(string, Data)>, b: seq<(string, Data)>)
    ensures Store(dst, a + b) == Store(Store(dst, a), b)
    decreases |a|
  {
    if a == [] {
      assert a + b == b;
    } else {
      assert (a + b)[1..] == a[1..] + b;
      StoreConcat(dst[a[0].0 := a[0].1], a[1..], b);
    }
  }

  /** The dst dictionary that the recursion shares. */
  class Destination {
    var dst: map<string, Data>

    constructor ()
      ensures dst == map[]
    {
      dst := map[];
    }

    /** flatten_dict_internal. */
    method FlattenInternal(prefix: string, data: Data)
      modifies this
      ensures dst == Store(old(dst), Writes(prefix, data))
      decreases data
    {
      match data
      case Str(_) => dst := dst[prefix := data];
      case Dict(entries) =>
        for i := 0 to |entries|
          invariant Store(dst, EntryWrites(prefix, entries[i..])) == Store(old(dst), EntryWrites(prefix, entries))
        {
          StoreConcat(dst, Writes(FullPrefix(prefix, entries[i].key), entries[i].value),
                      EntryWrites(prefix, entries[i + 1..]));
          assert entries[i..][1..] == entries[i + 1..];
          FlattenInternal(FullPrefix(prefix, entries[i].key), entries[i].value);
        }
      case Items(values) =>
        for i := 0 to |values|
          invariant Store(dst, ItemWrites(prefix, values[i..], i)) == Store(old(dst), ItemWrites(prefix, values, 0))
        {
          StoreConcat(dst, Writes(prefix + "." + Decimal(i), values[i]), ItemWrites(prefix, values[i + 1..], i + 1));
          assert values[i..][1..] == values[i + 1..];
          FlattenInternal(prefix + "." + Decimal(i), values[i]);
        }
      case Number(_) => dst := dst[prefix := data];
      case NoneValue =>
    }
  }

  /** flatten_dict. */
  method FlattenDict(data: Data) returns (r: map<string, Data>)
    ensures r == Store(map[], Writes("", data))
  {
    var d := new Destination();
    d.FlattenInternal("", data);
    r := d.dst;
  }

  lemma FirstEntry(prefix: string, e: Entry, more: seq<Entry>)
    ensures EntryWrites(prefix, [e] + more) == Writes(FullPrefix(prefix, e.key), e.value) + EntryWrites(prefix, more)
    ensures EntryWrites(prefix, []) == []
  {
    assert ([e] + more)[1..] == more;
  }

  lemma FirstItem(prefix: string, value: Data, more: seq<Data>, i: nat)
    ensures ItemWrites(prefix, [value] + more, i)
         == Writes(prefix + "." + Decimal(i), value) + ItemWrites(prefix, more, i + 1)
    ensures ItemWrites(prefix, [], i + 1) == []
  {
    assert ([value] + more)[1..] == more;
  }

  lemma StoreTwo(a: (string, Data), b: (string, Data))
    ensures Store(map[], [a] + [b]) == map[][a.0 := a.1][b.0 := b.1]
  {
    var w := [a] + [b];
    assert w[0] == a && w[1..] == [b] && [b][1..] == [];
    var d := map[a.0 := a.1];
    assert Store(map[], w) == Store(d, [b]) == Store(d[b.0 := b.1], []);
  }

  /** {"a": {"b": [None, "x"]}, "c": 1}: positions count from 0, also where there is nothing to keep. */
  lemma SmallExample()
    ensures var items := Items([NoneValue] + [Str("x")]);
      var data := Dict([Entry("a", Dict([Entry("b", items)] + []))] + ([Entry("c", Number(1.0))] + []));
      Store(map[], Writes("", data)) == map["a.b.1" := Str("x"), "c" := Number(1.0)]
  {
    hide EntryWrites, ItemWrites, Store, Decimal;
    var items := Items([NoneValue] + [Str("x")]);
    var a, b, c := Entry("a", Dict([Entry("b", items)] + [])), Entry("b", items), Entry("c", Number(1.0));
    assert "a" + "." + "b" == "a.b" && "a.b" + "." + "1" == "a.b.1";
    assert Decimal(1) == "1" by { DecimalOfOne(); }
    FirstEntry("", a, [c] + []);
    FirstEntry("", c, []);
    FirstEntry("a", b, []);
    FirstItem("a.b", NoneValue, [Str("x")], 0);
    FirstItem("a.b", Str("x"), [], 1);
    assert [Str("x")] + [] == [Str("x")];
    assert ItemWrites("a.b", [Str("x")], 1) == [("a.b.1", Str("x"))];
    assert ItemWrites("a.b", [NoneValue] + [Str("x")], 0) == [] + [("a.b.1", Str("x"))];
    assert Writes("a.b", items) == [("a.b.1", Str("x"))];
    assert Writes("a", a.value) == [("a.b.1", Str("x"))];
    assert EntryWrites("", [c] + []) == [("c", Number(1.0))];
    assert Writes("", Dict([a] + ([c] + []))) == [("a.b.1", Str("x"))] + [("c", Number(1.0))];
    StoreTwo(("a.b.1", Str("x")), ("c", Number(1.0)));
  }

  lemma DecimalOfOne()
    ensures Decimal(1) == "1"
  {
  }

  // What flattening means

  /** Every leaf that is not None, with the keys and positions that lead to it. */
  function Leaves(data: Data): seq<(seq<string>, Data)>
    decreases data, 1
  {
    match data
    case Str(_) => [([], data)]
    case Number(_) => [([], data)]
    case NoneValue => []
    case Dict(entries) => EntryLeaves(entries)
    case Items(values) => ItemLeaves(values, 0)
  }

  function EntryLeaves(entries: seq<Entry>): seq<(seq<string>, Data)>
    decreases entries, 0
  {
    if entries == [] then [] else Under(entries[0].key, Leaves(entries[0].value)) + EntryLeaves(entries[1..])
  }

  function ItemLeaves(values: seq<Data>, i: nat): seq<(seq<string>, Data)>
    decreases values, 0
  {
    if values == [] then [] else Under(Decimal(i), Leaves(values[0])) + ItemLeaves(values[1..], i + 1)
  }

  function Under(step: string, leaves: seq<(seq<string>, Data)>): (r: seq<(seq<string>, Data)>)
    ensures |r| == |leaves|
    ensures forall i | 0 <= i < |r| :: r[i] == ([step] + leaves[i].0, leaves[i].1)
  {
    seq(|leaves|, i requires 0 <= i < |leaves| => ([step] + leaves[i].0, leaves[i].1))
  }

  /** A path leads to a leaf: by keys through dictionaries, by positions, counted from 0, through other iterables. */
  predicate Reaches(data: Data, path: seq<string>, leaf: Data)
    decreases data
  {
    match data
    case Str(_) => path == [] && leaf == data
    case Number(_) => path == [] && leaf == data
    case NoneValue => false
    case Dict(entries) =>
      && path != []
      && exists i | 0 <= i < |entries| :: entries[i].key == path[0] && Reaches(entries[i].value, path[1..], leaf)
    case Items(values) =>
      && path != []
      && exists i | 0 <= i < |values| :: Decimal(i) == path[0] && Reaches(values[i], path[1..], leaf)
  }

  /** The leaves are exactly what the paths lead to. */
  lemma {:induction false} LeavesAreReached(data: Data, path: seq<string>, leaf: Data)
    ensures (path, leaf) in Leaves(data) <==> Reaches(data, path, leaf)
    decreases data, 1
  {
    match data
    case Dict(entries) =>
      EntriesAreReached(entries, path, leaf);
      forall i | 0 <= i < |entries| && path != []
        ensures (path[1..], leaf) in Leaves(entries[i].value) <==> Reaches(entries[i].value, path[1..], leaf)
      {
        LeavesAreReached(entries[i].value, path[1..], leaf);
      }
    case Items(values) =>
      ItemsAreReached(values, 0, path, leaf);
      forall i | 0 <= i < |values| && path != []
        ensures (path[1..], leaf) in Leaves(values[i]) <==> Reaches(values[i], path[1..], leaf)
      {
        LeavesAreReached(values[i], path[1..], leaf);
      }
      forall i | 0 <= i < |values| ensures ItemAt(values, 0, i, path, leaf) <==>
        path != [] && Decimal(i) == path[0] && (path[1..], leaf) in Leaves(values[i]) {
        assert 0 + i == i;
      }
    case _ =>
  }

  lemma InUnder(step: string, leaves: seq<(seq<string>, Data)>, path: seq<string>, leaf: Data)
    ensures (path, leaf) in Under(step, leaves) <==> path != [] && path[0] == step && (path[1..], leaf) in leaves
  {
    var u := Under(step, leaves);
    if (path, leaf) in u {
      var i :| 0 <= i < |u| && u[i] == (path, leaf);
      assert path[1..] == leaves[i].0;
    }
    if path != [] && path[0] == step && (path[1..], leaf) in leaves {
      var i :| 0 <= i < |leaves| && leaves[i] == (path[1..], leaf);
      assert [step] + path[1..] == path && u[i] == (path, leaf);
    }
  }

  lemma {:induction false} EntriesAreReached(entries: seq<Entry>, path: seq<string>, leaf: Data)
    ensures (path, leaf) in EntryLeaves(entries) <==>
      path != [] && exists i | 0 <= i < |entries| ::
        entries[i].key == path[0] && (path[1..], leaf) in Leaves(entries[i].value)
    decreases entries, 0
  {
    hide Leaves;
    if entries != [] {
      var more := entries[1..];
      InUnder(entries[0].key, Leaves(entries[0].value), path, leaf);
      EntriesAreReached(more, path, leaf);
      assert forall i | 0 <= i < |more| :: more[i] == entries[i + 1];
      assert forall i | 1 <= i < |entries| :: entries[i] == more[i - 1];
    }
  }

  ghost predicate ItemAt(values: seq<Data>, from: nat, i: nat, path: seq<string>, leaf: Data)
  {
    i < |values| && path != [] && Decimal(from + i) == path[0] && (path[1..], leaf) in Leaves(values[i])
  }

  lemma ItemAtLater(values: seq<Data>, from: nat, i: nat, path: seq<string>, leaf: Data)
    requires values != []
    ensures ItemAt(values, from, i + 1, path, leaf) <==> ItemAt(values[1..], from + 1, i, path, leaf)
  {
    hide Leaves;
    assert from + (i + 1) == from + 1 + i;
  }

  lemma {:induction false} ItemsAreReached(values: seq<Data>, from: nat, path: seq<string>, leaf: Data)
    ensures (path, leaf) in ItemLeaves(values, from) <==> exists i: nat :: ItemAt(values, from, i, path, leaf)
    decreases values, 0
  {
    hide Leaves, ItemAt;
    if values == [] {
      assert forall i: nat :: !ItemAt(values, from, i, path, leaf) by { NoItemAt(values, from, path, leaf); }
    } else {
      var more := values[1..];
      InUnder(Decimal(from), Leaves(values[0]), path, leaf);
      ItemsAreReached(more, from + 1, path, leaf);
      ItemAtFirst(values, from, path, leaf);
      if exists i: nat :: ItemAt(values, from, i, path, leaf) {
        var i: nat :| ItemAt(values, from, i, path, leaf);
        if i > 0 { ItemAtLater(values, from, i - 1, path, leaf); }
      }
      var next := from + 1;
      if exists i: nat :: ItemAt(more, next, i, path, leaf) {
        var i: nat :| ItemAt(more, next, i, path, leaf);
        ItemAtLater(values, from, i, path, leaf);
      }
    }
  }

  lemma NoItemAt(values: seq<Data>, from: nat, path: seq<string>, leaf: Data)
    requires values == []
    ensures forall i: nat :: !ItemAt(values, from, i, path, leaf)
  {
  }

  lemma ItemAtFirst(values: seq<Data>, from: nat, path: seq<string>, leaf: Data)
    requires values != []
    ensures ItemAt(values, from, 0, path, leaf) <==>
      path != [] && path[0] == Decimal(from) && (path[1..], leaf) in Leaves(values[0])
  {
    hide Leaves;
  }

  function Dots(path: seq<string>): string
  {
    if path == [] then "" else "." + path[0] + Dots(path[1..])
  }

  /** The path, joined with dots. */
  function Dotted(path: seq<string>): string
  {
    if path == [] then "" else path[0] + Dots(path[1..])
  }

  lemma {:induction false} DottedIsJoin(path: seq<string>)
    ensures Dotted(path) == Join(path, '.')
  {
    if |path| > 1 {
      DottedIsJoin(path[1..]);
      assert path[1..][1..] == path[2..];
    }
  }

  /** Keys that can be told apart after joining: nonempty, without a dot, and different within a dictionary. */
  predicate Separable(data: Data)
  {
    match data
    case Dict(entries) =>
      && (forall i | 0 <= i < |entries| ::
            entries[i].key != "" && Lacks(entries[i].key, '.') && Separable(entries[i].value))
      && forall i, j | 0 <= i < j < |entries| :: entries[i].key != entries[j].key
    case Items(values) => forall i | 0 <= i < |values| :: Separable(values[i])
    case _ => true
  }

  // Where the writes go

  function Placed(prefix: string, leaves: seq<(seq<string>, Data)>): (r: seq<(string, Data)>)
    ensures |r| == |leaves|
    ensures forall i | 0 <= i < |r| :: r[i] == (prefix + Dots(leaves[i].0), leaves[i].1)
  {
    seq(|leaves|, i requires 0 <= i < |leaves| => (prefix + Dots(leaves[i].0), leaves[i].1))
  }

  lemma PlacedUnder(prefix: string, step: string, leaves: seq<(seq<string>, Data)>)
    ensures Placed(prefix, Under(step, leaves)) == Placed(prefix + "." + step, leaves)
  {
    forall i | 0 <= i < |leaves|
      ensures prefix + Dots([step] + leaves[i].0) == (prefix + "." + step) + Dots(leaves[i].0)
    {
      assert ([step] + leaves[i].0)[1..] == leaves[i].0;
    }
  }

  lemma PlacedConcat(prefix: string, a: seq<(seq<string>, Data)>, b: seq<(seq<string>, Data)>)
    ensures Placed(prefix, a + b) == Placed(prefix, a) + Placed(prefix, b)
  {
  }

  /** Under a prefix, each leaf is written to the prefix followed by a dot and a step for every step of its path. */
  lemma {:induction false} WritesArePlaced(prefix: string, data: Data)
    requires prefix != ""
    ensures Writes(prefix, data) == Placed(prefix, Leaves(data))
    decreases data, 1
  {
    match data
    case Dict(entries) => EntriesArePlaced(prefix, entries);
    case Items(values) => ItemsArePlaced(prefix, values, 0);
    case _ => assert prefix + "" == prefix;
  }

  lemma {:induction false} EntriesArePlaced(prefix: string, entries: seq<Entry>)
    requires prefix != ""
    ensures EntryWrites(prefix, entries) == Placed(prefix, EntryLeaves(entries))
    decreases entries, 0
  {
    if entries != [] {
      var e := entries[0];
      WritesArePlaced(prefix + "." + e.key, e.value);
      EntriesArePlaced(prefix, entries[1..]);
      PlacedUnder(prefix, e.key, Leaves(e.value));
      PlacedConcat(prefix, Under(e.key, Leaves(e.value)), EntryLeaves(entries[1..]));
    }
  }

  lemma {:induction false} ItemsArePlaced(prefix: string, values: seq<Data>, i: nat)
    requires prefix != ""
    ensures ItemWrites(prefix, values, i) == Placed(prefix, ItemLeaves(values, i))
    decreases values, 0
  {
    if values != [] {
      WritesArePlaced(prefix + "." + Decimal(i), values[0]);
      ItemsArePlaced(prefix, values[1..], i + 1);
      PlacedUnder(prefix, Decimal(i), Leaves(values[0]));
      PlacedConcat(prefix, Under(Decimal(i), Leaves(values[0])), ItemLeaves(values[1..], i + 1));
    }
  }

  ghost predicate NonemptyKeys(entries: seq<Entry>)
  {
    forall i | 0 <= i < |entries| :: entries[i].key != ""
  }

  /** What a dictionary at the root writes: every leaf to its dotted path. */
  function AtRoot(leaves: seq<(seq<string>, Data)>): (r: seq<(string, Data)>)
    ensures |r| == |leaves|
    ensures forall i | 0 <= i < |r| :: r[i] == (Dotted(leaves[i].0), leaves[i].1)
  {
    seq(|leaves|, i requires 0 <= i < |leaves| => (Dotted(leaves[i].0), leaves[i].1))
  }

  lemma AtRootUnder(key: string, leaves: seq<(seq<string>, Data)>)
    ensures AtRoot(Under(key, leaves)) == Placed(key, leaves)
  {
    forall i | 0 <= i < |leaves| ensures Dotted([key] + leaves[i].0) == key + Dots(leaves[i].0) {
      assert ([key] + leaves[i].0)[1..] == leaves[i].0;
    }
  }

  lemma AtRootConcat(a: seq<(seq<string>, Data)>, b: seq<(seq<string>, Data)>)
    ensures AtRoot(a + b) == AtRoot(a) + AtRoot(b)
  {
  }

  lemma {:induction false} RootWrites(entries: seq<Entry>)
    requires NonemptyKeys(entries)
    ensures EntryWrites("", entries) == AtRoot(EntryLeaves(entries))
  {
    hide Dotted, Dots, Leaves, Writes;
    if entries != [] {
      var e := entries[0];
      WritesArePlaced(e.key, e.value);
      RootWrites(entries[1..]);
      AtRootUnder(e.key, Leaves(e.value));
      AtRootConcat(Under(e.key, Leaves(e.value)), EntryLeaves(entries[1..]));
    }
  }

  function Prefixed(p: string, writes: seq<(string, Data)>): (r: seq<(string, Data)>)
    ensures |r| == |writes|
    ensures forall i | 0 <= i < |r| :: r[i] == (p + "." + writes[i].0, writes[i].1)
  {
    seq(|writes|, i requires 0 <= i < |writes| => (p + "." + writes[i].0, writes[i].1))
  }

  lemma {:induction false} EntryPathsNonempty(entries: seq<Entry>)
    ensures forall i | 0 <= i < |EntryLeaves(entries)| :: EntryLeaves(entries)[i].0 != []
  {
    if entries != [] { EntryPathsNonempty(entries[1..]); }
  }

  /** Flattening a dictionary under a prefix is flattening it on its own and prepending the prefix and a dot. */
  lemma FlattenUnderPrefix(p: string, entries: seq<Entry>)
    requires p != "" && NonemptyKeys(entries)
    ensures Writes(p, Dict(entries)) == Prefixed(p, Writes("", Dict(entries)))
  {
    hide EntryWrites, EntryLeaves, NonemptyKeys, Dots, Dotted;
    var leaves := EntryLeaves(entries);
    EntriesArePlaced(p, entries);
    RootWrites(entries);
    EntryPathsNonempty(entries);
    forall i | 0 <= i < |leaves| ensures p + Dots(leaves[i].0) == p + "." + Dotted(leaves[i].0) {
      DotsOfNonempty(p, leaves[i].0);
    }
    assert Placed(p, leaves) == Prefixed(p, AtRoot(leaves));
  }

  lemma DotsOfNonempty(p: string, path: seq<string>)
    requires path != []
    ensures p + Dots(path) == p + "." + Dotted(path)
  {
    var more := Dots(path[1..]);
    hide Dots;
    assert "." + path[0] + more == "." + (path[0] + more);
    assert p + ("." + (path[0] + more)) == p + "." + (path[0] + more);
  }

  // Nothing is lost

  ghost predicate Distinct(leaves: seq<(seq<string>, Data)>)
  {
    forall i, j | 0 <= i < j < |leaves| :: leaves[i].0 != leaves[j].0
  }

  ghost predicate DotFree(leaves: seq<(seq<string>, Data)>)
  {
    forall i, k | 0 <= i < |leaves| && 0 <= k < |leaves[i].0| :: Lacks(leaves[i].0[k], '.')
  }

  /** Every path starts with one of the given steps. */
  ghost predicate StartsIn(leaves: seq<(seq<string>, Data)>, steps: iset<string>)
  {
    forall i | 0 <= i < |leaves| :: leaves[i].0 != [] && leaves[i].0[0] in steps
  }

  lemma UnderKeeps(step: string, leaves: seq<(seq<string>, Data)>)
    requires Distinct(leaves) && DotFree(leaves) && Lacks(step, '.')
    ensures Distinct(Under(step, leaves)) && DotFree(Under(step, leaves))
    ensures StartsIn(Under(step, leaves), iset{step})
  {
    var r := Under(step, leaves);
    forall i, j | 0 <= i < j < |r| ensures r[i].0 != r[j].0 {
      assert r[i].0[1..] == leaves[i].0 && r[j].0[1..] == leaves[j].0;
    }
    forall i, k | 0 <= i < |r| && 0 <= k < |r[i].0| ensures Lacks(r[i].0[k], '.') {
      if k > 0 { assert r[i].0[k] == leaves[i].0[k - 1]; }
    }
  }

  lemma JoinedDistinct(a: seq<(seq<string>, Data)>, b: seq<(seq<string>, Data)>, step: string, steps: iset<string>)
    requires Distinct(a) && Distinct(b) && DotFree(a) && DotFree(b)
    requires StartsIn(a, iset{step}) && StartsIn(b, steps) && step !in steps
    ensures Distinct(a + b) && DotFree(a + b) && StartsIn(a + b, iset{step} + steps)
  {
  }

  lemma {:induction false} LeavesAreDistinct(data: Data)
    requires Separable(data)
    ensures Distinct(Leaves(data)) && DotFree(Leaves(data))
    decreases data, 1
  {
    match data
    case Dict(entries) => EntriesAreDistinct(entries);
    case Items(values) => ItemsAreDistinct(values, 0);
    case _ =>
  }

  ghost function KeysFrom(entries: seq<Entry>): iset<string>
  {
    iset i | 0 <= i < |entries| :: entries[i].key
  }

  lemma {:induction false} EntriesAreDistinct(entries: seq<Entry>)
    requires Separable(Dict(entries))
    ensures var l := EntryLeaves(entries); Distinct(l) && DotFree(l) && StartsIn(l, KeysFrom(entries))
    decreases entries, 0
  {
    if entries != [] {
      var e, more := entries[0], entries[1..];
      LeavesAreDistinct(e.value);
      UnderKeeps(e.key, Leaves(e.value));
      EntriesAreDistinct(more);
      assert KeysFrom(entries) == iset{e.key} + KeysFrom(more) by {
        forall i | 0 <= i < |entries| ensures entries[i].key in iset{e.key} + KeysFrom(more) {
          if i > 0 { assert entries[i] == more[i - 1]; }
        }
        forall i | 0 <= i < |more| ensures more[i].key in KeysFrom(entries) { assert more[i] == entries[i + 1]; }
      }
      JoinedDistinct(Under(e.key, Leaves(e.value)), EntryLeaves(more), e.key, KeysFrom(more));
    }
  }

  ghost function IndicesFrom(i: nat): iset<string>
  {
    iset k: nat | i <= k :: Decimal(k)
  }

  lemma {:induction false} ItemsAreDistinct(values: seq<Data>, i: nat)
    requires Separable(Items(values))
    ensures var l := ItemLeaves(values, i); Distinct(l) && DotFree(l) && StartsIn(l, IndicesFrom(i))
    decreases values, 0
  {
    if values != [] {
      LeavesAreDistinct(values[0]);
      DigitsLack(Decimal(i), '.');
      UnderKeeps(Decimal(i), Leaves(values[0]));
      ItemsAreDistinct(values[1..], i + 1);
      if Decimal(i) in IndicesFrom(i + 1) {
        var k: nat :| i + 1 <= k && Decimal(k) == Decimal(i);
        DecimalIsInjective(i, k);
      }
      JoinedDistinct(Under(Decimal(i), Leaves(values[0])), ItemLeaves(values[1..], i + 1),
                     Decimal(i), IndicesFrom(i + 1));
    }
  }

  lemma DottedIsInjective(a: seq<string>, b: seq<string>)
    requires a != [] && b != [] && Dotted(a) == Dotted(b)
    requires forall k | 0 <= k < |a| :: Lacks(a[k], '.')
    requires forall k | 0 <= k < |b| :: Lacks(b[k], '.')
    ensures a == b
  {
    DottedIsJoin(a);
    DottedIsJoin(b);
    SplitOfJoin(a, '.');
    SplitOfJoin(b, '.');
  }

  ghost predicate DistinctKeys(writes: seq<(string, Data)>)
  {
    forall i, j | 0 <= i < j < |writes| :: writes[i].0 != writes[j].0
  }

  /** Assignments to different keys all survive. */
  lemma {:induction false} StoreKeepsAll(dst: map<string, Data>, writes: seq<(string, Data)>)
    requires DistinctKeys(writes) && forall i | 0 <= i < |writes| :: writes[i].0 !in dst
    ensures var r := Store(dst, writes);
      && |r| == |dst| + |writes|
      && (forall k | k in dst :: k in r && r[k] == dst[k])
      && forall i | 0 <= i < |writes| :: writes[i].0 in r && r[writes[i].0] == writes[i].1
    decreases |writes|
  {
    if writes != [] {
      var dst' := dst[writes[0].0 := writes[0].1];
      StoreKeepsAll(dst', writes[1..]);
      var r := Store(dst, writes);
      forall i | 0 <= i < |writes| ensures writes[i].0 in r && r[writes[i].0] == writes[i].1 {
        if i == 0 { assert writes[0].0 in dst'; } else { assert writes[i] == writes[1..][i - 1]; }
      }
    }
  }

  /** Storing makes at most one key per assignment, and fewer as soon as one key is assigned twice. */
  lemma {:induction false} StoreKeepsAllExactlyWhen(dst: map<string, Data>, writes: seq<(string, Data)>)
    requires forall i | 0 <= i < |writes| :: writes[i].0 !in dst
    ensures |Store(dst, writes)| <= |dst| + |writes|
    ensures |Store(dst, writes)| == |dst| + |writes| <==> DistinctKeys(writes)
  {
    StoreGrows(dst, writes);
    if DistinctKeys(writes) {
      StoreKeepsAll(dst, writes);
    } else {
      var i, j :| 0 <= i < j < |writes| && writes[i].0 == writes[j].0;
      StoreLoses(dst, writes, i, j);
    }
  }

  lemma {:induction false} StoreGrows(dst: map<string, Data>, writes: seq<(string, Data)>)
    ensures |Store(dst, writes)| <= |dst| + |writes|
    ensures forall k | k in dst :: k in Store(dst, writes)
    decreases |writes|
  {
    if writes != [] {
      PutGrows(dst, writes[0].0, writes[0].1);
      StoreGrows(dst[writes[0].0 := writes[0].1], writes[1..]);
    }
  }

  lemma PutGrows(dst: map<string, Data>, k: string, v: Data)
    ensures |dst[k := v]| == |dst| + if k in dst then 0 else 1
  {
    var dst' := dst[k := v];
    assert dst'.Keys == dst.Keys + {k};
    assert |dst'| == |dst'.Keys| && |dst| == |dst.Keys|;
  }

  /** The second of two assignments to one key adds no key. */
  lemma {:induction false} StoreLoses(dst: map<string, Data>, writes: seq<(string, Data)>, i: nat, j: nat)
    requires i < j < |writes| && writes[i].0 == writes[j].0
    ensures |Store(dst, writes)| < |dst| + |writes|
  {
    var before, after := writes[..j], writes[j + 1..];
    assert writes == before + ([writes[j]] + after);
    StoreConcat(dst, before, [writes[j]] + after);
    StoreGrows(dst, before);
    StoredIsThere(dst, before, i);
    var d := Store(dst, before);
    assert ([writes[j]] + after)[1..] == after;
    PutGrows(d, writes[j].0, writes[j].1);
    StoreGrows(d[writes[j].0 := writes[j].1], after);
  }

  lemma {:induction false} StoredIsThere(dst: map<string, Data>, writes: seq<(string, Data)>, i: nat)
    requires i < |writes|
    ensures writes[i].0 in Store(dst, writes)
    decreases |writes|
  {
    var dst' := dst[writes[0].0 := writes[0].1];
    if i == 0 {
      StoreGrows(dst', writes[1..]);
      assert writes[0].0 in dst';
    } else {
      StoredIsThere(dst', writes[1..], i - 1);
    }
  }

  /** The key of every leaf at the root: its path joined with dots, less the empty keys that it starts with. */
  function LeafKeys(data: Data): (keys: seq<string>)
    decreases data, 1
  {
    match data
    case Str(_) => [""]
    case Number(_) => [""]
    case NoneValue => []
    case Dict(entries) => EntryKeys(entries)
    case Items(_) => Joined("", Leaves(data))
  }

  function EntryKeys(entries: seq<Entry>): seq<string>
    decreases entries, 0
  {
    if entries == [] then []
    else
      var e := entries[0];
      (if e.key == "" then LeafKeys(e.value) else Joined(e.key, Leaves(e.value))) + EntryKeys(entries[1..])
  }

  function Joined(start: string, leaves: seq<(seq<string>, Data)>): (keys: seq<string>)
    ensures |keys| == |leaves|
    ensures forall i | 0 <= i < |keys| :: keys[i] == start + Dots(leaves[i].0)
  {
    seq(|leaves|, i requires 0 <= i < |leaves| => start + Dots(leaves[i].0))
  }

  /** One assignment for each leaf, to its key and with its value. */
  ghost predicate Assigns(writes: seq<(string, Data)>, keys: seq<string>, leaves: seq<(seq<string>, Data)>)
  {
    |writes| == |keys| == |leaves| && forall i | 0 <= i < |writes| :: writes[i] == (keys[i], leaves[i].1)
  }

  lemma {:induction false} RootAssigns(data: Data)
    ensures Assigns(Writes("", data), LeafKeys(data), Leaves(data))
    decreases data, 1
  {
    match data
    case Dict(entries) => RootEntriesAssign(entries);
    case Items(values) => RootItemsArePlaced(values, 0);
    case _ =>
  }

  lemma {:induction false} RootItemsArePlaced(values: seq<Data>, i: nat)
    ensures ItemWrites("", values, i) == Placed("", ItemLeaves(values, i))
    decreases values, 0
  {
    if values != [] {
      WritesArePlaced("" + "." + Decimal(i), values[0]);
      RootItemsArePlaced(values[1..], i + 1);
      PlacedUnder("", Decimal(i), Leaves(values[0]));
      PlacedConcat("", Under(Decimal(i), Leaves(values[0])), ItemLeaves(values[1..], i + 1));
    }
  }

  lemma {:induction false} RootEntriesAssign(entries: seq<Entry>)
    ensures Assigns(EntryWrites("", entries), EntryKeys(entries), EntryLeaves(entries))
    decreases entries, 0
  {
    hide Dots, Leaves, Writes, LeafKeys;
    if entries != [] {
      var e := entries[0];
      RootEntriesAssign(entries[1..]);
      if e.key == "" { RootAssigns(e.value); } else { WritesArePlaced(e.key, e.value); }
    }
  }

  ghost predicate DistinctStrings(keys: seq<string>)
  {
    forall i, j | 0 <= i < j < |keys| :: keys[i] != keys[j]
  }

  /**
   * Flattening anything makes at most one key per leaf, and as many keys as leaves exactly when no two leaves have the
   * same key; each leaf is then found under its own.
   */
  lemma FlattenKeepsAllExactlyWhen(data: Data)
    ensures var r := Store(map[], Writes("", data));
      && |r| <= |Leaves(data)| == |LeafKeys(data)|
      && (|r| == |Leaves(data)| <==> DistinctStrings(LeafKeys(data)))
      && (DistinctStrings(LeafKeys(data)) ==>
            forall i | 0 <= i < |Leaves(data)| :: LeafKeys(data)[i] in r && r[LeafKeys(data)[i]] == Leaves(data)[i].1)
  {
    hide Writes, Leaves, LeafKeys;
    var writes, keys := Writes("", data), LeafKeys(data);
    RootAssigns(data);
    StoreKeepsAllExactlyWhen(map[], writes);
    assert DistinctKeys(writes) <==> DistinctStrings(keys) by {
      assert forall i | 0 <= i < |writes| :: writes[i].0 == keys[i];
    }
    if DistinctKeys(writes) { StoreKeepsAll(map[], writes); }
  }

  /** Without empty keys at the root, the keys are the dotted paths. */
  lemma {:induction false} LeafKeysAreDotted(entries: seq<Entry>)
    requires NonemptyKeys(entries)
    ensures |EntryKeys(entries)| == |EntryLeaves(entries)|
    ensures forall i | 0 <= i < |EntryKeys(entries)| :: EntryKeys(entries)[i] == Dotted(EntryLeaves(entries)[i].0)
  {
    RootWrites(entries);
    RootEntriesAssign(entries);
    var writes := EntryWrites("", entries);
    forall i | 0 <= i < |writes| ensures EntryKeys(entries)[i] == Dotted(EntryLeaves(entries)[i].0) {
      assert writes[i].0 == EntryKeys(entries)[i];
    }
  }

  ghost predicate DistinctDotted(leaves: seq<(seq<string>, Data)>)
  {
    forall i, j | 0 <= i < j < |leaves| :: Dotted(leaves[i].0) != Dotted(leaves[j].0)
  }

  /**
   * Flattening a dictionary loses a leaf exactly when the dotted paths of two leaves are the same string. Whatever keys
   * there are below the root, dots and all, each leaf is otherwise found under its dotted path.
   */
  lemma FlattenLosesNothingExactlyWhen(entries: seq<Entry>)
    requires NonemptyKeys(entries)
    ensures var r := Store(map[], Writes("", Dict(entries)));
      var leaves := Leaves(Dict(entries));
      && |r| <= |leaves|
      && (|r| == |leaves| <==> DistinctDotted(leaves))
      && (DistinctDotted(leaves) ==>
            forall i | 0 <= i < |leaves| :: Dotted(leaves[i].0) in r && r[Dotted(leaves[i].0)] == leaves[i].1)
  {
    hide EntryKeys, EntryLeaves, Dotted, NonemptyKeys, EntryWrites;
    LeafKeysAreDotted(entries);
    FlattenKeepsAllExactlyWhen(Dict(entries));
    var keys, leaves := LeafKeys(Dict(entries)), Leaves(Dict(entries));
    assert forall i | 0 <= i < |keys| :: keys[i] == Dotted(leaves[i].0);
  }

  /** With keys that can be told apart, flattening a dictionary loses nothing. */
  lemma FlattenLosesNothing(entries: seq<Entry>)
    requires Separable(Dict(entries))
    ensures var r := Store(map[], Writes("", Dict(entries)));
      var leaves := Leaves(Dict(entries));
      && |r| == |leaves| && DistinctDotted(leaves)
      && forall i | 0 <= i < |leaves| :: Dotted(leaves[i].0) in r && r[Dotted(leaves[i].0)] == leaves[i].1
  {
    var leaves := EntryLeaves(entries);
    EntriesAreDistinct(entries);
    EntryPathsNonempty(entries);
    forall i, j | 0 <= i < j < |leaves| ensures Dotted(leaves[i].0) != Dotted(leaves[j].0) {
      if Dotted(leaves[i].0) == Dotted(leaves[j].0) { DottedIsInjective(leaves[i].0, leaves[j].0); }
    }
    assert NonemptyKeys(entries);
    FlattenLosesNothingExactlyWhen(entries);
  }

  /** Keys under different dot-free prefixes never meet, and under one prefix only if they were equal before. */
  lemma PrefixedKeysApart(p: string, q: string, k: string, l: string)
    requires Lacks(p, '.') && Lacks(q, '.') && p + "." + k == q + "." + l
    ensures p == q && k == l
  {
    var s := p + "." + k;
    assert s[|p|] == '.' && s[|q|] == '.';
    assert forall i | 0 <= i < |p| :: s[i] == p[i];
    assert forall i | 0 <= i < |q| :: s[i] == q[i];
    assert |p| == |q|;
    assert p == s[..|p|] && q == s[..|q|] && k == s[|p| + 1..] && l == s[|q| + 1..];
  }

  // The averages of main: one dictionary of numbers per CPU count, and their keys do have dots

  function CpuCountKey(count: nat): string { Decimal(count) + "_cpus" }

  /** all_avg after turns for first, first - 1, ... CPUs. */
  function AllAverages(first: nat, averages: seq<seq<Entry>>): (entries: seq<Entry>)
    requires |averages| <= first
    ensures |entries| == |averages|
    ensures forall i | 0 <= i < |entries| :: entries[i] == Entry(CpuCountKey(first - i), Dict(averages[i]))
  {
    seq(|averages|, i requires 0 <= i < |averages| => Entry(CpuCountKey(first - i), Dict(averages[i])))
  }

  /** A dictionary of numbers, under any keys. */
  ghost predicate Numbers(avg: seq<Entry>)
  {
    && (forall i | 0 <= i < |avg| :: avg[i].value.Number?)
    && forall i, j | 0 <= i < j < |avg| :: avg[i].key != avg[j].key
  }

  ghost predicate Averages(entries: seq<Entry>)
  {
    && (forall i | 0 <= i < |entries| ::
          && entries[i].key != "" && Lacks(entries[i].key, '.')
          && entries[i].value.Dict? && Numbers(entries[i].value.entries))
    && forall i, j | 0 <= i < j < |entries| :: entries[i].key != entries[j].key
  }

  lemma {:induction false} NumberLeaves(avg: seq<Entry>)
    requires forall i | 0 <= i < |avg| :: avg[i].value.Number?
    ensures |EntryLeaves(avg)| == |avg|
    ensures forall i | 0 <= i < |avg| :: EntryLeaves(avg)[i] == ([avg[i].key], avg[i].value)
  {
    if avg != [] {
      NumberLeaves(avg[1..]);
      assert [avg[0].key] + [] == [avg[0].key];
      assert EntryLeaves(avg) == [([avg[0].key], avg[0].value)] + EntryLeaves(avg[1..]);
    }
  }

  ghost predicate Pairs(leaves: seq<(seq<string>, Data)>)
  {
    forall i | 0 <= i < |leaves| :: |leaves[i].0| == 2
  }

  ghost predicate HasLeaves(leaves: seq<(seq<string>, Data)>, p: string, avg: seq<Entry>)
  {
    forall k | 0 <= k < |avg| :: ([p, avg[k].key], avg[k].value) in leaves
  }

  lemma AverageUnder(p: string, avg: seq<Entry>)
    requires Numbers(avg)
    ensures var l := Under(p, EntryLeaves(avg));
      Distinct(l) && Pairs(l) && StartsIn(l, iset{p}) && HasLeaves(l, p, avg)
  {
    NumberLeaves(avg);
    var l := Under(p, EntryLeaves(avg));
    forall i | 0 <= i < |l| ensures l[i] == ([p, avg[i].key], avg[i].value) {
      assert [p] + [avg[i].key] == [p, avg[i].key];
    }
    forall i, j | 0 <= i < j < |l| ensures l[i].0 != l[j].0 { assert l[i].0[1] != l[j].0[1]; }
    forall k | 0 <= k < |avg| ensures ([p, avg[k].key], avg[k].value) in l { assert l[k] in l; }
  }

  lemma {:induction false} AverageLeaves(entries: seq<Entry>)
    requires Averages(entries)
    ensures var l := EntryLeaves(entries);
      && Distinct(l) && Pairs(l) && StartsIn(l, KeysFrom(entries))
      && forall j | 0 <= j < |entries| :: HasLeaves(l, entries[j].key, entries[j].value.entries)
  {
    hide EntryLeaves, Numbers;
    if entries == [] {
      assert EntryLeaves(entries) == [] by { NumberLeaves(entries); }
    } else {
      var e, more := entries[0], entries[1..];
      AverageUnder(e.key, e.value.entries);
      AverageLeaves(more);
      var a, b := Under(e.key, EntryLeaves(e.value.entries)), EntryLeaves(more);
      FirstEntryLeaves(entries);
      assert e.key !in KeysFrom(more);
      forall x | x in KeysFrom(more) ensures x in KeysFrom(entries) {
        var i :| 0 <= i < |more| && more[i].key == x;
        assert entries[i + 1] == more[i];
      }
      forall j | 0 <= j < |entries| ensures HasLeaves(a + b, entries[j].key, entries[j].value.entries) {
        if j > 0 { assert entries[j] == more[j - 1]; }
      }
    }
  }

  lemma FirstEntryLeaves(entries: seq<Entry>)
    requires entries != [] && entries[0].value.Dict?
    ensures EntryLeaves(entries) == Under(entries[0].key, EntryLeaves(entries[0].value.entries))
                                    + EntryLeaves(entries[1..])
  {
  }

  /**
   * The dictionary of averages is flattened without loss, whatever its inner keys: every average is found under the key
   * of its CPU count, a dot, and its own key, and there is nothing else.
   */
  lemma AveragesLoseNothing(first: nat, averages: seq<seq<Entry>>)
    requires |averages| <= first && forall i | 0 <= i < |averages| :: Numbers(averages[i])
    ensures var data := Dict(AllAverages(first, averages));
      var r := Store(map[], Writes("", data));
      && |r| == |Leaves(data)|
      && forall i, k | 0 <= i < |averages| && 0 <= k < |averages[i]| ::
           var key := CpuCountKey(first - i) + "." + averages[i][k].key;
           key in r && r[key] == averages[i][k].value
  {
    hide Numbers, EntryLeaves, HasLeaves, CpuCountKey;
    var entries := AllAverages(first, averages);
    forall i | 0 <= i < |entries|
      ensures entries[i].key != "" && Lacks(entries[i].key, '.')
      ensures forall j | i < j < |entries| :: entries[i].key != entries[j].key
    {
      CpuCountKeyShape(first - i);
      forall j | i < j < |entries| ensures entries[i].key != entries[j].key {
        if entries[i].key == entries[j].key { CpuCountKeyIsInjective(first - i, first - j); }
      }
    }
    AverageLeaves(entries);
    var leaves := EntryLeaves(entries);
    PairsApart(leaves, entries);
    FlattenLosesNothingExactlyWhen(entries);
    var r := Store(map[], Writes("", Dict(entries)));
    forall i, k | 0 <= i < |averages| && 0 <= k < |averages[i]|
      ensures var key := CpuCountKey(first - i) + "." + averages[i][k].key; key in r && r[key] == averages[i][k].value
    {
      var leaf := ([entries[i].key, averages[i][k].key], averages[i][k].value);
      assert HasLeaves(leaves, entries[i].key, averages[i]);
      LeafOfAverage(leaves, entries[i].key, averages[i], k);
      DottedPair(entries[i].key, averages[i][k].key);
      var n :| 0 <= n < |leaves| && leaves[n] == leaf;
      assert Dotted(leaves[n].0) in r;
    }
  }

  lemma LeafOfAverage(leaves: seq<(seq<string>, Data)>, p: string, avg: seq<Entry>, k: nat)
    requires HasLeaves(leaves, p, avg) && k < |avg|
    ensures ([p, avg[k].key], avg[k].value) in leaves
  {
  }

  lemma DottedPair(p: string, k: string)
    ensures Dotted([p, k]) == p + "." + k
  {
    assert [p, k][1..] == [k] && [k][1..] == [];
    assert Dots([k]) == "." + k + "" && Dots([p, k][1..]) == "." + k;
  }

  lemma PairsApart(leaves: seq<(seq<string>, Data)>, entries: seq<Entry>)
    requires Averages(entries) && Distinct(leaves) && Pairs(leaves) && StartsIn(leaves, KeysFrom(entries))
    ensures DistinctDotted(leaves)
  {
    hide Dotted;
    forall i, j | 0 <= i < j < |leaves| ensures Dotted(leaves[i].0) != Dotted(leaves[j].0) {
      var a, b := leaves[i].0, leaves[j].0;
      assert a == [a[0], a[1]] && b == [b[0], b[1]];
      DottedPair(a[0], a[1]);
      DottedPair(b[0], b[1]);
      if Dotted(a) == Dotted(b) { PrefixedKeysApart(a[0], b[0], a[1], b[1]); }
    }
  }

  lemma CpuCountKeyShape(count: nat)
    ensures CpuCountKey(count) != "" && Lacks(CpuCountKey(count), '.')
  {
    hide Decimal;
    DigitsLack(Decimal(count), '.');
    assert Lacks("_cpus", '.');
  }

  lemma CpuCountKeyIsInjective(m: nat, n: nat)
    requires CpuCountKey(m) == CpuCountKey(n)
    ensures m == n
  {
    hide Decimal;
    var a, b := CpuCountKey(m), CpuCountKey(n);
    assert a[..|a| - 5] == Decimal(m) && b[..|b| - 5] == Decimal(n);
    DecimalIsInjective(m, n);
  }

  /** A key with a dot can be taken for a path: here two leaves share one dotted path, and the first is lost. */
  lemma DottedKeysCollide()
    ensures var data := Dict([Entry("a", Dict([Entry("b", Number(1.0))])), Entry("a.b", Number(2.0))]);
      |Leaves(data)| == 2 && Store(map[], Writes("", data)) == map["a.b" := Number(2.0)]
  {
    var inner := [Entry("b", Number(1.0))];
    var second := Entry("a.b", Number(2.0));
    var entries := [Entry("a", Dict(inner)), second];
    assert inner[1..] == [] && entries[1..] == [second] && [second][1..] == [];
    assert EntryLeaves(inner) == Under("b", Leaves(Number(1.0)));
    assert EntryLeaves([second]) == Under("a.b", Leaves(Number(2.0)));
    assert EntryLeaves(entries) == Under("a", Leaves(Dict(inner))) + EntryLeaves([second]);
    assert "a" + "." + "b" == "a.b";
    assert EntryWrites("a", inner) == [("a.b", Number(1.0))];
    assert EntryWrites("", [second]) == [("a.b", Number(2.0))];
    var w := [("a.b", Number(1.0)), ("a.b", Number(2.0))];
    assert EntryWrites("", entries) == w;
    assert w[1..] == [("a.b", Number(2.0))] && w[1..][1..] == [];
  }

  /** An empty key at the root leaves no trace in the paths below it: here, too, the first of two leaves is lost. */
  lemma EmptyKeysCollide()
    ensures var data := Dict([Entry("", Dict([Entry("a", Number(1.0))])), Entry("a", Number(2.0))]);
      |Leaves(data)| == 2 && Store(map[], Writes("", data)) == map["a" := Number(2.0)]
  {
    var inner := [Entry("a", Number(1.0))];
    var second := Entry("a", Number(2.0));
    var entries := [Entry("", Dict(inner)), second];
    assert inner[1..] == [] && entries[1..] == [second] && [second][1..] == [];
    assert EntryLeaves(inner) == Under("a", Leaves(Number(1.0)));
    assert EntryLeaves([second]) == Under("a", Leaves(Number(2.0)));
    assert EntryLeaves(entries) == Under("", Leaves(Dict(inner))) + EntryLeaves([second]);
    assert EntryWrites("", inner) == [("a", Number(1.0))];
    assert EntryWrites("", [second]) == [("a", Number(2.0))];
    var w := [("a", Number(1.0)), ("a", Number(2.0))];
    assert EntryWrites("", entries) == w;
    assert w[1..] == [("a", Number(2.0))] && w[1..][1..] == [];
  }
}
