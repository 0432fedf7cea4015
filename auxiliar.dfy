/**
 * dbgoat/auxiliar.py: assembling an argument vector from an executable, the
 * persistent option dict, the table of known flags and per-call keyword
 * options (`buildCommand` with its inner `flatAppend`), and the dotted-path
 * lookup `getDictItem`.
 */
module Auxiliar {
  import opened Wrappers
  import opened Values
  import opened Strings
  import opened OrderedDicts

  // ---------------------------------------------------------------------------
  // Rendering rules

  /** The three ways an option entry is rendered, checked in this order. */
  datatype Rule = KnownFlag | Pattern | Positional

  function RuleOf(flags: map<string, string>, key: string): Rule {
    if key in flags then KnownFlag
    else if StartsWith(key, "__") then Pattern
    else Positional
  }

  /** `key.replace('_', '-')`. */
  function Dashed(key: string): string {
    Replace(key, "_", "-")
  }

  /**
   * An entry whose rendering never formats a list: a list under a known flag
   * (when truthy) or under a pattern key would be rendered by Python's
   * `repr`, which this model does not cover.
   */
  predicate EntryRenderable(flags: map<string, string>, key: string, value: Value) {
    match RuleOf(flags, key)
    case KnownFlag => !(Truthy(value) && value.List?)
    case Pattern => !value.List?
    case Positional => true
  }

  predicate Renderable(flags: map<string, string>, opts: Dict) {
    forall i :: 0 <= i < |opts| ==> EntryRenderable(flags, opts[i].0, opts[i].1)
  }

  /** The leaves of a value, depth first: a list contributes its items' leaves, a scalar itself. */
  function Flatten(v: Value): (r: seq<Value>)
    ensures forall k :: 0 <= k < |r| ==> !r[k].List?
    decreases v
  {
    if v.List? then FlattenItems(v.items) else [v]
  }

  function FlattenItems(xs: seq<Value>): (r: seq<Value>)
    ensures forall k :: 0 <= k < |r| ==> !r[k].List?
    decreases xs
  {
    if xs == [] then [] else Flatten(xs[0]) + FlattenItems(xs[1..])
  }

  /** The tokens one entry contributes. */
  function RenderEntry(flags: map<string, string>, key: string, value: Value): seq<Value>
    requires EntryRenderable(flags, key, value)
  {
    if key in flags then
      if Truthy(value) then [Str(flags[key] + "=" + Format(value))] else [Str(flags[key])]
    else if StartsWith(key, "__") then
      if value != Null then [Str(Dashed(key) + "=" + Format(value))] else [Str(Dashed(key))]
    else
      Flatten(value)
  }

  /** The tokens of all entries, in iteration order. */
  function Render(flags: map<string, string>, opts: Dict): seq<Value>
    requires Renderable(flags, opts)
    decreases |opts|
  {
    if opts == [] then []
    else RenderEntry(flags, opts[0].0, opts[0].1) + Render(flags, opts[1..])
  }

  /** `buildCommand(executable, options_values, options_flags, **kwargs)` as a value. */
  function Build(executable: string, optionsValues: Dict, optionsFlags: map<string, string>, kwargs: Dict): seq<Value>
    requires Renderable(optionsFlags, optionsValues) && Renderable(optionsFlags, kwargs)
  {
    RenderableUpdate(optionsFlags, optionsValues, kwargs);
    [Str(executable)] + Render(optionsFlags, Update(optionsValues, kwargs))
  }

  // ---------------------------------------------------------------------------
  // The source's algorithm

  /** `flatAppend(flat_list, something)`: append the leaves of `something`. */
  method FlatAppend(flatList: seq<Value>, something: Value) returns (r: seq<Value>)
    ensures r == flatList + Flatten(something)
    decreases something
  {
    if something.List? {
      var items := something.items;
      r := flatList;
      for i := 0 to |items|
        invariant r == flatList + FlattenItems(items[..i])
      {
        var item := items[i];
        assert item in something.items;
        if item.List? {
          r := FlatAppend(r, item);
        } else {
          r := r + [item];
        }
        FlattenItemsConcat(items[..i], [item]);
        assert items[..i + 1] == items[..i] + [item];
      }
      assert items[..|items|] == items;
    } else {
      r := flatList + [something];
    }
  }

  /** `buildCommand`: the executable, then each merged entry rendered by its rule. */
  method BuildCommand(executable: string, optionsValues: Dict, optionsFlags: map<string, string>, kwargs: Dict)
    returns (cmdChain: seq<Value>)
    requires Renderable(optionsFlags, optionsValues) && Renderable(optionsFlags, kwargs)
    ensures cmdChain == Build(executable, optionsValues, optionsFlags, kwargs)
  {
    cmdChain := [Str(executable)];
    RenderableUpdate(optionsFlags, optionsValues, kwargs);
    var options := Update(optionsValues, kwargs);
    for i := 0 to |options|
      invariant cmdChain == [Str(executable)] + RenderPrefix(optionsFlags, options, i)
    {
      var key := options[i].0;
      var value := options[i].1;
      assert EntryRenderable(optionsFlags, key, value);
      ghost var before := cmdChain;
      if key in optionsFlags {
        if Truthy(value) {
          cmdChain := cmdChain + [Str(optionsFlags[key] + "=" + Format(value))];
        } else {
          cmdChain := cmdChain + [Str(optionsFlags[key])];
        }
      } else if StartsWith(key, "__") {
        var dashed := Replace(key, "_", "-");
        if value != Null {
          cmdChain := cmdChain + [Str(dashed + "=" + Format(value))];
        } else {
          cmdChain := cmdChain + [Str(dashed)];
        }
      } else {
        cmdChain := FlatAppend(cmdChain, value);
      }
      assert cmdChain == before + RenderEntry(optionsFlags, key, value);
      RenderPrefixSnoc(optionsFlags, options, i);
    }
    RenderPrefixAll(optionsFlags, options);
  }

  // ---------------------------------------------------------------------------
  // Properties of flattening

  /** Flattening is compatible with concatenating the items of a list. */
  lemma {:induction false} FlattenItemsConcat(xs: seq<Value>, ys: seq<Value>)
    ensures FlattenItems(xs + ys) == FlattenItems(xs) + FlattenItems(ys)
    decreases |xs|
  {
    if xs != [] {
      assert (xs + ys)[0] == xs[0];
      assert (xs + ys)[1..] == xs[1..] + ys;
      FlattenItemsConcat(xs[1..], ys);
      assert FlattenItems(xs + ys) == Flatten(xs[0]) + FlattenItems(xs[1..] + ys);
      assert FlattenItems(xs) == Flatten(xs[0]) + FlattenItems(xs[1..]);
    } else {
      assert xs + ys == ys;
    }
  }

  /** A list of leaves is already flat. */
  lemma {:induction false} FlattenLeaves(xs: seq<Value>)
    requires forall k :: 0 <= k < |xs| ==> !xs[k].List?
    ensures FlattenItems(xs) == xs
    decreases |xs|
  {
    if xs != [] {
      FlattenLeaves(xs[1..]);
    }
  }

  /** Flattening twice is flattening once. */
  lemma FlattenIdempotent(v: Value)
    ensures Flatten(List(Flatten(v))) == Flatten(v)
  {
    FlattenLeaves(Flatten(v));
  }

  /** The number of non-list leaves of a value. */
  function LeafCount(v: Value): nat
    decreases v
  {
    if v.List? then LeafCountItems(v.items) else 1
  }

  function LeafCountItems(xs: seq<Value>): nat
    decreases xs
  {
    if xs == [] then 0 else LeafCount(xs[0]) + LeafCountItems(xs[1..])
  }

  /** A positional value contributes one token per leaf. */
  lemma {:induction false} FlattenLength(v: Value)
    ensures |Flatten(v)| == LeafCount(v)
    decreases v, 1
  {
    if v.List? {
      FlattenItemsLength(v.items);
    }
  }

  lemma {:induction false} FlattenItemsLength(xs: seq<Value>)
    ensures |FlattenItems(xs)| == LeafCountItems(xs)
    decreases xs, 0
  {
    if xs != [] {
      FlattenLength(xs[0]);
      FlattenItemsLength(xs[1..]);
    }
  }

  /** The worked example of nested positional values: `[['a', 'b'], 'c']` gives `a`, `b`, `c`. */
  lemma FlattenExample()
    ensures Flatten(List([List([Str("a"), Str("b")]), Str("c")])) == [Str("a"), Str("b"), Str("c")]
  {
    var ab := [Str("a"), Str("b")];
    FlattenLeaves(ab);
    assert [List(ab), Str("c")][1..] == [Str("c")];
  }

  // ---------------------------------------------------------------------------
  // Properties of rendering

  lemma {:induction false} RenderableInsert(flags: map<string, string>, d: Dict, k: string, v: Value)
    requires Renderable(flags, d) && EntryRenderable(flags, k, v)
    ensures Renderable(flags, Insert(d, k, v))
  {
  }

  /** Merging two renderable option sets gives a renderable one. */
  lemma {:induction false} RenderableUpdate(flags: map<string, string>, d: Dict, kw: Dict)
    requires Renderable(flags, d) && Renderable(flags, kw)
    ensures Renderable(flags, Update(d, kw))
    decreases |kw|
  {
    if kw != [] {
      RenderableInsert(flags, d, kw[0].0, kw[0].1);
      RenderableUpdate(flags, Insert(d, kw[0].0, kw[0].1), kw[1..]);
    }
  }

  /** Rendering keeps the entry order: the tokens of `a + b` are those of `a`, then those of `b`. */
  lemma {:induction false} RenderConcat(flags: map<string, string>, a: Dict, b: Dict)
    requires Renderable(flags, a) && Renderable(flags, b)
    ensures Renderable(flags, a + b)
    ensures Render(flags, a + b) == Render(flags, a) + Render(flags, b)
    decreases |a|
  {
    if a != [] {
      RenderableSlice(flags, a, 1, |a|);
      RenderConcat(flags, a[1..], b);
      ConcatCons(a, b);
      RenderCons(flags, a[0].0, a[0].1, a[1..] + b);
      ConcatAssoc(RenderEntry(flags, a[0].0, a[0].1), Render(flags, a[1..]), Render(flags, b));
    } else {
      assert a + b == b;
    }
  }

  lemma RenderSnoc(flags: map<string, string>, opts: Dict, i: nat)
    requires Renderable(flags, opts) && i < |opts|
    ensures Renderable(flags, opts[..i]) && Renderable(flags, opts[..i + 1])
    ensures Render(flags, opts[..i + 1]) == Render(flags, opts[..i]) + RenderEntry(flags, opts[i].0, opts[i].1)
  {
    assert opts[..i + 1] == opts[..i] + [opts[i]];
    RenderConcat(flags, opts[..i], [opts[i]]);
  }

  /** The tokens of the first `n` entries. */
  ghost function RenderPrefix(flags: map<string, string>, opts: Dict, n: nat): seq<Value>
    requires Renderable(flags, opts) && n <= |opts|
  {
    RenderableSlice(flags, opts, 0, n);
    Render(flags, opts[..n])
  }

  lemma RenderPrefixSnoc(flags: map<string, string>, opts: Dict, i: nat)
    requires Renderable(flags, opts) && i < |opts|
    ensures RenderPrefix(flags, opts, i + 1) == RenderPrefix(flags, opts, i) + RenderEntry(flags, opts[i].0, opts[i].1)
  {
    RenderSnoc(flags, opts, i);
  }

  lemma RenderPrefixAll(flags: map<string, string>, opts: Dict)
    requires Renderable(flags, opts)
    ensures RenderPrefix(flags, opts, |opts|) == Render(flags, opts)
  {
    assert opts[..|opts|] == opts;
  }

  /** The tokens of the entries before `i`, of entry `i`, and of those after it. */
  lemma RenderAround(flags: map<string, string>, opts: Dict, i: nat)
    requires Renderable(flags, opts) && i < |opts|
    ensures Renderable(flags, opts[..i]) && Renderable(flags, opts[i + 1..])
    ensures Render(flags, opts) == Render(flags, opts[..i]) + RenderEntry(flags, opts[i].0, opts[i].1) + Render(flags, opts[i + 1..])
  {
    var pre, post := opts[..i], opts[i + 1..];
    RenderableSlice(flags, opts, 0, i);
    RenderableSlice(flags, opts, i + 1, |opts|);
    assert opts[0..i] == pre && opts[i + 1..|opts|] == post;
    var mid := pre + [opts[i]];
    assert mid + post == opts;
    RenderSingle(flags, opts[i].0, opts[i].1);
    RenderConcat(flags, pre, [opts[i]]);
    RenderConcat(flags, mid, post);
  }

  /** Every slice of a renderable dict is renderable. */
  lemma RenderableSlice(flags: map<string, string>, opts: Dict, lo: nat, hi: nat)
    requires Renderable(flags, opts) && lo <= hi <= |opts|
    ensures Renderable(flags, opts[lo..hi])
  {
    forall k | 0 <= k < hi - lo ensures EntryRenderable(flags, opts[lo..hi][k].0, opts[lo..hi][k].1) {
      assert opts[lo..hi][k] == opts[lo + k];
    }
  }

  /** How many tokens an entry contributes: one for a known flag or a pattern key, one per leaf otherwise. */
  function EntryWidth(flags: map<string, string>, key: string, value: Value): nat {
    if RuleOf(flags, key) == Positional then LeafCount(value) else 1
  }

  function Width(flags: map<string, string>, opts: Dict): nat
    decreases |opts|
  {
    if opts == [] then 0 else EntryWidth(flags, opts[0].0, opts[0].1) + Width(flags, opts[1..])
  }

  lemma {:induction false} RenderLength(flags: map<string, string>, opts: Dict)
    requires Renderable(flags, opts)
    ensures |Render(flags, opts)| == Width(flags, opts)
    decreases |opts|
  {
    if opts != [] {
      if RuleOf(flags, opts[0].0) == Positional {
        FlattenLength(opts[0].1);
      }
      RenderLength(flags, opts[1..]);
    }
  }

  /**
   * The command has the executable as its first token and then exactly the
   * tokens of the merged entries: no entry is dropped.
   */
  lemma BuildLength(executable: string, optionsValues: Dict, optionsFlags: map<string, string>, kwargs: Dict)
    requires Renderable(optionsFlags, optionsValues) && Renderable(optionsFlags, kwargs)
    ensures var cmd := Build(executable, optionsValues, optionsFlags, kwargs);
      && cmd[0] == Str(executable)
      && |cmd| == 1 + Width(optionsFlags, Update(optionsValues, kwargs))
  {
    RenderableUpdate(optionsFlags, optionsValues, kwargs);
    RenderLength(optionsFlags, Update(optionsValues, kwargs));
  }

  /** The command is the executable, the tokens of the merged entries before `i`, those of entry `i`, and those after it. */
  lemma BuildAround(executable: string, optionsValues: Dict, optionsFlags: map<string, string>, kwargs: Dict, i: nat)
    requires Renderable(optionsFlags, optionsValues) && Renderable(optionsFlags, kwargs)
    requires i < |Update(optionsValues, kwargs)|
    ensures var merged := Update(optionsValues, kwargs);
      && Renderable(optionsFlags, merged)
      && Renderable(optionsFlags, merged[..i]) && Renderable(optionsFlags, merged[i + 1..])
      && Build(executable, optionsValues, optionsFlags, kwargs)
         == [Str(executable)] + Render(optionsFlags, merged[..i]) + RenderEntry(optionsFlags, merged[i].0, merged[i].1)
            + Render(optionsFlags, merged[i + 1..])
  {
    RenderableUpdate(optionsFlags, optionsValues, kwargs);
    RenderAround(optionsFlags, Update(optionsValues, kwargs), i);
  }

  /** A dict of one entry renders as that entry. */
  lemma RenderSingle(flags: map<string, string>, key: string, v: Value)
    requires EntryRenderable(flags, key, v)
    ensures Renderable(flags, [(key, v)])
    ensures Render(flags, [(key, v)]) == RenderEntry(flags, key, v)
  {
    assert [(key, v)][1..] == [];
  }

  /** Rendering an entry in front of a dict. */
  lemma RenderCons(flags: map<string, string>, key: string, v: Value, d: Dict)
    requires EntryRenderable(flags, key, v) && Renderable(flags, d)
    ensures Renderable(flags, [(key, v)] + d)
    ensures Render(flags, [(key, v)] + d) == RenderEntry(flags, key, v) + Render(flags, d)
  {
    assert ([(key, v)] + d)[1..] == d;
  }

  /** A dict of three entries renders as their tokens in order. */
  lemma RenderThree(flags: map<string, string>, a: (string, Value), b: (string, Value), c: (string, Value))
    requires EntryRenderable(flags, a.0, a.1) && EntryRenderable(flags, b.0, b.1) && EntryRenderable(flags, c.0, c.1)
    ensures Renderable(flags, [a, b, c])
    ensures Render(flags, [a, b, c]) == RenderEntry(flags, a.0, a.1) + RenderEntry(flags, b.0, b.1) + RenderEntry(flags, c.0, c.1)
  {
    RenderSingle(flags, c.0, c.1);
    RenderCons(flags, b.0, b.1, [c]);
    assert [(b.0, b.1)] + [c] == [b, c];
    RenderCons(flags, a.0, a.1, [b, c]);
    assert [(a.0, a.1)] + [b, c] == [a, b, c];
  }

  /** A dict of four entries renders as their tokens in order. */
  lemma RenderFour(flags: map<string, string>, a: (string, Value), b: (string, Value), c: (string, Value), d: (string, Value))
    requires EntryRenderable(flags, a.0, a.1) && EntryRenderable(flags, b.0, b.1)
    requires EntryRenderable(flags, c.0, c.1) && EntryRenderable(flags, d.0, d.1)
    ensures Renderable(flags, [a, b, c, d])
    ensures Render(flags, [a, b, c, d]) ==
      RenderEntry(flags, a.0, a.1) + RenderEntry(flags, b.0, b.1) + RenderEntry(flags, c.0, c.1) + RenderEntry(flags, d.0, d.1)
  {
    RenderThree(flags, b, c, d);
    RenderCons(flags, a.0, a.1, [b, c, d]);
    assert [(a.0, a.1)] + [b, c, d] == [a, b, c, d];
    ConcatRegroup(RenderEntry(flags, a.0, a.1), RenderEntry(flags, b.0, b.1), RenderEntry(flags, c.0, c.1), RenderEntry(flags, d.0, d.1));
  }

  /** None of the keys of `kw` is a key of `d`. */
  predicate FreshFor(kw: Dict, d: Dict) {
    forall i :: 0 <= i < |kw| ==> !HasKey(d, kw[i].0)
  }

  /** Options that name none of the stored keys are appended after them. */
  lemma BuildFresh(executable: string, d: Dict, flags: map<string, string>, kw: Dict)
    requires Renderable(flags, d) && Renderable(flags, kw) && Distinct(kw) && FreshFor(kw, d)
    ensures Build(executable, d, flags, kw) == [Str(executable)] + Render(flags, d) + Render(flags, kw)
  {
    UpdateFresh(d, kw);
    RenderConcat(flags, d, kw);
  }

  /**
   * A key given per call is rendered once, from the per-call value, at the
   * place the key has in the merged options; the persistent value is not rendered.
   */
  lemma OverrideWins(executable: string, optionsValues: Dict, optionsFlags: map<string, string>, kwargs: Dict, key: string)
    requires Renderable(optionsFlags, optionsValues) && Renderable(optionsFlags, kwargs)
    requires Distinct(optionsValues) && Distinct(kwargs) && HasKey(kwargs, key)
    ensures HasKey(Update(optionsValues, kwargs), key)
    ensures var merged := Update(optionsValues, kwargs);
      var i := IndexOf(merged, key);
      && merged[i] == (key, Get(kwargs, key).value)
      && (forall j :: 0 <= j < |merged| && j != i ==> merged[j].0 != key)
      && Renderable(optionsFlags, merged[..i]) && Renderable(optionsFlags, merged[i + 1..])
      && Build(executable, optionsValues, optionsFlags, kwargs)
         == [Str(executable)] + Render(optionsFlags, merged[..i]) + RenderEntry(optionsFlags, key, Get(kwargs, key).value)
            + Render(optionsFlags, merged[i + 1..])
  {
    UpdateOverride(optionsValues, kwargs, key);
    BuildAround(executable, optionsValues, optionsFlags, kwargs, IndexOf(Update(optionsValues, kwargs), key));
  }

  /** `key.replace('_', '-')` changes exactly the underscores, so `__a_b` becomes `--a-b`. */
  lemma DashedSpec(key: string)
    ensures |Dashed(key)| == |key|
    ensures forall k :: 0 <= k < |key| ==> Dashed(key)[k] == if key[k] == '_' then '-' else key[k]
    ensures '_' !in Dashed(key)
    ensures StartsWith(key, "__") ==> StartsWith(Dashed(key), "--")
  {
    ReplaceChar(key, '_', '-');
    var d := Dashed(key);
    if StartsWith(key, "__") {
      assert key[0] == '_' && key[1] == '_';
      assert d[..2] == "--";
    }
  }

  /** Dashing distributes over concatenation. */
  lemma DashedConcat(a: string, b: string)
    ensures Dashed(a + b) == Dashed(a) + Dashed(b)
  {
    ReplaceChar(a + b, '_', '-');
    ReplaceChar(a, '_', '-');
    ReplaceChar(b, '_', '-');
  }

  /** A key without underscores is its own dashed form, and `_` becomes `-`. */
  lemma DashedPlain(a: string)
    requires '_' !in a
    ensures Dashed(a) == a
    ensures Dashed("_") == "-"
  {
    ReplaceChar(a, '_', '-');
    ReplaceChar("_", '_', '-');
  }

  /** A known flag is written bare exactly for the falsy values `None`, `0`, `""` and `[]`. */
  lemma KnownFlagEntryTruthiness(flags: map<string, string>, key: string, v: Value)
    requires key in flags && EntryRenderable(flags, key, v)
    ensures (v == Null || v == Int(0) || v == Str("") || v == List([])) ==> RenderEntry(flags, key, v) == [Str(flags[key])]
    ensures !(v == Null || v == Int(0) || v == Str("") || v == List([])) ==>
      !v.List? && RenderEntry(flags, key, v) == [Str(flags[key] + "=" + Format(v))]
  {
  }

  /** An unknown `__` key is written bare only for `None`; `0` and `""` still get `=value`. */
  lemma PatternEntryNullness(flags: map<string, string>, key: string, v: Value)
    requires key !in flags && StartsWith(key, "__") && !v.List?
    ensures v == Null ==> RenderEntry(flags, key, v) == [Str(Dashed(key))]
    ensures v != Null ==> RenderEntry(flags, key, v) == [Str(Dashed(key) + "=" + Format(v))]
    ensures RenderEntry(flags, key, Int(0)) == [Str(Dashed(key) + "=0")]
  {
    assert Format(Int(0)) == "0";
    assert Dashed(key) + "=" + "0" == Dashed(key) + "=0";
  }

  /** The known-flag rule applies first: a known `__` key is written with its spelling, not dashed. */
  lemma KnownFlagFirst(flags: map<string, string>, key: string, v: Value)
    requires key in flags && StartsWith(key, "__") && EntryRenderable(flags, key, v)
    ensures RuleOf(flags, key) == KnownFlag
    ensures |RenderEntry(flags, key, v)| == 1 && RenderEntry(flags, key, v)[0].Str?
    ensures StartsWith(RenderEntry(flags, key, v)[0].s, flags[key])
  {
    if Truthy(v) {
      assert (flags[key] + "=" + Format(v))[..|flags[key]|] == flags[key];
    }
  }

  // ---------------------------------------------------------------------------
  // String tokens

  /** Every entry of `opts` renders as string tokens only. */
  predicate StrEntries(flags: map<string, string>, opts: Dict)
    requires Renderable(flags, opts)
  {
    forall i :: 0 <= i < |opts| ==> AllStr(RenderEntry(flags, opts[i].0, opts[i].1))
  }

  /** A known flag or a `__` key always renders as a string: only a positional value can give a non-string token. */
  lemma NonPositionalStr(flags: map<string, string>, key: string, value: Value)
    requires EntryRenderable(flags, key, value) && RuleOf(flags, key) != Positional
    ensures AllStr(RenderEntry(flags, key, value))
  {
  }

  /** The rendered tokens are all strings exactly when the tokens of every entry are. */
  lemma {:induction false} RenderAllStr(flags: map<string, string>, opts: Dict)
    requires Renderable(flags, opts)
    ensures AllStr(Render(flags, opts)) <==> StrEntries(flags, opts)
    decreases |opts|
  {
    if opts != [] {
      RenderableSlice(flags, opts, 1, |opts|);
      RenderAllStr(flags, opts[1..]);
      AllStrConcat(RenderEntry(flags, opts[0].0, opts[0].1), Render(flags, opts[1..]));
      assert StrEntries(flags, opts) <==> AllStr(RenderEntry(flags, opts[0].0, opts[0].1)) && StrEntries(flags, opts[1..]) by {
        forall i | 1 <= i < |opts| ensures opts[i] == opts[1..][i - 1] {
        }
      }
    }
  }

  /** Merging options whose entries all render as strings gives options whose entries do. */
  lemma {:induction false} UpdateStrEntries(flags: map<string, string>, d: Dict, kw: Dict)
    requires Renderable(flags, d) && Renderable(flags, kw)
    requires StrEntries(flags, d) && StrEntries(flags, kw)
    ensures Renderable(flags, Update(d, kw)) && StrEntries(flags, Update(d, kw))
    decreases |kw|
  {
    RenderableUpdate(flags, d, kw);
    if kw != [] {
      var d1 := Insert(d, kw[0].0, kw[0].1);
      RenderableInsert(flags, d, kw[0].0, kw[0].1);
      InsertEntries(d, kw[0].0, kw[0].1);
      RenderableSlice(flags, kw, 1, |kw|);
      assert StrEntries(flags, kw[1..]) by {
        forall i | 0 <= i < |kw[1..]| ensures kw[1..][i] == kw[i + 1] {
        }
      }
      UpdateStrEntries(flags, d1, kw[1..]);
    }
  }

  /** After `d[k] = v` renders as strings only, so does every entry of `d` under another key. */
  lemma InsertStrEntries(flags: map<string, string>, d: Dict, k: string, v: Value)
    requires Renderable(flags, d) && EntryRenderable(flags, k, v)
    requires Renderable(flags, Insert(d, k, v)) && StrEntries(flags, Insert(d, k, v))
    ensures forall i :: 0 <= i < |d| && d[i].0 != k ==> AllStr(RenderEntry(flags, d[i].0, d[i].1))
  {
    InsertEntries(d, k, v);
  }

  // ---------------------------------------------------------------------------
  // runShellCommand

  /** The message of the TypeError `subprocess.run` raises on an argument or environment value that is not a string. */
  const LaunchTypeError := "expected str, bytes or os.PathLike object"

  /**
   * `runShellCommand(command, shell=..., env=...)` on an argument list, that
   * is `subprocess.run`: the exception raised before any process starts, or
   * `None` once it has started. The environment (`None` for the inherited
   * one, whose values are strings) is encoded first, then every argument; a
   * value that is not a string raises TypeError. Without a shell the program
   * must be one the system finds among `programs`, otherwise
   * FileNotFoundError; with a shell, `/bin/sh` reports a missing program
   * itself. Every command the core builds starts with its program.
   */
  function LaunchError(args: seq<Value>, env: Option<map<string, Value>>, shell: bool, programs: set<string>): (r: Option<Error>)
    requires args != []
    ensures r.None? <==> (env.Some? ==> StrValues(env.value)) && AllStr(args) && (shell || args[0].s in programs)
    ensures r.Some? && !r.value.FileNotFoundError? ==> r.value == TypeError(LaunchTypeError)
    ensures r.Some? && r.value.FileNotFoundError? ==>
      (env.Some? ==> StrValues(env.value)) && AllStr(args) && !shell && r.value == FileNotFoundError(args[0].s)
  {
    if env.Some? && !StrValues(env.value) then Some(TypeError(LaunchTypeError))
    else if !AllStr(args) then Some(TypeError(LaunchTypeError))
    else if !shell && args[0].s !in programs then Some(FileNotFoundError(args[0].s))
    else None
  }

  // ---------------------------------------------------------------------------
  // getDictItem

  /** A (nested) Python value that may be indexed by a string key. */
  datatype Item = Scalar(value: Value) | Mapping(entries: map<string, Item>)

  /** `reduce(operator.getitem, segments, data)`. */
  function Reduce(segments: seq<string>, data: Item): Result<Item, Error>
    decreases |segments|
  {
    if segments == [] then Success(data)
    else match data
      case Scalar(_) => Failure(TypeError("object is not subscriptable by a string"))
      case Mapping(m) =>
        if segments[0] in m then Reduce(segments[1..], m[segments[0]]) else Failure(KeyError(segments[0]))
  }

  /** `getDictItem(path, data_dict)`. */
  function GetDictItem(path: string, data: Item): Result<Item, Error> {
    Reduce(SplitOn(path, "."), data)
  }

  /** The result of the lookup along `p` continued along `q`. */
  function Then(r: Result<Item, Error>, q: seq<string>): Result<Item, Error> {
    match r
    case Success(x) => Reduce(q, x)
    case Failure(e) => Failure(e)
  }

  lemma {:induction false} ReduceConcat(p: seq<string>, q: seq<string>, data: Item)
    ensures Reduce(p + q, data) == Then(Reduce(p, data), q)
    decreases |p|
  {
    if p != [] {
      assert (p + q)[1..] == p[1..] + q;
      assert (p + q)[0] == p[0];
      match data
      case Scalar(_) =>
      case Mapping(m) =>
        if p[0] in m {
          ReduceConcat(p[1..], q, m[p[0]]);
        }
    } else {
      assert p + q == q;
    }
  }

  /** A path without a dot is one subscript: the entry, KeyError when it is missing, TypeError on a non-dict. */
  lemma GetDictItemSegment(key: string, data: Item)
    requires '.' !in key
    ensures GetDictItem(key, data) ==
      match data
      case Scalar(_) => Failure(TypeError("object is not subscriptable by a string"))
      case Mapping(m) => if key in m then Success(m[key]) else Failure(KeyError(key))
  {
    SplitOnNoSep(key, '.');
    assert SplitOn(key, ".") == [key];
    assert [key][1..] == [];
    match data
    case Scalar(_) =>
    case Mapping(m) =>
      if key in m {
        assert Reduce([key], data) == Reduce([], m[key]);
      }
  }

  /** `getDictItem("p.q", d)` is `getDictItem("q", getDictItem("p", d))`; a failure along `p` is the result. */
  lemma GetDictItemCompose(p: string, q: string, data: Item)
    ensures GetDictItem(p + "." + q, data) == Then(GetDictItem(p, data), SplitOn(q, "."))
  {
    SplitOnConcat(p, q, '.');
    ReduceConcat(SplitOn(p, "."), SplitOn(q, "."), data);
  }
}
