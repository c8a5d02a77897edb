/** `get_config(theme_dir)` (gulpfile.babel.js lines 298-329): every
    configuration file under `<theme>/config` is given a depth and an object
    path, the files are sorted twice, and folded into one object: a file
    whose object path is empty is deep-merged into the root, any other
    replaces the value at its path. */
module ConfigLoader {
  import opened Strings
  import opened JsValues
  import opened Paths
  import opened DeepMerge

  /** A file the configuration glob (any depth, .js/.yaml/.yml/.json) found, relative to
      the configuration directory, with what `yaml.load` or `require` made
      of it. */
  datatype ConfigSource = ConfigSource(path: string, parsed: Value)

  /** The parsed path of line 304 with the depth of line 306. */
  datatype ConfigEntry = ConfigEntry(details: ParsedPath, depth: nat, parsed: Value)

  predicate WellFormedSources(files: seq<ConfigSource>)
  {
    forall i :: 0 <= i < |files| ==> GlobRelative(files[i].path)
  }

  function ToEntry(f: ConfigSource): (e: ConfigEntry)
    requires GlobRelative(f.path)
    ensures e.details.name != ""
  {
    var d := Parse(f.path);
    ConfigEntry(d, Depth(d.dir), f.parsed)
  }

  function Entries(files: seq<ConfigSource>): (es: seq<ConfigEntry>)
    requires WellFormedSources(files)
    ensures |es| == |files|
    ensures forall i :: 0 <= i < |files| ==> es[i] == ToEntry(files[i])
  {
    seq(|files|, i requires 0 <= i < |files| => ToEntry(files[i]))
  }

  predicate IsIndex(e: ConfigEntry)
  {
    e.details.name == "index"
  }

  predicate Named(es: seq<ConfigEntry>)
  {
    forall i :: 0 <= i < |es| ==> es[i].details.name != ""
  }

  /** Deepest first: the order the comparator `b.depth - a.depth` of line
      310 asks for (the comment above it says the opposite). */
  predicate DescendingDepth(es: seq<ConfigEntry>)
  {
    forall i, j :: 0 <= i < j < |es| ==> es[i].depth >= es[j].depth
  }

  predicate AscendingDepth(es: seq<ConfigEntry>)
  {
    forall i, j :: 0 <= i < j < |es| ==> es[i].depth <= es[j].depth
  }

  /** Stable insertion of `x` behind every element at least as deep. */
  function InsertDesc(x: ConfigEntry, s: seq<ConfigEntry>): (r: seq<ConfigEntry>)
    ensures |r| == |s| + 1
  {
    if s == [] then [x]
    else if s[0].depth >= x.depth then [s[0]] + InsertDesc(x, s[1..])
    else [x] + s
  }

  lemma {:induction false} InsertDescPermutes(x: ConfigEntry, s: seq<ConfigEntry>)
    ensures multiset(InsertDesc(x, s)) == multiset(s) + multiset{x}
  {
    if s != [] {
      assert s == [s[0]] + s[1..];
      if s[0].depth >= x.depth {
        InsertDescPermutes(x, s[1..]);
      }
    }
  }

  predicate NoDeeperThan(b: nat, s: seq<ConfigEntry>)
  {
    forall k :: 0 <= k < |s| ==> s[k].depth <= b
  }

  lemma {:induction false} InsertDescBounded(b: nat, x: ConfigEntry, s: seq<ConfigEntry>)
    requires NoDeeperThan(b, s) && x.depth <= b
    ensures NoDeeperThan(b, InsertDesc(x, s))
  {
    if s != [] && s[0].depth >= x.depth {
      InsertDescBounded(b, x, s[1..]);
    }
  }

  lemma {:induction false} InsertDescSorted(x: ConfigEntry, s: seq<ConfigEntry>)
    requires DescendingDepth(s)
    ensures DescendingDepth(InsertDesc(x, s))
  {
    if s != [] && s[0].depth >= x.depth {
      var t := InsertDesc(x, s[1..]);
      InsertDescSorted(x, s[1..]);
      InsertDescBounded(s[0].depth, x, s[1..]);
      var r := [s[0]] + t;
      forall i, j | 0 <= i < j < |r| ensures r[i].depth >= r[j].depth {
        if i > 0 {
          assert r[i] == t[i - 1] && r[j] == t[j - 1];
        } else {
          assert r[j] == t[j - 1];
        }
      }
    }
  }

  /** The stable sort of line 310 (`Array.prototype.sort` is stable and this
      comparator consistent): deepest first, and a permutation. */
  function SortByDepthDesc(es: seq<ConfigEntry>): (r: seq<ConfigEntry>)
    ensures multiset(r) == multiset(es)
    ensures DescendingDepth(r)
  {
    if es == [] then []
    else
      var init := es[..|es| - 1];
      var x := es[|es| - 1];
      assert es == init + [x];
      var t := SortByDepthDesc(init);
      InsertDescPermutes(x, t);
      InsertDescSorted(x, t);
      InsertDesc(x, t)
  }

  /** What the comparator of line 312 decides consistently: index files
      before all others, and index files among themselves by ascending
      depth. It answers 1 for every pair whose first element is not an
      index file, so the relative order of the other files is left to the
      engine; an admissible order is any permutation that keeps the decided
      pairs. */
  predicate AdmissibleOrder(input: seq<ConfigEntry>, out: seq<ConfigEntry>)
  {
    && multiset(out) == multiset(input)
    && (forall i, j :: 0 <= i < j < |out| && IsIndex(out[j]) ==> IsIndex(out[i]))
    && (forall i, j :: 0 <= i < j < |out| && IsIndex(out[i]) && IsIndex(out[j]) ==> out[i].depth <= out[j].depth)
  }

  /** The first sort is a permutation, so it does not change which orders
      the second sort may produce. */
  lemma AdmissibleIgnoresInputOrder(a: seq<ConfigEntry>, b: seq<ConfigEntry>, out: seq<ConfigEntry>)
    requires multiset(a) == multiset(b)
    ensures AdmissibleOrder(a, out) <==> AdmissibleOrder(b, out)
  {
  }

  function InsertAsc(x: ConfigEntry, s: seq<ConfigEntry>): seq<ConfigEntry>
  {
    if s == [] then [x]
    else if s[0].depth <= x.depth then [s[0]] + InsertAsc(x, s[1..])
    else [x] + s
  }

  lemma {:induction false} InsertAscPermutes(x: ConfigEntry, s: seq<ConfigEntry>)
    ensures multiset(InsertAsc(x, s)) == multiset(s) + multiset{x}
  {
    if s != [] {
      assert s == [s[0]] + s[1..];
      if s[0].depth <= x.depth {
        InsertAscPermutes(x, s[1..]);
      }
    }
  }

  predicate NoShallowerThan(b: nat, s: seq<ConfigEntry>)
  {
    forall k :: 0 <= k < |s| ==> s[k].depth >= b
  }

  lemma {:induction false} InsertAscBounded(b: nat, x: ConfigEntry, s: seq<ConfigEntry>)
    requires NoShallowerThan(b, s) && x.depth >= b
    ensures NoShallowerThan(b, InsertAsc(x, s))
  {
    if s != [] && s[0].depth <= x.depth {
      InsertAscBounded(b, x, s[1..]);
    }
  }

  lemma {:induction false} InsertAscSorted(x: ConfigEntry, s: seq<ConfigEntry>)
    requires AscendingDepth(s)
    ensures AscendingDepth(InsertAsc(x, s))
  {
    if s != [] && s[0].depth <= x.depth {
      var t := InsertAsc(x, s[1..]);
      InsertAscSorted(x, s[1..]);
      InsertAscBounded(s[0].depth, x, s[1..]);
      var r := [s[0]] + t;
      forall i, j | 0 <= i < j < |r| ensures r[i].depth <= r[j].depth {
        if i > 0 {
          assert r[i] == t[i - 1] && r[j] == t[j - 1];
        } else {
          assert r[j] == t[j - 1];
        }
      }
    }
  }

  /** The index files, shallowest first and otherwise in input order. */
  function SortIndexAsc(es: seq<ConfigEntry>): (r: seq<ConfigEntry>)
    ensures multiset(r) == multiset(FilterIndex(es, true))
    ensures AscendingDepth(r)
  {
    if es == [] then []
    else
      var init := es[..|es| - 1];
      var x := es[|es| - 1];
      assert es == init + [x];
      FilterIndexAppend(init, x, true);
      var s := SortIndexAsc(init);
      InsertAscPermutes(x, s);
      InsertAscSorted(x, s);
      if IsIndex(x) then InsertAsc(x, s) else s
  }

  /** The entries that are (`want`) or are not index files, in order. */
  function FilterIndex(es: seq<ConfigEntry>, want: bool): (r: seq<ConfigEntry>)
    ensures forall k :: 0 <= k < |r| ==> IsIndex(r[k]) == want
  {
    if es == [] then []
    else (if IsIndex(es[0]) == want then [es[0]] else []) + FilterIndex(es[1..], want)
  }

  lemma {:induction false} FilterIndexAppend(es: seq<ConfigEntry>, x: ConfigEntry, want: bool)
    ensures FilterIndex(es + [x], want) == FilterIndex(es, want) + (if IsIndex(x) == want then [x] else [])
  {
    if es == [] {
      assert [x][1..] == [];
    } else {
      assert (es + [x])[1..] == es[1..] + [x];
      FilterIndexAppend(es[1..], x, want);
    }
  }

  lemma {:induction false} FilterIndexSplit(es: seq<ConfigEntry>)
    ensures multiset(FilterIndex(es, true)) + multiset(FilterIndex(es, false)) == multiset(es)
  {
    if es != [] {
      FilterIndexSplit(es[1..]);
      assert es == [es[0]] + es[1..];
    }
  }

  /** One admissible order: the index files by ascending depth, then the
      other files as they came. */
  function IndexFirst(es: seq<ConfigEntry>): seq<ConfigEntry>
  {
    SortIndexAsc(es) + FilterIndex(es, false)
  }

  /** Admissible orders exist for every input. */
  lemma IndexFirstAdmissible(es: seq<ConfigEntry>)
    ensures AdmissibleOrder(es, IndexFirst(es))
  {
    var a := SortIndexAsc(es);
    var b := FilterIndex(es, false);
    var out := a + b;
    FilterIndexSplit(es);
    assert forall k :: 0 <= k < |a| ==> IsIndex(a[k]) by {
      forall k | 0 <= k < |a| ensures IsIndex(a[k]) {
        assert a[k] in multiset(FilterIndex(es, true));
        var t := FilterIndex(es, true);
        var m :| 0 <= m < |t| && t[m] == a[k];
      }
    }
    assert forall k :: 0 <= k < |b| ==> out[|a| + k] == b[k];
    assert forall k :: 0 <= k < |a| ==> out[k] == a[k];
  }

  /** In every admissible order the files deep-merged into the root (empty
      object path: top-level index files) come before every file assigned
      at a path. */
  lemma RootMergesComeFirst(input: seq<ConfigEntry>, out: seq<ConfigEntry>, i: nat, j: nat)
    requires AdmissibleOrder(input, out) && Named(out)
    requires i < j < |out|
    requires ConfigObjectPath(out[j].details) == ""
    requires forall k :: 0 <= k < |out| ==> out[k].depth == Depth(out[k].details.dir)
    ensures ConfigObjectPath(out[i].details) == ""
  {
    ConfigObjectPathEmpty(out[j].details);
    ConfigObjectPathEmpty(out[i].details);
    assert IsIndex(out[i]);
  }

  /** What line 322-326 read for a file: the parsed data for the four
      known extensions, an empty object otherwise. */
  function Loaded(e: ConfigEntry): Value
  {
    var x := e.details.ext;
    if x == ".yaml" || x == ".yml" || x == ".js" || x == ".json" then e.parsed else Obj([])
  }

  /** One step of the fold (line 327): `_.set` at a non-empty object path,
      `_.merge` into the root otherwise. */
  function Step(d: seq<Prop>, e: ConfigEntry): seq<Prop>
  {
    var path := ConfigObjectPath(e.details);
    if path != "" then SetIn(d, SplitDots(path), Loaded(e))
    else MergeInto(d, Loaded(e), false).value
  }

  /** A file at a path can be read back there; a file merged into the root
      adds its own keys to the root's. */
  lemma StepEffect(d: seq<Prop>, e: ConfigEntry)
    ensures ConfigObjectPath(e.details) != "" ==>
              GetIn(Step(d, e), SplitDots(ConfigObjectPath(e.details))) == Some(Loaded(e))
    ensures ConfigObjectPath(e.details) == "" ==>
              KeySet(Step(d, e)) == KeySet(d) + (if Truthy(Loaded(e)) then KeySet(OwnEntries(Loaded(e))) else {})
  {
    var path := ConfigObjectPath(e.details);
    if path != "" {
      SetInGetIn(d, SplitDots(path), Loaded(e));
    } else {
      MergePropsFrame(d, OwnEntries(Loaded(e)), false, "");
    }
  }

  /** The `reduce` of lines 314-328 over an order of the files. */
  function Fold(d: seq<Prop>, es: seq<ConfigEntry>): seq<Prop>
    decreases |es|
  {
    if es == [] then d else Fold(Step(d, es[0]), es[1..])
  }

  lemma {:induction false} FoldAppend(d: seq<Prop>, es: seq<ConfigEntry>, e: ConfigEntry)
    ensures Fold(d, es + [e]) == Step(Fold(d, es), e)
    decreases |es|
  {
    if es == [] {
      assert [e][1..] == [];
    } else {
      assert (es + [e])[1..] == es[1..] + [e];
      FoldAppend(Step(d, es[0]), es[1..], e);
    }
  }

  /** The configuration object never holds a key twice. */
  lemma {:induction false} FoldKeepsDistinct(d: seq<Prop>, es: seq<ConfigEntry>)
    requires DistinctKeys(d)
    ensures DistinctKeys(Fold(d, es))
    decreases |es|
  {
    if es != [] {
      var e := es[0];
      if ConfigObjectPath(e.details) != "" {
        SetInKeepsDistinct(d, SplitDots(ConfigObjectPath(e.details)), Loaded(e));
      } else if Truthy(Loaded(e)) {
        MergePropsKeepsDistinct(d, OwnEntries(Loaded(e)), false);
      }
      FoldKeepsDistinct(Step(d, e), es[1..]);
    }
  }

  lemma GetInSameHead(a: seq<Prop>, b: seq<Prop>, path: seq<string>)
    requires path != [] && Lookup(a, path[0]) == Lookup(b, path[0])
    ensures GetIn(a, path) == GetIn(b, path)
  {
  }

  /** A file assigned at a path keeps its value in the result when no later
      file writes under the same top-level key. */
  lemma {:induction false} LastWriteAtKeyWins(d: seq<Prop>, es: seq<ConfigEntry>, j: nat)
    requires j < |es|
    requires ConfigObjectPath(es[j].details) != ""
    requires forall k :: j < k < |es| ==>
               ConfigObjectPath(es[k].details) != ""
               && SplitDots(ConfigObjectPath(es[k].details))[0] != SplitDots(ConfigObjectPath(es[j].details))[0]
    ensures GetIn(Fold(d, es), SplitDots(ConfigObjectPath(es[j].details))) == Some(Loaded(es[j]))
    decreases |es|
  {
    var path := SplitDots(ConfigObjectPath(es[j].details));
    var init := es[..|es| - 1];
    var last := es[|es| - 1];
    assert es == init + [last];
    FoldAppend(d, init, last);
    if j == |es| - 1 {
      StepEffect(Fold(d, init), last);
    } else {
      assert init[j] == es[j];
      assert forall k :: j < k < |init| ==> init[k] == es[k];
      LastWriteAtKeyWins(d, init, j);
      assert ConfigObjectPath(last.details) != "" && SplitDots(ConfigObjectPath(last.details))[0] != path[0];
      StepElsewhere(Fold(d, init), last, path);
    }
  }

  /** A file assigned under another top-level key leaves `path` as it
      was. */
  lemma StepElsewhere(before: seq<Prop>, last: ConfigEntry, path: seq<string>)
    requires path != []
    requires ConfigObjectPath(last.details) != ""
    requires SplitDots(ConfigObjectPath(last.details))[0] != path[0]
    ensures GetIn(Step(before, last), path) == GetIn(before, path)
  {
    SetInFrame(before, SplitDots(ConfigObjectPath(last.details)), Loaded(last), path[0]);
    GetInSameHead(Step(before, last), before, path);
  }

  /** The `reduce` of lines 314-328 as the loop it is: one accumulator,
      updated file by file. */
  method Reduce(order: seq<ConfigEntry>) returns (d: seq<Prop>)
    ensures d == Fold([], order)
  {
    d := [];
    for i := 0 to |order|
      invariant d == Fold([], order[..i])
    {
      FoldAppend([], order[..i], order[i]);
      assert order[..i + 1] == order[..i] + [order[i]];
      d := Step(d, order[i]);
    }
    assert order[..|order|] == order;
  }

  /** `get_config`: parse every path, sort by depth (line 310), let the
      engine pick an order the comparator of line 312 admits, and fold.
      The result is the fold over some admissible order of the files. */
  method GetConfig(files: seq<ConfigSource>) returns (config: Value)
    requires WellFormedSources(files)
    ensures config.Obj?
    ensures exists order :: AdmissibleOrder(Entries(files), order) && config == Obj(Fold([], order))
  {
    var entries := Entries(files);
    var byDepth := SortByDepthDesc(entries);
    IndexFirstAdmissible(byDepth);
    var order :| AdmissibleOrder(byDepth, order);
    AdmissibleIgnoresInputOrder(entries, byDepth, order);
    var d := Reduce(order);
    config := Obj(d);
    assert AdmissibleOrder(Entries(files), order) && config == Obj(Fold([], order));
  }
}
