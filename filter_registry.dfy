/** `get_filters(theme_dir)` (gulpfile.babel.js lines 272-296): every
    script under `<theme>/filters` contributes template filters. A script
    that exports a lone function is registered under its object path; any
    other script registers each of its own function-valued properties as
    `<object path>_<key>`. */
module FilterRegistry {
  import opened JsValues
  import opened Paths

  /** A script the filter glob found, relative to the filter directory,
      with its `module.exports`. */
  datatype FilterModule = FilterModule(path: string, exports: Value)

  predicate WellFormedModules(ms: seq<FilterModule>)
  {
    forall i :: 0 <= i < |ms| ==> GlobRelative(ms[i].path)
  }

  /** A script as the `reduce` callback sees it: its `path.parse` details
      (line 275) and the module `require` loads (line 278). */
  datatype ParsedModule = ParsedModule(details: ParsedPath, exports: Value)

  /** `.map(path.parse)` over the globbed scripts (line 275). */
  function ParseModules(ms: seq<FilterModule>): (r: seq<ParsedModule>)
    requires WellFormedModules(ms)
    ensures |r| == |ms|
    ensures forall i :: 0 <= i < |ms| ==> r[i] == ParsedModule(Parse(ms[i].path), ms[i].exports)
  {
    if ms == [] then []
    else [ParsedModule(Parse(ms[0].path), ms[0].exports)] + ParseModules(ms[1..])
  }

  /** `!Object.keys(js).length && typeof js === 'function'` (line 279). */
  predicate IsSingleFunction(js: Value)
  {
    OwnEntries(js) == [] && js.Fun?
  }

  /** The function-valued entries among `entries`, renamed to
      `prefix_key`, in enumeration order (lines 287-291). */
  function MethodFilters(prefix: string, entries: seq<Prop>): (r: seq<Prop>)
    ensures |r| <= |entries|
    ensures forall i :: 0 <= i < |r| ==> r[i].val.Fun?
  {
    if entries == [] then []
    else
      var init := entries[..|entries| - 1];
      var e := entries[|entries| - 1];
      MethodFilters(prefix, init) + (if e.val.Fun? then [Prop(prefix + "_" + e.key, e.val)] else [])
  }

  /** A renamed filter is exactly a function-valued entry under its new
      name. */
  lemma {:induction false} MethodFiltersMembers(prefix: string, entries: seq<Prop>, p: Prop)
    ensures p in MethodFilters(prefix, entries) <==>
              exists e :: e in entries && e.val.Fun? && p == Prop(prefix + "_" + e.key, e.val)
  {
    if entries != [] {
      var init := entries[..|entries| - 1];
      var e := entries[|entries| - 1];
      assert entries == init + [e];
      MethodFiltersMembers(prefix, init, p);
    }
  }

  /** Exports on which lines 279-291 throw: `Object.keys` throws on `null`
      and `undefined`, and `js.hasOwnProperty(key)` at line 288 throws at
      the first key when an object or function holds its own
      `hasOwnProperty` entry (the index keys of an array or string never
      do). */
  predicate ExportsThrow(js: Value)
  {
    IsNullish(js) || ((js.Obj? || js.Fun?) && OwnsHasOwnProperty(js.props))
  }

  /** The assignments one script makes to the accumulator `d`, in order. */
  function ModuleFilters(m: ParsedModule): (r: Result<seq<Prop>>)
    ensures r.Threw? <==> ExportsThrow(m.exports)
    ensures r.Ok? ==> forall i :: 0 <= i < |r.value| ==> r.value[i].val.Fun?
  {
    var js := m.exports;
    var prefix := FilterObjectPath(m.details);
    if ExportsThrow(js) then Threw
    else if IsSingleFunction(js) then Ok([Prop(prefix, js)])
    else Ok(MethodFilters(prefix, OwnEntries(js)))
  }

  /** Exports that hold their own `hasOwnProperty` make the script throw,
      whatever else they hold. */
  lemma ShadowedExportsThrow(details: ParsedPath, f: Value, w: Value)
    ensures ModuleFilters(ParsedModule(details, Obj([Prop("hasOwnProperty", w), Prop("f", f)]))).Threw?
  {
    assert [Prop("hasOwnProperty", w), Prop("f", f)][0].key == "hasOwnProperty";
  }

  /** All assignments of the fold, script after script; the first script
      that throws aborts it. */
  function AllFilters(ms: seq<ParsedModule>): Result<seq<Prop>>
  {
    if ms == [] then Ok([])
    else
      var init := ms[..|ms| - 1];
      var m := ms[|ms| - 1];
      match AllFilters(init)
      case Threw => Threw
      case Ok(before) =>
        match ModuleFilters(m)
        case Threw => Threw
        case Ok(mine) => Ok(before + mine)
  }

  /** The fold throws exactly when some script exports `null` or
      `undefined`, or exports that hold their own `hasOwnProperty`, and
      otherwise assigns only functions. */
  lemma {:induction false} AllFiltersOutcome(ms: seq<ParsedModule>)
    ensures AllFilters(ms).Threw? <==> exists i :: 0 <= i < |ms| && ExportsThrow(ms[i].exports)
    ensures AllFilters(ms).Ok? ==> forall i :: 0 <= i < |AllFilters(ms).value| ==> AllFilters(ms).value[i].val.Fun?
  {
    if ms != [] {
      var init := ms[..|ms| - 1];
      assert forall i :: 0 <= i < |init| ==> init[i] == ms[i];
      AllFiltersOutcome(init);
      if ExportsThrow(ms[|ms| - 1].exports) {
        assert AllFilters(ms).Threw?;
      } else if AllFilters(init).Threw? {
        var i :| 0 <= i < |init| && ExportsThrow(init[i].exports);
        assert ExportsThrow(ms[i].exports);
      } else {
        assert forall i :: 0 <= i < |ms| - 1 ==> !ExportsThrow(ms[i].exports);
      }
    }
  }

  /** The dictionary after the assignments `d[k] = v` of `regs`, in order. */
  function Assigned(d: map<string, Value>, regs: seq<Prop>): map<string, Value>
  {
    if regs == [] then d
    else
      var last := regs[|regs| - 1];
      Assigned(d, regs[..|regs| - 1])[last.key := last.val]
  }

  lemma {:induction false} AssignedAppend(d: map<string, Value>, a: seq<Prop>, b: seq<Prop>)
    ensures Assigned(d, a + b) == Assigned(Assigned(d, a), b)
  {
    if b != [] {
      assert (a + b)[..|a + b| - 1] == a + b[..|b| - 1];
      AssignedAppend(d, a, b[..|b| - 1]);
    } else {
      assert a + b == a;
    }
  }

  /** The index of the last assignment to `k`, or -1. */
  function LastWith(regs: seq<Prop>, k: string): (i: int)
    ensures -1 <= i < |regs|
    ensures i >= 0 ==> regs[i].key == k
    ensures forall j :: i < j < |regs| ==> regs[j].key != k
  {
    if regs == [] then -1
    else if regs[|regs| - 1].key == k then |regs| - 1
    else LastWith(regs[..|regs| - 1], k)
  }

  /** Last assignment wins: a key is present when it was there before or
      was assigned, and then holds the value of its last assignment. */
  lemma {:induction false} AssignedAt(d: map<string, Value>, regs: seq<Prop>, k: string)
    ensures k in Assigned(d, regs) <==> k in d || LastWith(regs, k) >= 0
    ensures LastWith(regs, k) >= 0 ==> Assigned(d, regs)[k] == regs[LastWith(regs, k)].val
    ensures LastWith(regs, k) < 0 && k in d ==> Assigned(d, regs)[k] == d[k]
  {
    if regs != [] {
      AssignedAt(d, regs[..|regs| - 1], k);
    }
  }

  /** The `for...in` loop of lines 287-291 over one script's entries, with
      `hasOwnProperty` reaching `Object.prototype`. */
  method AddMethodFilters(d0: map<string, Value>, prefix: string, entries: seq<Prop>) returns (d: map<string, Value>)
    ensures d == Assigned(d0, MethodFilters(prefix, entries))
  {
    d := d0;
    for j := 0 to |entries|
      invariant d == Assigned(d0, MethodFilters(prefix, entries[..j]))
    {
      assert entries[..j + 1][..j] == entries[..j];
      if entries[j].val.Fun? {
        d := d[prefix + "_" + entries[j].key := entries[j].val];
      } else {
        assert MethodFilters(prefix, entries[..j + 1]) == MethodFilters(prefix, entries[..j]);
      }
    }
    assert entries[..|entries|] == entries;
  }

  /** One more script: its assignments follow those of the scripts before
      it, or it throws. */
  lemma AllFiltersStep(ms: seq<ParsedModule>, i: nat)
    requires i < |ms| && AllFilters(ms[..i]).Ok?
    ensures ExportsThrow(ms[i].exports) ==> AllFilters(ms[..i + 1]).Threw?
    ensures !ExportsThrow(ms[i].exports) ==>
              AllFilters(ms[..i + 1]) == Ok(AllFilters(ms[..i]).value + ModuleFilters(ms[i]).value)
  {
    var s := ms[..i + 1];
    assert s[..|s| - 1] == ms[..i];
    assert s[|s| - 1] == ms[i];
    var r := ModuleFilters(ms[i]);
    assert AllFilters(s) == (match r case Threw => Threw case Ok(mine) => Ok(AllFilters(ms[..i]).value + mine));
  }

  /** Lines 277-292 for one script whose exports are not nullish. */
  method RegisterModule(d0: map<string, Value>, m: ParsedModule) returns (r: Result<map<string, Value>>)
    requires !IsNullish(m.exports)
    ensures r.Threw? <==> ModuleFilters(m).Threw?
    ensures r.Ok? ==> r.value == Assigned(d0, ModuleFilters(m).value)
  {
    var js := m.exports;
    var prefix := FilterObjectPath(m.details);
    var entries := OwnEntries(js);
    if |entries| == 0 && js.Fun? {
      r := Ok(d0[prefix := js]);
      assert Assigned(d0, [Prop(prefix, js)]) == Assigned(d0, [])[prefix := js];
    } else if (js.Obj? || js.Fun?) && OwnsHasOwnProperty(entries) {
      // the first `js.hasOwnProperty(key)` of the loop throws
      r := Threw;
    } else {
      var d := AddMethodFilters(d0, prefix, entries);
      r := Ok(d);
    }
  }

  /** `get_filters`: the accumulator dictionary filled script by script. */
  method GetFilters(ms: seq<FilterModule>) returns (r: Result<map<string, Value>>)
    requires WellFormedModules(ms)
    ensures r.Threw? <==> AllFilters(ParseModules(ms)).Threw?
    ensures r.Ok? ==> r.value == Assigned(map[], AllFilters(ParseModules(ms)).value)
  {
    var parsed := ParseModules(ms);
    var d: map<string, Value> := map[];
    ghost var regs: seq<Prop> := [];
    for i := 0 to |parsed|
      invariant AllFilters(parsed[..i]) == Ok(regs)
      invariant d == Assigned(map[], regs)
    {
      AllFiltersStep(parsed, i);
      if IsNullish(parsed[i].exports) {
        PrefixThrows(parsed, i + 1);
        return Threw;
      }
      var registered := RegisterModule(d, parsed[i]);
      if registered.Threw? {
        PrefixThrows(parsed, i + 1);
        return Threw;
      }
      ghost var mine := ModuleFilters(parsed[i]).value;
      AssignedAppend(map[], regs, mine);
      d := registered.value;
      regs := regs + mine;
    }
    assert parsed[..|parsed|] == parsed;
    r := Ok(d);
  }

  /** A prefix that throws makes the whole fold throw. */
  lemma PrefixThrows(ms: seq<ParsedModule>, n: nat)
    requires n <= |ms|
    requires AllFilters(ms[..n]).Threw?
    ensures AllFilters(ms).Threw?
  {
    AllFiltersOutcome(ms[..n]);
    AllFiltersOutcome(ms);
    var i :| 0 <= i < n && ExportsThrow(ms[..n][i].exports);
    assert ms[..n][i] == ms[i];
  }

  /** Every registered filter is a function. */
  lemma FiltersAreFunctions(ms: seq<ParsedModule>, k: string)
    requires AllFilters(ms).Ok?
    requires k in Assigned(map[], AllFilters(ms).value)
    ensures Assigned(map[], AllFilters(ms).value)[k].Fun?
  {
    AllFiltersOutcome(ms);
    AssignedAt(map[], AllFilters(ms).value, k);
  }

  /** A script exporting a lone function contributes exactly that function,
      named by its object path. */
  lemma SingleFunctionRegistersPath(m: ParsedModule)
    requires IsSingleFunction(m.exports)
    ensures ModuleFilters(m) == Ok([Prop(FilterObjectPath(m.details), m.exports)])
  {
  }

  /** A script exporting an object of functions registers each of them as
      `prefix_key` and nothing else; non-function values are skipped. */
  lemma MethodScriptRegistersFunctions(m: ParsedModule, p: Prop)
    requires !ExportsThrow(m.exports) && !IsSingleFunction(m.exports)
    ensures p in ModuleFilters(m).value <==>
              exists e :: e in OwnEntries(m.exports) && e.val.Fun?
                && p == Prop(FilterObjectPath(m.details) + "_" + e.key, e.val)
  {
    MethodFiltersMembers(FilterObjectPath(m.details), OwnEntries(m.exports), p);
  }

  /** Filters from a later script replace same-named filters from an
      earlier one: the fold's result at `k` is the last script's filter of
      that name. */
  lemma {:induction false} LaterScriptWins(ms: seq<ParsedModule>, k: string, v: Value)
    requires ms != [] && AllFilters(ms).Ok?
    requires Prop(k, v) in ModuleFilters(ms[|ms| - 1]).value
    requires DistinctKeys(ModuleFilters(ms[|ms| - 1]).value)
    ensures k in Assigned(map[], AllFilters(ms).value)
    ensures Assigned(map[], AllFilters(ms).value)[k] == v
  {
    var init := ms[..|ms| - 1];
    var before := AllFilters(init).value;
    var mine := ModuleFilters(ms[|ms| - 1]).value;
    var all := before + mine;
    assert AllFilters(ms).value == all;
    var j :| 0 <= j < |mine| && mine[j] == Prop(k, v);
    AssignedLater(map[], before, mine, j);
  }

  /** With distinct keys in the later assignments, each of them is the
      last one to its key. */
  lemma AssignedLater(d: map<string, Value>, before: seq<Prop>, mine: seq<Prop>, j: nat)
    requires DistinctKeys(mine) && j < |mine|
    ensures mine[j].key in Assigned(d, before + mine)
    ensures Assigned(d, before + mine)[mine[j].key] == mine[j].val
  {
    var all := before + mine;
    var k := mine[j].key;
    AssignedAt(d, all, k);
    var last := LastWith(all, k);
    assert all[|before| + j] == mine[j];
    assert last >= |before| + j;
  }
}
