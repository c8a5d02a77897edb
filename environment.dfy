/** The template environment the `templates` task builds (gulpfile.babel.js
    lines 446-501): its globals and filters, and `load(dir)`, which layers a
    theme's configuration over the globals and registers the theme's
    filters. The base theme `__theme` is loaded first and the custom theme
    `theme` second, so the custom theme wins. */
module TemplateEnvironment {
  import opened JsValues
  import opened Customizer
  import opened DeepMerge
  import opened ConfigLoader
  import opened FilterRegistry

  /** What a theme directory holds for `load`: its configuration files and
      its filter scripts. */
  datatype Theme = Theme(configFiles: seq<ConfigSource>, filterScripts: seq<FilterModule>)

  predicate WellFormedTheme(t: Theme)
  {
    WellFormedSources(t.configFiles) && WellFormedModules(t.filterScripts)
  }

  /** A configuration `get_config` may return for the theme: the fold over
      one of the orders the sort of line 312 admits. */
  ghost predicate PossibleConfig(t: Theme, cfg: seq<Prop>)
    requires WellFormedTheme(t)
  {
    exists order :: AdmissibleOrder(Entries(t.configFiles), order) && cfg == Fold([], order)
  }

  /** `env.getGlobal(name)`: the template engine throws for a global that
      is missing or `undefined`. */
  function GetGlobal(globals: map<string, Value>, name: string): (r: Result<Value>)
    ensures r.Threw? <==> name !in globals || globals[name] == Undefined
    ensures r.Ok? ==> r.value == globals[name]
  {
    if name in globals && globals[name] != Undefined then Ok(globals[name]) else Threw
  }

  /** The global a key's configuration value is layered onto: `false` when
      the lookup throws (lines 477-480). */
  function Existing(globals: map<string, Value>, key: string): Value
  {
    match GetGlobal(globals, key)
    case Ok(v) => v
    case Threw => Bool(false)
  }

  /** The value `load` stores for `key` (lines 481-485): a plain-object
      global is deep-merged with the incoming value through the array
      customizer (which may throw); any other global is replaced. */
  function LayerValue(globals: map<string, Value>, key: string, v: Value): (r: Result<Value>)
    ensures !Existing(globals, key).Obj? ==> r == Ok(v)
    ensures r.Threw? ==> Existing(globals, key).Obj?
  {
    var existing := Existing(globals, key);
    if Truthy(existing) && IsPlainObject(existing) then
      match MergeInto(existing.props, v, true)
      case Ok(ps) => Ok(Obj(ps))
      case Threw => Threw
    else Ok(v)
  }

  /** The `for...in` loop of lines 475-487 over the configuration's keys:
      the globals after it, and whether it finished. A configuration with
      its own `hasOwnProperty` entry makes the first `config.hasOwnProperty(key)`
      (line 476) throw before any global is assigned; otherwise a throwing
      merge ends the task with the globals assigned so far. */
  function LayerConfig(globals: map<string, Value>, cfg: seq<Prop>): (map<string, Value>, bool)
  {
    if OwnsHasOwnProperty(cfg) then (globals, false) else LayerKeys(globals, cfg)
  }

  /** The loop's body key by key, with `hasOwnProperty` reaching
      `Object.prototype`. */
  function LayerKeys(globals: map<string, Value>, cfg: seq<Prop>): (map<string, Value>, bool)
    decreases |cfg|
  {
    if cfg == [] then (globals, true)
    else
      match LayerValue(globals, cfg[0].key, cfg[0].val)
      case Threw => (globals, false)
      case Ok(v) => LayerKeys(globals[cfg[0].key := v], cfg[1..])
  }

  /** The rest of a configuration names no key the whole one does not. */
  lemma KeySetTail(cfg: seq<Prop>)
    requires cfg != []
    ensures cfg[0].key in KeySet(cfg)
    ensures KeySet(cfg[1..]) <= KeySet(cfg)
    ensures !OwnsHasOwnProperty(cfg) ==> !OwnsHasOwnProperty(cfg[1..])
  {
    assert cfg[0].key in KeySet(cfg);
    forall x | x in KeySet(cfg[1..]) ensures x in KeySet(cfg) {
      var i :| 0 <= i < |cfg[1..]| && cfg[1..][i].key == x;
      assert cfg[i + 1].key == x;
    }
  }

  /** A configuration with its own `hasOwnProperty` entry makes `load`
      throw at once: no global is layered and no filter registered. */
  lemma ShadowedConfigThrows(globals: map<string, Value>, filters: map<string, Value>, cfg: seq<Prop>, scripts: seq<FilterModule>)
    requires WellFormedModules(scripts)
    requires OwnsHasOwnProperty(cfg)
    ensures LoadResult(globals, filters, cfg, scripts) == (globals, filters, false)
  {
  }

  /** The configuration of a `config/hasOwnProperty.yaml`, or of a root
      file with a top-level `hasOwnProperty` key, fails the load. */
  lemma HasOwnPropertyKeyFailsLoad(globals: map<string, Value>, filters: map<string, Value>, v: Value, rest: seq<Prop>)
    ensures !LoadResult(globals, filters, [Prop("hasOwnProperty", v)] + rest, []).2
  {
    var cfg := [Prop("hasOwnProperty", v)] + rest;
    assert cfg[0].key == "hasOwnProperty";
    ShadowedConfigThrows(globals, filters, cfg, []);
  }

  /** What `load` leaves behind for a configuration and a theme's filter
      scripts: globals, filters, and whether it finished. */
  function LoadResult(globals: map<string, Value>, filters: map<string, Value>, cfg: seq<Prop>, scripts: seq<FilterModule>)
    : (map<string, Value>, map<string, Value>, bool)
    requires WellFormedModules(scripts)
  {
    var (g, ok) := LayerConfig(globals, cfg);
    if !ok then (g, filters, false)
    else
      match AllFilters(ParseModules(scripts))
      case Threw => (g, filters, false)
      case Ok(regs) => (g, filters + Assigned(map[], regs), true)
  }

  /** Loading themes one after the other, with one possible configuration
      each; the first failure ends the sequence. */
  function LoadAll(globals: map<string, Value>, filters: map<string, Value>, themes: seq<Theme>, cfgs: seq<seq<Prop>>)
    : (map<string, Value>, map<string, Value>, bool)
    requires |cfgs| == |themes|
    requires forall i :: 0 <= i < |themes| ==> WellFormedTheme(themes[i])
    decreases |themes|
  {
    if themes == [] then (globals, filters, true)
    else
      var n := |themes| - 1;
      assert WellFormedTheme(themes[n]);
      var (g, f, ok) := LoadAll(globals, filters, themes[..n], cfgs[..n]);
      if !ok then (g, f, false) else LoadResult(g, f, cfgs[n], themes[n].filterScripts)
  }

  /** The loop leaves every key the configuration does not name alone. */
  lemma {:induction false} LayerConfigFrame(globals: map<string, Value>, cfg: seq<Prop>, k: string)
    requires k !in KeySet(cfg)
    ensures (k in LayerConfig(globals, cfg).0) == (k in globals)
    ensures k in globals ==> LayerConfig(globals, cfg).0[k] == globals[k]
    decreases |cfg|
  {
    if cfg != [] && !OwnsHasOwnProperty(cfg) {
      KeySetTail(cfg);
      match LayerValue(globals, cfg[0].key, cfg[0].val)
      case Threw =>
      case Ok(v) => LayerConfigFrame(globals[cfg[0].key := v], cfg[1..], k);
    }
  }

  /** With distinct keys (which every configuration has), each key is
      layered onto the global it had before the loop: a finished loop
      stores at every configured key what `LayerValue` makes of the
      original global. */
  lemma {:induction false} LayerConfigPerKey(globals: map<string, Value>, cfg: seq<Prop>, i: nat)
    requires DistinctKeys(cfg) && i < |cfg|
    requires LayerConfig(globals, cfg).1
    ensures LayerValue(globals, cfg[i].key, cfg[i].val).Ok?
    ensures cfg[i].key in LayerConfig(globals, cfg).0
    ensures LayerConfig(globals, cfg).0[cfg[i].key] == LayerValue(globals, cfg[i].key, cfg[i].val).value
    decreases |cfg|
  {
    var v := LayerValue(globals, cfg[0].key, cfg[0].val).value;
    var g' := globals[cfg[0].key := v];
    var rest := cfg[1..];
    KeySetTail(cfg);
    assert DistinctKeys(rest) by {
      forall a, b | 0 <= a < b < |rest| ensures rest[a].key != rest[b].key {
        assert rest[a] == cfg[a + 1] && rest[b] == cfg[b + 1];
      }
    }
    if i == 0 {
      assert cfg[0].key !in KeySet(rest) by {
        forall j | 0 <= j < |rest| ensures rest[j].key != cfg[0].key {
          assert rest[j] == cfg[j + 1];
        }
      }
      LayerConfigFrame(g', rest, cfg[0].key);
    } else {
      assert rest[i - 1] == cfg[i];
      LayerConfigPerKey(g', rest, i - 1);
      assert cfg[0].key != cfg[i].key;
      assert Existing(g', cfg[i].key) == Existing(globals, cfg[i].key);
    }
  }

  /** A configured value replaces a global that is not a plain object
      (a scalar, an array, a function, or nothing). */
  lemma ReplacesNonObject(globals: map<string, Value>, key: string, v: Value)
    requires key !in globals || !globals[key].Obj?
    ensures LayerValue(globals, key, v) == Ok(v)
  {
  }

  /** Layering a plain object onto a plain-object global keeps every key
      of both, and the keys the incoming object lacks keep their values. */
  lemma MergesObjects(globals: map<string, Value>, key: string, ps: seq<Prop>, k: string)
    requires key in globals && globals[key].Obj?
    requires LayerValue(globals, key, Obj(ps)).Ok?
    ensures LayerValue(globals, key, Obj(ps)).value.Obj?
    ensures KeySet(LayerValue(globals, key, Obj(ps)).value.props) == KeySet(globals[key].props) + KeySet(ps)
    ensures k !in KeySet(ps) ==>
              Lookup(LayerValue(globals, key, Obj(ps)).value.props, k) == Lookup(globals[key].props, k)
  {
    MergePropsFrame(globals[key].props, ps, true, k);
  }

  /** A theme extends a list setting of the theme below it by starting the
      list with `'...'`: the new items follow the old ones. */
  lemma AppendsToList(globals: map<string, Value>, key: string, sub: string, xs: seq<Value>, ys: seq<Value>)
    requires key in globals && globals[key].Obj?
    requires Lookup(globals[key].props, sub) == Some(Arr(xs))
    ensures LayerValue(globals, key, Obj([Prop(sub, Arr([Sentinel] + ys))]))
            == Ok(Obj(SetProp(globals[key].props, sub, Arr(xs + ys))))
  {
    var src := [Prop(sub, Arr([Sentinel] + ys))];
    var ps := globals[key].props;
    Append(Arr(xs), ys);
    assert MergeKey(Some(Arr(xs)), Arr([Sentinel] + ys), true) == Ok(Some(Arr(xs + ys)));
    assert src[1..] == [];
    assert MergeProps(ps, src, true) == MergeProps(SetProp(ps, sub, Arr(xs + ys)), [], true);
  }

  /** A theme replaces a list setting by giving a list without `'...'` at
      either end. */
  lemma ReplacesList(globals: map<string, Value>, key: string, sub: string, ys: seq<Value>)
    requires key in globals && globals[key].Obj?
    requires !LeadingSentinel(ys) && !TrailingSentinel(ys)
    ensures LayerValue(globals, key, Obj([Prop(sub, Arr(ys))]))
            == Ok(Obj(SetProp(globals[key].props, sub, Arr(ys))))
  {
    var src := [Prop(sub, Arr(ys))];
    var ps := globals[key].props;
    var objValue := Lookup(ps, sub);
    Replace(if objValue.Some? then objValue.value else Undefined, ys);
    assert MergeKey(objValue, Arr(ys), true) == Ok(Some(Arr(ys)));
    assert src[1..] == [];
    assert MergeProps(ps, src, true) == MergeProps(SetProp(ps, sub, Arr(ys)), [], true);
  }

  /** The environment itself: nunjucks' `globals` and `filters`
      dictionaries. */
  class Environment {
    var globals: map<string, Value>
    var filters: map<string, Value>

    /** `new nunjucks.Environment(...)` with the engine's own globals and
        filters, then `addGlobal('_', _)` and `addGlobal('d3', d3)`
        (lines 448-455). */
    constructor(builtinGlobals: map<string, Value>, builtinFilters: map<string, Value>, lodash: Value, d3: Value)
      ensures globals == builtinGlobals["_" := lodash]["d3" := d3]
      ensures filters == builtinFilters
    {
      globals := builtinGlobals["_" := lodash]["d3" := d3];
      filters := builtinFilters;
    }

    /** `load(dir)` (lines 457-501) for a theme, given the configuration
        object `get_config` produced. */
    method LoadConfig(cfg: seq<Prop>, scripts: seq<FilterModule>) returns (ok: bool)
      requires WellFormedModules(scripts)
      modifies this
      ensures (globals, filters, ok) == LoadResult(old(globals), old(filters), cfg, scripts)
    {
      ghost var g0 := globals;
      for i := 0 to |cfg|
        invariant i > 0 ==> !OwnsHasOwnProperty(cfg)
        invariant OwnsHasOwnProperty(cfg) ==> globals == g0
        invariant LayerKeys(globals, cfg[i..]) == LayerKeys(g0, cfg)
        invariant filters == old(filters)
      {
        if OwnsHasOwnProperty(cfg) {
          // the first `config.hasOwnProperty(key)` throws
          return false;
        }
        var key := cfg[i].key;
        var existing: Value := Bool(false);
        if key in globals && globals[key] != Undefined {
          existing := globals[key];
        }
        assert cfg[i..][0] == cfg[i] && cfg[i..][1..] == cfg[i + 1..];
        if Truthy(existing) && IsPlainObject(existing) {
          var merged := MergeInto(existing.props, cfg[i].val, true);
          if merged.Threw? {
            assert LayerValue(globals, key, cfg[i].val).Threw?;
            return false;
          }
          globals := globals[key := Obj(merged.value)];
        } else {
          globals := globals[key := cfg[i].val];
        }
      }
      assert cfg[|cfg|..] == [];
      var registered := GetFilters(scripts);
      if registered.Threw? {
        return false;
      }
      filters := filters + registered.value;
      ok := true;
    }

    /** `load(dir)`: reads the theme's configuration and layers it. */
    method Load(t: Theme) returns (ok: bool, ghost cfg: seq<Prop>)
      requires WellFormedTheme(t)
      modifies this
      ensures PossibleConfig(t, cfg)
      ensures (globals, filters, ok) == LoadResult(old(globals), old(filters), cfg, t.filterScripts)
    {
      var config := GetConfig(t.configFiles);
      ghost var order :| AdmissibleOrder(Entries(t.configFiles), order) && config == Obj(Fold([], order));
      cfg := OwnEntries(config);
      ok := LoadConfig(OwnEntries(config), t.filterScripts);
    }

    /** `var i = load_order.length; while (i--) load(load_order[i]);`
        (lines 497-501): themes load from the end of `loadOrder` to its
        start, so the first entry is layered last. */
    method LoadThemes(loadOrder: seq<Theme>) returns (ok: bool, ghost cfgs: seq<seq<Prop>>)
      requires forall i :: 0 <= i < |loadOrder| ==> WellFormedTheme(loadOrder[i])
      modifies this
      ensures |cfgs| <= |loadOrder|
      ensures ok ==> |cfgs| == |loadOrder|
      ensures forall i :: 0 <= i < |cfgs| ==> PossibleConfig(Reverse(loadOrder)[i], cfgs[i])
      ensures (globals, filters, ok) == LoadAll(old(globals), old(filters), Reverse(loadOrder)[..|cfgs|], cfgs)
    {
      ghost var g0 := globals;
      ghost var f0 := filters;
      ghost var rev := Reverse(loadOrder);
      assert forall j :: 0 <= j < |rev| ==> WellFormedTheme(rev[j]);
      ok := true;
      cfgs := [];
      var i := |loadOrder|;
      while i > 0
        invariant 0 <= i <= |loadOrder|
        invariant |cfgs| == |loadOrder| - i
        invariant forall j :: 0 <= j < |cfgs| ==> PossibleConfig(Reverse(loadOrder)[j], cfgs[j])
        invariant ok
        invariant LoadAll(g0, f0, rev[..|cfgs|], cfgs) == (globals, filters, true)
      {
        i := i - 1;
        ok, cfgs := LoadNext(g0, f0, rev, cfgs, loadOrder[i]);
        if !ok {
          return;
        }
      }
      assert rev[..|cfgs|] == rev;
    }

    /** One turn of that loop, `load(load_order[i])`: loads the next theme of
        the reversed order and extends the layering by its configuration. */
    method LoadNext(ghost g0: map<string, Value>, ghost f0: map<string, Value>, ghost rev: seq<Theme>,
                    ghost cfgs: seq<seq<Prop>>, t: Theme)
      returns (ok: bool, ghost cfgs': seq<seq<Prop>>)
      requires |cfgs| < |rev| && rev[|cfgs|] == t
      requires forall j :: 0 <= j < |rev| ==> WellFormedTheme(rev[j])
      requires forall j :: 0 <= j < |cfgs| ==> PossibleConfig(rev[j], cfgs[j])
      requires LoadAll(g0, f0, rev[..|cfgs|], cfgs) == (globals, filters, true)
      modifies this
      ensures |cfgs'| == |cfgs| + 1
      ensures forall j :: 0 <= j < |cfgs'| ==> PossibleConfig(rev[j], cfgs'[j])
      ensures LoadAll(g0, f0, rev[..|cfgs'|], cfgs') == (globals, filters, ok)
    {
      ghost var g1, f1 := globals, filters;
      ghost var cfg;
      ok, cfg := Load(t);
      LoadOneMore(g0, f0, rev, cfgs, cfg, g1, f1, globals, filters, ok);
      PossibleSnoc(rev, cfgs, cfg);
      cfgs' := cfgs + [cfg];
    }
  }

  function Reverse<T>(s: seq<T>): (r: seq<T>)
    ensures |r| == |s|
    ensures forall i :: 0 <= i < |s| ==> r[i] == s[|s| - 1 - i]
  {
    if s == [] then [] else Reverse(s[1..]) + [s[0]]
  }

  /** One more possible configuration, for the next theme. */
  lemma PossibleSnoc(rev: seq<Theme>, cfgs: seq<seq<Prop>>, cfg: seq<Prop>)
    requires |cfgs| < |rev|
    requires forall j :: 0 <= j < |rev| ==> WellFormedTheme(rev[j])
    requires forall j :: 0 <= j < |cfgs| ==> PossibleConfig(rev[j], cfgs[j])
    requires PossibleConfig(rev[|cfgs|], cfg)
    ensures forall j :: 0 <= j < |cfgs| + 1 ==> PossibleConfig(rev[j], (cfgs + [cfg])[j])
  {
    forall j | 0 <= j < |cfgs| + 1 ensures PossibleConfig(rev[j], (cfgs + [cfg])[j]) {
      if j < |cfgs| {
        assert (cfgs + [cfg])[j] == cfgs[j];
        assert PossibleConfig(rev[j], cfgs[j]);
      } else {
        assert (cfgs + [cfg])[j] == cfg;
      }
    }
  }

  lemma LoadOneMore(g0: map<string, Value>, f0: map<string, Value>, rev: seq<Theme>, cfgs: seq<seq<Prop>>, cfg: seq<Prop>,
                    g1: map<string, Value>, f1: map<string, Value>, g2: map<string, Value>, f2: map<string, Value>, ok: bool)
    requires |cfgs| < |rev|
    requires forall j :: 0 <= j < |rev| ==> WellFormedTheme(rev[j])
    requires LoadAll(g0, f0, rev[..|cfgs|], cfgs) == (g1, f1, true)
    requires WellFormedTheme(rev[|cfgs|])
    requires (g2, f2, ok) == LoadResult(g1, f1, cfg, rev[|cfgs|].filterScripts)
    ensures LoadAll(g0, f0, rev[..|cfgs| + 1], cfgs + [cfg]) == (g2, f2, ok)
  {
    var ts := rev[..|cfgs| + 1];
    assert ts[..|cfgs|] == rev[..|cfgs|];
    assert (cfgs + [cfg])[..|cfgs|] == cfgs;
    assert ts[|cfgs|] == rev[|cfgs|];
  }

  /** Two layers, base then custom: a key the custom theme's configuration
      sets takes the custom value outright when the base left no plain
      object there, and otherwise the base's object deep-merged with the
      custom value; a key the custom theme does not set keeps what the base
      theme made of it. */
  lemma {:induction false} CustomThemeWins(g: map<string, Value>, baseCfg: seq<Prop>, customCfg: seq<Prop>, i: nat, k: string)
    requires DistinctKeys(customCfg) && i < |customCfg|
    requires LayerConfig(g, baseCfg).1
    requires LayerConfig(LayerConfig(g, baseCfg).0, customCfg).1
    requires k !in KeySet(customCfg) && k in LayerConfig(g, baseCfg).0
    ensures customCfg[i].key in LayerConfig(LayerConfig(g, baseCfg).0, customCfg).0
    ensures k in LayerConfig(LayerConfig(g, baseCfg).0, customCfg).0
    ensures !Existing(LayerConfig(g, baseCfg).0, customCfg[i].key).Obj? ==>
              LayerConfig(LayerConfig(g, baseCfg).0, customCfg).0[customCfg[i].key] == customCfg[i].val
    ensures Existing(LayerConfig(g, baseCfg).0, customCfg[i].key).Obj? ==>
              var merged := MergeInto(Existing(LayerConfig(g, baseCfg).0, customCfg[i].key).props, customCfg[i].val, true);
              merged.Ok? && LayerConfig(LayerConfig(g, baseCfg).0, customCfg).0[customCfg[i].key] == Obj(merged.value)
    ensures LayerConfig(LayerConfig(g, baseCfg).0, customCfg).0[k] == LayerConfig(g, baseCfg).0[k]
  {
    var mid := LayerConfig(g, baseCfg).0;
    LayerConfigPerKey(mid, customCfg, i);
    LayerConfigFrame(mid, customCfg, k);
  }

  /** Filters are registered with `addFilter`, one name at a time, so over
      two loads, base then custom, the filters are the engine's own, then
      the base theme's, then the custom theme's, each replacing same-named
      ones before it. */
  lemma LaterThemeFiltersWin(g: map<string, Value>, f: map<string, Value>, base: Theme, custom: Theme,
                             baseCfg: seq<Prop>, customCfg: seq<Prop>, k: string)
    requires WellFormedTheme(base) && WellFormedTheme(custom)
    requires LoadAll(g, f, [base, custom], [baseCfg, customCfg]).2
    ensures AllFilters(ParseModules(base.filterScripts)).Ok? && AllFilters(ParseModules(custom.filterScripts)).Ok?
    ensures var fb := Assigned(map[], AllFilters(ParseModules(base.filterScripts)).value);
            var fc := Assigned(map[], AllFilters(ParseModules(custom.filterScripts)).value);
            var out := LoadAll(g, f, [base, custom], [baseCfg, customCfg]).1;
            && out == f + fb + fc
            && (k in fc ==> k in out && out[k] == fc[k])
            && (k !in fc && k in fb ==> k in out && out[k] == fb[k])
  {
    var first := LoadResult(g, f, baseCfg, base.filterScripts);
    LoadAllTwo(g, f, base, custom, baseCfg, customCfg);
    LoadResultFilters(g, f, baseCfg, base.filterScripts);
    LoadResultFilters(first.0, first.1, customCfg, custom.filterScripts);
  }

  /** Two loads in a row: the second starts from what the first left,
      unless the first did not finish. */
  lemma LoadAllTwo(g: map<string, Value>, f: map<string, Value>, base: Theme, custom: Theme,
                   baseCfg: seq<Prop>, customCfg: seq<Prop>)
    requires WellFormedTheme(base) && WellFormedTheme(custom)
    ensures var first := LoadResult(g, f, baseCfg, base.filterScripts);
            LoadAll(g, f, [base, custom], [baseCfg, customCfg])
            == if first.2 then LoadResult(first.0, first.1, customCfg, custom.filterScripts) else first
  {
    assert [base, custom][..1] == [base];
    assert [baseCfg, customCfg][..1] == [baseCfg];
    assert [base][..0] == [];
    assert [baseCfg][..0] == [];
    assert LoadAll(g, f, [base], [baseCfg]) == LoadResult(g, f, baseCfg, base.filterScripts);
  }

  /** A load that finishes has laid the configuration over the globals and
      added every filter its scripts register, replacing same-named ones. */
  lemma LoadResultFilters(g: map<string, Value>, f: map<string, Value>, cfg: seq<Prop>, scripts: seq<FilterModule>)
    requires WellFormedModules(scripts)
    requires LoadResult(g, f, cfg, scripts).2
    ensures LayerConfig(g, cfg).1 && LoadResult(g, f, cfg, scripts).0 == LayerConfig(g, cfg).0
    ensures AllFilters(ParseModules(scripts)).Ok?
    ensures LoadResult(g, f, cfg, scripts).1 == f + Assigned(map[], AllFilters(ParseModules(scripts)).value)
  {
  }
}
