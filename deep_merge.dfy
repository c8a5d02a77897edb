/** The two lodash operations the configuration code folds with:
    `_.merge` / `_.mergeWith` (a recursive merge of the source's own
    properties into the destination) and `_.set` (an assignment at a dotted
    path that creates the objects it walks through). */
module DeepMerge {
  import opened JsValues
  import opened Customizer

  /** lodash's `assignMergeValue`: an `undefined` is not written over a key
      that already exists; anything else is. `None` means "leave the key". */
  function Assign(objValue: Option<Value>, v: Value): (r: Option<Value>)
    ensures objValue.None? ==> r == Some(v)
    ensures r.None? ==> v == Undefined
  {
    if v == Undefined && objValue.Some? then None else Some(v)
  }

  /** What one source property `srcValue` does to the destination's value
      `objValue` at the same key (lodash's `baseMerge` / `baseMergeDeep`):
      with `custom`, the customizer is asked first and its answer is
      assigned; otherwise an array merges index by index into the existing
      array (or a fresh one), a plain object merges key by key into the
      existing plain object (or a fresh one), and any other value is
      assigned. Without a customizer nothing can throw. */
  function MergeKey(objValue: Option<Value>, srcValue: Value, custom: bool): (r: Result<Option<Value>>)
    ensures !custom ==> r.Ok?
    ensures r.Ok? && objValue.None? ==> r.value.Some?
    decreases srcValue
  {
    var existing := if objValue.Some? then objValue.value else Undefined;
    var c := if custom then Customize(existing, srcValue) else UseDefault;
    match c
    case TypeError => Threw
    case Use(v) => Ok(Assign(objValue, v))
    case UseDefault =>
      if srcValue.Arr? then
        match MergeElems(if existing.Arr? then existing.elems else [], srcValue.elems, 0, custom)
        case Ok(es) => Ok(Some(Arr(es)))
        case Threw => Threw
      else if srcValue.Obj? then
        match MergeProps(if existing.Obj? then existing.props else [], srcValue.props, custom)
        case Ok(ps) => Ok(Some(Obj(ps)))
        case Threw => Threw
      else Ok(Assign(objValue, srcValue))
  }

  /** Merging the source properties `src`, in order, into `dest`. */
  function MergeProps(dest: seq<Prop>, src: seq<Prop>, custom: bool): (r: Result<seq<Prop>>)
    ensures !custom ==> r.Ok?
    decreases src
  {
    if src == [] then Ok(dest)
    else
      match MergeKey(Lookup(dest, src[0].key), src[0].val, custom)
      case Threw => Threw
      case Ok(None) => MergeProps(dest, src[1..], custom)
      case Ok(Some(v)) => MergeProps(SetProp(dest, src[0].key, v), src[1..], custom)
  }

  /** Merging the source array's elements from index `i` on into `dest`,
      slot by slot; slots past the end of `dest` are appended. */
  function MergeElems(dest: seq<Value>, src: seq<Value>, i: nat, custom: bool): (r: Result<seq<Value>>)
    requires i <= |dest|
    ensures !custom ==> r.Ok?
    ensures r.Ok? ==> |r.value| == if |dest| < |src| then |src| else |dest|
    ensures r.Ok? ==> r.value[..i] == dest[..i]
    decreases src, |src| - i
  {
    if i >= |src| then Ok(dest)
    else
      var slot := if i < |dest| then Some(dest[i]) else None;
      match MergeKey(slot, src[i], custom)
      case Threw => Threw
      case Ok(None) => MergeElems(dest, src, i + 1, custom)
      case Ok(Some(v)) =>
        MergeElems(if i < |dest| then dest[i := v] else dest + [v], src, i + 1, custom)
  }

  /** `_.merge(object, source)` / `_.mergeWith(object, source, customizer)`
      at the top level: a falsy source is skipped, otherwise its own
      enumerable entries (an array's or string's indices, an object's
      properties, nothing for other primitives) are merged in. The
      customizer is not consulted for the top-level pair itself. */
  function MergeInto(dest: seq<Prop>, source: Value, custom: bool): (r: Result<seq<Prop>>)
    ensures !custom ==> r.Ok?
  {
    if Truthy(source) then MergeProps(dest, OwnEntries(source), custom) else Ok(dest)
  }

  /** A merge touches exactly the source's keys: afterwards the keys are
      those of both sides, and a key the source does not have keeps its
      value. */
  lemma {:induction false} MergePropsFrame(dest: seq<Prop>, src: seq<Prop>, custom: bool, k: string)
    requires MergeProps(dest, src, custom).Ok?
    ensures KeySet(MergeProps(dest, src, custom).value) == KeySet(dest) + KeySet(src)
    ensures k !in KeySet(src) ==> Lookup(MergeProps(dest, src, custom).value, k) == Lookup(dest, k)
    decreases src
  {
    if src != [] {
      var p := src[0];
      var objValue := Lookup(dest, p.key);
      assert KeySet(src) == {p.key} + KeySet(src[1..]);
      match MergeKey(objValue, p.val, custom)
      case Ok(None) =>
        assert p.key in KeySet(dest);
        MergePropsFrame(dest, src[1..], custom, k);
      case Ok(Some(v)) =>
        var dest' := SetProp(dest, p.key, v);
        SetPropKeySet(dest, p.key, v);
        SetPropLookup(dest, p.key, v, k);
        MergePropsFrame(dest', src[1..], custom, k);
    }
  }

  /** A merge never duplicates a key. */
  lemma {:induction false} MergePropsKeepsDistinct(dest: seq<Prop>, src: seq<Prop>, custom: bool)
    requires DistinctKeys(dest) && MergeProps(dest, src, custom).Ok?
    ensures DistinctKeys(MergeProps(dest, src, custom).value)
    decreases src
  {
    if src != [] {
      match MergeKey(Lookup(dest, src[0].key), src[0].val, custom)
      case Ok(None) =>
        MergePropsKeepsDistinct(dest, src[1..], custom);
      case Ok(Some(v)) =>
        SetPropKeepsDistinct(dest, src[0].key, v);
        MergePropsKeepsDistinct(SetProp(dest, src[0].key, v), src[1..], custom);
    }
  }

  /** Source wins for plain data: after a merge, a key whose (only) source
      value is a non-undefined primitive reads that value. */
  lemma {:induction false} MergePropsScalarWins(dest: seq<Prop>, src: seq<Prop>, custom: bool, i: nat)
    requires DistinctKeys(src)
    requires i < |src|
    requires !src[i].val.Arr? && !src[i].val.Obj? && !src[i].val.Undefined?
    requires MergeProps(dest, src, custom).Ok?
    requires custom ==> Customize(if Lookup(dest, src[i].key).Some? then Lookup(dest, src[i].key).value else Undefined, src[i].val).UseDefault?
    ensures Lookup(MergeProps(dest, src, custom).value, src[i].key) == Some(src[i].val)
    decreases src
  {
    var p := src[0];
    var objValue := Lookup(dest, p.key);
    if i == 0 {
      assert MergeKey(objValue, p.val, custom) == Ok(Some(p.val));
      var dest' := SetProp(dest, p.key, p.val);
      SetPropLookup(dest, p.key, p.val, p.key);
      assert p.key !in KeySet(src[1..]) by {
        forall j | 0 <= j < |src[1..]| ensures src[1..][j].key != p.key {
          assert src[1..][j] == src[j + 1];
        }
      }
      MergePropsFrame(dest', src[1..], custom, p.key);
    } else {
      assert DistinctKeys(src[1..]) by {
        forall a, b | 0 <= a < b < |src[1..]| ensures src[1..][a].key != src[1..][b].key {
          assert src[1..][a] == src[a + 1] && src[1..][b] == src[b + 1];
        }
      }
      assert src[1..][i - 1] == src[i];
      assert p.key != src[i].key;
      match MergeKey(objValue, p.val, custom)
      case Ok(None) =>
        MergePropsScalarWins(dest, src[1..], custom, i - 1);
      case Ok(Some(v)) =>
        var dest' := SetProp(dest, p.key, v);
        SetPropLookup(dest, p.key, v, src[i].key);
        MergePropsScalarWins(dest', src[1..], custom, i - 1);
    }
  }

  /** With the customizer, a key whose source value is an array ends up
      holding what the customizer made of it. */
  lemma ArrayKeyTakesCustomizerResult(objValue: Option<Value>, es: seq<Value>)
    requires MergeKey(objValue, Arr(es), true).Ok?
    ensures var existing := if objValue.Some? then objValue.value else Undefined;
            MergeKey(objValue, Arr(es), true) == Ok(Some(Customize(existing, Arr(es)).v))
  {
  }

  /** `_.set`'s path syntax for paths without brackets: the pieces between
      dots, empty ones kept. */
  function SplitDots(s: string): (r: seq<string>)
    ensures |r| >= 1
    ensures forall i :: 0 <= i < |r| ==> '.' !in r[i]
  {
    if s == [] then [""]
    else
      var rest := SplitDots(s[1..]);
      if s[0] == '.' then [""] + rest else [[s[0]] + rest[0]] + rest[1..]
  }

  /** Splitting on dots loses nothing: the pieces join back to the path. */
  lemma {:induction false} SplitDotsJoin(s: string)
    ensures Strings.Join(".", SplitDots(s)) == s
  {
    if s != [] {
      var rest := SplitDots(s[1..]);
      SplitDotsJoin(s[1..]);
      if s[0] == '.' {
        Strings.JoinCons(".", "", rest);
      } else if |rest| == 1 {
      } else {
        Strings.JoinCons(".", rest[0], rest[1..]);
        assert rest == [rest[0]] + rest[1..];
        Strings.JoinCons(".", [s[0]] + rest[0], rest[1..]);
      }
    }
  }

  /** `_.set(object, path, value)` on the properties of a plain object:
      walks the path, keeps each plain object it finds and replaces anything
      else on the way by a fresh object, and assigns at the last key. */
  function SetIn(props: seq<Prop>, path: seq<string>, v: Value): seq<Prop>
    requires path != []
    decreases |path|
  {
    if |path| == 1 then SetProp(props, path[0], v)
    else
      var child := Lookup(props, path[0]);
      var inner := if child.Some? && child.value.Obj? then child.value.props else [];
      SetProp(props, path[0], Obj(SetIn(inner, path[1..], v)))
  }

  /** `_.get` along a path through plain objects. */
  function GetIn(props: seq<Prop>, path: seq<string>): Option<Value>
    requires path != []
    decreases |path|
  {
    var here := Lookup(props, path[0]);
    if |path| == 1 || here.None? then here
    else if here.value.Obj? then GetIn(here.value.props, path[1..])
    else None
  }

  /** What `_.set` writes, `_.get` reads back along the same path. */
  lemma {:induction false} SetInGetIn(props: seq<Prop>, path: seq<string>, v: Value)
    requires path != []
    ensures GetIn(SetIn(props, path, v), path) == Some(v)
    decreases |path|
  {
    SetPropLookup(props, path[0], v, path[0]);
    if |path| > 1 {
      var child := Lookup(props, path[0]);
      var inner := if child.Some? && child.value.Obj? then child.value.props else [];
      SetInGetIn(inner, path[1..], v);
      SetPropLookup(props, path[0], Obj(SetIn(inner, path[1..], v)), path[0]);
    }
  }

  /** `_.set` never duplicates a key of the object it starts from. */
  lemma SetInKeepsDistinct(props: seq<Prop>, path: seq<string>, v: Value)
    requires path != [] && DistinctKeys(props)
    ensures DistinctKeys(SetIn(props, path, v))
  {
    if |path| == 1 {
      SetPropKeepsDistinct(props, path[0], v);
    } else {
      var child := Lookup(props, path[0]);
      var inner := if child.Some? && child.value.Obj? then child.value.props else [];
      SetPropKeepsDistinct(props, path[0], Obj(SetIn(inner, path[1..], v)));
    }
  }

  /** `_.set` changes only the subtree under the path's first key. */
  lemma SetInFrame(props: seq<Prop>, path: seq<string>, v: Value, k: string)
    requires path != [] && k != path[0]
    ensures Lookup(SetIn(props, path, v), k) == Lookup(props, k)
    ensures KeySet(SetIn(props, path, v)) == KeySet(props) + {path[0]}
  {
    if |path| == 1 {
      SetPropLookup(props, path[0], v, k);
      SetPropKeySet(props, path[0], v);
    } else {
      var child := Lookup(props, path[0]);
      var inner := if child.Some? && child.value.Obj? then child.value.props else [];
      SetPropLookup(props, path[0], Obj(SetIn(inner, path[1..], v)), k);
      SetPropKeySet(props, path[0], Obj(SetIn(inner, path[1..], v)));
    }
  }
}
