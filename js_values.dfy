/** The JavaScript values the build scripts handle: configuration data read
    from YAML or JSON, front matter, filter modules, template arguments. */
module JsValues {
  import opened Strings

  datatype Option<T> = None | Some(value: T)

  /** A computation that either returns a value or throws. */
  datatype Result<T> = Ok(value: T) | Threw

  /** A JavaScript value. Numbers are integral (`Num`) or one of the
      non-finite values; a plain object lists its own enumerable properties
      in enumeration order; a function carries its source text (what
      `String(f)` yields) and its own enumerable properties. */
  datatype Value =
    | Undefined
    | Null
    | Bool(b: bool)
    | Num(n: int)
    | NaN
    | Infinity(negative: bool)
    | Str(s: string)
    | Arr(elems: seq<Value>)
    | Obj(props: seq<Prop>)
    | Fun(source: string, props: seq<Prop>)

  datatype Prop = Prop(key: string, val: Value)

  /** JavaScript truthiness (`if (v)`, `v || w`, `filter(Boolean)`). */
  predicate Truthy(v: Value)
  {
    match v
    case Undefined => false
    case Null => false
    case Bool(b) => b
    case Num(n) => n != 0
    case NaN => false
    case Infinity(_) => true
    case Str(s) => s != ""
    case Arr(_) => true
    case Obj(_) => true
    case Fun(_, _) => true
  }

  /** `v || w`. */
  function Or(v: Value, w: Value): (r: Value)
    ensures Truthy(v) ==> r == v
    ensures !Truthy(v) ==> r == w
  {
    if Truthy(v) then v else w
  }

  predicate IsNullish(v: Value)
  {
    v.Undefined? || v.Null?
  }

  /** `lodash.isPlainObject`. */
  predicate IsPlainObject(v: Value)
  {
    v.Obj?
  }

  /** `Array.isArray`. */
  predicate IsArray(v: Value)
  {
    v.Arr?
  }

  /** `typeof v === 'function'`. */
  predicate IsFunction(v: Value)
  {
    v.Fun?
  }

  /** `lodash.isObject`: objects, arrays and functions. */
  predicate IsObjectLike(v: Value)
  {
    v.Arr? || v.Obj? || v.Fun?
  }

  function Keys(props: seq<Prop>): (ks: seq<string>)
    ensures |ks| == |props|
    ensures forall i :: 0 <= i < |props| ==> ks[i] == props[i].key
  {
    if props == [] then [] else [props[0].key] + Keys(props[1..])
  }

  function KeySet(props: seq<Prop>): set<string>
  {
    set i | 0 <= i < |props| :: props[i].key
  }

  /** Whether the object holds its own `hasOwnProperty` entry: a call
      `o.hasOwnProperty(k)` then reaches that entry instead of
      `Object.prototype.hasOwnProperty`. */
  predicate OwnsHasOwnProperty(props: seq<Prop>)
  {
    "hasOwnProperty" in KeySet(props)
  }

  /** The value of the (first) property named `k`. */
  function Lookup(props: seq<Prop>, k: string): (r: Option<Value>)
    ensures r.None? <==> k !in KeySet(props)
  {
    if props == [] then None
    else if props[0].key == k then Some(props[0].val)
    else Lookup(props[1..], k)
  }

  /** Assignment `o[k] = v`: an existing property keeps its place and gets
      the new value; a new property is appended. */
  function SetProp(props: seq<Prop>, k: string, v: Value): (r: seq<Prop>)
    ensures k in KeySet(props) ==> Keys(r) == Keys(props)
    ensures k !in KeySet(props) ==> Keys(r) == Keys(props) + [k]
  {
    if props == [] then [Prop(k, v)]
    else if props[0].key == k then [Prop(k, v)] + props[1..]
    else [props[0]] + SetProp(props[1..], k, v)
  }

  /** After `o[k] = v` the key set grows by `k`. */
  lemma {:induction false} SetPropKeySet(props: seq<Prop>, k: string, v: Value)
    ensures KeySet(SetProp(props, k, v)) == KeySet(props) + {k}
  {
    var r := SetProp(props, k, v);
    KeySetOfKeysExtend(props, r, k);
  }

  lemma KeySetOfKeysExtend(p: seq<Prop>, r: seq<Prop>, k: string)
    requires k in KeySet(p) ==> Keys(r) == Keys(p)
    requires k !in KeySet(p) ==> Keys(r) == Keys(p) + [k]
    ensures KeySet(r) == KeySet(p) + {k}
  {
    var n := |Keys(p)|;
    assert n == |p| && |Keys(r)| == |r|;
    assert k in KeySet(p) ==> |r| == n;
    assert k !in KeySet(p) ==> |r| == n + 1 && Keys(r)[n] == k;
    forall x | x in KeySet(r) ensures x in KeySet(p) + {k} {
      var i :| 0 <= i < |r| && r[i].key == x;
      assert Keys(r)[i] == x;
      if i < n { assert Keys(p)[i] == x; }
    }
    forall x | x in KeySet(p) + {k} ensures x in KeySet(r) {
      if x in KeySet(p) {
        var i :| 0 <= i < |p| && p[i].key == x;
        assert Keys(p)[i] == x && Keys(r)[i] == x;
      } else {
        assert r[n].key == k;
      }
    }
  }

  /** After `o[k] = v`, `o[k]` reads `v` and every other key reads what it
      read before. */
  lemma {:induction false} SetPropLookup(props: seq<Prop>, k: string, v: Value, k': string)
    ensures Lookup(SetProp(props, k, v), k') == if k' == k then Some(v) else Lookup(props, k')
  {
    if props != [] && props[0].key != k {
      SetPropLookup(props[1..], k, v, k');
      var r := SetProp(props, k, v);
      assert r[0] == props[0] && r[1..] == SetProp(props[1..], k, v);
    }
  }

  /** Every key occurs once, as in a JavaScript object. */
  predicate DistinctKeys(props: seq<Prop>)
  {
    forall i, j :: 0 <= i < j < |props| ==> props[i].key != props[j].key
  }

  lemma SetPropKeepsDistinct(props: seq<Prop>, k: string, v: Value)
    requires DistinctKeys(props)
    ensures DistinctKeys(SetProp(props, k, v))
  {
    var r := SetProp(props, k, v);
    SetPropKeySet(props, k, v);
    forall i, j | 0 <= i < j < |r| ensures r[i].key != r[j].key {
      assert Keys(r)[i] == r[i].key && Keys(r)[j] == r[j].key;
      if j == |props| {
        assert k !in KeySet(props);
        assert props[i].key == Keys(props)[i];
      }
    }
  }

  /** The property keys a `for...in` loop or `Object.keys` yields for an
      own-property enumeration, with their values: the properties of an
      object or function, the indices of an array or string, nothing for a
      primitive. */
  function OwnEntries(v: Value): (r: seq<Prop>)
    ensures v.Obj? || v.Fun? ==> r == v.props
    ensures v.Arr? ==> |r| == |v.elems|
    ensures v.Str? ==> |r| == |v.s|
    ensures v.Arr? ==> forall i :: 0 <= i < |r| ==> r[i] == Prop(NatToString(i), v.elems[i])
    ensures v.Str? ==> forall i :: 0 <= i < |r| ==> r[i] == Prop(NatToString(i), Str([v.s[i]]))
    ensures !(v.Obj? || v.Fun? || v.Arr? || v.Str?) ==> r == []
  {
    match v
    case Obj(ps) => ps
    case Fun(_, ps) => ps
    case Arr(es) => seq(|es|, i requires 0 <= i < |es| => Prop(NatToString(i), es[i]))
    case Str(s) => seq(|s|, i requires 0 <= i < |s| => Prop(NatToString(i), Str([s[i]])))
    case _ => []
  }

  /** Index keys are digits, so an array's or string's entries never
      shadow `hasOwnProperty`. */
  lemma IndexEntriesKeepHasOwnProperty(v: Value)
    requires v.Arr? || v.Str?
    ensures !OwnsHasOwnProperty(OwnEntries(v))
  {
    var r := OwnEntries(v);
    forall i | 0 <= i < |r| ensures r[i].key != "hasOwnProperty" {
      assert r[i].key == NatToString(i);
      assert '0' <= r[i].key[0] <= '9';
    }
  }

  /** Index keys never repeat, so an array's or string's entries have
      distinct keys. */
  lemma OwnEntriesDistinct(v: Value)
    requires v.Arr? || v.Str?
    ensures DistinctKeys(OwnEntries(v))
  {
    var r := OwnEntries(v);
    forall i, j | 0 <= i < j < |r| ensures r[i].key != r[j].key {
      if r[i].key == r[j].key {
        NatToStringInjective(i, j);
      }
    }
  }

  /** Property read `v[k]` on a value that is not null or undefined. */
  function Get(v: Value, k: string): Value
  {
    match Lookup(OwnEntries(v), k)
    case Some(x) => x
    case None => Undefined
  }

  /** `String(v)`, the conversion used by `+` on strings and by property
      keys. Array elements that are null or undefined become empty. */
  function ToJsString(v: Value): string
    decreases v, 0
  {
    match v
    case Undefined => "undefined"
    case Null => "null"
    case Bool(b) => if b then "true" else "false"
    case Num(n) => IntToString(n)
    case NaN => "NaN"
    case Infinity(neg) => if neg then "-Infinity" else "Infinity"
    case Str(s) => s
    case Arr(es) => JoinElements(",", es)
    case Obj(_) => "[object Object]"
    case Fun(src, _) => src
  }

  /** `Array.prototype.join(sep)` on the array `es`. */
  function JoinElements(sep: string, es: seq<Value>): string
    decreases es, 2
  {
    if es == [] then ""
    else if |es| == 1 then ElementString(es[0])
    else ElementString(es[0]) + sep + JoinElements(sep, es[1..])
  }

  function ElementString(e: Value): string
    decreases e, 1
  {
    if IsNullish(e) then "" else ToJsString(e)
  }

  /** Joining elements is joining their strings. */
  lemma {:induction false} JoinElementsIsJoin(sep: string, es: seq<Value>)
    ensures JoinElements(sep, es) == Join(sep, seq(|es|, i requires 0 <= i < |es| => ElementString(es[i])))
  {
    var strs := seq(|es|, i requires 0 <= i < |es| => ElementString(es[i]));
    if |es| > 1 {
      JoinElementsIsJoin(sep, es[1..]);
      assert strs[1..] == seq(|es[1..]|, i requires 0 <= i < |es[1..]| => ElementString(es[1..][i]));
    }
  }
}
