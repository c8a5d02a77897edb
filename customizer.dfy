/** The array-merge customizer handed to `lodash.mergeWith` when a theme's
    configuration is layered over the globals (gulpfile.babel.js lines
    461-471). A `'...'` at the start of an incoming array appends it to the
    existing one, a `'...'` at its end prepends it; any other array
    replaces. */
module Customizer {
  import opened Strings
  import opened JsValues

  /** The sentinel string. */
  const Sentinel: Value := Str("...")

  /** What a customizer call produces: `undefined` (lodash then merges as
      usual), a value lodash assigns as it is, or a `TypeError` thrown by
      the customizer itself. */
  datatype Outcome = UseDefault | Use(v: Value) | TypeError

  /** `existing` as an array: itself if it is one, otherwise wrapped as a
      singleton (line 463; the `: []` arm there is unreachable because one
      side is known to be an array). */
  function AsArray(existing: Value): seq<Value>
  {
    if existing.Arr? then existing.elems else [existing]
  }

  predicate LeadingSentinel(es: seq<Value>)
  {
    |es| > 0 && es[0] == Sentinel
  }

  predicate TrailingSentinel(es: seq<Value>)
  {
    |es| > 0 && es[|es| - 1] == Sentinel
  }

  /** The key `srcValue[srcValue.length - 1]` reads on a plain object:
      `length` is read from the object and `- 1` converts it to a number,
      so a missing `length` gives `NaN` and the key `"NaN"`. */
  function LastIndexKey(props: seq<Prop>): string
  {
    match Lookup(props, "length")
    case None => "NaN"
    case Some(len) =>
      match len
      case Num(n) => IntToString(n - 1)
      case Null => "-1"
      case Bool(b) => if b then "0" else "-1"
      case Infinity(negative) => if negative then "-Infinity" else "Infinity"
      case _ => "NaN"
  }

  /** An incoming plain object that passes one of the sentinel tests of
      lines 464 and 466: the customizer then calls `srcValue.slice`, which
      a plain object does not have. */
  predicate SlicesObject(src: Value)
  {
    src.Obj? && (Lookup(src.props, "0") == Some(Sentinel) || Lookup(src.props, LastIndexKey(src.props)) == Some(Sentinel))
  }

  /** `customizer(existing, srcValue)`. For a non-array `srcValue` (while
      `existing` is an array) the index reads `srcValue[0]` and
      `srcValue[srcValue.length - 1]` throw on null and undefined. A string
      or other primitive never yields the sentinel there, since its
      elements are single characters, so it replaces. A plain object that
      does yield it throws at `srcValue.slice`; any other object
      replaces. */
  function Customize(existing: Value, src: Value): (r: Outcome)
    ensures r.UseDefault? <==> !existing.Arr? && !src.Arr?
    ensures r.TypeError? <==> existing.Arr? && (IsNullish(src) || SlicesObject(src))
    ensures r.Use? ==> r.v.Arr? || !src.Arr?
    ensures r.Use? && !src.Arr? ==> r.v == src
  {
    if existing.Arr? || src.Arr? then
      var ex := AsArray(existing);
      if src.Arr? then
        var es := src.elems;
        if LeadingSentinel(es) then Use(Arr(ex + es[1..]))
        else if TrailingSentinel(es) then Use(Arr(es[..|es| - 1] + ex))
        else Use(src)
      else if IsNullish(src) || SlicesObject(src) then TypeError
      else Use(src)
    else UseDefault
  }

  /** A plain object holding `'...'` at `"0"`, or at the index its
      `length` names, throws instead of splicing. */
  lemma SentinelObjectThrows(existing: seq<Value>, v: Value)
    ensures Customize(Arr(existing), Obj([Prop("0", Sentinel), Prop("a", v)])) == TypeError
    ensures Customize(Arr(existing), Obj([Prop("length", Num(2)), Prop("1", Sentinel)])) == TypeError
  {
    assert Lookup([Prop("0", Sentinel), Prop("a", v)], "0") == Some(Sentinel);
    var last := [Prop("length", Num(2)), Prop("1", Sentinel)];
    assert LastIndexKey(last) == IntToString(1);
    assert IntToString(1) == "1";
    assert Lookup(last, "1") == Some(Sentinel);
  }

  /** Onto an array, a string or other primitive that is not null or
      undefined replaces, whatever it holds. */
  lemma PrimitiveReplaces(existing: seq<Value>, src: Value)
    requires src.Str? || src.Bool? || src.Num? || src.NaN? || src.Infinity?
    ensures Customize(Arr(existing), src) == Use(src)
  {
  }

  /** A leading sentinel appends: the existing elements come first, in
      order, followed by the incoming ones without the sentinel; nothing is
      lost or added. The leading test wins even when the array also ends
      with a sentinel. */
  lemma Append(existing: Value, rest: seq<Value>)
    ensures Customize(existing, Arr([Sentinel] + rest)) == Use(Arr(AsArray(existing) + rest))
    ensures multiset(Customize(existing, Arr([Sentinel] + rest)).v.elems)
            == multiset(AsArray(existing)) + multiset([Sentinel] + rest) - multiset{Sentinel}
  {
    assert ([Sentinel] + rest)[1..] == rest;
  }

  /** A trailing sentinel (and no leading one) prepends: the incoming
      elements without the sentinel, then the existing ones. */
  lemma Prepend(existing: Value, init: seq<Value>)
    requires !LeadingSentinel(init + [Sentinel])
    ensures Customize(existing, Arr(init + [Sentinel])) == Use(Arr(init + AsArray(existing)))
    ensures multiset(Customize(existing, Arr(init + [Sentinel])).v.elems)
            == multiset(AsArray(existing)) + multiset(init + [Sentinel]) - multiset{Sentinel}
  {
    var es := init + [Sentinel];
    assert es[..|es| - 1] == init;
  }

  /** An incoming array with no sentinel at either end replaces. */
  lemma Replace(existing: Value, es: seq<Value>)
    requires !LeadingSentinel(es) && !TrailingSentinel(es)
    ensures Customize(existing, Arr(es)) == Use(Arr(es))
  {
  }

  /** Where no side is an array the customizer returns `undefined`, and
      lodash's own deep merge applies. */
  lemma NeitherArray(existing: Value, src: Value)
    requires !existing.Arr? && !src.Arr?
    ensures Customize(existing, src) == UseDefault
  {
  }

  /** A missing existing value (`undefined`) is wrapped too, so appending
      to a key that does not exist yet keeps an `undefined` in front. */
  lemma AppendToMissing(rest: seq<Value>)
    ensures Customize(Undefined, Arr([Sentinel] + rest)) == Use(Arr([Undefined] + rest))
  {
    Append(Undefined, rest);
  }

  /** Two layers that each append compose into one append: the base theme's
      additions come before the custom theme's. */
  lemma {:induction false} AppendTwice(existing: seq<Value>, a: seq<Value>, b: seq<Value>)
    ensures var first := Customize(Arr(existing), Arr([Sentinel] + a));
            first.Use? && Customize(first.v, Arr([Sentinel] + b)) == Use(Arr(existing + a + b))
  {
    Append(Arr(existing), a);
    Append(Arr(existing + a), b);
  }

  /** Two layers that each prepend compose too: the later layer ends up in
      front. */
  lemma {:induction false} PrependTwice(existing: seq<Value>, a: seq<Value>, b: seq<Value>)
    requires !LeadingSentinel(a + [Sentinel]) && !LeadingSentinel(b + [Sentinel])
    ensures var first := Customize(Arr(existing), Arr(a + [Sentinel]));
            first.Use? && Customize(first.v, Arr(b + [Sentinel])) == Use(Arr(b + a + existing))
  {
    Prepend(Arr(existing), a);
    Prepend(Arr(a + existing), b);
    assert b + (a + existing) == b + a + existing;
  }
}
