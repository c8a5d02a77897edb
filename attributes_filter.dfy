/** The `attributes` template filter (__theme/filters/attributes.js): writes
    the entries of an object as HTML attributes, `key="value"` or a bare
    key, with an include or an exclude list choosing the keys. */
module AttributesFilter {
  import opened Strings
  import opened JsValues

  /** The names an include or exclude list stands for (lines 18-24 and
      32-38): a string names itself, an array its truthy elements, and
      anything else its own keys. */
  function NamesOf(v: Value): set<string>
  {
    match v
    case Str(s) => {s}
    case Arr(es) => set i | 0 <= i < |es| && Truthy(es[i]) :: ToJsString(es[i])
    case _ => KeySet(OwnEntries(v))
  }

  /** Members of `Object.prototype`: `_include[d]` finds them on an empty
      object literal, so a key named like one of them reads as included. */
  const InheritedNames: set<string> :=
    {"constructor", "hasOwnProperty", "isPrototypeOf", "propertyIsEnumerable",
     "toLocaleString", "toString", "valueOf", "__proto__",
     "__defineGetter__", "__defineSetter__", "__lookupGetter__", "__lookupSetter__"}

  /** `kwargs || {}`. */
  function Options(kwargs: Value): Value
  {
    Or(kwargs, Obj([]))
  }

  /** The keys of `exclude` (lines 11-39). With an include list, every key
      of the object it does not name; otherwise the exclude list's names. */
  function Excluded(obj: Value, kwargs: Value): set<string>
  {
    var includeList := Get(Options(kwargs), "include");
    var exclude := Get(Options(kwargs), "exclude");
    if Truthy(includeList) then KeySet(OwnEntries(obj)) - NamesOf(includeList) - InheritedNames
    else if Truthy(exclude) then NamesOf(exclude)
    else {}
  }

  /** What one attribute array holds: the key, and the rendered value when
      the value has a type the filter renders. */
  datatype Attribute = Attribute(key: string, value: Option<string>)

  /** Lines 46-54: booleans as `true`/`false`, strings as they are, finite
      numbers in decimal, arrays joined by a space; nothing for any other
      value. */
  function RenderValue(v: Value): Option<string>
  {
    match v
    case Bool(b) => Some(if b then "true" else "false")
    case Str(s) => Some(s)
    case Num(n) => Some(IntToString(n))
    case Arr(es) => Some(JoinElements(" ", es))
    case _ => None
  }

  /** Line 59: `key="value"` or the bare key, with nothing escaped. */
  function AttributeText(a: Attribute): string
  {
    match a.value
    case Some(v) => a.key + "=\"" + v + "\""
    case None => a.key
  }

  /** The attributes of the entries whose keys are not excluded, in the
      object's key order. */
  function Emitted(entries: seq<Prop>, excluded: set<string>): (r: seq<Attribute>)
    ensures |r| <= |entries|
  {
    if entries == [] then []
    else
      var e := entries[|entries| - 1];
      Emitted(entries[..|entries| - 1], excluded)
      + (if e.key in excluded then [] else [Attribute(e.key, RenderValue(e.val))])
  }

  function Texts(attrs: seq<Attribute>): (r: seq<string>)
    ensures |r| == |attrs|
    ensures forall i :: 0 <= i < |attrs| ==> r[i] == AttributeText(attrs[i])
  {
    seq(|attrs|, i requires 0 <= i < |attrs| => AttributeText(attrs[i]))
  }

  /** Line 42 calls `hasOwnProperty` through the object and through
      `exclude`: when either holds its own entry of that name, the call
      throws at the first key. */
  predicate ShadowsHasOwnProperty(entries: seq<Prop>, excluded: set<string>)
  {
    entries != [] && (OwnsHasOwnProperty(entries) || "hasOwnProperty" in excluded)
  }

  /** The filter's result, `safe` being the identity. */
  function AttributesOf(obj: Value, kwargs: Value): Result<string>
  {
    if !Truthy(obj) then Ok("")
    else
      var ex := Excluded(obj, kwargs);
      var entries := OwnEntries(obj);
      if ShadowsHasOwnProperty(entries, ex) then Threw
      else Ok(Join(" ", Texts(Emitted(entries, ex))))
  }

  /** Lines 17-24 and 32-38: fills a dictionary with the names a list
      stands for. */
  method CollectNames(v: Value) returns (names: set<string>)
    ensures names == NamesOf(v)
  {
    names := {};
    if v.Str? {
      names := names + {v.s};
    } else if v.Arr? {
      var es := v.elems;
      for i := 0 to |es|
        invariant names == set j | 0 <= j < i && Truthy(es[j]) :: ToJsString(es[j])
      {
        if Truthy(es[i]) {
          names := names + {ToJsString(es[i])};
        }
      }
    } else {
      var ks := Keys(OwnEntries(v));
      for i := 0 to |ks|
        invariant names == set j | 0 <= j < i :: ks[j]
      {
        names := names + {ks[i]};
      }
      assert forall k :: k in KeySet(OwnEntries(v)) ==> k in names by {
        forall k | k in KeySet(OwnEntries(v)) ensures k in names {
          var j :| 0 <= j < |OwnEntries(v)| && OwnEntries(v)[j].key == k;
          assert ks[j] == k;
        }
      }
    }
  }

  /** Lines 26-29: the keys of the object that the include list does not
      name. */
  method NotIncluded(entries: seq<Prop>, included: set<string>) returns (exclude: set<string>)
    ensures exclude == KeySet(entries) - included - InheritedNames
  {
    exclude := {};
    var ks := Keys(entries);
    for i := 0 to |ks|
      invariant exclude == (set j | 0 <= j < i :: ks[j]) - included - InheritedNames
    {
      if ks[i] !in included && ks[i] !in InheritedNames {
        exclude := exclude + {ks[i]};
      }
    }
    assert forall k :: k in KeySet(entries) ==> k in set j | 0 <= j < |ks| :: ks[j] by {
      forall k | k in KeySet(entries) ensures k in set j | 0 <= j < |ks| :: ks[j] {
        var j :| 0 <= j < |entries| && entries[j].key == k;
        assert ks[j] == k;
      }
    }
  }

  /** Lines 11-39: the `exclude` dictionary for a truthy object. */
  method ExcludedKeys(obj: Value, kwargs: Value) returns (exclude: set<string>)
    ensures exclude == Excluded(obj, kwargs)
  {
    var options := Options(kwargs);
    exclude := {};
    var includeList := Get(options, "include");
    if Truthy(includeList) {
      var names := CollectNames(includeList);
      exclude := NotIncluded(OwnEntries(obj), names);
    } else if Truthy(Get(options, "exclude")) {
      exclude := CollectNames(Get(options, "exclude"));
    }
  }

  /** Lines 41-57: one attribute array per own entry that is not excluded,
      in key order; the first `hasOwnProperty` call throws when it is
      shadowed. */
  method EmitEntries(entries: seq<Prop>, exclude: set<string>) returns (r: Result<seq<Attribute>>)
    ensures r.Threw? <==> ShadowsHasOwnProperty(entries, exclude)
    ensures r.Ok? ==> r.value == Emitted(entries, exclude)
  {
    var result: seq<Attribute> := [];
    for i := 0 to |entries|
      invariant i > 0 ==> !ShadowsHasOwnProperty(entries, exclude)
      invariant result == Emitted(entries[..i], exclude)
    {
      if ShadowsHasOwnProperty(entries, exclude) {
        return Threw;
      }
      assert entries[..i + 1][..i] == entries[..i];
      var key := entries[i].key;
      if key !in exclude {
        result := result + [Attribute(key, RenderValue(entries[i].val))];
      }
    }
    assert entries[..|entries|] == entries;
    return Ok(result);
  }

  /** The filter, lines 3-60. */
  method Attributes(obj: Value, kwargs: Value) returns (r: Result<string>)
    ensures r == AttributesOf(obj, kwargs)
  {
    if !Truthy(obj) {
      return Ok("");
    }
    var exclude := ExcludedKeys(obj, kwargs);
    var result := EmitEntries(OwnEntries(obj), exclude);
    if result.Threw? {
      return Threw;
    }
    r := Ok(Join(" ", Texts(result.value)));
  }

  /** A falsy object gives the empty string, whatever the options. */
  lemma FalsyObjectIsEmpty(obj: Value, kwargs: Value)
    requires !Truthy(obj)
    ensures AttributesOf(obj, kwargs) == Ok("")
  {
  }

  /** A truthy include list decides alone: the exclude list is ignored,
      and a key of the object is left out exactly when the list does not
      name it (or it is named like an inherited member). */
  lemma IncludeIgnoresExclude(obj: Value, kwargs: Value, k: string)
    requires Truthy(Get(Options(kwargs), "include"))
    ensures Excluded(obj, kwargs) == Excluded(obj, Obj([Prop("include", Get(Options(kwargs), "include"))]))
    ensures k in KeySet(OwnEntries(obj)) ==>
              (k in Excluded(obj, kwargs) <==> k !in NamesOf(Get(Options(kwargs), "include")) && k !in InheritedNames)
  {
  }

  /** An entry is emitted exactly when its key is not excluded. */
  lemma EmittedIsFilter(entries: seq<Prop>, excluded: set<string>, a: Attribute)
    ensures a in Emitted(entries, excluded) <==>
              exists i :: 0 <= i < |entries| && entries[i].key !in excluded
                          && a == Attribute(entries[i].key, RenderValue(entries[i].val))
  {
    if a in Emitted(entries, excluded) {
      var i := EmittedSound(entries, excluded, a);
    }
    forall i | 0 <= i < |entries| && entries[i].key !in excluded
      ensures Attribute(entries[i].key, RenderValue(entries[i].val)) in Emitted(entries, excluded)
    {
      EmittedComplete(entries, excluded, i);
    }
  }

  /** Every emitted attribute comes from an entry that is not excluded. */
  lemma {:induction false} EmittedSound(entries: seq<Prop>, excluded: set<string>, a: Attribute) returns (i: nat)
    requires a in Emitted(entries, excluded)
    ensures i < |entries| && entries[i].key !in excluded
    ensures a == Attribute(entries[i].key, RenderValue(entries[i].val))
  {
    var init := entries[..|entries| - 1];
    var e := entries[|entries| - 1];
    if a in Emitted(init, excluded) {
      i := EmittedSound(init, excluded, a);
      assert entries[i] == init[i];
    } else {
      i := |entries| - 1;
    }
  }

  /** Every entry that is not excluded is emitted. */
  lemma {:induction false} EmittedComplete(entries: seq<Prop>, excluded: set<string>, i: nat)
    requires i < |entries| && entries[i].key !in excluded
    ensures Attribute(entries[i].key, RenderValue(entries[i].val)) in Emitted(entries, excluded)
  {
    var init := entries[..|entries| - 1];
    if i < |init| {
      assert init[i] == entries[i];
      EmittedComplete(init, excluded, i);
    }
  }

  /** Excluding nothing emits every entry, in order. */
  lemma {:induction false} EmittedAll(entries: seq<Prop>)
    ensures Emitted(entries, {}) == seq(|entries|, i requires 0 <= i < |entries| => Attribute(entries[i].key, RenderValue(entries[i].val)))
  {
    if entries != [] {
      EmittedAll(entries[..|entries| - 1]);
    }
  }

  /** Emitting from an exclude set never emits more than from a subset
      of it: excluding a key only removes attributes. */
  lemma {:induction false} ExcludingMoreEmitsFewer(entries: seq<Prop>, small: set<string>, large: set<string>)
    requires small <= large
    ensures |Emitted(entries, large)| <= |Emitted(entries, small)|
  {
    if entries != [] {
      ExcludingMoreEmitsFewer(entries[..|entries| - 1], small, large);
    }
  }

  /** How each type of value is written. */
  lemma RenderedForms(key: string, v: Value)
    ensures v.Bool? ==> AttributeText(Attribute(key, RenderValue(v))) == key + "=\"" + (if v.b then "true" else "false") + "\""
    ensures v.Str? ==> AttributeText(Attribute(key, RenderValue(v))) == key + "=\"" + v.s + "\""
    ensures v.Num? ==> AttributeText(Attribute(key, RenderValue(v))) == key + "=\"" + IntToString(v.n) + "\""
    ensures v.Arr? ==> AttributeText(Attribute(key, RenderValue(v))) == key + "=\"" + JoinElements(" ", v.elems) + "\""
    ensures v.Undefined? || v.Null? || v.NaN? || v.Infinity? || v.Obj? || v.Fun?
            ==> AttributeText(Attribute(key, RenderValue(v))) == key
  {
  }

  lemma EmittedSnoc(entries: seq<Prop>, e: Prop, excluded: set<string>)
    ensures Emitted(entries + [e], excluded)
            == Emitted(entries, excluded) + (if e.key in excluded then [] else [Attribute(e.key, RenderValue(e.val))])
  {
    assert (entries + [e])[..|entries|] == entries;
  }

  lemma NamesOfSingleton(v: Value)
    requires Truthy(v)
    ensures NamesOf(Arr([v])) == {ToJsString(v)}
  {
    assert [v][0] == v;
  }

  lemma JoinThree(a: string, b: string, c: string)
    ensures Join(" ", [a, b, c]) == a + " " + b + " " + c
  {
    JoinCons(" ", a, [b, c]);
    JoinCons(" ", b, [c]);
    assert [a, b, c][1..] == [b, c];
  }

  /** `attributes({class: "a b", hidden: true, data: [1, null, "x"], style: undefined}, {exclude: ["data"]})`
      is `class="a b" hidden="true" style`. */
  lemma ExampleExclude()
    ensures AttributesOf(
              Obj([Prop("class", Str("a b")), Prop("hidden", Bool(true)),
                   Prop("data", Arr([Num(1), Null, Str("x")])), Prop("style", Undefined)]),
              Obj([Prop("exclude", Arr([Str("data")]))]))
            == Ok("class=\"a b\" hidden=\"true\" style")
  {
    var entries := [Prop("class", Str("a b")), Prop("hidden", Bool(true)),
                    Prop("data", Arr([Num(1), Null, Str("x")])), Prop("style", Undefined)];
    var kw := Obj([Prop("exclude", Arr([Str("data")]))]);
    ExampleExcludeKeys(entries, kw);
    ExampleExcludeEmitted(entries);
    var texts := ["class=\"a b\"", "hidden=\"true\"", "style"];
    OkResult(Obj(entries), kw, {"data"}, texts);
    JoinThree(texts[0], texts[1], texts[2]);
    assert texts == [texts[0], texts[1], texts[2]];
    ExampleExcludeText();
  }

  lemma ExampleExcludeText()
    ensures "class=\"a b\"" + " " + "hidden=\"true\"" + " " + "style" == "class=\"a b\" hidden=\"true\" style"
  {
  }

  /** The filter's result once the excluded keys and the texts are known. */
  lemma OkResult(obj: Value, kwargs: Value, ex: set<string>, texts: seq<string>)
    requires Truthy(obj) && Excluded(obj, kwargs) == ex
    requires !ShadowsHasOwnProperty(OwnEntries(obj), ex)
    requires Texts(Emitted(OwnEntries(obj), ex)) == texts
    ensures AttributesOf(obj, kwargs) == Ok(Join(" ", texts))
  {
  }

  lemma ExampleExcludeKeys(entries: seq<Prop>, kw: Value)
    requires entries == [Prop("class", Str("a b")), Prop("hidden", Bool(true)),
                         Prop("data", Arr([Num(1), Null, Str("x")])), Prop("style", Undefined)]
    requires kw == Obj([Prop("exclude", Arr([Str("data")]))])
    ensures Excluded(Obj(entries), kw) == {"data"}
    ensures !ShadowsHasOwnProperty(entries, {"data"})
  {
    assert Get(Options(kw), "include") == Undefined;
    assert Get(Options(kw), "exclude") == Arr([Str("data")]);
    NamesOfSingleton(Str("data"));
    assert entries[0].key == "class" && entries[1].key == "hidden" && entries[2].key == "data" && entries[3].key == "style";
    assert KeySet(entries) == {"class", "hidden", "data", "style"};
  }

  lemma ExampleExcludeEmitted(entries: seq<Prop>)
    requires entries == [Prop("class", Str("a b")), Prop("hidden", Bool(true)),
                         Prop("data", Arr([Num(1), Null, Str("x")])), Prop("style", Undefined)]
    ensures Texts(Emitted(entries, {"data"})) == ["class=\"a b\"", "hidden=\"true\"", "style"]
  {
    var attrs := [Attribute("class", Some("a b")), Attribute("hidden", Some("true")), Attribute("style", None)];
    ExampleExcludeAttrs(entries);
    assert AttributeText(attrs[0]) == "class=\"a b\"";
    assert AttributeText(attrs[1]) == "hidden=\"true\"";
    assert AttributeText(attrs[2]) == "style";
  }

  lemma ExampleExcludeAttrs(entries: seq<Prop>)
    requires entries == [Prop("class", Str("a b")), Prop("hidden", Bool(true)),
                         Prop("data", Arr([Num(1), Null, Str("x")])), Prop("style", Undefined)]
    ensures Emitted(entries, {"data"})
            == [Attribute("class", Some("a b")), Attribute("hidden", Some("true")), Attribute("style", None)]
  {
    var ex := {"data"};
    var p0, p1, p2, p3 := entries[0], entries[1], entries[2], entries[3];
    EmittedSnoc([], p0, ex);
    assert [] + [p0] == [p0];
    EmittedSnoc([p0], p1, ex);
    assert [p0] + [p1] == [p0, p1];
    EmittedSnoc([p0, p1], p2, ex);
    assert [p0, p1] + [p2] == [p0, p1, p2];
    EmittedSnoc([p0, p1, p2], p3, ex);
    assert [p0, p1, p2] + [p3] == entries;
  }

  /** With an include list the others disappear: `attributes({id: "x",
      n: 7}, {include: "n", exclude: "n"})` is `n="7"`. */
  lemma ExampleInclude()
    ensures AttributesOf(Obj([Prop("id", Str("x")), Prop("n", Num(7))]),
                         Obj([Prop("include", Str("n")), Prop("exclude", Str("n"))]))
            == Ok("n=\"7\"")
  {
    var entries := [Prop("id", Str("x")), Prop("n", Num(7))];
    var kw := Obj([Prop("include", Str("n")), Prop("exclude", Str("n"))]);
    ExampleIncludeKeys(entries, kw);
    ExampleIncludeEmitted(entries);
    OkResult(Obj(entries), kw, {"id"}, ["n=\"7\""]);
  }

  lemma ExampleIncludeKeys(entries: seq<Prop>, kw: Value)
    requires entries == [Prop("id", Str("x")), Prop("n", Num(7))]
    requires kw == Obj([Prop("include", Str("n")), Prop("exclude", Str("n"))])
    ensures Excluded(Obj(entries), kw) == {"id"}
    ensures !ShadowsHasOwnProperty(entries, {"id"})
  {
    assert Get(Options(kw), "include") == Str("n");
    assert entries[0].key == "id" && entries[1].key == "n";
    assert KeySet(entries) == {"id", "n"};
  }

  lemma ExampleIncludeEmitted(entries: seq<Prop>)
    requires entries == [Prop("id", Str("x")), Prop("n", Num(7))]
    ensures Texts(Emitted(entries, {"id"})) == ["n=\"7\""]
  {
    var p0, p1 := entries[0], entries[1];
    EmittedSnoc([], p0, {"id"});
    assert [] + [p0] == [p0];
    EmittedSnoc([p0], p1, {"id"});
    assert [p0] + [p1] == entries;
    var attrs := [Attribute("n", Some("7"))];
    assert DigitChar(7) == '7';
    assert Emitted(entries, {"id"}) == attrs;
    assert AttributeText(attrs[0]) == "n=\"7\"";
  }

  /** An exclude list naming `hasOwnProperty` breaks the method call of
      line 42 for any object with a key. */
  lemma ShadowedHasOwnPropertyThrows(entries: seq<Prop>)
    requires entries != []
    ensures AttributesOf(Obj(entries), Obj([Prop("exclude", Str("hasOwnProperty"))])) == Threw
  {
    var kwargs := Obj([Prop("exclude", Str("hasOwnProperty"))]);
    assert Get(Options(kwargs), "include") == Undefined;
    assert Get(Options(kwargs), "exclude") == Str("hasOwnProperty");
    assert "hasOwnProperty" in Excluded(Obj(entries), kwargs);
  }

  /** So does an object holding its own `hasOwnProperty` entry, whatever
      the keyword arguments. */
  lemma OwnHasOwnPropertyThrows(entries: seq<Prop>, v: Value, kwargs: Value)
    ensures AttributesOf(Obj([Prop("hasOwnProperty", v)] + entries), kwargs) == Threw
  {
    var obj := Obj([Prop("hasOwnProperty", v)] + entries);
    assert OwnEntries(obj)[0].key == "hasOwnProperty";
    assert ShadowsHasOwnProperty(OwnEntries(obj), Excluded(obj, kwargs));
  }
}
