/** The `absolute_url` template filter (__theme/filters/absolute-url.js):
    whether a value is a string that starts with `http://` or `https://`. */
module AbsoluteUrl {
  import opened Strings
  import opened JsValues

  /** One element of a pattern made of characters, some of them optional
      (`s?`). */
  datatype Atom = Char(c: char) | Optional(c: char)

  /** `^https?:\/\/`: the pattern the filter tests, anchored at the start. */
  const UrlScheme: seq<Atom> :=
    [Char('h'), Char('t'), Char('t'), Char('p'), Optional('s'), Char(':'), Char('/'), Char('/')]

  /** Whether some prefix of `s` matches `pat`, trying an optional
      character present first and absent second, as a backtracking matcher
      does. */
  function MatchesPrefix(pat: seq<Atom>, s: string): bool
    decreases |pat|
  {
    if pat == [] then true
    else
      match pat[0]
      case Char(c) => s != [] && s[0] == c && MatchesPrefix(pat[1..], s[1..])
      case Optional(c) => (s != [] && s[0] == c && MatchesPrefix(pat[1..], s[1..])) || MatchesPrefix(pat[1..], s)
  }

  /** Lines 3-6: `false` for anything but a string, otherwise the anchored
      pattern's verdict. */
  function IsAbsoluteUrl(v: Value): bool
  {
    v.Str? && MatchesPrefix(UrlScheme, v.s)
  }

  /** A pattern of plain characters matches exactly the strings it
      starts. */
  lemma PlainPatternIsPrefix(cs: string, s: string)
    ensures MatchesPrefix(Plain(cs), s) <==> StartsWith(s, cs)
  {
    assert Plain(cs) + [] == Plain(cs);
    PlainThenRest(cs, [], s);
  }

  function Plain(cs: string): (pat: seq<Atom>)
    ensures |pat| == |cs|
    ensures forall i :: 0 <= i < |cs| ==> pat[i] == Char(cs[i])
  {
    seq(|cs|, i requires 0 <= i < |cs| => Char(cs[i]))
  }

  /** The pattern accepts exactly the strings that start with `http://`
      or with `https://`. */
  lemma SchemeMatch(s: string)
    ensures MatchesPrefix(UrlScheme, s) <==> StartsWith(s, "http://") || StartsWith(s, "https://")
  {
    SchemeAfterHttp(s);
    if StartsWith(s, "http") {
      OptionalS(s[4..]);
    }
    PrefixSplit(s, "http", "://");
    PrefixSplit(s, "http", "s://");
    assert "http" + "://" == "http://";
    assert "http" + "s://" == "https://";
  }

  /** `http`, then the rest of the pattern on what follows. */
  lemma SchemeAfterHttp(s: string)
    ensures MatchesPrefix(UrlScheme, s) <==>
              StartsWith(s, "http") && MatchesPrefix([Optional('s')] + Plain("://"), s[4..])
  {
    assert UrlScheme == Plain("http") + ([Optional('s')] + Plain("://"));
    PlainThenRest("http", [Optional('s')] + Plain("://"), s);
  }

  /** `s?://` matches exactly what starts with `s://` or with `://`. */
  lemma OptionalS(t: string)
    ensures MatchesPrefix([Optional('s')] + Plain("://"), t) <==> StartsWith(t, "s://") || StartsWith(t, "://")
  {
    assert ([Optional('s')] + Plain("://"))[1..] == Plain("://");
    PlainPatternIsPrefix("://", t);
    if t != [] {
      PlainPatternIsPrefix("://", t[1..]);
    }
    PrefixSplit(t, "s", "://");
    assert "s" + "://" == "s://";
  }

  /** Matching a plain prefix, then the rest of the pattern. */
  lemma {:induction false} PlainThenRest(cs: string, rest: seq<Atom>, s: string)
    ensures MatchesPrefix(Plain(cs) + rest, s) <==> StartsWith(s, cs) && MatchesPrefix(rest, s[|cs|..])
    decreases |cs|
  {
    if cs == [] {
      assert Plain(cs) + rest == rest;
    } else {
      assert (Plain(cs) + rest)[0] == Char(cs[0]);
      assert (Plain(cs) + rest)[1..] == Plain(cs[1..]) + rest;
      if s != [] {
        PlainThenRest(cs[1..], rest, s[1..]);
        PrefixSplit(s, [cs[0]], cs[1..]);
        assert [cs[0]] + cs[1..] == cs;
        if |cs| <= |s| {
          assert s[1..][|cs| - 1..] == s[|cs|..];
        }
      }
    }
  }

  /** `s` starts with `a + b` exactly when it starts with `a` and the rest
      starts with `b`. */
  lemma PrefixSplit(s: string, a: string, b: string)
    ensures StartsWith(s, a + b) <==> StartsWith(s, a) && StartsWith(s[|a|..], b)
  {
    if StartsWith(s, a) && StartsWith(s[|a|..], b) {
      assert s[..|a + b|] == s[..|a|] + s[|a|..][..|b|];
    }
    if StartsWith(s, a + b) {
      assert s[..|a|] == (a + b)[..|a|];
      assert s[|a|..][..|b|] == (a + b)[|a|..];
    }
  }

  /** The filter in plain terms: a string that starts with `http://` or
      `https://`, and nothing that is not a string. */
  lemma IsAbsoluteUrlMeaning(v: Value)
    ensures IsAbsoluteUrl(v) <==> v.Str? && (StartsWith(v.s, "http://") || StartsWith(v.s, "https://"))
  {
    if v.Str? {
      SchemeMatch(v.s);
    }
  }

  /** Anything may follow the scheme; one that is absolute stays absolute
      when text is appended. */
  lemma AppendKeepsAbsolute(s: string, t: string)
    requires IsAbsoluteUrl(Str(s))
    ensures IsAbsoluteUrl(Str(s + t))
  {
    IsAbsoluteUrlMeaning(Str(s));
    IsAbsoluteUrlMeaning(Str(s + t));
    if StartsWith(s, "http://") {
      assert (s + t)[..7] == s[..7];
    } else {
      assert (s + t)[..8] == s[..8];
    }
  }

  /** Strings with either scheme are absolute. */
  lemma AbsoluteExamples()
    ensures IsAbsoluteUrl(Str("http://a"))
    ensures IsAbsoluteUrl(Str("https://example.com/x"))
  {
    IsAbsoluteUrlMeaning(Str("http://a"));
    IsAbsoluteUrlMeaning(Str("https://example.com/x"));
    assert "https://example.com/x"[..8] == "https://";
  }

  /** The match is anchored: text before the scheme defeats it. */
  lemma AnchoredExample()
    ensures !IsAbsoluteUrl(Str("x http://a"))
  {
    IsAbsoluteUrlMeaning(Str("x http://a"));
    assert "x http://a"[0] != 'h';
  }

  /** The match is case-sensitive. */
  lemma CaseSensitiveExample()
    ensures !IsAbsoluteUrl(Str("HTTP://a"))
  {
    IsAbsoluteUrlMeaning(Str("HTTP://a"));
    assert "HTTP://a"[0] != 'h';
  }

  /** Both slashes are needed, and no other scheme will do. */
  lemma SlashesExamples()
    ensures !IsAbsoluteUrl(Str("http:/a"))
    ensures !IsAbsoluteUrl(Str("//a"))
    ensures !IsAbsoluteUrl(Str("ftp://a"))
  {
    IsAbsoluteUrlMeaning(Str("http:/a"));
    IsAbsoluteUrlMeaning(Str("//a"));
    IsAbsoluteUrlMeaning(Str("ftp://a"));
    assert "http:/a"[6] != "http://"[6];
    assert "//a"[0] != 'h';
    assert "ftp://a"[0] != 'h';
  }

  /** Only strings are tested: anything else is not absolute. */
  lemma NonStringExample(v: Value)
    requires !v.Str?
    ensures !IsAbsoluteUrl(v)
  {
  }
}
