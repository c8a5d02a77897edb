/** Relative file paths as `glob.sync` returns them, their split by
    `path.parse`, their depth, and the two keys the build derives from
    them: a configuration file's object path (gulpfile.babel.js lines
    306 and 317-320) and a filter module's registration prefix (lines
    280-283). */
module Paths {
  import opened Strings

  /** What `path.parse` returns for a relative path (no root). */
  datatype ParsedPath = ParsedPath(dir: string, base: string, name: string, ext: string)

  /** A path as `glob.sync` yields it relative to its `cwd`: not empty, no
      leading or trailing separator, no empty segment. */
  predicate GlobRelative(p: string)
  {
    && p != []
    && p[0] != '/'
    && p[|p| - 1] != '/'
    && forall i :: 0 <= i < |p| - 1 ==> !(p[i] == '/' && p[i + 1] == '/')
  }

  /** Index of the last `c` in `s`, or -1. */
  function LastIndexOf(s: string, c: char): (i: int)
    ensures -1 <= i < |s|
    ensures i >= 0 ==> s[i] == c
    ensures forall j :: i < j < |s| ==> s[j] != c
  {
    if s == [] then -1
    else if s[|s| - 1] == c then |s| - 1
    else LastIndexOf(s[..|s| - 1], c)
  }

  /** Node's `path.parse` on a relative path: `dir` is everything before the
      last separator, `base` the rest. */
  function Parse(p: string): (r: ParsedPath)
    requires GlobRelative(p)
    ensures r.name != ""
    ensures r.base == r.name + r.ext
    ensures '/' !in r.base
    ensures r.ext == [] || (r.ext[0] == '.' && '.' !in r.ext[1..])
  {
    var slash := LastIndexOf(p, '/');
    var base := AfterLast(p, slash);
    var (name, ext) := SplitExt(base);
    ParsedPath(if slash < 0 then "" else p[..slash], base, name, ext)
  }

  function AfterLast(p: string, slash: int): (base: string)
    requires slash == LastIndexOf(p, '/')
    requires p != [] && p[|p| - 1] != '/'
    ensures base != []
    ensures '/' !in base
    ensures base == p[slash + 1..]
  {
    AfterLastNoSlash(p, slash);
    p[slash + 1..]
  }

  lemma AfterLastNoSlash(p: string, slash: int)
    requires slash == LastIndexOf(p, '/')
    ensures slash + 1 <= |p|
    ensures '/' !in p[slash + 1..]
  {
    var base := p[slash + 1..];
    forall j | 0 <= j < |base| ensures base[j] != '/' {
      assert base[j] == p[slash + 1 + j];
    }
  }

  /** The extension runs from the last dot of `base`, unless that dot starts
      `base` or `base` is `..`; the name is what precedes it. */
  function SplitExt(base: string): (r: (string, string))
    ensures base != [] ==> r.0 != []
    ensures r.0 + r.1 == base
    ensures r.1 == [] || (r.1[0] == '.' && '.' !in r.1[1..])
  {
    var dot := LastIndexOf(base, '.');
    if dot <= 0 || base == ".." then (base, "")
    else
      var ext := base[dot..];
      assert forall j :: 1 <= j < |ext| ==> ext[j] == base[dot + j];
      assert base[..dot] + ext == base;
      (base[..dot], ext)
  }

  /** `path.join(dir, base)` for segments that need no normalisation:
      an empty segment is skipped. */
  function JoinPath(dir: string, base: string): string
  {
    if dir == "" then base else if base == "" then dir else dir + "/" + base
  }

  /** Joining the parts of a parsed path gives the path back: this is the
      content index key `f.id` (gulpfile.babel.js line 509), so the key is
      the file's own relative path with its extension. */
  lemma ParseJoin(p: string)
    requires GlobRelative(p)
    ensures JoinPath(Parse(p).dir, Parse(p).name + Parse(p).ext) == p
  {
    var slash := LastIndexOf(p, '/');
    if slash >= 0 {
      assert p == p[..slash] + "/" + p[slash + 1..];
    }
  }

  /** Directory depth, `!d.dir ? 0 : (d.dir.match(/\//g) || []).length + 1`
      (gulpfile.babel.js line 306). */
  function Depth(dir: string): nat
  {
    if dir == "" then 0 else Count(dir, '/') + 1
  }

  lemma CountAppend(a: string, b: string, c: char)
    ensures Count(a + b, c) == Count(a, c) + Count(b, c)
  {
    if a == [] {
      assert a + b == b;
    } else {
      assert (a + b)[1..] == a[1..] + b;
      CountAppend(a[1..], b, c);
    }
  }

  /** The depth of a file's directory is the number of separators in its
      path: 0 for a file at the top, one more per level below it. */
  lemma DepthIsSeparatorCount(p: string)
    requires GlobRelative(p)
    ensures Depth(Parse(p).dir) == Count(p, '/')
  {
    var slash := LastIndexOf(p, '/');
    var base := AfterLast(p, slash);
    if slash < 0 {
      assert p == base;
    } else {
      var dir := p[..slash];
      assert dir != "" by {
        assert slash != 0;
      }
      assert p == dir + "/" + base;
      CountAppend(dir + "/", base, '/');
      CountAppend(dir, "/", '/');
    }
  }

  /** The three regular expressions whose runs the build replaces:
      `/\/+/g`, `/\-+/g` and `/[\-\s]+/g`. */
  datatype CharClass = Slashes | Hyphens | HyphensOrSpace

  predicate InClass(c: char, cls: CharClass)
  {
    match cls
    case Slashes => c == '/'
    case Hyphens => c == '-'
    case HyphensOrSpace => c == '-' || IsJsSpace(c)
  }

  predicate NoneInClass(s: string, cls: CharClass)
  {
    forall i :: 0 <= i < |s| ==> !InClass(s[i], cls)
  }

  /** `s` without its leading run of characters in `cls`. */
  function DropRun(s: string, cls: CharClass): (r: string)
    ensures |r| <= |s| && r == s[|s| - |r|..]
    ensures r == [] || !InClass(r[0], cls)
  {
    if s != [] && InClass(s[0], cls) then DropRun(s[1..], cls) else s
  }

  /** `s.replace(re, repl)` for a global regular expression matching maximal
      runs of `cls`: every maximal run becomes one copy of `repl`. */
  function ReplaceRuns(s: string, cls: CharClass, repl: string): string
    decreases |s|
  {
    if s == [] then ""
    else if InClass(s[0], cls) then repl + ReplaceRuns(DropRun(s, cls), cls, repl)
    else [s[0]] + ReplaceRuns(s[1..], cls, repl)
  }

  /** No character of the class survives when the replacement has none. */
  lemma {:induction false} ReplaceRunsRemovesClass(s: string, cls: CharClass, repl: string)
    requires NoneInClass(repl, cls)
    ensures NoneInClass(ReplaceRuns(s, cls, repl), cls)
    decreases |s|
  {
    if s == [] {
    } else if InClass(s[0], cls) {
      ReplaceRunsRemovesClass(DropRun(s, cls), cls, repl);
    } else {
      ReplaceRunsRemovesClass(s[1..], cls, repl);
    }
  }

  /** A string with no run to replace is left as it is. */
  lemma {:induction false} ReplaceRunsIdentity(s: string, cls: CharClass, repl: string)
    requires NoneInClass(s, cls)
    ensures ReplaceRuns(s, cls, repl) == s
    decreases |s|
  {
    if s != [] {
      assert NoneInClass(s[1..], cls) by {
        forall i | 0 <= i < |s[1..]| ensures !InClass(s[1..][i], cls) {
          assert s[1..][i] == s[i + 1];
        }
      }
      ReplaceRunsIdentity(s[1..], cls, repl);
    }
  }

  /** Replacing twice is replacing once. */
  lemma ReplaceRunsIdempotent(s: string, cls: CharClass, repl: string)
    requires NoneInClass(repl, cls)
    ensures ReplaceRuns(ReplaceRuns(s, cls, repl), cls, repl) == ReplaceRuns(s, cls, repl)
  {
    ReplaceRunsRemovesClass(s, cls, repl);
    ReplaceRunsIdentity(ReplaceRuns(s, cls, repl), cls, repl);
  }

  /** With a non-empty replacement, the result is empty exactly when the
      input is (which decides `filter(Boolean)` below). */
  lemma ReplaceRunsEmpty(s: string, cls: CharClass, repl: string)
    requires repl != ""
    ensures ReplaceRuns(s, cls, repl) == "" <==> s == ""
  {
  }

  /** A character outside the class and outside the replacement is kept
      exactly where the input has it, counted from the left. */
  lemma {:induction false} ReplaceRunsKeepsOthers(s: string, cls: CharClass, repl: string, c: char)
    requires !InClass(c, cls) && c !in repl
    ensures Count(ReplaceRuns(s, cls, repl), c) == Count(s, c)
    decreases |s|
  {
    if s == [] {
    } else if InClass(s[0], cls) {
      var t := DropRun(s, cls);
      ReplaceRunsKeepsOthers(t, cls, repl, c);
      CountAppend(repl, ReplaceRuns(t, cls, repl), c);
      DropRunCount(s, cls, c);
    } else {
      ReplaceRunsKeepsOthers(s[1..], cls, repl, c);
      CountAppend([s[0]], ReplaceRuns(s[1..], cls, repl), c);
    }
  }

  lemma {:induction false} DropRunCount(s: string, cls: CharClass, c: char)
    requires !InClass(c, cls)
    ensures Count(DropRun(s, cls), c) == Count(s, c)
  {
    if s != [] && InClass(s[0], cls) {
      DropRunCount(s[1..], cls, c);
    }
  }

  /** The directory part of both keys: separators become `.`, hyphens `_`. */
  function SanitizeDir(dir: string): string
  {
    ReplaceRuns(ReplaceRuns(dir, Slashes, "."), Hyphens, "_")
  }

  /** The name part of both keys: runs of hyphens or white space become `_`. */
  function SanitizeName(name: string): string
  {
    ReplaceRuns(name, HyphensOrSpace, "_")
  }

  lemma SanitizeDirShape(dir: string)
    ensures (SanitizeDir(dir) == "") <==> (dir == "")
    ensures '/' !in SanitizeDir(dir) && '-' !in SanitizeDir(dir)
    ensures Count(SanitizeDir(dir), '.') == Count(ReplaceRuns(dir, Slashes, "."), '.')
  {
    var once := ReplaceRuns(dir, Slashes, ".");
    ReplaceRunsEmpty(dir, Slashes, ".");
    ReplaceRunsEmpty(once, Hyphens, "_");
    ReplaceRunsRemovesClass(once, Hyphens, "_");
    ReplaceRunsRemovesClass(dir, Slashes, ".");
    ReplaceRunsKeepsOthers(once, Hyphens, "_", '/');
    ReplaceRunsKeepsOthers(once, Hyphens, "_", '.');
    assert Count(once, '/') == 0 by {
      assert '/' !in once;
    }
  }

  lemma SanitizeNameShape(name: string)
    ensures (SanitizeName(name) == "") <==> (name == "")
    ensures NoneInClass(SanitizeName(name), HyphensOrSpace)
    ensures Count(SanitizeName(name), '/') == Count(name, '/')
    ensures Count(SanitizeName(name), '.') == Count(name, '.')
  {
    ReplaceRunsEmpty(name, HyphensOrSpace, "_");
    ReplaceRunsRemovesClass(name, HyphensOrSpace, "_");
    ReplaceRunsKeepsOthers(name, HyphensOrSpace, "_", '/');
    ReplaceRunsKeepsOthers(name, HyphensOrSpace, "_", '.');
  }

  /** A configuration file's object path (gulpfile.babel.js lines 317-320):
      the sanitised directory and, unless the file is an `index`, the
      sanitised name, empty parts dropped, joined by `.`. */
  function ConfigObjectPath(p: ParsedPath): string
  {
    var d := SanitizeDir(p.dir);
    var n := if p.name == "index" then "" else SanitizeName(p.name);
    if d == "" then n else if n == "" then d else d + "." + n
  }

  /** The path is empty, so the file is deep-merged into the root, exactly
      for a top-level `index` file (or a nameless one). */
  lemma ConfigObjectPathEmpty(p: ParsedPath)
    ensures ConfigObjectPath(p) == "" <==> p.dir == "" && (p.name == "index" || p.name == "")
  {
    SanitizeDirShape(p.dir);
    SanitizeNameShape(p.name);
  }

  /** An object path holds no separator and no hyphen. */
  lemma ConfigObjectPathCharacters(p: ParsedPath)
    requires '/' !in p.name
    ensures '/' !in ConfigObjectPath(p) && '-' !in ConfigObjectPath(p)
  {
    SanitizeDirShape(p.dir);
    SanitizeNameShape(p.name);
    var n := SanitizeName(p.name);
    assert '-' !in n by {
      assert NoneInClass(n, HyphensOrSpace);
    }
    assert '/' !in n by {
      assert Count(n, '/') == 0;
    }
  }

  /** A filter module's registration prefix (gulpfile.babel.js lines
      280-283): sanitised directory and sanitised name, empty parts dropped,
      joined by `_`. */
  function FilterObjectPath(p: ParsedPath): string
  {
    var d := SanitizeDir(p.dir);
    var n := SanitizeName(p.name);
    if d == "" then n else if n == "" then d else d + "_" + n
  }

  /** A top-level module registers under its sanitised name; a nested one
      under `dir_name`, the directory's separators written as dots. */
  lemma FilterObjectPathShape(p: ParsedPath)
    requires p.name != ""
    ensures p.dir == "" ==> FilterObjectPath(p) == SanitizeName(p.name)
    ensures p.dir != "" ==> FilterObjectPath(p) == SanitizeDir(p.dir) + "_" + SanitizeName(p.name)
    ensures '/' !in p.name ==> '/' !in FilterObjectPath(p) && '-' !in FilterObjectPath(p)
  {
    SanitizeDirShape(p.dir);
    SanitizeNameShape(p.name);
    var n := SanitizeName(p.name);
    assert '-' !in n by {
      assert NoneInClass(n, HyphensOrSpace);
    }
    if '/' !in p.name {
      assert '/' !in n by {
        assert Count(n, '/') == 0;
      }
    }
  }
}
