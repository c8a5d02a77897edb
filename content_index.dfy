/** The content index of the `templates` task (gulpfile.babel.js lines
    336-346 and 503-514): every content document, keyed by its id (its path
    with extension), ordered so that HTML documents come after the others,
    and the template loader that serves documents to the engine by id. */
module ContentIndex {
  import opened Strings
  import opened JsValues
  import opened Paths

  /** What `matter.read` returns for a document: its front-matter data and
      its body. */
  datatype Matter = Matter(data: seq<Prop>, content: string)

  /** A document the content glob found, relative to the content
      directory, with what `matter.read` made of it. */
  datatype ContentFile = ContentFile(path: string, matter: Matter)

  /** The glob yields distinct relative paths. */
  predicate WellFormedFiles(fs: seq<ContentFile>)
  {
    && (forall i :: 0 <= i < |fs| ==> GlobRelative(fs[i].path))
    && (forall i, j :: 0 <= i < j < |fs| ==> fs[i].path != fs[j].path)
  }

  /** A parsed document before indexing. */
  datatype ContentEntry = ContentEntry(details: ParsedPath, matter: Matter)

  /** A document of the index. `id`, `dir`, `name`, `ext` and `targetPath`
      are fixed when it is indexed; `content`, `rawContent` and `data` are
      what the passes rewrite in place. */
  datatype Page = Page(
    id: string, dir: string, name: string, ext: string, targetPath: string,
    matter: Matter,
    content: string, rawContent: string, data: seq<Prop>)

  predicate IsHtml(ext: string)
  {
    ext == ".html"
  }

  function ToEntry(f: ContentFile): (e: ContentEntry)
    requires GlobRelative(f.path)
    ensures JoinPath(e.details.dir, e.details.name + e.details.ext) == f.path
  {
    ParseJoin(f.path);
    ContentEntry(Parse(f.path), f.matter)
  }

  function Entries(fs: seq<ContentFile>): (es: seq<ContentEntry>)
    requires forall i :: 0 <= i < |fs| ==> GlobRelative(fs[i].path)
    ensures |es| == |fs|
    ensures forall i :: 0 <= i < |fs| ==> es[i] == ToEntry(fs[i])
  {
    seq(|fs|, i requires 0 <= i < |fs| => ToEntry(fs[i]))
  }

  /** What the comparator of line 507 decides consistently: every
      non-HTML document before every HTML document. It answers -1 for
      every pair of non-HTML documents, both ways round, so their relative
      order is left to the engine. */
  predicate HtmlLast(input: seq<ContentEntry>, out: seq<ContentEntry>)
  {
    && multiset(out) == multiset(input)
    && forall i, j :: 0 <= i < j < |out| && IsHtml(out[i].details.ext) ==> IsHtml(out[j].details.ext)
  }

  function FilterHtml(es: seq<ContentEntry>, html: bool): (r: seq<ContentEntry>)
    ensures forall k :: 0 <= k < |r| ==> IsHtml(r[k].details.ext) == html
    ensures multiset(r) <= multiset(es)
  {
    if es == [] then []
    else
      assert es == [es[0]] + es[1..];
      (if IsHtml(es[0].details.ext) == html then [es[0]] else []) + FilterHtml(es[1..], html)
  }

  lemma {:induction false} FilterHtmlSplit(es: seq<ContentEntry>)
    ensures multiset(FilterHtml(es, false)) + multiset(FilterHtml(es, true)) == multiset(es)
  {
    if es != [] {
      FilterHtmlSplit(es[1..]);
      assert es == [es[0]] + es[1..];
    }
  }

  /** The other documents as found, then the HTML documents as found. */
  function HtmlAfterOthers(es: seq<ContentEntry>): seq<ContentEntry>
  {
    FilterHtml(es, false) + FilterHtml(es, true)
  }

  /** An order the comparator admits exists for every input. */
  lemma HtmlAfterOthersAdmissible(es: seq<ContentEntry>)
    ensures HtmlLast(es, HtmlAfterOthers(es))
  {
    FilterHtmlSplit(es);
    var a := FilterHtml(es, false);
    var b := FilterHtml(es, true);
    var out := a + b;
    assert forall k :: 0 <= k < |a| ==> out[k] == a[k];
    assert forall k :: 0 <= k < |b| ==> out[|a| + k] == b[k];
  }

  /** `path.join(__dirname, '.tmp', dir)` joined with `name + '.html'`
      (lines 510-511), with the build root written `.tmp`. */
  function TargetPath(dir: string, name: string): string
  {
    JoinPath(JoinPath(".tmp", dir), name + ".html")
  }

  /** Every document is written under the build root at its id with the
      extension replaced by `.html`; an HTML document at exactly its id. */
  lemma TargetPathShape(dir: string, name: string, ext: string)
    ensures TargetPath(dir, name) == ".tmp/" + JoinPath(dir, name + ".html")
    ensures IsHtml(ext) ==> TargetPath(dir, name) == ".tmp/" + JoinPath(dir, name + ext)
  {
  }

  /** The record the reduce of lines 508-513 stores for a document, before
      any pass has run. */
  function ToPage(e: ContentEntry): (p: Page)
    ensures p.id == JoinPath(e.details.dir, e.details.name + e.details.ext)
    ensures IsHtml(p.ext) ==> p.targetPath == ".tmp/" + p.id
  {
    var d := e.details;
    TargetPathShape(d.dir, d.name, d.ext);
    Page(JoinPath(d.dir, d.name + d.ext), d.dir, d.name, d.ext, TargetPath(d.dir, d.name), e.matter, "", "", [])
  }

  /** What `getSource` hands the engine: the text, the name it was asked
      for, and `noCache`. */
  datatype Source = Source(src: string, path: string, noCache: bool)

  /** `ContentLoader.getSource(name)` over the loader's documents (lines
      336-346): nothing for an empty name or an unknown id, otherwise the
      document's current content. */
  function GetSource(files: seq<Page>, name: string): (r: Option<Source>)
    ensures r.None? <==> name == "" || forall i :: 0 <= i < |files| ==> files[i].id != name
    ensures r.Some? ==> r.value.path == name && r.value.noCache
    ensures r.Some? ==> exists i :: 0 <= i < |files| && files[i].id == name && r.value.src == files[i].content
  {
    if name == "" then None
    else
      var i := FirstWithId(files, name);
      if i < 0 then None else Some(Source(files[i].content, name, true))
  }

  /** Index of the first document with id `name`, or -1. */
  function FirstWithId(files: seq<Page>, name: string): (i: int)
    ensures -1 <= i < |files|
    ensures i >= 0 ==> files[i].id == name
    ensures forall j :: 0 <= j < |files| && (i < 0 || j < i) ==> files[j].id != name
  {
    if files == [] then -1
    else if files[0].id == name then 0
    else
      var k := FirstWithId(files[1..], name);
      if k < 0 then -1 else k + 1
  }

  predicate DistinctIds(files: seq<Page>)
  {
    forall i, j :: 0 <= i < j < |files| ==> files[i].id != files[j].id
  }

  /** With distinct ids, the loader serves each document's own content
      under its id. */
  lemma ServesOwnContent(files: seq<Page>, i: nat)
    requires DistinctIds(files) && i < |files| && files[i].id != ""
    ensures GetSource(files, files[i].id) == Some(Source(files[i].content, files[i].id, true))
  {
    var k := FirstWithId(files, files[i].id);
    assert k >= 0;
    assert k == i;
  }

  /** The loader: nunjucks' `Loader` subclass whose `files` the task
      assigns the index to. */
  class ContentLoader {
    var files: seq<Page>

    /** `init(map)` with no map: an empty index. */
    constructor()
      ensures files == []
    {
      files := [];
    }

    /** Lines 505-514: parse every path, put the HTML documents last, and
        store each document under its id, in that order. */
    method BuildIndex(fs: seq<ContentFile>) returns (order: seq<ContentEntry>)
      requires WellFormedFiles(fs)
      modifies this
      ensures HtmlLast(Entries(fs), order)
      ensures files == Index(order)
    {
      var entries := Entries(fs);
      HtmlAfterOthersAdmissible(entries);
      order :| HtmlLast(entries, order);
      files := IndexPages(order);
    }
  }

  /** The documents of the index, in insertion order. */
  function Index(order: seq<ContentEntry>): (files: seq<Page>)
    ensures |files| == |order|
    ensures forall i :: 0 <= i < |order| ==> files[i] == ToPage(order[i])
  {
    seq(|order|, i requires 0 <= i < |order| => ToPage(order[i]))
  }

  /** The reduce of lines 508-513, one document after the other. */
  method IndexPages(order: seq<ContentEntry>) returns (index: seq<Page>)
    ensures index == Index(order)
  {
    index := [];
    for i := 0 to |order|
      invariant index == Index(order[..i])
    {
      assert Index(order[..i + 1]) == Index(order[..i]) + [ToPage(order[i])];
      index := index + [ToPage(order[i])];
    }
    assert order[..|order|] == order;
  }

  function EntryId(e: ContentEntry): string
  {
    JoinPath(e.details.dir, e.details.name + e.details.ext)
  }

  lemma {:induction false} CountAtMostOne<T>(t: seq<T>, x: T)
    requires forall a, b :: 0 <= a < b < |t| ==> t[a] != t[b]
    ensures multiset(t)[x] <= 1
  {
    if t != [] {
      assert t == [t[0]] + t[1..];
      assert forall a, b :: 0 <= a < b < |t[1..]| ==> t[1..][a] == t[a + 1] && t[1..][b] == t[b + 1];
      CountAtMostOne(t[1..], x);
      assert t[0] !in t[1..] by {
        forall k | 0 <= k < |t[1..]| ensures t[1..][k] != t[0] {
          assert t[1..][k] == t[k + 1];
        }
      }
    }
  }

  lemma CountTwo<T>(s: seq<T>, a: nat, b: nat)
    requires a < b < |s|
    ensures s[a] == s[b] ==> multiset(s)[s[a]] >= 2
  {
    assert s == s[..b] + [s[b]] + s[b + 1..];
    assert s[a] in s[..b] by {
      assert s[..b][a] == s[a];
    }
  }

  /** A permutation of a sequence without repeats has no repeats. */
  lemma PermutationKeepsDistinct<T>(s: seq<T>, t: seq<T>)
    requires multiset(s) == multiset(t)
    requires forall a, b :: 0 <= a < b < |t| ==> t[a] != t[b]
    ensures forall a, b :: 0 <= a < b < |s| ==> s[a] != s[b]
  {
    forall a, b | 0 <= a < b < |s| ensures s[a] != s[b] {
      CountAtMostOne(t, s[a]);
      CountTwo(s, a, b);
    }
  }

  /** Distinct paths give distinct ids, in any order the sort picks: the
      id of every indexed document is its file's path. */
  lemma IndexIdsDistinct(fs: seq<ContentFile>, order: seq<ContentEntry>)
    requires WellFormedFiles(fs)
    requires HtmlLast(Entries(fs), order)
    ensures DistinctIds(Index(order))
    ensures forall i :: 0 <= i < |order| ==> Index(order)[i].id != ""
  {
    var files := Index(order);
    forall i, j | 0 <= i < j < |order| ensures files[i].id != files[j].id {
      var ki := SourceFile(fs, order, i);
      var kj := SourceFile(fs, order, j);
      OrderDistinct(fs, order, i, j);
    }
    forall i | 0 <= i < |order| ensures files[i].id != "" {
      var k := SourceFile(fs, order, i);
    }
  }

  /** The file an indexed document was parsed from. */
  lemma SourceFile(fs: seq<ContentFile>, order: seq<ContentEntry>, i: nat) returns (k: nat)
    requires WellFormedFiles(fs)
    requires HtmlLast(Entries(fs), order)
    requires i < |order|
    ensures k < |fs| && Entries(fs)[k] == order[i]
    ensures Index(order)[i].id == fs[k].path && fs[k].path != ""
  {
    var es := Entries(fs);
    assert order[i] in multiset(es);
    k :| 0 <= k < |es| && es[k] == order[i];
    var e := ToEntry(fs[k]);
    assert es[k] == e;
    assert Index(order)[i] == ToPage(e);
    assert GlobRelative(fs[k].path);
  }

  /** The sorted entries have no repeats, since the files have distinct
      paths. */
  lemma OrderDistinct(fs: seq<ContentFile>, order: seq<ContentEntry>, i: nat, j: nat)
    requires WellFormedFiles(fs)
    requires HtmlLast(Entries(fs), order)
    requires i < j < |order|
    ensures order[i] != order[j]
  {
    var es := Entries(fs);
    forall a, b | 0 <= a < b < |es| ensures es[a] != es[b] {
      assert EntryId(es[a]) == fs[a].path && EntryId(es[b]) == fs[b].path;
    }
    PermutationKeepsDistinct(order, es);
  }
}
