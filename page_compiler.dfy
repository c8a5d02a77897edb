/** The passes the `templates` task runs over the indexed documents
    (gulpfile.babel.js lines 516-567). Each pass visits the documents in
    index order and rewrites the current one in place; the template engine
    reads documents through the loader, so a render in the middle of a pass
    sees the documents before the current one already rewritten. */
module PageCompiler {
  import opened Strings
  import opened JsValues
  import opened ContentIndex
  import opened TemplateEnvironment

  /** `env.render(name, context)`: the engine with the loaded globals,
      filters and theme layouts, given the template name, what the content
      loader serves, and the context. A render throws for a missing
      template, a syntax error, an unknown filter or a filter that throws. */
  type Renderer = (string, string -> Option<Source>, seq<Prop>) -> Result<string>

  /** The loader as the engine sees it. */
  function Sources(files: seq<Page>): string -> Option<Source>
  {
    name => GetSource(files, name)
  }

  function Field(data: seq<Prop>, key: string): Value
  {
    Get(Obj(data), key)
  }

  /** The `wrapper` template as lines 556-558 resolve it: the document's
      own value, else the global (whose lookup throws when it is missing)
      `|| 'base'`. The fallback sits inside the `try`, so when the global
      is missing the assignment is skipped and `wrapper` stays
      `undefined`. */
  function WrapperAsWritten(data: seq<Prop>, globals: map<string, Value>): Value
  {
    var own := Field(data, "wrapper");
    if Truthy(own) then own
    else
      match GetGlobal(globals, "wrapper")
      case Threw => Undefined
      case Ok(g) => Or(g, Str("base"))
  }

  /** The evident intent: the document's wrapper, else the global one,
      else `base`. */
  function WrapperName(data: seq<Prop>, globals: map<string, Value>): (w: Value)
    ensures Truthy(w)
  {
    var g := match GetGlobal(globals, "wrapper") case Ok(v) => v case Threw => Undefined;
    Or(Field(data, "wrapper"), Or(g, Str("base")))
  }

  /** The resolution order: a document value wins, then a global, then
      `base`; the two definitions differ only where the global is
      missing. */
  lemma WrapperResolution(data: seq<Prop>, globals: map<string, Value>)
    ensures Truthy(Field(data, "wrapper")) ==> WrapperName(data, globals) == Field(data, "wrapper")
    ensures !Truthy(Field(data, "wrapper")) && "wrapper" in globals && Truthy(globals["wrapper"])
            ==> WrapperName(data, globals) == globals["wrapper"]
    ensures !Truthy(Field(data, "wrapper")) && ("wrapper" !in globals || !Truthy(globals["wrapper"]))
            ==> WrapperName(data, globals) == Str("base")
    ensures GetGlobal(globals, "wrapper").Ok? ==> WrapperName(data, globals) == WrapperAsWritten(data, globals)
  {
  }

  /** The template the final render asks for, as the code resolves the
      wrapper. */
  function WrapperTemplate(data: seq<Prop>, globals: map<string, Value>): string
  {
    "layouts/" + ToJsString(WrapperAsWritten(data, globals)) + ".html"
  }

  /** The template the evident intent would ask for. */
  function IntendedWrapperTemplate(data: seq<Prop>, globals: map<string, Value>): string
  {
    "layouts/" + ToJsString(WrapperName(data, globals)) + ".html"
  }

  /** The two templates agree unless the document sets no wrapper and the
      `wrapper` global is missing. */
  lemma WrapperTemplatesAgree(data: seq<Prop>, globals: map<string, Value>)
    requires Truthy(Field(data, "wrapper")) || GetGlobal(globals, "wrapper").Ok?
    ensures WrapperTemplate(data, globals) == IntendedWrapperTemplate(data, globals)
  {
    WrapperResolution(data, globals);
  }

  /** A document without a wrapper in a site without a `wrapper` global is
      rendered through `layouts/undefined.html`, ... */
  lemma WrapperAsWrittenMissesDefault(data: seq<Prop>, globals: map<string, Value>)
    requires !Truthy(Field(data, "wrapper")) && GetGlobal(globals, "wrapper").Threw?
    ensures WrapperTemplate(data, globals) == "layouts/undefined.html"
  {
    assert WrapperAsWritten(data, globals) == Undefined;
  }

  /** ... where `layouts/base.html` was meant. */
  lemma IntendedWrapperDefault(data: seq<Prop>, globals: map<string, Value>)
    requires !Truthy(Field(data, "wrapper")) && GetGlobal(globals, "wrapper").Threw?
    ensures IntendedWrapperTemplate(data, globals) == "layouts/base.html"
  {
    assert WrapperName(data, globals) == Str("base");
  }

  predicate IsMarkdown(ext: string)
  {
    ext == ".md" || ext == ".markdown"
  }

  const MarkdownOpen: string := "{% filter markdown %}"
  const MarkdownClose: string := "\n{% endfilter %}"

  /** The four rewriting passes. */
  datatype PassKind =
    | ReadFrontMatter                              // lines 517-523
    | PreprocessMarkdown                           // lines 524-529
    | CreateTemplate                               // lines 530-551
    | RenderWrapper(globals: map<string, Value>)   // lines 552-560

  /** The part of a document no pass touches. */
  predicate SameDocument(p: Page, q: Page)
  {
    p.id == q.id && p.dir == q.dir && p.name == q.name && p.ext == q.ext
    && p.targetPath == q.targetPath && p.matter == q.matter
  }

  /** What a pass makes of document `p` while the loader holds `files`, or
      the throw of its render. Only the two passes that render can
      throw, and the Markdown one only on a Markdown document; those two
      rewrite nothing but the content. */
  function Update(pass: PassKind, render: Renderer, files: seq<Page>, p: Page): (r: Result<Page>)
    ensures r.Ok? ==> SameDocument(r.value, p)
    ensures r.Threw? ==> pass.RenderWrapper? || (pass.PreprocessMarkdown? && IsMarkdown(p.ext))
    ensures r.Ok? && (pass.PreprocessMarkdown? || pass.RenderWrapper?) ==> r.value == p.(content := r.value.content)
  {
    match pass
    case ReadFrontMatter =>
      var text := Trim(p.matter.content);
      Ok(p.(content := text, rawContent := text, data := p.matter.data))
    case PreprocessMarkdown =>
      if !IsMarkdown(p.ext) then Ok(p)
      else
        (match render(p.id, Sources(files), p.data)
         case Threw => Threw
         case Ok(text) => Ok(p.(content := MarkdownOpen + text + MarkdownClose)))
    case CreateTemplate =>
      Ok(p.(data := SetProp(p.data, "main", Str(p.id))))
    case RenderWrapper(globals) =>
      match render(WrapperTemplate(p.data, globals), Sources(files), p.data)
      case Threw => Threw
      case Ok(text) => Ok(p.(content := text))
  }

  /** A rewrite of one document given the documents as they stand. */
  type Step = (seq<Page>, Page) -> Result<Page>

  function PassStep(pass: PassKind, render: Renderer): Step
  {
    (files, p) => Update(pass, render, files, p)
  }

  /** Where a pass stands: the documents as they are, and whether every
      rewrite so far returned without a throw. */
  datatype Progress = Progress(files: seq<Page>, completed: bool)

  /** The documents after `step` has rewritten the first `n` of them, one
      after the other, in place; a throw stops the sweep and leaves the
      documents as they stood. */
  function Sweep(step: Step, files: seq<Page>, n: nat): (r: Progress)
    requires n <= |files|
    ensures |r.files| == |files|
  {
    if n == 0 then Progress(files, true)
    else
      var s := Sweep(step, files, n - 1);
      if !s.completed then s
      else
        var r := step(s.files, s.files[n - 1]);
        if r.Threw? then Progress(s.files, false) else Progress(s.files[n - 1 := r.value], true)
  }

  /** A whole pass over the documents. */
  function Run(pass: PassKind, render: Renderer, files: seq<Page>): (r: Progress)
    ensures |r.files| == |files|
  {
    Sweep(PassStep(pass, render), files, |files|)
  }

  /** A sweep that completed completed every shorter sweep too. */
  lemma {:induction false} SweepCompletedPrefix(step: Step, files: seq<Page>, m: nat, n: nat)
    requires m <= n <= |files|
    ensures Sweep(step, files, n).completed ==> Sweep(step, files, m).completed
    decreases n
  {
    if m < n {
      SweepCompletedPrefix(step, files, m, n - 1);
    }
  }

  /** Once a sweep has thrown, nothing more happens. */
  lemma {:induction false} SweepStops(step: Step, files: seq<Page>, m: nat, n: nat)
    requires m <= n <= |files| && !Sweep(step, files, m).completed
    ensures Sweep(step, files, n) == Sweep(step, files, m)
    decreases n
  {
    if m < n {
      SweepStops(step, files, m, n - 1);
    }
  }

  /** A document already rewritten stays as it is for the rest of the
      sweep. */
  lemma {:induction false} SweepStable(step: Step, files: seq<Page>, m: nat, n: nat, j: nat)
    requires j < m <= n <= |files|
    ensures Sweep(step, files, n).files[j] == Sweep(step, files, m).files[j]
    decreases n - m
  {
    if m < n {
      SweepStable(step, files, m, n - 1, j);
    }
  }

  /** Inside a sweep, a document the sweep has not reached is untouched,
      and a document whose rewrite returned holds that rewrite of the
      original, made against the documents as they stood when its turn
      came. */
  lemma {:induction false} SweepAt(step: Step, files: seq<Page>, n: nat, j: nat)
    requires n <= |files| && j < |files|
    ensures j >= n ==> Sweep(step, files, n).files[j] == files[j]
    ensures j < n && Sweep(step, files, j + 1).completed
            ==> Sweep(step, files, j).completed
                && step(Sweep(step, files, j).files, files[j]) == Ok(Sweep(step, files, n).files[j])
    decreases n
  {
    if n > 0 {
      SweepAt(step, files, n - 1, j);
    }
    if j < n {
      SweepAt(step, files, j, j);
      SweepStable(step, files, j + 1, n, j);
    }
  }

  /** A sweep completes exactly when no rewrite threw: when it did not,
      some document's rewrite threw against the documents as they stood,
      and the sweep ended there. */
  lemma {:induction false} SweepThrows(step: Step, files: seq<Page>, n: nat)
    requires n <= |files|
    ensures Sweep(step, files, n).completed ==>
              forall k :: 0 <= k < n ==> Sweep(step, files, k).completed && step(Sweep(step, files, k).files, files[k]).Ok?
    ensures !Sweep(step, files, n).completed ==>
              exists k :: 0 <= k < n && Sweep(step, files, k).completed && step(Sweep(step, files, k).files, files[k]).Threw?
                           && Sweep(step, files, n).files == Sweep(step, files, k).files
    decreases n
  {
    if n > 0 {
      SweepThrows(step, files, n - 1);
      var s := Sweep(step, files, n - 1);
      if s.completed {
        SweepAt(step, files, n - 1, n - 1);
        assert s.files[n - 1] == files[n - 1];
        if step(s.files, files[n - 1]).Threw? {
          assert Sweep(step, files, n).files == s.files;
        }
      }
    }
  }

  /** Document `j` after a pass that completed: the pass's update of the
      original document, against the documents as they stood when its
      turn came. */
  lemma RunAt(pass: PassKind, render: Renderer, files: seq<Page>, j: nat)
    requires j < |files|
    ensures Run(pass, render, files).completed ==>
              Update(pass, render, Sweep(PassStep(pass, render), files, j).files, files[j]) == Ok(Run(pass, render, files).files[j])
  {
    SweepCompletedPrefix(PassStep(pass, render), files, j + 1, |files|);
    SweepAt(PassStep(pass, render), files, |files|, j);
  }

  /** A pass fails exactly when, for some document it reached, the update
      threw. */
  lemma PassFails(pass: PassKind, render: Renderer, files: seq<Page>)
    ensures !Run(pass, render, files).completed <==>
              exists k :: 0 <= k < |files| && Sweep(PassStep(pass, render), files, k).completed
                          && Update(pass, render, Sweep(PassStep(pass, render), files, k).files, files[k]).Threw?
  {
    SweepThrows(PassStep(pass, render), files, |files|);
  }

  /** A sweep whose every rewrite returns completes. */
  lemma {:induction false} SweepTotal(step: Step, files: seq<Page>, n: nat)
    requires n <= |files| && forall fs: seq<Page>, p: Page :: step(fs, p).Ok?
    ensures Sweep(step, files, n).completed
    decreases n
  {
    if n > 0 {
      SweepTotal(step, files, n - 1);
    }
  }

  /** The passes that do not render always complete. */
  lemma TotalPasses(pass: PassKind, render: Renderer, files: seq<Page>)
    requires pass.ReadFrontMatter? || pass.CreateTemplate?
    ensures Run(pass, render, files).completed
  {
    var step := PassStep(pass, render);
    forall fs: seq<Page>, p: Page ensures step(fs, p).Ok? {
      assert step(fs, p) == Update(pass, render, fs, p);
    }
    SweepTotal(step, files, |files|);
  }

  /** A sweep whose rewrites keep what identifies a document keeps it at
      every point, whether or not it throws. */
  lemma {:induction false} SweepKeeps(step: Step, files: seq<Page>, n: nat)
    requires n <= |files|
    requires forall fs: seq<Page>, p: Page :: step(fs, p).Ok? ==> SameDocument(step(fs, p).value, p)
    ensures forall j :: 0 <= j < |files| ==> SameDocument(Sweep(step, files, n).files[j], files[j])
    decreases n
  {
    if n > 0 {
      SweepKeeps(step, files, n - 1);
    }
  }

  /** No pass changes what identifies a document, at any point of the
      sweep. */
  lemma SweepKeepsIdentity(pass: PassKind, render: Renderer, files: seq<Page>, n: nat)
    requires n <= |files|
    ensures forall j :: 0 <= j < |files| ==> SameDocument(Sweep(PassStep(pass, render), files, n).files[j], files[j])
  {
    var step := PassStep(pass, render);
    forall fs: seq<Page>, p: Page | step(fs, p).Ok? ensures SameDocument(step(fs, p).value, p) {
      assert step(fs, p) == Update(pass, render, fs, p);
    }
    SweepKeeps(step, files, n);
  }

  /** After the front-matter pass, which always completes, every document
      holds its trimmed body as both content and raw content, and its
      front matter as data. */
  lemma FrontMatterRead(render: Renderer, files: seq<Page>, j: nat)
    requires j < |files|
    ensures Run(ReadFrontMatter, render, files).completed
    ensures Run(ReadFrontMatter, render, files).files[j].content == Trim(files[j].matter.content)
    ensures Run(ReadFrontMatter, render, files).files[j].rawContent == Trim(files[j].matter.content)
    ensures Run(ReadFrontMatter, render, files).files[j].data == files[j].matter.data
  {
    TotalPasses(ReadFrontMatter, render, files);
    RunAt(ReadFrontMatter, render, files, j);
  }

  /** The Markdown pass leaves other documents alone, even when it throws;
      when it completes, a Markdown document's content is its rendered
      text framed in a `markdown` filter block, and its data is as it was.
      The render sees the document's own text under its id. */
  lemma MarkdownFramed(render: Renderer, files: seq<Page>, j: nat)
    requires DistinctIds(files) && j < |files| && files[j].id != ""
    ensures !IsMarkdown(files[j].ext) ==> Run(PreprocessMarkdown, render, files).files[j] == files[j]
    ensures IsMarkdown(files[j].ext) ==>
              var before := Sweep(PassStep(PreprocessMarkdown, render), files, j).files;
              && Sources(before)(files[j].id) == Some(Source(files[j].content, files[j].id, true))
              && (Run(PreprocessMarkdown, render, files).completed ==>
                    && render(files[j].id, Sources(before), files[j].data).Ok?
                    && Run(PreprocessMarkdown, render, files).files[j]
                       == files[j].(content := MarkdownOpen + render(files[j].id, Sources(before), files[j].data).value + MarkdownClose))
  {
    var step := PassStep(PreprocessMarkdown, render);
    var n := |files|;
    RunAt(PreprocessMarkdown, render, files, j);
    SweepAt(step, files, j, j);
    if !IsMarkdown(files[j].ext) {
      SweepAt(step, files, n, j);
      if !Sweep(step, files, j + 1).completed {
        SweepStops(step, files, j + 1, n);
      }
    } else {
      var before := Sweep(step, files, j).files;
      SweepKeepsIdentity(PreprocessMarkdown, render, files, j);
      ServesOwnContent(before, j);
    }
  }

  /** A rendering pass that completes changes documents' content and
      nothing else. */
  lemma RenderedContentOnly(pass: PassKind, render: Renderer, files: seq<Page>, j: nat)
    requires j < |files| && (pass.PreprocessMarkdown? || pass.RenderWrapper?)
    ensures Run(pass, render, files).completed ==>
              Run(pass, render, files).files[j] == files[j].(content := Run(pass, render, files).files[j].content)
  {
    RunAt(pass, render, files, j);
  }

  /** The template pass always completes; it keeps content and sets
      `data.main` to the id, leaving every other key of the data as it
      was. */
  lemma MainIsId(render: Renderer, files: seq<Page>, j: nat, k: string)
    requires j < |files|
    ensures Run(CreateTemplate, render, files).completed
    ensures Run(CreateTemplate, render, files).files[j] == files[j].(data := SetProp(files[j].data, "main", Str(files[j].id)))
    ensures Run(CreateTemplate, render, files).files[j].content == files[j].content
    ensures Lookup(Run(CreateTemplate, render, files).files[j].data, "main") == Some(Str(files[j].id))
    ensures k != "main" ==> Lookup(Run(CreateTemplate, render, files).files[j].data, k) == Lookup(files[j].data, k)
  {
    TotalPasses(CreateTemplate, render, files);
    RunAt(CreateTemplate, render, files, j);
    SetPropLookup(files[j].data, "main", Str(files[j].id), "main");
    SetPropLookup(files[j].data, "main", Str(files[j].id), k);
  }

  /** When the final render completes, each document's content is the
      render of the wrapper template, as the code names it, against the
      document's data, and nothing else about it changes. */
  lemma WrapperRendered(globals: map<string, Value>, render: Renderer, files: seq<Page>, j: nat)
    requires j < |files|
    ensures Run(RenderWrapper(globals), render, files).completed ==>
              var before := Sweep(PassStep(RenderWrapper(globals), render), files, j).files;
              var p := Run(RenderWrapper(globals), render, files).files[j];
              && render(WrapperTemplate(files[j].data, globals), Sources(before), files[j].data) == Ok(p.content)
              && p == files[j].(content := p.content)
  {
    RunAt(RenderWrapper(globals), render, files, j);
  }

  /** The four passes in turn (lines 516-560); a pass that throws ends
      the chain with the documents as it left them. */
  function Compile(globals: map<string, Value>, render: Renderer, files: seq<Page>): (r: Progress)
    ensures |r.files| == |files|
  {
    var read := Run(ReadFrontMatter, render, files);
    if !read.completed then read
    else
      var pre := Run(PreprocessMarkdown, render, read.files);
      if !pre.completed then pre
      else
        var tmpl := Run(CreateTemplate, render, pre.files);
        if !tmpl.completed then tmpl
        else Run(RenderWrapper(globals), render, tmpl.files)
  }

  /** A compilation that completed ran all four passes to completion,
      each over what the one before left. */
  lemma CompileChain(globals: map<string, Value>, render: Renderer, files: seq<Page>)
    requires Compile(globals, render, files).completed
    ensures var read := Run(ReadFrontMatter, render, files);
            var pre := Run(PreprocessMarkdown, render, read.files);
            var tmpl := Run(CreateTemplate, render, pre.files);
            read.completed && pre.completed && tmpl.completed
            && Compile(globals, render, files) == Run(RenderWrapper(globals), render, tmpl.files)
  {
  }

  /** A compiled document is the indexed one with the front matter, with
      `main` set to its id, as its data. */
  lemma CompiledDocument(globals: map<string, Value>, render: Renderer, files: seq<Page>, j: nat)
    requires j < |files| && Compile(globals, render, files).completed
    ensures SameDocument(Compile(globals, render, files).files[j], files[j])
    ensures Compile(globals, render, files).files[j].data == SetProp(files[j].matter.data, "main", Str(files[j].id))
  {
    CompileChain(globals, render, files);
    var read := Run(ReadFrontMatter, render, files);
    var pre := Run(PreprocessMarkdown, render, read.files);
    var tmpl := Run(CreateTemplate, render, pre.files);
    var p := Compile(globals, render, files).files[j];
    FrontMatterRead(render, files, j);
    SweepKeepsIdentity(ReadFrontMatter, render, files, |files|);
    assert SameDocument(read.files[j], files[j]) && read.files[j].data == files[j].matter.data;
    RenderedContentOnly(PreprocessMarkdown, render, read.files, j);
    MainIsId(render, pre.files, j, "main");
    WrapperRendered(globals, render, tmpl.files, j);
    assert p == tmpl.files[j].(content := p.content);
  }

  /** A compiled document keeps the indexed document's identity and front
      matter, and its data is the front matter with `main` set to its
      id. */
  lemma CompiledData(globals: map<string, Value>, render: Renderer, files: seq<Page>, j: nat, k: string)
    requires j < |files| && Compile(globals, render, files).completed
    ensures SameDocument(Compile(globals, render, files).files[j], files[j])
    ensures Lookup(Compile(globals, render, files).files[j].data, "main") == Some(Str(files[j].id))
    ensures k != "main" ==> Lookup(Compile(globals, render, files).files[j].data, k) == Lookup(files[j].matter.data, k)
  {
    CompiledDocument(globals, render, files, j);
    SetPropLookup(files[j].matter.data, "main", Str(files[j].id), "main");
    SetPropLookup(files[j].matter.data, "main", Str(files[j].id), k);
  }

  /** A compiled document's content is what the wrapper template, as the
      code names it from the document's final data, rendered to against
      that data, with the sources the final pass had rewritten up to that
      document: the documents after the template pass, those before it
      already rendered. */
  lemma CompiledContent(globals: map<string, Value>, render: Renderer, files: seq<Page>, j: nat)
    requires j < |files| && Compile(globals, render, files).completed
    ensures var tmpl := Run(CreateTemplate, render, Run(PreprocessMarkdown, render, Run(ReadFrontMatter, render, files).files).files).files;
            var before := Sweep(PassStep(RenderWrapper(globals), render), tmpl, j).files;
            var p := Compile(globals, render, files).files[j];
            render(WrapperTemplate(p.data, globals), Sources(before), p.data) == Ok(p.content)
  {
    CompileChain(globals, render, files);
    var read := Run(ReadFrontMatter, render, files);
    var pre := Run(PreprocessMarkdown, render, read.files);
    var tmpl := Run(CreateTemplate, render, pre.files);
    var p := Compile(globals, render, files).files[j];
    WrapperRendered(globals, render, tmpl.files, j);
    assert p.data == tmpl.files[j].data;
  }

  /** `if (f.data.draft) return f;` (line 562). */
  predicate IsDraft(p: Page)
  {
    Truthy(Field(p.data, "draft"))
  }

  /** The output tree after the write pass: each document that is not a
      draft writes its content to its target path, in index order, a later
      write replacing an earlier one. */
  function Written(files: seq<Page>): map<string, string>
  {
    if files == [] then map[]
    else
      var p := files[|files| - 1];
      var w := Written(files[..|files| - 1]);
      if IsDraft(p) then w else w[p.targetPath := p.content]
  }

  /** The index of the last document that is not a draft and writes `t`,
      or -1. */
  function LastWriter(files: seq<Page>, t: string): (i: int)
    ensures -1 <= i < |files|
    ensures i >= 0 ==> !IsDraft(files[i]) && files[i].targetPath == t
    ensures forall j :: i < j < |files| ==> IsDraft(files[j]) || files[j].targetPath != t
  {
    if files == [] then -1
    else
      var p := files[|files| - 1];
      if !IsDraft(p) && p.targetPath == t then |files| - 1
      else
        var init := files[..|files| - 1];
        assert forall j :: 0 <= j < |init| ==> init[j] == files[j];
        LastWriter(init, t)
  }

  /** A path is written exactly when some document that is not a draft
      targets it, and it then holds the last such document's content. A
      draft is never written, whatever else it holds. */
  lemma {:induction false} WrittenLastWins(files: seq<Page>, t: string)
    ensures t in Written(files) <==> LastWriter(files, t) >= 0
    ensures t in Written(files) ==> Written(files)[t] == files[LastWriter(files, t)].content
  {
    if files != [] {
      WrittenLastWins(files[..|files| - 1], t);
    }
  }

  /** Writes the documents (lines 562-567). */
  method WritePages(files: seq<Page>) returns (out: map<string, string>)
    ensures out == Written(files)
  {
    out := map[];
    for i := 0 to |files|
      invariant out == Written(files[..i])
    {
      assert files[..i + 1][..i] == files[..i];
      if !IsDraft(files[i]) {
        out := out[files[i].targetPath := files[i].content];
      }
    }
    assert files[..|files|] == files;
  }

  /** Runs one pass over the loader's documents: `files.map(step)` where
      each call may read the documents through the loader, and a throw
      leaves the documents rewritten so far as they are. */
  method RunPass(loader: ContentLoader, step: Step) returns (ok: bool)
    modifies loader
    ensures Progress(loader.files, ok) == Sweep(step, old(loader.files), |old(loader.files)|)
  {
    ghost var start := loader.files;
    var i := 0;
    while i < |loader.files|
      invariant |loader.files| == |start| && i <= |start|
      invariant Sweep(step, start, i) == Progress(loader.files, true)
    {
      var r := step(loader.files, loader.files[i]);
      if r.Threw? {
        SweepStops(step, start, i + 1, |start|);
        return false;
      }
      loader.files := loader.files[i := r.value];
      i := i + 1;
    }
    ok := true;
  }

  /** The layout documents the index order guarantees: HTML documents come
      last, ids are distinct and non-empty, and an HTML document's target
      is its id under the build root. */
  predicate IndexShape(files: seq<Page>)
  {
    && DistinctIds(files)
    && (forall i :: 0 <= i < |files| ==> files[i].id != "")
    && (forall i, j :: 0 <= i < j < |files| && IsHtml(files[i].ext) ==> IsHtml(files[j].ext))
    && (forall i :: 0 <= i < |files| && IsHtml(files[i].ext) ==> files[i].targetPath == ".tmp/" + files[i].id)
  }

  lemma IndexHasShape(fs: seq<ContentFile>, order: seq<ContentEntry>)
    requires WellFormedFiles(fs) && HtmlLast(Entries(fs), order)
    ensures IndexShape(Index(order))
  {
    IndexIdsDistinct(fs, order);
  }

  /** A pass keeps the index's shape, whether or not it throws, since it
      keeps every document's identity. */
  lemma RunKeepsShape(pass: PassKind, render: Renderer, files: seq<Page>)
    requires IndexShape(files)
    ensures IndexShape(Run(pass, render, files).files)
  {
    SweepKeepsIdentity(pass, render, files, |files|);
    ShapeOfSame(files, Run(pass, render, files).files);
  }

  lemma ShapeOfSame(files: seq<Page>, r: seq<Page>)
    requires IndexShape(files) && |r| == |files|
    requires forall j :: 0 <= j < |files| ==> SameDocument(r[j], files[j])
    ensures IndexShape(r)
  {
  }

  /** An HTML document that is not a draft is what ends up at its target
      path: every document written after it is HTML too, and no other
      HTML document shares its target. A Markdown document with the same
      directory and name is overwritten. */
  lemma HtmlWins(files: seq<Page>, i: nat)
    requires IndexShape(files) && i < |files|
    requires IsHtml(files[i].ext) && !IsDraft(files[i])
    ensures files[i].targetPath in Written(files)
    ensures Written(files)[files[i].targetPath] == files[i].content
  {
    var t := files[i].targetPath;
    NoLaterWriter(files, i);
    WrittenLastWins(files, t);
    assert LastWriter(files, t) == i;
  }

  /** No document after an HTML one targets the same path. */
  lemma NoLaterWriter(files: seq<Page>, i: nat)
    requires IndexShape(files) && i < |files| && IsHtml(files[i].ext)
    ensures forall k :: i < k < |files| ==> files[k].targetPath != files[i].targetPath
  {
    forall k | i < k < |files| ensures files[k].targetPath != files[i].targetPath {
      assert IsHtml(files[k].ext);
      assert files[k].id != files[i].id;
      PrefixInjective(".tmp/", files[k].id, files[i].id);
    }
  }

  lemma PrefixInjective(x: string, a: string, b: string)
    ensures x + a == x + b ==> a == b
  {
    if x + a == x + b {
      assert a == (x + a)[|x|..];
      assert b == (x + b)[|x|..];
    }
  }

  /** The `templates` task after loading: index the content in `order`,
      run the four passes over the loader's documents, and write them
      unless a render threw. The output holds every HTML document that is
      not a draft at its target, and only what documents that are not
      drafts wrote. */
  method CompilePages(loader: ContentLoader, fs: seq<ContentFile>, globals: map<string, Value>, render: Renderer)
    returns (out: Option<map<string, string>>, ghost order: seq<ContentEntry>)
    requires WellFormedFiles(fs)
    modifies loader
    ensures HtmlLast(Entries(fs), order)
    ensures loader.files == Compile(globals, render, Index(order)).files
    ensures out.Some? <==> Compile(globals, render, Index(order)).completed
    ensures IndexShape(loader.files)
    ensures out.Some? ==> out.value == Written(loader.files)
    ensures out.Some? ==>
              forall t :: t in out.value ==> exists i :: 0 <= i < |loader.files| && !IsDraft(loader.files[i]) && loader.files[i].targetPath == t
    ensures out.Some? ==>
              forall i :: 0 <= i < |loader.files| && IsHtml(loader.files[i].ext) && !IsDraft(loader.files[i])
                ==> loader.files[i].targetPath in out.value && out.value[loader.files[i].targetPath] == loader.files[i].content
  {
    var indexed := loader.BuildIndex(fs);
    order := indexed;
    IndexHasShape(fs, order);
    ghost var f0 := loader.files;
    var ok := RunPass(loader, PassStep(ReadFrontMatter, render));
    RunKeepsShape(ReadFrontMatter, render, f0);
    if !ok {
      return None, order;
    }
    ghost var f1 := loader.files;
    ok := RunPass(loader, PassStep(PreprocessMarkdown, render));
    RunKeepsShape(PreprocessMarkdown, render, f1);
    if !ok {
      return None, order;
    }
    ghost var f2 := loader.files;
    ok := RunPass(loader, PassStep(CreateTemplate, render));
    RunKeepsShape(CreateTemplate, render, f2);
    if !ok {
      return None, order;
    }
    ghost var f3 := loader.files;
    ok := RunPass(loader, PassStep(RenderWrapper(globals), render));
    RunKeepsShape(RenderWrapper(globals), render, f3);
    if !ok {
      return None, order;
    }
    var written := WritePages(loader.files);
    forall t | t in written
      ensures exists i :: 0 <= i < |loader.files| && !IsDraft(loader.files[i]) && loader.files[i].targetPath == t
    {
      WrittenLastWins(loader.files, t);
    }
    forall i | 0 <= i < |loader.files| && IsHtml(loader.files[i].ext) && !IsDraft(loader.files[i])
      ensures loader.files[i].targetPath in written && written[loader.files[i].targetPath] == loader.files[i].content
    {
      HtmlWins(loader.files, i);
    }
    out := Some(written);
  }

  /** The template engine once the themes are loaded: it renders with the
      globals and filters of the environment. */
  type Engine = (map<string, Value>, map<string, Value>) -> Renderer

  /** The `templates` task (lines 446-567): build the environment, load the
      themes (the listed last first), then index, compile and write the
      content with the engine over the loaded globals and filters. It
      writes exactly when every theme loaded and no render threw; a throw
      while loading ends the task before the content is indexed. */
  method TemplatesTask(builtinGlobals: map<string, Value>, builtinFilters: map<string, Value>, lodash: Value, d3: Value,
                       loadOrder: seq<Theme>, fs: seq<ContentFile>, engine: Engine)
    returns (out: Option<map<string, string>>, pages: seq<Page>, ghost cfgs: seq<seq<Prop>>, ghost order: seq<ContentEntry>)
    requires forall i :: 0 <= i < |loadOrder| ==> WellFormedTheme(loadOrder[i])
    requires WellFormedFiles(fs)
    ensures |cfgs| <= |loadOrder|
    ensures forall i :: 0 <= i < |cfgs| ==> PossibleConfig(Reverse(loadOrder)[i], cfgs[i])
    ensures var env := LoadAll(builtinGlobals["_" := lodash]["d3" := d3], builtinFilters, Reverse(loadOrder)[..|cfgs|], cfgs);
            && (!env.2 ==> out.None? && pages == [])
            && (env.2 ==> |cfgs| == |loadOrder| && HtmlLast(Entries(fs), order)
                          && pages == Compile(env.0, engine(env.0, env.1), Index(order)).files)
            && (out.Some? <==> env.2 && Compile(env.0, engine(env.0, env.1), Index(order)).completed)
    ensures out.Some? ==> IndexShape(pages) && out.value == Written(pages)
    ensures out.Some? ==>
              forall i :: 0 <= i < |pages| && IsHtml(pages[i].ext) && !IsDraft(pages[i])
                ==> pages[i].targetPath in out.value && out.value[pages[i].targetPath] == pages[i].content
  {
    var env := new Environment(builtinGlobals, builtinFilters, lodash, d3);
    var ok;
    ok, cfgs := env.LoadThemes(loadOrder);
    if !ok {
      out, pages, order := None, [], [];
      return;
    }
    var loader := new ContentLoader();
    out, order := CompilePages(loader, fs, env.globals, engine(env.globals, env.filters));
    pages := loader.files;
  }
}
