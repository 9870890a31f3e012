/** Automatic page discovery (`autoPathCreator` in lib/bootstrap/index.js):
    the files found under the site's `pages` directory become pages, minus
    the private (underscored) and template files, each routed by `createPath`. */
module Discovery {
  import opened Seqs
  import opened Pages

  /** `path.join(program.directory, 'pages')`. */
  function PagesDirectory(programDirectory: string): string
  {
    programDirectory + "/pages"
  }

  /** `file` lies below the directory `dir`, as every file the recursive glob
      over `dir` returns does. */
  predicate IsUnder(dir: string, file: string)
  {
    |dir| + 1 <= |file| && file[..|dir| + 1] == dir + "/"
  }

  /** `path.relative(dir, file)` for a file below `dir`. */
  function RelativePath(dir: string, file: string): (rel: string)
    requires IsUnder(dir, file)
    ensures dir + "/" + rel == file
    ensures |rel| == |file| - |dir| - 1
  {
    assert file == file[..|dir| + 1] + file[|dir| + 1..];
    file[|dir| + 1..]
  }

  /** `rel.slice(0, 1) === '_'`: only the first character is looked at. */
  predicate IsPrivate(rel: string)
  {
    |rel| > 0 && rel[0] == '_'
  }

  /** `_.includes(rel, 'PAGE_TEMPLATE')`. */
  predicate IsTemplate(rel: string)
  {
    Includes(rel, "PAGE_TEMPLATE")
  }

  /** A file that discovery turns into a page. */
  predicate IsPageFile(dir: string, file: string)
  {
    IsUnder(dir, file) && !IsPrivate(RelativePath(dir, file)) && !IsTemplate(RelativePath(dir, file))
  }

  /** The object `{component: filePath, path: filePath}` created for each file. */
  function FilePage(file: string): Page
  {
    Page(file, file, map[])
  }

  /** The page of a discovered file once routed. */
  function AutoPage(dir: string, createPath: (string, string) -> string, file: string): Page
  {
    Page(createPath(dir, file), file, map[])
  }

  /** The first filter: `page.path.slice(0, 1) !== '_'`. */
  predicate IsPublic(p: Page)
  {
    !IsPrivate(p.path)
  }

  /** The second filter: `!_.includes(page.path, 'PAGE_TEMPLATE')`. */
  predicate IsNotTemplate(p: Page)
  {
    !IsTemplate(p.path)
  }

  /** The pages after `page.path = path.relative(pagesDirectory, page.path)`. */
  function Relativized(dir: string, files: seq<string>): seq<Page>
    requires forall f :: f in files ==> IsUnder(dir, f)
  {
    seq(|files|, i requires 0 <= i < |files| => FilePage(files[i]).(path := RelativePath(dir, files[i])))
  }

  /** The pages after `page.path = createPath(pagesDirectory, page.component)`. */
  function Routed(dir: string, createPath: (string, string) -> string, ps: seq<Page>): seq<Page>
  {
    seq(|ps|, i requires 0 <= i < |ps| => ps[i].(path := createPath(dir, ps[i].component)))
  }

  /** The pages discovery yields, one file at a time: a routed page for each
      page file, in the order of the files. */
  function Discovered(dir: string, files: seq<string>, createPath: (string, string) -> string): seq<Page>
    requires forall f :: f in files ==> IsUnder(dir, f)
  {
    if files == [] then []
    else if IsPageFile(dir, files[0]) then [AutoPage(dir, createPath, files[0])] + Discovered(dir, files[1..], createPath)
    else Discovered(dir, files[1..], createPath)
  }

  /** The components of a list of pages, in order. */
  function Components(ps: seq<Page>): seq<string>
  {
    if ps == [] then [] else [ps[0].component] + Components(ps[1..])
  }

  /** `autoPathCreator` after the glob has returned `files`. */
  method AutoPathCreator(programDirectory: string, files: seq<string>, createPath: (string, string) -> string)
    returns (autoPages: seq<Page>)
    requires forall f :: f in files ==> IsUnder(PagesDirectory(programDirectory), f)
    ensures autoPages == Discovered(PagesDirectory(programDirectory), files, createPath)
  {
    var pagesDirectory := PagesDirectory(programDirectory);
    // One page per file, with the file as both its component and its path.
    var a := new Page[|files|](i requires 0 <= i < |files| => FilePage(files[i]));
    // Rewrite each array slot's path in place; only the path changes.
    for i := 0 to a.Length
      invariant forall j :: 0 <= j < i ==> a[j] == FilePage(files[j]).(path := RelativePath(pagesDirectory, files[j]))
      invariant forall j :: i <= j < a.Length ==> a[j] == FilePage(files[j])
    {
      a[i] := a[i].(path := RelativePath(pagesDirectory, a[i].path));
    }
    assert a[..] == Relativized(pagesDirectory, files);
    var kept := Filter(a[..], IsPublic);
    kept := Filter(kept, IsNotTemplate);
    // Append each kept page with its path replaced by the route of its component.
    autoPages := [];
    for i := 0 to |kept|
      invariant autoPages == Routed(pagesDirectory, createPath, kept[..i])
    {
      autoPages := autoPages + [kept[i].(path := createPath(pagesDirectory, kept[i].component))];
    }
    assert kept[..|kept|] == kept;
    PipelineIsDiscovered(pagesDirectory, files, createPath);
  }

  lemma RelativizedTail(dir: string, files: seq<string>)
    requires files != []
    requires forall f :: f in files ==> IsUnder(dir, f)
    ensures Relativized(dir, files)
         == [FilePage(files[0]).(path := RelativePath(dir, files[0]))] + Relativized(dir, files[1..])
  {
  }

  lemma RoutedCons(dir: string, createPath: (string, string) -> string, p: Page, ps: seq<Page>)
    ensures Routed(dir, createPath, [p] + ps) == [p.(path := createPath(dir, p.component))] + Routed(dir, createPath, ps)
  {
  }

  /** The intermediate pages of one file, pushed through both filters and the routing. */
  lemma PipelineStep(dir: string, createPath: (string, string) -> string, f: string, rest: seq<Page>)
    requires IsUnder(dir, f)
    ensures var p := FilePage(f).(path := RelativePath(dir, f));
      IsPageFile(dir, f) ==>
        Routed(dir, createPath, Filter(Filter([p] + rest, IsPublic), IsNotTemplate))
        == [AutoPage(dir, createPath, f)] + Routed(dir, createPath, Filter(Filter(rest, IsPublic), IsNotTemplate))
    ensures var p := FilePage(f).(path := RelativePath(dir, f));
      !IsPageFile(dir, f) ==>
        Routed(dir, createPath, Filter(Filter([p] + rest, IsPublic), IsNotTemplate))
        == Routed(dir, createPath, Filter(Filter(rest, IsPublic), IsNotTemplate))
  {
    var p := FilePage(f).(path := RelativePath(dir, f));
    FilterCons(p, rest, IsPublic);
    var r1 := Filter(rest, IsPublic);
    if IsPublic(p) {
      FilterCons(p, r1, IsNotTemplate);
      if IsNotTemplate(p) {
        RoutedCons(dir, createPath, p, Filter(r1, IsNotTemplate));
      }
    }
  }

  /** The staged pipeline yields exactly the pages of `Discovered`. */
  lemma {:induction false} PipelineIsDiscovered(dir: string, files: seq<string>, createPath: (string, string) -> string)
    requires forall f :: f in files ==> IsUnder(dir, f)
    ensures Routed(dir, createPath, Filter(Filter(Relativized(dir, files), IsPublic), IsNotTemplate))
         == Discovered(dir, files, createPath)
  {
    if files == [] {
      assert Relativized(dir, files) == [];
    } else {
      RelativizedTail(dir, files);
      PipelineIsDiscovered(dir, files[1..], createPath);
      PipelineStep(dir, createPath, files[0], Relativized(dir, files[1..]));
    }
  }

  /** Every discovered page renders one of the files, is routed by
      `createPath` from that file, and comes from a file that is neither
      private nor a template; there are at most as many pages as files. */
  lemma {:induction false} DiscoveredPages(dir: string, files: seq<string>, createPath: (string, string) -> string)
    requires forall f :: f in files ==> IsUnder(dir, f)
    ensures |Discovered(dir, files, createPath)| <= |files|
    ensures forall p :: p in Discovered(dir, files, createPath) ==>
      p.component in files && IsPageFile(dir, p.component) && p.path == createPath(dir, p.component)
  {
    if files != [] {
      DiscoveredPages(dir, files[1..], createPath);
      assert files == [files[0]] + files[1..];
    }
  }

  /** A file yields a page exactly when it is a page file. */
  lemma {:induction false} DiscoveredComplete(dir: string, files: seq<string>, createPath: (string, string) -> string, f: string)
    requires forall f :: f in files ==> IsUnder(dir, f)
    ensures AutoPage(dir, createPath, f) in Discovered(dir, files, createPath) <==> f in files && IsPageFile(dir, f)
  {
    if files != [] {
      DiscoveredComplete(dir, files[1..], createPath, f);
      assert files == [files[0]] + files[1..];
    }
  }

  /** The components of the discovered pages are the page files, in the order
      of the input, without any file being skipped or repeated. */
  lemma {:induction false} DiscoveredComponents(dir: string, files: seq<string>, createPath: (string, string) -> string)
    requires forall f :: f in files ==> IsUnder(dir, f)
    ensures Components(Discovered(dir, files, createPath)) == Filter(files, f => IsPageFile(dir, f))
  {
    if files != [] {
      var rest := Discovered(dir, files[1..], createPath);
      DiscoveredComponents(dir, files[1..], createPath);
      FilterCons(files[0], files[1..], f => IsPageFile(dir, f));
      assert files == [files[0]] + files[1..];
      if IsPageFile(dir, files[0]) {
        var p := AutoPage(dir, createPath, files[0]);
        assert ([p] + rest)[0] == p && ([p] + rest)[1..] == rest;
      }
    }
  }

  /** Discovery preserves the relative order of the files. */
  lemma DiscoveredInOrder(dir: string, files: seq<string>, createPath: (string, string) -> string)
    requires forall f :: f in files ==> IsUnder(dir, f)
    ensures IsSubsequence(Components(Discovered(dir, files, createPath)), files)
  {
    DiscoveredComponents(dir, files, createPath);
    FilterIsSubsequence(files, f => IsPageFile(dir, f));
  }

  /** No discovered page comes from a file whose path relative to the pages
      directory starts with an underscore or contains `PAGE_TEMPLATE`. */
  lemma PrivateAndTemplateFilesDropped(dir: string, files: seq<string>, createPath: (string, string) -> string)
    requires forall f :: f in files ==> IsUnder(dir, f)
    ensures forall p :: p in Discovered(dir, files, createPath) ==>
      IsUnder(dir, p.component) && !IsPrivate(RelativePath(dir, p.component))
    ensures forall p :: p in Discovered(dir, files, createPath) ==>
      IsUnder(dir, p.component) && !IsTemplate(RelativePath(dir, p.component))
  {
    DiscoveredPages(dir, files, createPath);
  }

  /** Only the first character of the relative path is checked: a file in a
      sub-directory whose own name starts with an underscore is discovered. */
  lemma NestedUnderscoreKept(createPath: (string, string) -> string)
    ensures Discovered("site/pages", ["site/pages/blog/_x.js"], createPath)
         == [Page(createPath("site/pages", "site/pages/blog/_x.js"), "site/pages/blog/_x.js", map[])]
  {
    var dir, f := "site/pages", "site/pages/blog/_x.js";
    assert IsUnder(dir, f);
    assert RelativePath(dir, f) == "blog/_x.js";
    NoTemplateWithoutP("blog/_x.js");
    assert IsPageFile(dir, f);
    assert [f][1..] == [];
  }

  lemma DiscoveredCons(dir: string, f: string, rest: seq<string>, createPath: (string, string) -> string)
    requires IsUnder(dir, f) && forall g :: g in rest ==> IsUnder(dir, g)
    ensures IsPageFile(dir, f) ==>
      Discovered(dir, [f] + rest, createPath) == [AutoPage(dir, createPath, f)] + Discovered(dir, rest, createPath)
    ensures !IsPageFile(dir, f) ==> Discovered(dir, [f] + rest, createPath) == Discovered(dir, rest, createPath)
  {
    assert ([f] + rest)[0] == f && ([f] + rest)[1..] == rest;
  }

  /** A path without the letter `P` is not a template. */
  lemma NoTemplateWithoutP(rel: string)
    requires 'P' !in rel
    ensures !IsTemplate(rel)
  {
    if IsTemplate(rel) {
      assert "PAGE_TEMPLATE"[0] == 'P';
      IncludesMembers(rel, "PAGE_TEMPLATE", 'P');
    }
  }

  /** `path.relative` undoes joining a relative path onto the directory. */
  lemma RelativeOfJoined(dir: string, rel: string)
    ensures IsUnder(dir, dir + "/" + rel)
    ensures RelativePath(dir, dir + "/" + rel) == rel
  {
    var f := dir + "/" + rel;
    assert f[..|dir| + 1] == dir + "/";
  }

  lemma ScenarioTemplateMarker()
    ensures IsTemplate("blog/PAGE_TEMPLATE.js")
  {
    assert "blog/PAGE_TEMPLATE.js" == "blog/" + "PAGE_TEMPLATE" + ".js";
    IncludesInfix("blog/", "PAGE_TEMPLATE", ".js");
  }

  lemma ScenarioAbout()
    ensures IsPageFile("site/pages", "site/pages/about.js")
  {
    assert "site/pages" + "/" + "about.js" == "site/pages/about.js";
    RelativeOfJoined("site/pages", "about.js");
    NoTemplateWithoutP("about.js");
  }

  lemma ScenarioDraft()
    ensures IsUnder("site/pages", "site/pages/_draft.js") && !IsPageFile("site/pages", "site/pages/_draft.js")
  {
    assert "site/pages" + "/" + "_draft.js" == "site/pages/_draft.js";
    RelativeOfJoined("site/pages", "_draft.js");
  }

  lemma ScenarioTemplate()
    ensures IsUnder("site/pages", "site/pages/blog/PAGE_TEMPLATE.js")
    ensures !IsPageFile("site/pages", "site/pages/blog/PAGE_TEMPLATE.js")
  {
    assert "site/pages" + "/" + "blog/PAGE_TEMPLATE.js" == "site/pages/blog/PAGE_TEMPLATE.js";
    RelativeOfJoined("site/pages", "blog/PAGE_TEMPLATE.js");
    ScenarioTemplateMarker();
  }

  lemma ScenarioPost()
    ensures IsPageFile("site/pages", "site/pages/blog/post-1.js")
  {
    assert "site/pages" + "/" + "blog/post-1.js" == "site/pages/blog/post-1.js";
    RelativeOfJoined("site/pages", "blog/post-1.js");
    NoTemplateWithoutP("blog/post-1.js");
  }

  /** Discovery over four files of which the first and the last are page files. */
  lemma DiscoveredFirstAndLast(dir: string, a: string, d: string, t: string, p: string,
                               createPath: (string, string) -> string)
    requires IsPageFile(dir, a) && IsPageFile(dir, p)
    requires IsUnder(dir, d) && !IsPageFile(dir, d) && IsUnder(dir, t) && !IsPageFile(dir, t)
    ensures Discovered(dir, [a, d, t, p], createPath) == [AutoPage(dir, createPath, a), AutoPage(dir, createPath, p)]
  {
    var empty: seq<string> := [];
    DiscoveredCons(dir, p, empty, createPath);
    assert [p] + empty == [p];
    DiscoveredCons(dir, t, [p], createPath);
    DiscoveredCons(dir, d, [t, p], createPath);
    DiscoveredCons(dir, a, [d, t, p], createPath);
    assert [t] + [p] == [t, p] && [d] + [t, p] == [d, t, p] && [a] + [d, t, p] == [a, d, t, p];
  }

  /** A pages directory with a plain page, a private file, a template and a
      nested page: only the plain and the nested page are discovered. */
  lemma ScenarioDiscovery(createPath: (string, string) -> string)
    ensures Discovered("site/pages", ["site/pages/about.js", "site/pages/_draft.js",
                                      "site/pages/blog/PAGE_TEMPLATE.js", "site/pages/blog/post-1.js"], createPath)
         == [AutoPage("site/pages", createPath, "site/pages/about.js"),
             AutoPage("site/pages", createPath, "site/pages/blog/post-1.js")]
  {
    ScenarioAbout();
    ScenarioDraft();
    ScenarioTemplate();
    ScenarioPost();
    DiscoveredFirstAndLast("site/pages", "site/pages/about.js", "site/pages/_draft.js",
                           "site/pages/blog/PAGE_TEMPLATE.js", "site/pages/blog/post-1.js", createPath);
  }
}
