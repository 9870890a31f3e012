/** The page-registry part of the bootstrap function of lib/bootstrap/index.js:
    the pages plugins create are saved, then the discovered pages, and the
    result is handed to the `onPostCreatePages` hook, whose answer replaces
    the registry. */
module Bootstrap {
  import opened Seqs
  import opened OrderedMaps
  import opened Pages
  import opened Discovery

  /** The result of the `createPages` hook: `None` stands for `undefined` or
      `null`, the values `if (pages)` rejects. */
  datatype Option<T> = None | Some(value: T)

  /** The registry after `pagesDB(new Map([...pagesDB(), ...pagesMap]))`,
      where `pagesMap` holds the pages `ps`. */
  function SavePages(r: Registry, ps: seq<Page>): (r': Registry)
    requires r.Valid()
    ensures r'.Valid()
  {
    FromPagesKeys(ps);
    MergeKeys(r, FromPages(ps));
    Merge(r, FromPages(ps))
  }

  /** The registry after the pages the plugins created have been saved. */
  function CollectPhase(r: Registry, created: Option<seq<Page>>): (r': Registry)
    requires r.Valid()
    ensures r'.Valid()
  {
    match created
    case None => r
    case Some(ps) => SavePages(r, ps)
  }

  /** The registry after both save phases, before `onPostCreatePages`. */
  function Registered(r: Registry, created: Option<seq<Page>>, autoPages: seq<Page>): (r': Registry)
    requires r.Valid()
    ensures r'.Valid()
  {
    SavePages(CollectPhase(r, created), autoPages)
  }

  /** The in-memory page database (`pagesDB` in lib/utils/globals). */
  class PagesDB {
    var pages: Registry

    constructor(initial: Registry)
      ensures pages == initial
    {
      pages := initial;
    }

    /** Build a `Map` from `ps` and merge it over the current registry. */
    method Save(ps: seq<Page>)
      requires pages.Valid()
      modifies this
      ensures pages == SavePages(old(pages), ps)
    {
      var pagesMap := BuildPagesMap(ps);
      FromPagesKeys(ps);
      MergeKeys(pages, pagesMap);
      pages := Merge(pages, pagesMap);
    }

    /** `pagesDB(modifiedPages)`: replace the registry wholesale. */
    method Replace(r: Registry)
      modifies this
      ensures pages == r
    {
      pages := r;
    }
  }

  /** The bootstrap steps that concern pages, after `createPages` has
      answered `createdPages` and the glob has found `files`. */
  method Bootstrap(db: PagesDB, programDirectory: string, createdPages: Option<seq<Page>>,
                   files: seq<string>, createPath: (string, string) -> string,
                   onPostCreatePages: Registry -> Registry)
    requires db.pages.Valid()
    requires forall f :: f in files ==> IsUnder(PagesDirectory(programDirectory), f)
    modifies db
    ensures db.pages == onPostCreatePages(Registered(old(db.pages), createdPages,
                                                     Discovered(PagesDirectory(programDirectory), files, createPath)))
  {
    if createdPages.Some? {
      db.Save(createdPages.value);
    }
    var autoPages := AutoPathCreator(programDirectory, files, createPath);
    // An array is always truthy, so the discovered pages are always saved.
    db.Save(autoPages);
    var modifiedPages := onPostCreatePages(db.pages);
    db.Replace(modifiedPages);
  }

  /** Saving pages adds exactly their paths to the registry, keeps the order
      of the existing paths and appends the new ones in the order of their
      first occurrence in `ps`. */
  lemma SavePagesKeys(r: Registry, ps: seq<Page>)
    requires r.Valid()
    ensures forall k :: k in SavePages(r, ps).values <==> k in r.values || k in Paths(ps)
    ensures SavePages(r, ps).keys == r.keys + NewElements(Paths(ps), r.values.Keys)
  {
    var m := FromPages(ps);
    FromPagesKeys(ps);
    MergeKeys(r, m);
    MergeValues(r, m);
    NewElementsTwice(Paths(ps), {}, r.values.Keys);
  }

  /** Paths none of the saved pages has keep their page. */
  lemma SavePagesKeepsOthers(r: Registry, ps: seq<Page>, k: string)
    requires r.Valid()
    requires k in r.values && k !in Paths(ps)
    ensures k in SavePages(r, ps).values && SavePages(r, ps).values[k] == r.values[k]
  {
    FromPagesKeys(ps);
    MergeValues(r, FromPages(ps));
  }

  /** Under each saved path the registry holds the last page in `ps` with that path. */
  lemma SavePagesLastWriter(r: Registry, ps: seq<Page>, i: nat)
    requires r.Valid()
    requires i < |ps|
    requires forall j :: i < j < |ps| ==> ps[j].path != ps[i].path
    ensures ps[i].path in SavePages(r, ps).values
    ensures SavePages(r, ps).values[ps[i].path] == ps[i]
  {
    FromPagesKeys(ps);
    FromPagesLastWriter(ps, i);
    MergeValues(r, FromPages(ps));
  }

  /** Under each saved path the registry holds one of the saved pages, and
      that page has the path. */
  lemma SavePagesListed(r: Registry, ps: seq<Page>, k: string)
    requires r.Valid()
    requires k in Paths(ps)
    ensures k in SavePages(r, ps).values
    ensures SavePages(r, ps).values[k] in ps && SavePages(r, ps).values[k].path == k
  {
    FromPagesKeys(ps);
    FromPagesValuesListed(ps, k);
    MergeValues(r, FromPages(ps));
  }

  /** An empty `createPages` answer leaves the registry as it was, as a
      missing one does. */
  lemma CollectNothing(r: Registry)
    requires r.Valid()
    ensures CollectPhase(r, None) == r
    ensures CollectPhase(r, Some([])) == r
  {
    assert PageEntries([]) == [];
    assert FromPages([]) == Empty();
    MergeEmptyRight(r);
  }

  /** After both phases, every discovered path holds a discovered page,
      whatever the plugins created under the same path. */
  lemma AutoPagesWin(r: Registry, created: Option<seq<Page>>, autoPages: seq<Page>, k: string)
    requires r.Valid()
    requires k in Paths(autoPages)
    ensures k in Registered(r, created, autoPages).values
    ensures Registered(r, created, autoPages).values[k] in autoPages
    ensures Registered(r, created, autoPages).values[k].path == k
  {
    SavePagesListed(CollectPhase(r, created), autoPages, k);
  }

  /** The route of every page file holds a discovered page with that route,
      rendered from one of the files, whatever the plugins created. */
  lemma DiscoveredRoutesWin(r: Registry, created: Option<seq<Page>>, dir: string, files: seq<string>,
                            createPath: (string, string) -> string, f: string)
    requires r.Valid()
    requires forall g :: g in files ==> IsUnder(dir, g)
    requires f in files && IsPageFile(dir, f)
    ensures var reg, k := Registered(r, created, Discovered(dir, files, createPath)), createPath(dir, f);
      k in reg.values && reg.values[k] in Discovered(dir, files, createPath) && reg.values[k].path == k &&
      reg.values[k].component in files && IsPageFile(dir, reg.values[k].component)
  {
    var auto := Discovered(dir, files, createPath);
    var p := AutoPage(dir, createPath, f);
    DiscoveredComplete(dir, files, createPath, f);
    var i :| 0 <= i < |auto| && auto[i] == p;
    assert Paths(auto)[i] == p.path;
    AutoPagesWin(r, created, auto, p.path);
    DiscoveredPages(dir, files, createPath);
  }

  /** A path the plugins created and discovery did not produce holds the
      last plugin page with that path. */
  lemma PluginPagesKept(r: Registry, ps: seq<Page>, autoPages: seq<Page>, i: nat)
    requires r.Valid()
    requires i < |ps|
    requires forall j :: i < j < |ps| ==> ps[j].path != ps[i].path
    requires ps[i].path !in Paths(autoPages)
    ensures ps[i].path in Registered(r, Some(ps), autoPages).values
    ensures Registered(r, Some(ps), autoPages).values[ps[i].path] == ps[i]
  {
    SavePagesLastWriter(r, ps, i);
    SavePagesKeepsOthers(SavePages(r, ps), autoPages, ps[i].path);
  }

  /** After both phases the registry lists the paths it had, in their order,
      then the new plugin paths, then the new discovered paths. */
  lemma RegisteredKeys(r: Registry, ps: seq<Page>, autoPages: seq<Page>)
    requires r.Valid()
    ensures forall k :: k in Registered(r, Some(ps), autoPages).values <==>
      k in r.values || k in Paths(ps) || k in Paths(autoPages)
    ensures Registered(r, Some(ps), autoPages).keys
         == r.keys + NewElements(Paths(ps), r.values.Keys)
                   + NewElements(Paths(autoPages), r.values.Keys + Elements(Paths(ps)))
  {
    var r1 := SavePages(r, ps);
    SavePagesKeys(r, ps);
    SavePagesKeys(r1, autoPages);
    assert r1.values.Keys == r.values.Keys + Elements(Paths(ps));
  }

  /** A plugin page and a discovered page claiming the same path: the
      discovered page is kept. */
  lemma SamePathScenario(r: Registry, plugin: Page, auto: Page)
    requires r == Empty()
    requires plugin == Page("/x/", "x-plugin.js", map[]) && auto == Page("/x/", "pages/x.js", map[])
    ensures "/x/" in Registered(r, Some([plugin]), [auto]).values
    ensures Registered(r, Some([plugin]), [auto]).values["/x/"] == auto
  {
    SavePagesLastWriter(CollectPhase(r, Some([plugin])), [auto], 0);
  }

  /** In the same scenario the path is listed once. */
  lemma SamePathScenarioKeys(r: Registry, plugin: Page, auto: Page)
    requires r == Empty()
    requires plugin == Page("/x/", "x-plugin.js", map[]) && auto == Page("/x/", "pages/x.js", map[])
    ensures Registered(r, Some([plugin]), [auto]).keys == ["/x/"]
  {
    assert Paths([auto]) == ["/x/"] && Paths([plugin]) == ["/x/"];
    RegisteredKeys(r, [plugin], [auto]);
    assert r.keys == [] && r.values.Keys == {};
    assert NewElements(["/x/"], {}) == ["/x/"];
    assert Elements(["/x/"]) == {"/x/"};
    assert NewElements(["/x/"], {"/x/"}) == [];
  }
}
