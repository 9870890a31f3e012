/** Page descriptors and the path-keyed `Map` built from a list of them
    (lib/bootstrap/index.js, the `pagesMap` blocks of the bootstrap function). */
module Pages {
  import opened Seqs
  import opened OrderedMaps

  /** One renderable page: its route, the component file it renders with, and
      whatever other fields a plugin attached, passed through untouched. */
  datatype Page = Page(path: string, component: string, context: map<string, string>)

  /** A registry of pages keyed by route, in insertion order. */
  type Registry = OrderedMap<string, Page>

  /** The routes of a list of pages, in order and with repetitions. */
  function Paths(ps: seq<Page>): seq<string>
  {
    seq(|ps|, i requires 0 <= i < |ps| => ps[i].path)
  }

  /** The entries `pagesMap.set(page.path, page)` inserts, in order. */
  function PageEntries(ps: seq<Page>): seq<(string, Page)>
  {
    seq(|ps|, i requires 0 <= i < |ps| => (ps[i].path, ps[i]))
  }

  /** The `Map` that results from `set(page.path, page)` for each page in turn. */
  function FromPages(ps: seq<Page>): Registry
  {
    FromEntries(PageEntries(ps))
  }

  /** `const pagesMap = new Map(); pages.forEach((page) => pagesMap.set(page.path, page))`. */
  method BuildPagesMap(pages: seq<Page>) returns (pagesMap: Registry)
    ensures pagesMap == FromPages(pages)
  {
    pagesMap := Empty();
    var i := 0;
    while i < |pages|
      invariant 0 <= i <= |pages|
      invariant pagesMap == FromEntries(PageEntries(pages)[..i])
    {
      ghost var es := PageEntries(pages);
      assert es[..i + 1] == es[..i] + [es[i]];
      SetAllConcat(Empty(), es[..i], [es[i]]);
      pagesMap := pagesMap.Set(pages[i].path, pages[i]);
      i := i + 1;
    }
    assert PageEntries(pages)[..i] == PageEntries(pages);
  }

  lemma KeysOfPageEntries(ps: seq<Page>)
    ensures KeysOf(PageEntries(ps)) == Paths(ps)
  {
    KeysOfIndex(PageEntries(ps));
  }

  /** The map built from a page list is valid; its keys are exactly the
      distinct paths of the list, each at the place of its first occurrence. */
  lemma FromPagesKeys(ps: seq<Page>)
    ensures FromPages(ps).Valid()
    ensures forall k :: k in FromPages(ps).values <==> k in Paths(ps)
    ensures FromPages(ps).keys == FirstOccurrences(Paths(ps))
  {
    var e, es := Empty<string, Page>(), PageEntries(ps);
    KeysOfPageEntries(ps);
    SetAllValid(e, es);
    SetAllKeySet(e, es);
    SetAllKeyOrder(e, es);
    assert e.values.Keys == {};
  }

  /** For a duplicated path, the map holds the last page in the list with that path. */
  lemma FromPagesLastWriter(ps: seq<Page>, i: nat)
    requires i < |ps|
    requires forall j :: i < j < |ps| ==> ps[j].path != ps[i].path
    ensures ps[i].path in FromPages(ps).values
    ensures FromPages(ps).values[ps[i].path] == ps[i]
  {
    SetAllLastWriter(Empty(), PageEntries(ps), i);
  }

  /** Every page stored in the map is one of the listed pages, under its own path. */
  lemma {:induction false} FromPagesValuesListed(ps: seq<Page>, k: string)
    requires k in FromPages(ps).values
    ensures FromPages(ps).values[k] in ps
    ensures FromPages(ps).values[k].path == k
  {
    FromPagesKeys(ps);
    assert k in Paths(ps);
    var i := LastIndexOf(ps, k);
    FromPagesLastWriter(ps, i);
  }

  /** The index of the last page in `ps` whose path is `k`. */
  ghost function LastIndexOf(ps: seq<Page>, k: string): (i: nat)
    requires k in Paths(ps)
    ensures i < |ps| && ps[i].path == k
    ensures forall j :: i < j < |ps| ==> ps[j].path != k
  {
    var n := |ps| - 1;
    if ps[n].path == k then n
    else
      assert Paths(ps) == Paths(ps[..n]) + [ps[n].path];
      LastIndexOf(ps[..n], k)
  }
}
