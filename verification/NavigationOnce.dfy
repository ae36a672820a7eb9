/** Which pages the navigation lists: a conservation law over every trie, and the
    exact condition for "every page exactly once". */
module NavigationOnce {
  import opened Wrappers
  import opened Ordering
  import opened Navigation

  // ----- what is listed, held and lost -----------------------------------------

  /** The slugs a tree exposes; a group header exposes none. */
  function One(slug: string): multiset<string> {
    if slug == "" then multiset{} else multiset{slug}
  }

  function Listed(nodes: seq<NavNode>): multiset<string> {
    if nodes == [] then multiset{}
    else One(nodes[0].slug) + Listed(nodes[0].children) + Listed(nodes[1..])
  }

  function SlugOf(page: Option<Page>): multiset<string> {
    if page.Some? then One(page.value.slug) else multiset{}
  }

  /** The slugs of all the pages in a trie. */
  function Held(f: Folder): multiset<string>
    decreases f, 1, 0
  {
    SlugOf(f.page) + HeldIn(f, f.children.Keys)
  }

  function HeldIn(f: Folder, keys: set<string>): multiset<string>
    requires keys <= f.children.Keys
    decreases f, 0, |keys|
  {
    if keys == {} then multiset{}
    else
      var k := Least(keys);
      Held(f.children[k]) + HeldIn(f, keys - {k})
  }

  /** The slugs of the pages nested below an adopted index. */
  function Lost(f: Folder): multiset<string>
    decreases f, 1, 0
  {
    LostIn(f, f.children.Keys, Adopts(f))
  }

  function LostIn(f: Folder, keys: set<string>, adopts: bool): multiset<string>
    requires keys <= f.children.Keys
    decreases f, 0, |keys|
  {
    if keys == {} then multiset{}
    else
      var k := Least(keys);
      LostAt(f, k, adopts) + LostIn(f, keys - {k}, adopts)
  }

  function LostAt(f: Folder, k: string, adopts: bool): multiset<string>
    requires k in f.children
    decreases f, 0, 0
  {
    var c := f.children[k];
    if adopts && k == "index" then HeldIn(c, c.children.Keys) else Lost(c)
  }

  lemma {:induction false} ListedInserts(x: NavNode, nodes: seq<NavNode>)
    ensures Listed(InsertSorted(ByTitle, x, nodes)) == Listed([x] + nodes)
  {
    assert ([x] + nodes)[1..] == nodes;
    if |nodes| > 0 && !ByTitle(x, nodes[0]) {
      ListedInserts(x, nodes[1..]);
      assert ([x] + nodes[1..])[1..] == nodes[1..];
      assert ([nodes[0]] + InsertSorted(ByTitle, x, nodes[1..]))[1..] == InsertSorted(ByTitle, x, nodes[1..]);
    }
  }

  lemma {:induction false} ListedSorts(nodes: seq<NavNode>)
    ensures Listed(Sort(ByTitle, nodes)) == Listed(nodes)
  {
    if |nodes| > 0 {
      ListedSorts(nodes[1..]);
      ListedInserts(nodes[0], Sort(ByTitle, nodes[1..]));
      assert ([nodes[0]] + Sort(ByTitle, nodes[1..]))[1..] == Sort(ByTitle, nodes[1..]);
    }
  }

  lemma ListedSingle(node: NavNode, rest: seq<NavNode>)
    ensures Listed([node] + rest) == One(node.slug) + Listed(node.children) + Listed(rest)
  {
  }

  /** The slug an adopted index gives to its folder, when it is among these keys. */
  function Adopted(f: Folder, keys: set<string>, adopts: bool): multiset<string>
    requires keys <= f.children.Keys
  {
    if adopts && "index" in keys then SlugOf(f.children["index"].page) else multiset{}
  }

  /** What one node shows: its landing page, and what its children list. */
  lemma NodeShows(segment: string, f: Folder, prefix: seq<string>)
    ensures One(NodeFor(segment, f, prefix).slug) == SlugOf(f.page) + Adopted(f, f.children.Keys, Adopts(f))
    ensures Listed(NodeFor(segment, f, prefix).children) == Listed(ChildNodes(f, f.children.Keys, prefix, Adopts(f)))
  {
    ListedSorts(ChildNodes(f, f.children.Keys, prefix, Adopts(f)));
  }

  lemma Shuffle(own: multiset<string>, index: multiset<string>, listed: multiset<string>, lost: multiset<string>,
                held: multiset<string>)
    requires listed + lost + index == held
    ensures own + index + listed + lost == own + held
  {
  }

  /** Every page a folder holds is listed in its node exactly once or was nested
      below an index the folder, or one inside it, adopted. */
  lemma {:induction false} NothingElseIsLost(segment: string, f: Folder, prefix: seq<string>)
    ensures One(NodeFor(segment, f, prefix).slug) + Listed(NodeFor(segment, f, prefix).children) + Lost(f) == Held(f)
    decreases f, 1, 0
  {
    var keys, adopts := f.children.Keys, Adopts(f);
    NodeShows(segment, f, prefix);
    ChildrenAreListed(f, keys, prefix, adopts);
    Shuffle(SlugOf(f.page), Adopted(f, keys, adopts), Listed(ChildNodes(f, keys, prefix, adopts)),
            LostIn(f, keys, adopts), HeldIn(f, keys));
  }

  function ListedAt(f: Folder, k: string, prefix: seq<string>, adopts: bool): multiset<string>
    requires k in f.children
  {
    var node := NodeFor(k, f.children[k], prefix + [k]);
    if adopts && k == "index" then multiset{} else One(node.slug) + Listed(node.children)
  }

  function AdoptedAt(f: Folder, k: string, adopts: bool): multiset<string>
    requires k in f.children
  {
    if adopts && k == "index" then SlugOf(f.children[k].page) else multiset{}
  }

  /** Two balanced accounts pooled. */
  lemma Pool(a: multiset<string>, b: multiset<string>, c: multiset<string>, h: multiset<string>,
             d: multiset<string>, e: multiset<string>, g: multiset<string>, i: multiset<string>)
    requires a + b + c == h && d + e + g == i
    ensures (a + d) + (b + e) + (c + g) == h + i
  {
  }

  /** What the first child contributes to each account. */
  lemma FirstChild(f: Folder, keys: set<string>, prefix: seq<string>, adopts: bool)
    requires keys <= f.children.Keys && keys != {}
    ensures var k := Least(keys);
            var others := keys - {k};
            && HeldIn(f, keys) == Held(f.children[k]) + HeldIn(f, others)
            && LostIn(f, keys, adopts) == LostAt(f, k, adopts) + LostIn(f, others, adopts)
            && Adopted(f, keys, adopts) == AdoptedAt(f, k, adopts) + Adopted(f, others, adopts)
            && Listed(ChildNodes(f, keys, prefix, adopts))
               == ListedAt(f, k, prefix, adopts) + Listed(ChildNodes(f, others, prefix, adopts))
  {
    var k := Least(keys);
    var rest := ChildNodes(f, keys - {k}, prefix, adopts);
    if adopts && k == "index" {
      assert [] + rest == rest;
    } else {
      ListedSingle(NodeFor(k, f.children[k], prefix + [k]), rest);
    }
  }

  lemma {:induction false} ChildIsListed(f: Folder, k: string, prefix: seq<string>, adopts: bool)
    requires k in f.children
    ensures ListedAt(f, k, prefix, adopts) + LostAt(f, k, adopts) + AdoptedAt(f, k, adopts) == Held(f.children[k])
    decreases f, 0, 0
  {
    if !(adopts && k == "index") {
      NothingElseIsLost(k, f.children[k], prefix + [k]);
    }
  }

  lemma {:induction false} ChildrenAreListed(f: Folder, keys: set<string>, prefix: seq<string>, adopts: bool)
    requires keys <= f.children.Keys
    ensures Listed(ChildNodes(f, keys, prefix, adopts)) + LostIn(f, keys, adopts) + Adopted(f, keys, adopts)
         == HeldIn(f, keys)
    decreases f, 0, |keys|
  {
    if keys != {} {
      var k := Least(keys);
      var others := keys - {k};
      FirstChild(f, keys, prefix, adopts);
      ChildIsListed(f, k, prefix, adopts);
      ChildrenAreListed(f, others, prefix, adopts);
      Pool(ListedAt(f, k, prefix, adopts), LostAt(f, k, adopts), AdoptedAt(f, k, adopts), Held(f.children[k]),
           Listed(ChildNodes(f, others, prefix, adopts)), LostIn(f, others, adopts), Adopted(f, others, adopts),
           HeldIn(f, others));
    }
  }

  function LostBelow(root: Folder): multiset<string> {
    LostIn(root, root.children.Keys, false)
  }

  lemma NavigationConserves(root: Folder)
    requires root.page.None?
    ensures Listed(Navigate(root)) + LostBelow(root) == Held(root)
  {
    ListedSorts(ChildNodes(root, root.children.Keys, [], false));
    ChildrenAreListed(root, root.children.Keys, [], false);
  }

  // ----- lookup -------------------------------------------------------------------

  function Lookup(f: Folder, path: seq<string>): Option<Page>
    decreases |path|
  {
    if |path| == 0 then f.page
    else if path[0] in f.children then Lookup(f.children[path[0]], path[1..])
    else None
  }

  lemma {:induction false} EmptyHoldsNothing(path: seq<string>)
    ensures Lookup(EMPTY, path) == None && Held(EMPTY) == multiset{}
  {
  }

  lemma {:induction false} LookupInsert(f: Folder, at: seq<string>, page: Page, path: seq<string>)
    ensures Lookup(Insert(f, at, page), path) == if path == at then Some(page) else Lookup(f, path)
    decreases |at|
  {
    if |at| > 0 && |path| > 0 && at[0] == path[0] {
      assert at == [at[0]] + at[1..] && path == [path[0]] + path[1..];
      EmptyHoldsNothing(path[1..]);
      LookupInsert(ChildOf(f, at[0]), at[1..], page, path[1..]);
    }
  }

  /** Any one child may be counted first. */
  lemma {:induction false} HeldOneFirst(f: Folder, keys: set<string>, k: string)
    requires keys <= f.children.Keys && k in keys
    ensures HeldIn(f, keys) == Held(f.children[k]) + HeldIn(f, keys - {k})
    decreases |keys|
  {
    var l := Least(keys);
    if k != l {
      HeldOneFirst(f, keys - {l}, k);
      var both := keys - {k, l};
      assert keys - {l} - {k} == both && keys - {k} - {l} == both;
      forall j | j in keys - {k} ensures NotAfter(l, j) {
      }
      LeastOf(keys - {k}, l);
    }
  }

  lemma LeastOf(keys: set<string>, l: string)
    requires l in keys && forall j :: j in keys ==> NotAfter(l, j)
    ensures Least(keys) == l
  {
    BeforeIsTotal(l, Least(keys));
  }

  lemma {:induction false} HeldSame(f: Folder, g: Folder, keys: set<string>)
    requires keys <= f.children.Keys && keys <= g.children.Keys
    requires forall k :: k in keys ==> f.children[k] == g.children[k]
    ensures HeldIn(f, keys) == HeldIn(g, keys)
    decreases |keys|
  {
    if keys != {} {
      HeldSame(f, g, keys - {Least(keys)});
    }
  }

  /** Two balances that share a pair of accounts combine. */
  lemma Balance(g: multiset<string>, f: multiset<string>, c: multiset<string>, d: multiset<string>,
                displaced: multiset<string>, added: multiset<string>)
    requires d + displaced == c + added && g + c == f + d
    ensures g + displaced == f + added
  {
    forall x ensures (g + displaced)[x] == (f + added)[x] {
      assert (d + displaced)[x] == (c + added)[x] && (g + c)[x] == (f + d)[x];
    }
  }

  lemma HeldWithout(f: Folder, k: string)
    ensures Held(f) == Held(ChildOf(f, k)) + (SlugOf(f.page) + HeldIn(f, f.children.Keys - {k}))
  {
    if k in f.children {
      HeldOneFirst(f, f.children.Keys, k);
    } else {
      assert f.children.Keys - {k} == f.children.Keys;
      EmptyHoldsNothing([]);
    }
  }

  lemma HeldWithChild(f: Folder, k: string, c: Folder)
    ensures Held(f.(children := f.children[k := c])) + Held(ChildOf(f, k)) == Held(f) + Held(c)
  {
    var g := f.(children := f.children[k := c]);
    assert g.children.Keys - {k} == f.children.Keys - {k};
    HeldWithout(g, k);
    HeldWithout(f, k);
    HeldSame(f, g, f.children.Keys - {k});
  }

  /** Inserting a page adds its slug and takes away that of the page it displaces. */
  lemma {:induction false} HeldInsert(f: Folder, path: seq<string>, page: Page)
    ensures Held(Insert(f, path, page)) + SlugOf(Lookup(f, path)) == Held(f) + One(page.slug)
    decreases |path|
  {
    if |path| == 0 {
      HeldSame(f, Insert(f, path, page), f.children.Keys);
    } else {
      var c := ChildOf(f, path[0]);
      var d := Insert(c, path[1..], page);
      HeldInsert(c, path[1..], page);
      EmptyHoldsNothing(path[1..]);
      HeldWithChild(f, path[0], d);
      Balance(Held(Insert(f, path, page)), Held(f), Held(c), Held(d), SlugOf(Lookup(f, path)), One(page.slug));
    }
  }

  // ----- the pages -------------------------------------------------------------------

  function Slugs(pages: seq<Page>): multiset<string> {
    if |pages| == 0 then multiset{} else Slugs(pages[..|pages| - 1]) + multiset{pages[|pages| - 1].slug}
  }

  /** The last page given for a path. */
  function PageAt(pages: seq<Page>, path: seq<string>): Option<Page> {
    if |pages| == 0 then None
    else
      var last := pages[|pages| - 1];
      if path != [] && PathOf(last) == path then Some(last) else PageAt(pages[..|pages| - 1], path)
  }

  ghost predicate Placeable(pages: seq<Page>) {
    && (forall i :: 0 <= i < |pages| ==> PathOf(pages[i]) != [])
    && (forall i, j :: 0 <= i < j < |pages| ==> PathOf(pages[i]) != PathOf(pages[j]))
  }

  lemma {:induction false} LookupBuild(pages: seq<Page>, path: seq<string>)
    ensures Lookup(Build(pages), path) == PageAt(pages, path)
  {
    if |pages| == 0 {
      EmptyHoldsNothing(path);
    } else {
      var before, last := pages[..|pages| - 1], pages[|pages| - 1];
      LookupBuild(before, path);
      if PathOf(last) != [] {
        LookupInsert(Build(before), PathOf(last), last, path);
      }
    }
  }

  lemma {:induction false} PageAtMeans(pages: seq<Page>, path: seq<string>)
    ensures PageAt(pages, path).Some? ==>
              && path != []
              && exists i :: 0 <= i < |pages| && pages[i] == PageAt(pages, path).value && PathOf(pages[i]) == path
    ensures PageAt(pages, path).None? ==> path == [] || forall i :: 0 <= i < |pages| ==> PathOf(pages[i]) != path
  {
    if |pages| > 0 {
      var n := |pages| - 1;
      PageAtMeans(pages[..n], path);
      if PageAt(pages[..n], path).Some? && !(path != [] && PathOf(pages[n]) == path) {
        var i :| 0 <= i < n && pages[..n][i] == PageAt(pages[..n], path).value && PathOf(pages[..n][i]) == path;
        assert pages[i] == pages[..n][i];
      }
      if PageAt(pages, path).None? && path != [] {
        forall i | 0 <= i < |pages| ensures PathOf(pages[i]) != path {
          if i < n {
            assert pages[i] == pages[..n][i];
          }
        }
      }
    }
  }

  lemma PathMeansSlug(page: Page)
    ensures PathOf(page) != [] ==> page.slug != ""
  {
  }

  lemma PlaceableStep(before: seq<Page>, last: Page)
    ensures Placeable(before + [last])
       <==> Placeable(before) && PathOf(last) != [] && PageAt(before, PathOf(last)).None?
  {
    var pages, n := before + [last], |before|;
    PageAtMeans(before, PathOf(last));
    assert pages[n] == last && forall i :: 0 <= i < n ==> pages[i] == before[i];
    if Placeable(pages) {
      assert forall i, j :: 0 <= i < j < n ==> PathOf(pages[i]) != PathOf(pages[j]);
      assert forall i :: 0 <= i < n ==> PathOf(pages[i]) != PathOf(pages[n]);
    }
  }

  /** One more page: the trie holds its slug too, unless it had no path or took
      the place of an earlier page. */
  lemma HeldPlace(before: seq<Page>, last: Page)
    ensures var at := PageAt(before, PathOf(last));
            && (PathOf(last) != [] && at.None? ==>
                  Held(Place(Build(before), last)) == Held(Build(before)) + multiset{last.slug})
            && (PathOf(last) == [] || at.Some? ==> |Held(Place(Build(before), last))| == |Held(Build(before))|)
  {
    var at := PageAt(before, PathOf(last));
    if PathOf(last) != [] {
      HeldInsert(Build(before), PathOf(last), last);
      LookupBuild(before, PathOf(last));
      PageAtMeans(before, PathOf(last));
      PathMeansSlug(last);
      if at.Some? {
        PathMeansSlug(at.value);
        SameCount(Held(Place(Build(before), last)), at.value.slug, Held(Build(before)), last.slug);
      }
    }
  }

  lemma SameCount(a: multiset<string>, x: string, b: multiset<string>, y: string)
    requires a + multiset{x} == b + multiset{y}
    ensures |a| == |b|
  {
    assert |a + multiset{x}| == |a| + 1 && |b + multiset{y}| == |b| + 1;
  }

  /** The trie holds every page given exactly when each has a path of its own. */
  lemma {:induction false} HeldBuild(pages: seq<Page>)
    ensures |Held(Build(pages))| <= |pages|
    ensures Placeable(pages) ==> Held(Build(pages)) == Slugs(pages)
    ensures !Placeable(pages) ==> |Held(Build(pages))| < |pages|
  {
    if |pages| == 0 {
      EmptyHoldsNothing([]);
    } else {
      var before, last := pages[..|pages| - 1], pages[|pages| - 1];
      assert pages == before + [last];
      HeldBuild(before);
      PlaceableStep(before, last);
      HeldPlace(before, last);
    }
  }

  // ----- what is lost, in terms of the pages -------------------------------------------

  /** A page at `folder`/index/`rest`, where `folder` adopts its index. */
  ghost predicate Hidden(f: Folder, folder: seq<string>, rest: seq<string>) {
    && rest != []
    && Lookup(f, folder).None?
    && Lookup(f, folder + ["index"]).Some?
    && Lookup(f, folder + ["index"] + rest).Some?
  }

  /** No page in the trie has an empty slug. */
  ghost predicate Slugged(f: Folder) {
    forall path :: Lookup(f, path).Some? ==> Lookup(f, path).value.slug != ""
  }

  lemma SluggedChild(f: Folder, k: string)
    requires Slugged(f) && k in f.children
    ensures Slugged(f.children[k])
  {
    forall path | Lookup(f.children[k], path).Some? ensures Lookup(f.children[k], path).value.slug != "" {
      LookupDown(f, k, path);
    }
  }

  lemma LookupDown(f: Folder, k: string, path: seq<string>)
    requires k in f.children
    ensures Lookup(f, [k] + path) == Lookup(f.children[k], path)
  {
  }

  /** A page that can be looked up is held. */
  lemma {:induction false} FoundIsHeld(f: Folder, path: seq<string>)
    requires Lookup(f, path).Some? && Lookup(f, path).value.slug != ""
    ensures Lookup(f, path).value.slug in Held(f)
    ensures path != [] ==> Lookup(f, path).value.slug in HeldIn(f, f.children.Keys)
    decreases |path|
  {
    if |path| > 0 {
      FoundIsHeld(f.children[path[0]], path[1..]);
      HeldOneFirst(f, f.children.Keys, path[0]);
    }
  }

  /** And whatever is held can be looked up. */
  lemma {:induction false} HeldIsFound(f: Folder, slug: string) returns (path: seq<string>)
    requires slug in Held(f)
    ensures Lookup(f, path).Some? && Lookup(f, path).value.slug == slug
    decreases f, 1, 0
  {
    if slug in SlugOf(f.page) {
      path := [];
    } else {
      path := HeldInIsFound(f, f.children.Keys, slug);
    }
  }

  lemma {:induction false} HeldInIsFound(f: Folder, keys: set<string>, slug: string) returns (path: seq<string>)
    requires keys <= f.children.Keys && slug in HeldIn(f, keys)
    ensures path != [] && Lookup(f, path).Some? && Lookup(f, path).value.slug == slug
    decreases f, 0, |keys|
  {
    var k := Least(keys);
    if slug in Held(f.children[k]) {
      var down := HeldIsFound(f.children[k], slug);
      LookupDown(f, k, down);
      path := [k] + down;
    } else {
      path := HeldInIsFound(f, keys - {k}, slug);
    }
  }

  lemma HiddenDown(f: Folder, k: string, folder: seq<string>, rest: seq<string>)
    requires k in f.children
    ensures Hidden(f, [k] + folder, rest) <==> Hidden(f.children[k], folder, rest)
    ensures Lookup(f, [k] + folder + ["index"] + rest) == Lookup(f.children[k], folder + ["index"] + rest)
  {
    LookupDown(f, k, folder);
    LookupDown(f, k, folder + ["index"]);
    LookupDown(f, k, folder + ["index"] + rest);
    assert [k] + folder + ["index"] == [k] + (folder + ["index"]);
    assert [k] + folder + ["index"] + rest == [k] + (folder + ["index"] + rest);
  }

  lemma IndexDown(f: Folder, rest: seq<string>)
    ensures Adopts(f) <==> Lookup(f, []).None? && Lookup(f, [] + ["index"]).Some?
    ensures Adopts(f) ==> Lookup(f, [] + ["index"] + rest) == Lookup(f.children["index"], rest)
  {
  }

  lemma {:induction false} LostInIsHidden(f: Folder, keys: set<string>, adopts: bool, slug: string)
    returns (folder: seq<string>, rest: seq<string>)
    requires keys <= f.children.Keys && slug in LostIn(f, keys, adopts) && (adopts ==> Adopts(f))
    ensures Hidden(f, folder, rest) && (folder == [] ==> adopts)
    decreases f, 0, |keys|
  {
    var k := Least(keys);
    if slug !in LostAt(f, k, adopts) {
      folder, rest := LostInIsHidden(f, keys - {k}, adopts, slug);
    } else if adopts && k == "index" {
      var c := f.children[k];
      folder := [];
      rest := HeldInIsFound(c, c.children.Keys, slug);
      IndexDown(f, rest);
    } else {
      var c := f.children[k];
      assert LostAt(f, k, adopts) == Lost(c);
      assert Lost(c) == LostIn(c, c.children.Keys, Adopts(c));
      folder, rest := LostInIsHidden(c, c.children.Keys, Adopts(c), slug);
      HiddenDown(f, k, folder, rest);
      folder := [k] + folder;
    }
  }

  lemma {:induction false} LostAtIsLost(f: Folder, keys: set<string>, k: string, adopts: bool, slug: string)
    requires keys <= f.children.Keys && k in keys && slug in LostAt(f, k, adopts)
    ensures slug in LostIn(f, keys, adopts)
    decreases |keys|
  {
    if Least(keys) != k {
      LostAtIsLost(f, keys - {Least(keys)}, k, adopts, slug);
    }
  }

  lemma {:induction false} HiddenIsLost(f: Folder, folder: seq<string>, rest: seq<string>, adopts: bool)
    requires Slugged(f) && Hidden(f, folder, rest)
    requires (folder == [] ==> adopts) && (adopts ==> Adopts(f))
    ensures Lookup(f, folder + ["index"] + rest).value.slug in LostIn(f, f.children.Keys, adopts)
    decreases |folder|
  {
    if folder == [] {
      IndexDown(f, rest);
      FoundIsHeld(f.children["index"], rest);
      LostAtIsLost(f, f.children.Keys, "index", adopts, Lookup(f, folder + ["index"] + rest).value.slug);
    } else {
      var k, down := folder[0], folder[1..];
      assert folder == [k] + down;
      assert (folder + ["index"])[0] == k;
      var c := f.children[k];
      SluggedChild(f, k);
      HiddenDown(f, k, down, rest);
      if adopts && k == "index" {
        FoundIsHeld(c, down + ["index"] + rest);
      } else {
        IndexDown(c, rest);
        HiddenIsLost(c, down, rest, Adopts(c));
      }
      LostAtIsLost(f, f.children.Keys, k, adopts, Lookup(f, folder + ["index"] + rest).value.slug);
    }
  }

  // ----- exactly once --------------------------------------------------------------------

  /** A page nested under an index that its folder, having no page of its own, adopts. */
  ghost predicate NestedUnderAdopted(pages: seq<Page>, folder: seq<string>, rest: seq<string>) {
    && folder != [] && rest != []
    && PageAt(pages, folder).None?
    && PageAt(pages, folder + ["index"]).Some?
    && PageAt(pages, folder + ["index"] + rest).Some?
  }

  ghost predicate NestsUnderAdopted(pages: seq<Page>) {
    exists folder, rest :: NestedUnderAdopted(pages, folder, rest)
  }

  lemma BuildIsSlugged(pages: seq<Page>)
    ensures Slugged(Build(pages)) && Build(pages).page.None?
  {
    forall path | Lookup(Build(pages), path).Some? ensures Lookup(Build(pages), path).value.slug != "" {
      LookupBuild(pages, path);
      PageAtMeans(pages, path);
      PathMeansSlug(PageAt(pages, path).value);
    }
    LookupBuild(pages, []);
    PageAtMeans(pages, []);
  }

  lemma LookupsAgree(pages: seq<Page>, folder: seq<string>, rest: seq<string>)
    ensures NestedUnderAdopted(pages, folder, rest) <==> folder != [] && Hidden(Build(pages), folder, rest)
  {
    LookupBuild(pages, folder);
    LookupBuild(pages, folder + ["index"]);
    LookupBuild(pages, folder + ["index"] + rest);
  }

  lemma LostMeansNested(pages: seq<Page>)
    ensures LostBelow(Build(pages)) == multiset{} <==> !NestsUnderAdopted(pages)
  {
    var root := Build(pages);
    BuildIsSlugged(pages);
    if NestsUnderAdopted(pages) {
      var folder, rest :| NestedUnderAdopted(pages, folder, rest);
      LookupsAgree(pages, folder, rest);
      HiddenIsLost(root, folder, rest, false);
    }
    if LostBelow(root) != multiset{} {
      var slug :| slug in LostBelow(root);
      var folder, rest := LostInIsHidden(root, root.children.Keys, false, slug);
      LookupsAgree(pages, folder, rest);
    }
  }

  lemma {:induction false} SlugsCount(pages: seq<Page>)
    ensures |Slugs(pages)| == |pages|
  {
    if |pages| > 0 {
      SlugsCount(pages[..|pages| - 1]);
    }
  }

  /** The navigation lists every page exactly once, and nothing besides, exactly when
      each page has a path of its own and none is nested under an adopted index. */
  lemma EveryPageExactlyOnce(pages: seq<Page>)
    ensures Listed(Navigate(Build(pages))) == Slugs(pages) <==> Placeable(pages) && !NestsUnderAdopted(pages)
  {
    var root := Build(pages);
    BuildIsSlugged(pages);
    NavigationConserves(root);
    HeldBuild(pages);
    SlugsCount(pages);
    LostMeansNested(pages);
    assert |Listed(Navigate(root))| + |LostBelow(root)| == |Held(root)|;
  }

  // ----- where the stated invariant fails ----------------------------------------------------------

  // The slugs b/index and b/index/c.
  const INDEX_PAGE := Page("Benches", Join(["b", "index"], "/"), "B/INDEX.md")
  const BELOW_PAGE := Page("Clamps", Join(["b", "index", "c"], "/"), "B/INDEX/C.md")

  ghost predicate HasNone(word: string, separators: set<char>) {
    forall c :: c in word ==> c !in separators
  }

  lemma {:induction false} SplitUpTo(word: string, at: char, rest: string, separators: set<char>)
    requires at in separators && HasNone(word, separators)
    ensures Split(word + [at] + rest, separators) == [word] + Split(rest, separators)
    ensures Split(word, separators) == [word]
  {
    var s := word + [at] + rest;
    if word == "" {
      assert s[1..] == rest;
    } else {
      assert word == [word[0]] + word[1..];
      SplitUpTo(word[1..], at, rest, separators);
      assert s[1..] == word[1..] + [at] + rest;
    }
  }

  lemma {:induction false} NonEmptyKeeps(parts: seq<string>)
    requires "" !in parts
    ensures NonEmpty(parts) == parts
  {
    if |parts| > 0 {
      assert parts[0] in parts && forall w :: w in parts[1..] ==> w in parts;
      NonEmptyKeeps(parts[1..]);
    }
  }

  lemma {:induction false} SplitJoin(words: seq<string>, at: char, separators: set<char>)
    requires words != [] && at in separators && forall w :: w in words ==> HasNone(w, separators)
    ensures Split(Join(words, [at]), separators) == words
  {
    assert words[0] in words;
    if |words| == 1 {
      SplitUpTo(words[0], at, "", separators);
      assert words == [words[0]];
    } else {
      assert forall w :: w in words[1..] ==> w in words;
      SplitJoin(words[1..], at, separators);
      SplitUpTo(words[0], at, Join(words[1..], [at]), separators);
    }
  }

  /** A normalised slug is read back as the segments it was joined from. */
  lemma SegmentsOfJoin(words: seq<string>)
    requires words != [] && forall w :: w in words ==> w != "" && '/' !in w
    ensures Segments(Join(words, "/")) == words
  {
    SplitJoin(words, '/', {'/'});
    NonEmptyKeeps(words);
  }

  lemma {:induction false} NonEmptyJoins(a: seq<string>, b: seq<string>)
    ensures NonEmpty(a + b) == NonEmpty(a) + NonEmpty(b)
  {
    if a == [] {
      assert a + b == b;
    } else {
      assert (a + b)[1..] == a[1..] + b;
      NonEmptyJoins(a[1..], b);
    }
  }

  /** In any slug the segments are what stands between its slashes, in order, and nothing
      where nothing does: of a slug joined from these words and one more, those of the words
      and then that one, if it is not empty. */
  lemma SegmentsOfAny(words: seq<string>, last: string)
    requires words != [] && '/' !in last && forall w :: w in words ==> '/' !in w
    ensures Segments(Join(words + [last], "/")) == Segments(Join(words, "/")) + if last == "" then [] else [last]
    ensures Segments(last) == if last == "" then [] else [last]
  {
    SplitJoin(words, '/', {'/'});
    SplitJoin(words + [last], '/', {'/'});
    NonEmptyJoins(words, [last]);
    assert NonEmpty([last]) == if last == "" then [] else [last];
    SplitUpTo(last, '/', "", {'/'});
  }

  lemma ExamplePaths()
    ensures PathOf(INDEX_PAGE) == ["b", "index"] && PathOf(BELOW_PAGE) == ["b", "index", "c"]
  {
    assert |"b"| == 1 && |"index"| == 5 && |"c"| == 1;
    SegmentsOfJoin(["b", "index"]);
    SegmentsOfJoin(["b", "index", "c"]);
  }

  lemma NestedPair(index: Page, below: Page)
    requires PathOf(index) == ["b", "index"] && PathOf(below) == ["b", "index", "c"]
    ensures Placeable([index, below]) && NestsUnderAdopted([index, below])
  {
    var pages := [index, below];
    assert pages[0] == index && pages[1] == below;
    assert ["b"] + ["index"] == ["b", "index"] && ["b"] + ["index"] + ["c"] == ["b", "index", "c"];
    assert |["b"]| == 1 && |["b", "index"]| == 2 && |["b", "index", "c"]| == 3;
    PageAtMeans(pages, ["b"]);
    PageAtMeans(pages, ["b", "index"]);
    PageAtMeans(pages, ["b", "index", "c"]);
    assert NestedUnderAdopted(pages, ["b"], ["c"]);
  }

  /** Two pages, both loaded and served, of which the tree shows one: `b/index` is
      adopted by the folder `b`, and what is nested below it goes with it. */
  lemma AnAdoptedIndexDropsWhatIsBelowIt()
    ensures Listed(Navigate(Build([INDEX_PAGE, BELOW_PAGE]))) != Slugs([INDEX_PAGE, BELOW_PAGE])
    ensures Placeable([INDEX_PAGE, BELOW_PAGE])
  {
    ExamplePaths();
    NestedPair(INDEX_PAGE, BELOW_PAGE);
    EveryPageExactlyOnce([INDEX_PAGE, BELOW_PAGE]);
  }
}
