/** Where each entry of the navigation stands and what it says: under the entry of the
    folder above it, all the way down from the top, with the title, link and path of the
    page at its own path or of the index inside it. */
module NavigationPlace {
  import opened Wrappers
  import opened Ordering
  import opened Navigation
  import opened NavigationOnce

  // ----- folders and chains of entries -------------------------------------------

  function At(f: Folder, path: seq<string>): Folder
    requires Exists(f, path)
    decreases |path|
  {
    if |path| == 0 then f else At(f.children[path[0]], path[1..])
  }

  lemma {:induction false} AtIsLookup(f: Folder, path: seq<string>)
    ensures Exists(f, path) ==> Lookup(f, path) == At(f, path).page
    ensures Lookup(f, path).Some? ==> Exists(f, path)
    decreases |path|
  {
    if |path| > 0 && path[0] in f.children {
      AtIsLookup(f.children[path[0]], path[1..]);
    }
  }

  /** What a folder's entry says: the title, link and path of the page at its path, or
      failing that of the index inside it; or else its own name, no link, and its path on
      disk. */
  ghost predicate Shows(n: NavNode, f: Folder, segment: string, depth: nat) {
    if f.page.Some? then
      n.title == f.page.value.title && n.slug == f.page.value.slug && n.path == f.page.value.path
    else if "index" in f.children && f.children["index"].page.Some? then
      var index := f.children["index"].page.value;
      n.title == index.title && n.slug == index.slug && n.path == index.path
    else n.title == Humanize(segment) && n.slug == "" && n.path == FolderPath(f, depth)
  }

  /** Each entry of the chain is among the children of the one before it, the first at
      the top. */
  ghost predicate LeadsDown(top: seq<NavNode>, chain: seq<NavNode>) {
    && |chain| > 0 && chain[0] in top
    && forall i :: 0 < i < |chain| ==> chain[i] in chain[i - 1].children
  }

  /** The entries of the chain are those of the folders along the path. */
  ghost predicate ShowsThePath(f: Folder, depth: nat, path: seq<string>, chain: seq<NavNode>) {
    |chain| == |path| && forall i: nat :: i < |path| ==> ShowsFolderAt(f, depth, path, chain, i)
  }

  /** The entry at `i` is that of the folder the path has come to. */
  ghost predicate ShowsFolderAt(f: Folder, depth: nat, path: seq<string>, chain: seq<NavNode>, i: nat) {
    && i < |path| == |chain|
    && Exists(f, path[..i + 1]) && Shows(chain[i], At(f, path[..i + 1]), path[i], depth + i + 1)
  }

  /** No folder on the path is an index that the one above it adopts; `adopts` says it of
      the first. */
  ghost predicate StandsApart(f: Folder, path: seq<string>, adopts: bool)
    requires Exists(f, path)
    decreases |path|
  {
    |path| > 0 ==> !(adopts && path[0] == "index")
                   && StandsApart(f.children[path[0]], path[1..], Adopts(f.children[path[0]]))
  }

  // ----- one level ------------------------------------------------------------------

  /** The children of a folder's entry are the entries of its folders, but for an index
      it adopts. */
  lemma {:induction false} ChildNodesMean(f: Folder, keys: set<string>, prefix: seq<string>, adopts: bool, n: NavNode)
    requires keys <= f.children.Keys
    ensures n in ChildNodes(f, keys, prefix, adopts) <==>
            exists k :: k in keys && !(adopts && k == "index") && n == NodeFor(k, f.children[k], prefix + [k])
    decreases |keys|
  {
    if keys != {} {
      ChildNodesMean(f, keys - {Least(keys)}, prefix, adopts, n);
    }
  }

  function EntriesOf(f: Folder, prefix: seq<string>, adopts: bool): seq<NavNode> {
    Sort(ByTitle, ChildNodes(f, f.children.Keys, prefix, adopts))
  }

  lemma EntriesMean(f: Folder, prefix: seq<string>, adopts: bool, n: NavNode)
    ensures n in EntriesOf(f, prefix, adopts) <==>
            exists k :: k in f.children && !(adopts && k == "index") && n == NodeFor(k, f.children[k], prefix + [k])
  {
    ChildNodesMean(f, f.children.Keys, prefix, adopts, n);
    SortIsPermutation(ByTitle, ChildNodes(f, f.children.Keys, prefix, adopts));
  }

  lemma NodeShows(segment: string, f: Folder, prefix: seq<string>)
    ensures Shows(NodeFor(segment, f, prefix), f, segment, |prefix|)
    ensures NodeFor(segment, f, prefix).children == EntriesOf(f, prefix, Adopts(f))
  {
  }

  lemma StepDown(f: Folder, k: string, path: seq<string>)
    requires k in f.children && Exists(f.children[k], path)
    ensures Exists(f, [k] + path) && At(f, [k] + path) == At(f.children[k], path)
  {
    assert ([k] + path)[1..] == path;
  }

  lemma PathDown(f: Folder, k: string, depth: nat, path: seq<string>, n: NavNode, chain: seq<NavNode>)
    requires k in f.children && Shows(n, f.children[k], k, depth + 1)
    requires ShowsThePath(f.children[k], depth + 1, path, chain)
    ensures ShowsThePath(f, depth, [k] + path, [n] + chain)
  {
    forall i: nat | i < |path| + 1 ensures ShowsFolderAt(f, depth, [k] + path, [n] + chain, i) {
      FolderDown(f, k, depth, path, n, chain, i);
    }
  }

  lemma FolderDown(f: Folder, k: string, depth: nat, path: seq<string>, n: NavNode, chain: seq<NavNode>, i: nat)
    requires k in f.children && Shows(n, f.children[k], k, depth + 1)
    requires |chain| == |path| && i <= |path|
    requires i > 0 ==> ShowsFolderAt(f.children[k], depth + 1, path, chain, i - 1)
    ensures ShowsFolderAt(f, depth, [k] + path, [n] + chain, i)
  {
    assert ([k] + path)[..i + 1] == [k] + path[..i];
    StepDown(f, k, path[..i]);
  }

  lemma ChainDown(top: seq<NavNode>, n: NavNode, chain: seq<NavNode>)
    requires n in top && (chain == [] || LeadsDown(n.children, chain))
    ensures LeadsDown(top, [n] + chain)
  {
    forall i | 0 < i < |[n] + chain| ensures ([n] + chain)[i] in ([n] + chain)[i - 1].children {
      assert ([n] + chain)[i] == chain[i - 1];
    }
  }

  // ----- every folder has its place ----------------------------------------------------

  lemma {:induction false} FolderStandsBelow(f: Folder, prefix: seq<string>, adopts: bool, path: seq<string>)
    returns (chain: seq<NavNode>)
    requires |path| > 0 && Exists(f, path) && StandsApart(f, path, adopts)
    ensures LeadsDown(EntriesOf(f, prefix, adopts), chain) && ShowsThePath(f, |prefix|, path, chain)
    decreases |path|
  {
    var k, c := path[0], f.children[path[0]];
    var n := NodeFor(k, c, prefix + [k]);
    EntriesMean(f, prefix, adopts, n);
    NodeShows(k, c, prefix + [k]);
    assert path == [k] + path[1..];
    if |path| == 1 {
      chain := [];
    } else {
      chain := FolderStandsBelow(c, prefix + [k], Adopts(c), path[1..]);
    }
    ChainDown(EntriesOf(f, prefix, adopts), n, chain);
    PathDown(f, k, |prefix|, path[1..], n, chain);
    chain := [n] + chain;
  }

  /** Every folder of the trie has its entry under those of the folders above it, from the
      top down, and each says what is at its path; unless an index adopted by the folder
      above is on the way. */
  lemma {:induction false} FolderStands(root: Folder, path: seq<string>) returns (chain: seq<NavNode>)
    requires |path| > 0 && Exists(root, path) && StandsApart(root, path, false)
    ensures LeadsDown(Navigate(root), chain) && ShowsThePath(root, 0, path, chain)
  {
    chain := FolderStandsBelow(root, [], false, path);
  }

  lemma ChainRest(top: seq<NavNode>, chain: seq<NavNode>)
    requires LeadsDown(top, chain) && |chain| > 1
    ensures LeadsDown(chain[0].children, chain[1..])
  {
    assert forall i :: 0 < i < |chain[1..]| ==> chain[1..][i] == chain[i + 1] && chain[1..][i - 1] == chain[i];
    assert chain[0 + 1] in chain[0].children;
  }

  /** The entry is that of some folder here. */
  lemma {:induction false} FolderOf(f: Folder, prefix: seq<string>, adopts: bool, n: NavNode) returns (k: string)
    requires n in EntriesOf(f, prefix, adopts)
    ensures k in f.children && !(adopts && k == "index")
    ensures Shows(n, f.children[k], k, |prefix| + 1)
    ensures n.children == EntriesOf(f.children[k], prefix + [k], Adopts(f.children[k]))
  {
    EntriesMean(f, prefix, adopts, n);
    k :| k in f.children && !(adopts && k == "index") && n == NodeFor(k, f.children[k], prefix + [k]);
    NodeShows(k, f.children[k], prefix + [k]);
  }

  lemma {:induction false} EntryHasAFolderBelow(f: Folder, prefix: seq<string>, adopts: bool, chain: seq<NavNode>)
    returns (path: seq<string>)
    requires LeadsDown(EntriesOf(f, prefix, adopts), chain)
    ensures Exists(f, path) && StandsApart(f, path, adopts) && ShowsThePath(f, |prefix|, path, chain)
    decreases |chain|
  {
    var n := chain[0];
    var k := FolderOf(f, prefix, adopts, n);
    var c := f.children[k];
    assert chain == [n] + chain[1..];
    if |chain| == 1 {
      path := [];
    } else {
      ChainRest(EntriesOf(f, prefix, adopts), chain);
      path := EntryHasAFolderBelow(c, prefix + [k], Adopts(c), chain[1..]);
    }
    PathDown(f, k, |prefix|, path, n, chain[1..]);
    assert ([k] + path)[1..] == path;
    path := [k] + path;
  }

  /** And every entry is that of such a folder: nothing stands anywhere else. */
  lemma {:induction false} EntryHasAFolder(root: Folder, chain: seq<NavNode>) returns (path: seq<string>)
    requires LeadsDown(Navigate(root), chain)
    ensures Exists(root, path) && StandsApart(root, path, false) && ShowsThePath(root, 0, path, chain)
  {
    path := EntryHasAFolderBelow(root, [], false, chain);
  }

  // ----- every page has its place --------------------------------------------------------

  lemma {:induction false} PrefixExists(f: Folder, path: seq<string>, n: nat)
    requires Exists(f, path) && n <= |path|
    ensures Exists(f, path[..n])
    ensures n < |path| ==> path[n] in At(f, path[..n]).children && Exists(f, path[..n + 1])
                           && At(f, path[..n + 1]) == At(f, path[..n]).children[path[n]]
    decreases |path|
  {
    if n > 0 {
      PrefixExists(f.children[path[0]], path[1..], n - 1);
      assert path[..n][1..] == path[1..][..n - 1];
      if n < |path| {
        assert path[..n + 1][1..] == path[1..][..n];
      }
    }
  }

  lemma {:induction false} ApartByPages(f: Folder, path: seq<string>)
    requires Exists(f, path)
    requires forall n: nat :: 0 < n < |path| && path[n] == "index" ==>
               !(Lookup(f, path[..n]).None? && Lookup(f, path[..n + 1]).Some?)
    ensures StandsApart(f, path, false)
    ensures forall adopts :: adopts && |path| > 0 && path[0] != "index" ==> StandsApart(f, path, adopts)
    decreases |path|
  {
    if |path| > 0 {
      var k := path[0];
      var c, rest := f.children[k], path[1..];
      forall n: nat | 0 < n < |rest| && rest[n] == "index"
        ensures !(Lookup(c, rest[..n]).None? && Lookup(c, rest[..n + 1]).Some?)
      {
        assert path[n + 1] == rest[n] && path[..n + 1] == [k] + rest[..n] && path[..n + 2] == [k] + rest[..n + 1];
        LookupDown(f, k, rest[..n]);
        LookupDown(f, k, rest[..n + 1]);
      }
      ApartByPages(c, rest);
      if |rest| > 0 && rest[0] == "index" {
        assert path[..1] == [k] + [] && path[..2] == [k] + ["index"] && path[1] == "index";
        LookupDown(f, k, []);
        LookupDown(f, k, ["index"]);
        AtIsLookup(c, ["index"]);
      }
    }
  }

  /** A folder on the path, down to the first `upTo` segments, is an index its folder
      adopts, in terms of the pages. */
  ghost predicate PassesAdopted(pages: seq<Page>, path: seq<string>, upTo: int) {
    exists n :: n < upTo && AdoptsAt(pages, path, n)
  }

  ghost predicate AdoptsAt(pages: seq<Page>, path: seq<string>, n: int) {
    && 0 < n < |path| && path[n] == "index"
    && PageAt(pages, path[..n]).None? && PageAt(pages, path[..n + 1]).Some?
  }

  lemma {:induction false} PathStands(pages: seq<Page>, path: seq<string>) returns (chain: seq<NavNode>)
    requires path != [] && Exists(Build(pages), path) && !PassesAdopted(pages, path, |path|)
    ensures LeadsDown(Navigate(Build(pages)), chain) && ShowsThePath(Build(pages), 0, path, chain)
  {
    var root := Build(pages);
    forall n: nat | 0 < n < |path| && path[n] == "index"
      ensures !(Lookup(root, path[..n]).None? && Lookup(root, path[..n + 1]).Some?)
    {
      LookupBuild(pages, path[..n]);
      LookupBuild(pages, path[..n + 1]);
      assert !AdoptsAt(pages, path, n);
    }
    ApartByPages(root, path);
    chain := FolderStands(root, path);
  }

  /** The entry has the page's own title, link and path. */
  ghost predicate IsEntryOf(n: NavNode, page: Page) {
    n.title == page.title && n.slug == page.slug && n.path == page.path
  }

  /** The page is the index of a folder without one, and so is shown as that folder. */
  ghost predicate IsAdopted(pages: seq<Page>, path: seq<string>) {
    |path| > 1 && path[|path| - 1] == "index" && PageAt(pages, path[..|path| - 1]).None?
  }

  lemma FolderOfThePath(pages: seq<Page>, path: seq<string>)
    requires path != [] && PageAt(pages, path).Some?
    ensures var root, n := Build(pages), |path| - 1;
            && Exists(root, path) && At(root, path).page == PageAt(pages, path)
            && Exists(root, path[..n]) && At(root, path[..n]).page == PageAt(pages, path[..n])
            && path[n] in At(root, path[..n]).children && At(root, path[..n]).children[path[n]] == At(root, path)
  {
    var root, n := Build(pages), |path| - 1;
    LookupBuild(pages, path);
    AtIsLookup(root, path);
    PrefixExists(root, path, n);
    assert path[..n + 1] == path;
    LookupBuild(pages, path[..n]);
    AtIsLookup(root, path[..n]);
  }

  lemma PassesNoMore(pages: seq<Page>, path: seq<string>)
    requires path != [] && PageAt(pages, path).Some? && !PassesAdopted(pages, path, |path| - 1)
    ensures IsAdopted(pages, path) ==> !PassesAdopted(pages, path[..|path| - 1], |path| - 1)
    ensures !IsAdopted(pages, path) ==> !PassesAdopted(pages, path, |path|)
  {
    var folder := path[..|path| - 1];
    forall m | 0 < m < |folder| ensures AdoptsAt(pages, folder, m) <==> AdoptsAt(pages, path, m) {
      assert folder[..m] == path[..m] && folder[..m + 1] == path[..m + 1];
    }
    assert path[..|path|] == path;
  }

  /** A page that no later one displaces, and that is nested under no adopted index, is
      shown with its own title, link and path, under one entry for each folder of its path;
      at its own path, or at its folder's if it is the index of a folder without a page. */
  lemma {:induction false} PageStands(pages: seq<Page>, page: Page) returns (chain: seq<NavNode>)
    requires PageAt(pages, PathOf(page)) == Some(page)
    requires PathOf(page) != [] && !PassesAdopted(pages, PathOf(page), |PathOf(page)| - 1)
    ensures LeadsDown(Navigate(Build(pages)), chain) && IsEntryOf(chain[|chain| - 1], page)
    ensures var path := PathOf(page);
            |chain| == (if IsAdopted(pages, path) then |path| - 1 else |path|)
            && ShowsThePath(Build(pages), 0, path[..|chain|], chain)
  {
    var path, n := PathOf(page), |PathOf(page)|;
    FolderOfThePath(pages, path);
    PassesNoMore(pages, path);
    var at := if IsAdopted(pages, path) then path[..n - 1] else path;
    chain := PathStands(pages, at);
    assert path[..|chain|] == at;
    LastShows(Build(pages), at, chain);
  }

  lemma LastShows(f: Folder, path: seq<string>, chain: seq<NavNode>)
    requires path != [] && ShowsThePath(f, 0, path, chain)
    ensures Exists(f, path) && Shows(chain[|chain| - 1], At(f, path), path[|path| - 1], |path|)
  {
    assert ShowsFolderAt(f, 0, path, chain, |path| - 1);
    assert path[..(|path| - 1) + 1] == path;
  }

  // ----- folders with no page of their own --------------------------------------------------

  /** The letter as it stands at the head of a word: a small one of the alphabet raised. */
  predicate IsRaised(c: char, r: char) {
    if 'a' <= c <= 'z' then r as int - 'A' as int == c as int - 'a' as int else r == c
  }

  /** Words joined by dashes or underscores become a heading: each with its first letter
      raised, and spaces between. */
  lemma HeadingOfWords(words: seq<string>, at: char)
    requires words != [] && at in {'-', '_'} && forall w :: w in words ==> w != "" && HasNone(w, {'-', '_'})
    ensures Humanize(Join(words, [at])) == Join(Capitalized(words), " ")
    ensures |Capitalized(words)| == |words|
    ensures forall i :: 0 <= i < |words| ==>
              words[i] != "" && |Capitalized(words)[i]| == |words[i]|
              && IsRaised(words[i][0], Capitalized(words)[i][0]) && Capitalized(words)[i][1..] == words[i][1..]
  {
    SplitJoin(words, at, {'-', '_'});
    NonEmptyKeeps(words);
    EachCapitalized(words);
  }

  lemma {:induction false} EachCapitalized(words: seq<string>)
    requires "" !in words
    ensures |Capitalized(words)| == |words|
    ensures forall i :: 0 <= i < |words| ==>
              words[i] != "" && Capitalized(words)[i] == [Upper(words[i][0])] + words[i][1..]
  {
    if words != [] {
      assert words == [words[0]] + words[1..];
      EachCapitalized(words[1..]);
    }
  }

  /** Folders come before what is in them, and are read in the order of their names. */
  predicate Precedes(a: seq<string>, b: seq<string>) {
    |b| > 0 && (|a| == 0 || Before(a[0], b[0]) || (a[0] == b[0] && Precedes(a[1..], b[1..])))
  }

  /** The page is at this path, and no other page comes before it. */
  ghost predicate IsFirst(f: Folder, path: seq<string>, page: Page) {
    Lookup(f, path) == Some(page) && forall q :: Lookup(f, q).Some? ==> q == path || Precedes(path, q)
  }

  ghost predicate IsFirstIn(f: Folder, keys: set<string>, path: seq<string>, page: Page) {
    && path != [] && path[0] in keys && Lookup(f, path) == Some(page)
    && forall q :: q != [] && q[0] in keys && Lookup(f, q).Some? ==> q == path || Precedes(path, q)
  }

  /** A folder without a page takes its path on disk from the first page below it. */
  lemma {:induction false} FirstPageIsFirst(f: Folder) returns (path: seq<string>)
    ensures FirstPage(f).None? ==> forall q :: Lookup(f, q).None?
    ensures FirstPage(f).Some? ==> IsFirst(f, path, FirstPage(f).value)
    decreases f, 1, 0
  {
    path := [];
    if f.page.None? {
      path := FirstBelow(f, f.children.Keys);
      forall q | Lookup(f, q).Some? ensures q != [] && q[0] in f.children {
      }
    }
  }

  lemma {:induction false} FirstBelow(f: Folder, keys: set<string>) returns (path: seq<string>)
    requires keys <= f.children.Keys
    ensures FirstPageIn(f, keys).None? ==> forall q :: q != [] && q[0] in keys ==> Lookup(f, q).None?
    ensures FirstPageIn(f, keys).Some? ==> IsFirstIn(f, keys, path, FirstPageIn(f, keys).value)
    decreases f, 0, |keys|
  {
    path := [];
    if keys != {} {
      var k := Least(keys);
      var c := f.children[k];
      var down := FirstPageIsFirst(c);
      if FirstPage(c).Some? {
        path := [k] + down;
        LookupDown(f, k, down);
        forall q | q != [] && q[0] in keys && Lookup(f, q).Some? ensures q == path || Precedes(path, q) {
          FirstOfTheLeast(f, keys, k, down, q);
        }
      } else {
        path := FirstBelow(f, keys - {k});
        forall q | q != [] && q[0] == k ensures Lookup(f, q).None? {
          assert Lookup(f, q) == Lookup(c, q[1..]);
        }
      }
    }
  }

  lemma FirstOfTheLeast(f: Folder, keys: set<string>, k: string, down: seq<string>, q: seq<string>)
    requires keys <= f.children.Keys && keys != {} && k == Least(keys) && q != [] && q[0] in keys
    requires Lookup(f, q).Some?
    requires forall r :: Lookup(f.children[k], r).Some? ==> r == down || Precedes(down, r)
    ensures q == [k] + down || Precedes([k] + down, q)
  {
    assert ([k] + down)[1..] == down && q == [q[0]] + q[1..];
    if q[0] == k {
      assert Lookup(f, q) == Lookup(f.children[k], q[1..]);
    }
  }

  /** That is as many segments of that page's path as the folder lies deep. */
  lemma PathOnDisk(f: Folder, depth: nat, parts: seq<string>)
    requires parts != [] && forall w :: w in parts ==> HasNone(w, {'/'})
    requires FirstPage(f).Some? && FirstPage(f).value.path == Join(parts, "/")
    ensures FolderPath(f, depth) == Join(parts[..if depth < |parts| then depth else |parts|], "/")
  {
    var path := FirstPage(f).value.path;
    SplitJoin(parts, '/', {'/'});
    assert "/" == ['/'];
    assert Split(path, {'/'}) == parts && parts[..|parts|] == parts;
    assert FolderPath(f, depth) == Join(if depth <= |parts| then parts[..depth] else parts, "/");
  }
}
