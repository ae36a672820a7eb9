/** The navigation tree: a trie of folders built from page slugs, rendered with
    folders adopting the page at their path or the index inside them. */
module Navigation {
  import opened Wrappers
  import opened Ordering

  datatype Page = Page(title: string, slug: string, path: string)

  datatype NavNode = NavNode(title: string, slug: string, path: string, children: seq<NavNode>)

  /** A folder under construction; `children` is read in key order. */
  datatype Folder = Folder(page: Option<Page>, children: map<string, Folder>)

  const EMPTY := Folder(None, map[])

  // ----- text ---------------------------------------------------------------

  function Split(s: string, separators: set<char>): (parts: seq<string>)
    ensures |parts| >= 1
  {
    if |s| == 0 then [""]
    else
      var rest := Split(s[1..], separators);
      if s[0] in separators then [""] + rest else [[s[0]] + rest[0]] + rest[1..]
  }

  function NonEmpty(parts: seq<string>): (r: seq<string>)
    ensures "" !in r
  {
    if |parts| == 0 then []
    else if parts[0] == "" then NonEmpty(parts[1..])
    else [parts[0]] + NonEmpty(parts[1..])
  }

  function Join(parts: seq<string>, separator: string): string {
    if |parts| == 0 then "" else if |parts| == 1 then parts[0] else parts[0] + separator + Join(parts[1..], separator)
  }

  function Segments(slug: string): seq<string> {
    NonEmpty(Split(slug, {'/'}))
  }

  function Upper(c: char): char {
    if 'a' <= c <= 'z' then (c as int - 32) as char else c
  }

  function Capitalized(words: seq<string>): seq<string> {
    if |words| == 0 then []
    else [if words[0] == "" then "" else [Upper(words[0][0])] + words[0][1..]] + Capitalized(words[1..])
  }

  /** The heading a folder gets from its name alone. */
  function Humanize(segment: string): string {
    Join(Capitalized(NonEmpty(Split(segment, {'-', '_'}))), " ")
  }

  // ----- key order ------------------------------------------------------------

  ghost predicate IsLeast(s: set<string>, k: string) {
    k in s && forall j :: j in s ==> NotAfter(k, j)
  }

  lemma {:induction false} LeastExists(s: set<string>)
    requires s != {}
    ensures exists k :: IsLeast(s, k)
  {
    var x :| x in s;
    if s == {x} {
      assert IsLeast(s, x);
    } else {
      LeastExists(s - {x});
      var k :| IsLeast(s - {x}, k);
      BeforeIsTotal(k, x);
      if NotAfter(k, x) {
        assert IsLeast(s, k);
      } else {
        forall j | j in s ensures NotAfter(x, j) {
          if j != x && k != j {
            assert j in s - {x};
            BeforeIsTransitive(x, k, j);
          }
        }
        assert IsLeast(s, x);
      }
    }
  }

  lemma LeastIsUnique(s: set<string>)
    ensures forall k, l :: IsLeast(s, k) && IsLeast(s, l) ==> k == l
  {
    forall k, l | IsLeast(s, k) && IsLeast(s, l) ensures k == l {
      BeforeIsTotal(k, l);
    }
  }

  /** The first key of an ordered map. */
  function Least(s: set<string>): (k: string)
    requires s != {}
    ensures k in s && forall j :: j in s ==> NotAfter(k, j)
  {
    LeastExists(s);
    LeastIsUnique(s);
    assert forall k :: IsLeast(s, k) <==> k in s && forall j :: j in s ==> NotAfter(k, j);
    var k :| k in s && forall j :: j in s ==> NotAfter(k, j);
    k
  }

  // ----- building ---------------------------------------------------------------

  function ChildOf(f: Folder, segment: string): Folder {
    if segment in f.children then f.children[segment] else EMPTY
  }

  /** The trie with `page` put at `path`, folders made on the way. */
  function Insert(f: Folder, path: seq<string>, page: Page): Folder
    decreases |path|
  {
    if |path| == 0 then f.(page := Some(page))
    else f.(children := f.children[path[0] := Insert(ChildOf(f, path[0]), path[1..], page)])
  }

  function PathOf(page: Page): seq<string> {
    Segments(page.slug)
  }

  /** A page with no path is left out. */
  function Place(f: Folder, page: Page): Folder {
    if PathOf(page) == [] then f else Insert(f, PathOf(page), page)
  }

  function Build(pages: seq<Page>): Folder {
    if |pages| == 0 then EMPTY else Place(Build(pages[..|pages| - 1]), pages[|pages| - 1])
  }

  // ----- rendering ----------------------------------------------------------------

  /** The first page at or below a folder, in key order. */
  function FirstPage(f: Folder): Option<Page>
    decreases f, 1, 0
  {
    if f.page.Some? then f.page else FirstPageIn(f, f.children.Keys)
  }

  function FirstPageIn(f: Folder, keys: set<string>): Option<Page>
    requires keys <= f.children.Keys
    decreases f, 0, |keys|
  {
    if keys == {} then None
    else
      var k := Least(keys);
      var p := FirstPage(f.children[k]);
      if p.Some? then p else FirstPageIn(f, keys - {k})
  }

  /** The on-disk path of a folder with no page, from any page beneath it. */
  function FolderPath(f: Folder, depth: nat): string {
    match FirstPage(f)
    case None => ""
    case Some(p) =>
      var parts := Split(p.path, {'/'});
      Join(if depth <= |parts| then parts[..depth] else parts, "/")
  }

  function IndexPage(f: Folder): Option<Page> {
    if "index" in f.children then f.children["index"].page else None
  }

  /** A folder with no page of its own links to the index inside it. */
  predicate Adopts(f: Folder) {
    f.page.None? && IndexPage(f).Some?
  }

  function Landing(f: Folder): Option<Page> {
    if f.page.Some? then f.page else IndexPage(f)
  }

  predicate ByTitle(a: NavNode, b: NavNode) {
    NotAfter(a.title, b.title)
  }

  function Assemble(segment: string, f: Folder, depth: nat, children: seq<NavNode>): NavNode {
    match Landing(f)
    case Some(p) => NavNode(p.title, p.slug, p.path, children)
    case None => NavNode(Humanize(segment), "", FolderPath(f, depth), children)
  }

  function NodeFor(segment: string, f: Folder, prefix: seq<string>): NavNode
    decreases f, 1, 0
  {
    Assemble(segment, f, |prefix|, Sort(ByTitle, ChildNodes(f, f.children.Keys, prefix, Adopts(f))))
  }

  /** The nodes of these children in key order, an adopted index left out. */
  function ChildNodes(f: Folder, keys: set<string>, prefix: seq<string>, adopts: bool): seq<NavNode>
    requires keys <= f.children.Keys
    decreases f, 0, |keys|
  {
    if keys == {} then []
    else
      var k := Least(keys);
      (if adopts && k == "index" then [] else [NodeFor(k, f.children[k], prefix + [k])])
      + ChildNodes(f, keys - {k}, prefix, adopts)
  }

  function Navigate(root: Folder): seq<NavNode> {
    Sort(ByTitle, ChildNodes(root, root.children.Keys, [], false))
  }

  // ----- the walk ------------------------------------------------------------------

  predicate Exists(f: Folder, cursor: seq<string>)
    decreases |cursor|
  {
    |cursor| == 0 || (cursor[0] in f.children && Exists(f.children[cursor[0]], cursor[1..]))
  }

  /** The folder under the cursor gains an empty child if it has none there. */
  function Descend(f: Folder, cursor: seq<string>, segment: string): Folder
    requires Exists(f, cursor)
    decreases |cursor|
  {
    if |cursor| == 0 then (if segment in f.children then f else f.(children := f.children[segment := EMPTY]))
    else f.(children := f.children[cursor[0] := Descend(f.children[cursor[0]], cursor[1..], segment)])
  }

  function SetPage(f: Folder, cursor: seq<string>, page: Page): Folder
    requires Exists(f, cursor)
    decreases |cursor|
  {
    if |cursor| == 0 then f.(page := Some(page))
    else f.(children := f.children[cursor[0] := SetPage(f.children[cursor[0]], cursor[1..], page)])
  }

  /** One step down makes sure the next folder is there, and changes nothing about
      where the page will end up. */
  lemma {:induction false} DescendKeepsTheInsert(f: Folder, cursor: seq<string>, segment: string, rest: seq<string>,
                                                 page: Page)
    requires Exists(f, cursor)
    ensures Exists(Descend(f, cursor, segment), cursor + [segment])
    ensures Insert(Descend(f, cursor, segment), cursor + [segment] + rest, page)
         == Insert(f, cursor + [segment] + rest, page)
    decreases |cursor|
  {
    var whole := cursor + [segment] + rest;
    if |cursor| == 0 {
      assert whole == [segment] + rest && whole[1..] == rest;
      assert cursor + [segment] == [segment] && [segment][1..] == [];
      var g := Descend(f, cursor, segment);
      assert ChildOf(g, segment) == ChildOf(f, segment);
      assert g.children[segment := Insert(ChildOf(f, segment), rest, page)]
          == f.children[segment := Insert(ChildOf(f, segment), rest, page)];
    } else {
      var k, down := cursor[0], cursor[1..];
      DescendKeepsTheInsert(f.children[k], down, segment, rest, page);
      assert (cursor + [segment])[1..] == down + [segment];
      assert whole[1..] == down + [segment] + rest;
    }
  }

  lemma {:induction false} SetPageIsInsert(f: Folder, cursor: seq<string>, page: Page)
    requires Exists(f, cursor)
    ensures SetPage(f, cursor, page) == Insert(f, cursor, page)
    decreases |cursor|
  {
    if |cursor| > 0 {
      SetPageIsInsert(f.children[cursor[0]], cursor[1..], page);
    }
  }

  /** The cursor walk: the trie is owned by `root`, and the mutable cursor is the
      path walked so far. */
  method Walk(start: Folder, page: Page, segments: seq<string>) returns (root: Folder)
    ensures root == Insert(start, segments, page)
  {
    root := start;
    var cursor: seq<string> := [];
    for i := 0 to |segments|
      invariant cursor == segments[..i] && Exists(root, cursor)
      invariant Insert(root, segments, page) == Insert(start, segments, page)
    {
      assert segments == cursor + [segments[i]] + segments[i + 1..];
      DescendKeepsTheInsert(root, cursor, segments[i], segments[i + 1..], page);
      root := Descend(root, cursor, segments[i]);
      cursor := cursor + [segments[i]];
    }
    assert cursor == segments;
    SetPageIsInsert(root, cursor, page);
    root := SetPage(root, cursor, page);
  }

  method RenderChildren(f: Folder, prefix: seq<string>, adopts: bool) returns (children: seq<NavNode>)
    ensures children == ChildNodes(f, f.children.Keys, prefix, adopts)
    decreases f, 0
  {
    children := [];
    var keys := f.children.Keys;
    while keys != {}
      invariant keys <= f.children.Keys
      invariant children + ChildNodes(f, keys, prefix, adopts) == ChildNodes(f, f.children.Keys, prefix, adopts)
      decreases |keys|
    {
      var k := Least(keys);
      ghost var rest := ChildNodes(f, keys - {k}, prefix, adopts);
      if !(adopts && k == "index") {
        var child := Render(k, f.children[k], prefix + [k]);
        assert children + [child] + rest == children + ([child] + rest);
        children := children + [child];
      } else {
        assert [] + rest == rest;
      }
      keys := keys - {k};
    }
    assert children == children + ChildNodes(f, {}, prefix, adopts);
  }

  method Render(segment: string, f: Folder, prefix: seq<string>) returns (node: NavNode)
    ensures node == NodeFor(segment, f, prefix)
    decreases f, 1
  {
    var children := RenderChildren(f, prefix, Adopts(f));
    node := Assemble(segment, f, |prefix|, Sort(ByTitle, children));
  }

  method BuildNavigation(pages: seq<Page>) returns (items: seq<NavNode>)
    ensures items == Navigate(Build(pages))
  {
    var root := EMPTY;
    for i := 0 to |pages|
      invariant root == Build(pages[..i])
    {
      assert pages[..i + 1][..i] == pages[..i];
      var segments := Segments(pages[i].slug);
      if segments == [] {
        continue;
      }
      root := Walk(root, pages[i], segments);
    }
    assert pages[..|pages|] == pages;
    items := RenderChildren(root, [], false);
    items := Sort(ByTitle, items);
  }
}
