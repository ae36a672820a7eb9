/** The navigation does not depend on the order pages arrive in, and stands in title
    order at every depth. */
module NavigationOrder {
  import opened Ordering
  import opened Navigation

  // ----- arrival order -------------------------------------------------------

  lemma {:induction false} InsertsCommute(f: Folder, p: seq<string>, x: Page, q: seq<string>, y: Page)
    requires p != q
    ensures Insert(Insert(f, p, x), q, y) == Insert(Insert(f, q, y), p, x)
    decreases |p|
  {
    if |p| > 0 && |q| > 0 && p[0] == q[0] {
      assert p == [p[0]] + p[1..] && q == [q[0]] + q[1..];
      InsertsCommute(ChildOf(f, p[0]), p[1..], x, q[1..], y);
    }
    assert Insert(Insert(f, p, x), q, y).children == Insert(Insert(f, q, y), p, x).children;
  }

  /** Whichever of the two is placed first makes no difference. */
  ghost predicate Independent(x: Page, y: Page) {
    PathOf(x) == [] || PathOf(y) == [] || PathOf(x) != PathOf(y)
  }

  lemma BuildOneMore(pages: seq<Page>, page: Page)
    ensures Build(pages + [page]) == Place(Build(pages), page)
  {
  }

  lemma {:induction false} MoveToEnd(a: seq<Page>, x: Page, b: seq<Page>)
    requires forall y :: y in b ==> Independent(x, y)
    ensures Build(a + [x] + b) == Build(a + b + [x])
  {
    if b == [] {
      assert a + [x] + b == a + b + [x];
    } else {
      var before, y := b[..|b| - 1], b[|b| - 1];
      assert y in b;
      MoveToEnd(a, x, before);
      assert a + [x] + b == a + [x] + before + [y] && a + b == a + before + [y];
      BuildOneMore(a + [x] + before, y);
      BuildOneMore(a + before, x);
      BuildOneMore(a + before, y);
      BuildOneMore(a + b, x);
      if PathOf(x) != [] && PathOf(y) != [] {
        InsertsCommute(Build(a + before), PathOf(x), x, PathOf(y), y);
      }
    }
  }

  ghost predicate PairwiseIndependent(pages: seq<Page>) {
    forall i, j :: 0 <= i < j < |pages| ==> Independent(pages[i], pages[j])
  }

  lemma TakeOut(a: seq<Page>, b: seq<Page>) returns (i: nat)
    requires multiset(a) == multiset(b) && a != []
    ensures |b| == |a| && i < |b| && b == b[..i] + [a[|a| - 1]] + b[i + 1..]
    ensures multiset(a[..|a| - 1]) == multiset(b[..i] + b[i + 1..])
  {
    var n := |a| - 1;
    assert a == a[..n] + [a[n]];
    assert |multiset(a)| == |a| && |multiset(b)| == |b|;
    assert a[n] in multiset(b);
    i :| 0 <= i < |b| && b[i] == a[n];
    assert b == b[..i] + [b[i]] + b[i + 1..];
    assert multiset(b) == multiset(b[..i]) + multiset{b[i]} + multiset(b[i + 1..]);
    assert multiset(a) == multiset(a[..n]) + multiset{a[n]};
    assert multiset(a[..n]) == multiset(a) - multiset{a[n]};
    assert multiset(b[..i] + b[i + 1..]) == multiset(b) - multiset{b[i]};
  }

  /** Pages with paths of their own give the same trie, and so the same navigation,
      in whatever order they come. */
  lemma {:induction false} OrderDoesNotMatter(a: seq<Page>, b: seq<Page>)
    requires PairwiseIndependent(a) && multiset(a) == multiset(b)
    ensures Build(a) == Build(b) && Navigate(Build(a)) == Navigate(Build(b))
    decreases |a|
  {
    assert |multiset(a)| == |a| && |multiset(b)| == |b|;
    if |a| > 0 {
      var n := |a| - 1;
      var x := a[n];
      var i := TakeOut(a, b);
      var others := b[..i] + b[i + 1..];
      OrderDoesNotMatter(a[..n], others);
      forall y | y in b[i + 1..] ensures Independent(x, y) {
        LaterIsEarlier(a[..n], others, y);
        var j :| 0 <= j < n && a[j] == y;
        assert Independent(a[j], a[n]);
      }
      MoveToEnd(b[..i], x, b[i + 1..]);
      assert (others + [x])[..n] == others;
    }
  }

  lemma LaterIsEarlier(a: seq<Page>, b: seq<Page>, y: Page)
    requires multiset(a) == multiset(b) && y in b
    ensures y in a
  {
    assert y in multiset(b);
  }

  // ----- order within the tree -----------------------------------------------

  ghost predicate SortedThroughout(nodes: seq<NavNode>) {
    && (forall i, j :: 0 <= i < j < |nodes| ==> NotAfter(nodes[i].title, nodes[j].title))
    && forall i :: 0 <= i < |nodes| ==> SortedThroughout(nodes[i].children)
  }

  lemma TitlesAreOrdered()
    ensures TotalPreorder(ByTitle)
  {
    forall x: NavNode, y: NavNode ensures ByTitle(x, y) || ByTitle(y, x) {
      BeforeIsTotal(x.title, y.title);
    }
    forall x: NavNode, y: NavNode, z: NavNode | ByTitle(x, y) && ByTitle(y, z) ensures ByTitle(x, z) {
      if x.title != y.title && y.title != z.title {
        BeforeIsTransitive(x.title, y.title, z.title);
      }
    }
  }

  lemma {:induction false} SortedChildren(nodes: seq<NavNode>)
    requires forall i :: 0 <= i < |nodes| ==> SortedThroughout(nodes[i].children)
    ensures SortedThroughout(Sort(ByTitle, nodes))
  {
    TitlesAreOrdered();
    SortSorts(ByTitle, nodes);
    SortIsPermutation(ByTitle, nodes);
    var sorted := Sort(ByTitle, nodes);
    forall i | 0 <= i < |sorted| ensures SortedThroughout(sorted[i].children) {
      assert sorted[i] in nodes;
    }
  }

  lemma {:induction false} ChildNodesAreSortedBelow(f: Folder, keys: set<string>, prefix: seq<string>, adopts: bool)
    requires keys <= f.children.Keys
    ensures forall i :: 0 <= i < |ChildNodes(f, keys, prefix, adopts)| ==>
              SortedThroughout(ChildNodes(f, keys, prefix, adopts)[i].children)
    decreases f, |keys|
  {
    if keys != {} {
      var k := Least(keys);
      var c := f.children[k];
      ChildNodesAreSortedBelow(f, keys - {k}, prefix, adopts);
      ChildNodesAreSortedBelow(c, c.children.Keys, prefix + [k], Adopts(c));
      SortedChildren(ChildNodes(c, c.children.Keys, prefix + [k], Adopts(c)));
    }
  }

  /** At every depth the entries stand in title order. */
  lemma NavigationIsSorted(root: Folder)
    ensures SortedThroughout(Navigate(root))
  {
    ChildNodesAreSortedBelow(root, root.children.Keys, [], false);
    SortedChildren(ChildNodes(root, root.children.Keys, [], false));
  }
}
