/**
 * The two tree walks both scraper scripts run over the mapped category tree
 * before crawling: the optional name filter, which prunes the tree to the
 * branches leading to a matching category, and the flattening into start
 * URLs, which collects in pre-order every address starting with `http`.
 */
module CategoryTree {
  import opened JsString
  import opened Types

  // ---------------------------------------------------------------------------
  // Filter
  // ---------------------------------------------------------------------------

  /** Case-insensitive containment of the filter in a category name. */
  predicate Matches(name: string, filter: string) {
    Includes(ToLower(name), ToLower(filter))
  }

  /** `filterTree`: each node, left to right, survives with its filtered
      children when its name matches or some child survives. */
  function FilterTree(nodes: seq<CategoryNode>, filter: string): seq<CategoryNode>
    decreases nodes
  {
    if |nodes| == 0 then []
    else
      var node := nodes[0];
      var kids := FilterTree(node.children, filter);
      var rest := FilterTree(nodes[1..], filter);
      (if Matches(node.name, filter) || |kids| > 0 then [node.(children := kids)] else []) + rest
  }

  /** A node with its children filtered, as it appears in the result. */
  function Pruned(n: CategoryNode, filter: string): CategoryNode {
    n.(children := FilterTree(n.children, filter))
  }

  /** The survival test the filter applies to one node. */
  predicate Kept(n: CategoryNode, filter: string) {
    Matches(n.name, filter) || |FilterTree(n.children, filter)| > 0
  }

  /** Reference: the node or one of its descendants matches the filter. */
  predicate Relevant(n: CategoryNode, filter: string)
    decreases n
  {
    Matches(n.name, filter) || exists c :: c in n.children && Relevant(c, filter)
  }

  lemma FilterSingleton(n: CategoryNode, filter: string)
    ensures FilterTree([n], filter) == if Kept(n, filter) then [Pruned(n, filter)] else []
  {
    assert [n][1..] == [];
  }

  /** The first node of a forest is filtered on its own, then the rest. */
  lemma FilterCons(nodes: seq<CategoryNode>, filter: string)
    requires |nodes| > 0
    ensures FilterTree(nodes, filter) ==
              (if Kept(nodes[0], filter) then [Pruned(nodes[0], filter)] else []) + FilterTree(nodes[1..], filter)
  {
  }

  /** The filter works sibling by sibling: it distributes over concatenation. */
  lemma {:induction false} FilterAppend(a: seq<CategoryNode>, b: seq<CategoryNode>, filter: string)
    ensures FilterTree(a + b, filter) == FilterTree(a, filter) + FilterTree(b, filter)
    decreases |a|
  {
    if |a| == 0 {
      assert a + b == b;
    } else {
      var n := a[0];
      var head := if Kept(n, filter) then [Pruned(n, filter)] else [];
      assert (a + b)[0] == n;
      assert (a + b)[1..] == a[1..] + b;
      FilterCons(a + b, filter);
      FilterCons(a, filter);
      FilterAppend(a[1..], b, filter);
      assert FilterTree(a + b, filter) == head + (FilterTree(a[1..], filter) + FilterTree(b, filter));
    }
  }

  /** The nodes of the result are exactly the pruned copies of the input
      nodes that pass the survival test. */
  lemma {:induction false} FilterMembership(nodes: seq<CategoryNode>, filter: string, m: CategoryNode)
    ensures m in FilterTree(nodes, filter) <==> exists n :: n in nodes && Kept(n, filter) && m == Pruned(n, filter)
    decreases |nodes|
  {
    if |nodes| > 0 {
      FilterMembership(nodes[1..], filter, m);
      var n := nodes[0];
      assert nodes == [n] + nodes[1..];
      var out := FilterTree(nodes, filter);
      assert out == (if Kept(n, filter) then [Pruned(n, filter)] else []) + FilterTree(nodes[1..], filter);
      if m in FilterTree(nodes[1..], filter) {
        var n' :| n' in nodes[1..] && Kept(n', filter) && m == Pruned(n', filter);
        assert n' in nodes;
      }
      if exists n' :: n' in nodes && Kept(n', filter) && m == Pruned(n', filter) {
        var n' :| n' in nodes && Kept(n', filter) && m == Pruned(n', filter);
        if n' == n {
          assert out[0] == m;
        } else {
          assert n' in nodes[1..];
        }
      }
    }
  }

  /** The filtered forest is non-empty exactly when some node of the input
      forest or one of its descendants matches. */
  lemma {:induction false} NonEmptyIffRelevant(nodes: seq<CategoryNode>, filter: string)
    ensures |FilterTree(nodes, filter)| > 0 <==> exists c :: c in nodes && Relevant(c, filter)
    decreases nodes
  {
    if |nodes| > 0 {
      var n := nodes[0];
      NonEmptyIffRelevant(n.children, filter);
      NonEmptyIffRelevant(nodes[1..], filter);
      assert Kept(n, filter) <==> Relevant(n, filter);
      assert nodes == [n] + nodes[1..];
      if exists c :: c in nodes && Relevant(c, filter) {
        var c :| c in nodes && Relevant(c, filter);
        if c != n {
          assert c in nodes[1..];
        }
      }
    }
  }

  /** A node survives exactly when it or one of its descendants matches. */
  lemma KeptIffRelevant(n: CategoryNode, filter: string)
    ensures Kept(n, filter) <==> Relevant(n, filter)
  {
    NonEmptyIffRelevant(n.children, filter);
  }

  /** `out` arises from `inp` by dropping nodes and pruning the children of
      the others: sibling order is kept and every kept node has the name,
      address and depth of the input node it comes from. */
  predicate Embeds(out: seq<CategoryNode>, inp: seq<CategoryNode>)
    decreases inp
  {
    if |out| == 0 then true
    else if |inp| == 0 then false
    else
      || (&& out[0].name == inp[0].name && out[0].url == inp[0].url && out[0].depth == inp[0].depth
          && Embeds(out[0].children, inp[0].children)
          && Embeds(out[1..], inp[1..]))
      || Embeds(out, inp[1..])
  }

  /** The result of the filter is a pruned sub-forest of its input. */
  lemma {:induction false} FilterEmbeds(nodes: seq<CategoryNode>, filter: string)
    ensures Embeds(FilterTree(nodes, filter), nodes)
    decreases nodes
  {
    if |nodes| > 0 {
      var n := nodes[0];
      FilterEmbeds(n.children, filter);
      FilterEmbeds(nodes[1..], filter);
      var out := FilterTree(nodes, filter);
      if Kept(n, filter) {
        assert out[0] == Pruned(n, filter);
        assert out[1..] == FilterTree(nodes[1..], filter);
      } else {
        assert out == FilterTree(nodes[1..], filter);
      }
    }
  }

  /** A path from a root of `nodes` down the tree, one child at a time. */
  predicate IsPath(nodes: seq<CategoryNode>, path: seq<CategoryNode>) {
    && |path| > 0
    && path[0] in nodes
    && forall i :: 0 <= i < |path| - 1 ==> path[i + 1] in path[i].children
  }

  function PrunedPath(path: seq<CategoryNode>, filter: string): (r: seq<CategoryNode>)
    ensures |r| == |path|
    ensures forall i :: 0 <= i < |path| ==> r[i] == Pruned(path[i], filter)
  {
    seq(|path|, i requires 0 <= i < |path| => Pruned(path[i], filter))
  }

  lemma {:induction false} PathRelevant(nodes: seq<CategoryNode>, path: seq<CategoryNode>, filter: string, i: nat)
    requires IsPath(nodes, path) && Matches(path[|path| - 1].name, filter)
    requires i < |path|
    ensures Relevant(path[i], filter)
    decreases |path| - i
  {
    if i < |path| - 1 {
      PathRelevant(nodes, path, filter, i + 1);
      assert path[i + 1] in path[i].children;
    }
  }

  /** A category whose own name matches survives together with all its
      ancestors: the path leading to it, pruned, is a path of the result. */
  lemma AncestorsKept(nodes: seq<CategoryNode>, path: seq<CategoryNode>, filter: string)
    requires IsPath(nodes, path) && Matches(path[|path| - 1].name, filter)
    ensures IsPath(FilterTree(nodes, filter), PrunedPath(path, filter))
  {
    var out := PrunedPath(path, filter);
    forall i | 0 <= i < |path|
      ensures Kept(path[i], filter)
    {
      PathRelevant(nodes, path, filter, i);
      KeptIffRelevant(path[i], filter);
    }
    FilterMembership(nodes, filter, out[0]);
    forall i | 0 <= i < |path| - 1
      ensures out[i + 1] in out[i].children
    {
      FilterMembership(path[i].children, filter, out[i + 1]);
    }
  }

  /** Filtering twice is filtering once. */
  lemma {:induction false} FilterIdempotent(nodes: seq<CategoryNode>, filter: string)
    ensures FilterTree(FilterTree(nodes, filter), filter) == FilterTree(nodes, filter)
    decreases nodes
  {
    if |nodes| > 0 {
      var n := nodes[0];
      var rest := FilterTree(nodes[1..], filter);
      FilterIdempotent(nodes[1..], filter);
      FilterIdempotent(n.children, filter);
      if Kept(n, filter) {
        var p := Pruned(n, filter);
        assert FilterTree(nodes, filter) == [p] + rest;
        FilterAppend([p], rest, filter);
        FilterSingleton(p, filter);
        assert Kept(p, filter);
        assert Pruned(p, filter) == p;
      } else {
        assert FilterTree(nodes, filter) == rest;
      }
    }
  }

  /** The empty filter is contained in every name, so it keeps the whole tree. */
  lemma {:induction false} FilterEmpty(nodes: seq<CategoryNode>)
    ensures FilterTree(nodes, "") == nodes
    decreases nodes
  {
    if |nodes| > 0 {
      var n := nodes[0];
      FilterEmpty(n.children);
      FilterEmpty(nodes[1..]);
      assert ToLower("") == "";
      assert Matches(n.name, "");
      assert n.(children := n.children) == n;
      assert nodes == [n] + nodes[1..];
    }
  }

  /** `if (filterArg) categories = filterTree(categories)`: a missing or
      empty filter argument leaves the tree as it is. */
  function MaybeFilter(nodes: seq<CategoryNode>, filterArg: Option<string>): (r: seq<CategoryNode>)
    ensures filterArg.None? ==> r == nodes
    ensures filterArg.Some? ==> r == FilterTree(nodes, filterArg.value)
  {
    if filterArg.Some? && filterArg.value != "" then FilterTree(nodes, filterArg.value)
    else
      FilterEmpty(nodes);
      nodes
  }

  // ---------------------------------------------------------------------------
  // Flattening into start URLs
  // ---------------------------------------------------------------------------

  /** The test `traverse` applies to a node's address. */
  predicate IsStartUrl(url: string) {
    url != "" && StartsWith(url, "http")
  }

  function OwnUrl(n: CategoryNode): seq<string> {
    if IsStartUrl(n.url) then [n.url] else []
  }

  /** `categories.forEach(traverse)`, as the list it pushes. */
  function Flatten(nodes: seq<CategoryNode>): seq<string>
    decreases nodes
  {
    if |nodes| == 0 then [] else OwnUrl(nodes[0]) + Flatten(nodes[0].children) + Flatten(nodes[1..])
  }

  /** Reference: every node of the forest, each before its descendants and
      siblings after the descendants of those before them. */
  function PreOrder(nodes: seq<CategoryNode>): seq<CategoryNode>
    decreases nodes
  {
    if |nodes| == 0 then [] else [nodes[0]] + PreOrder(nodes[0].children) + PreOrder(nodes[1..])
  }

  /** The start URLs of a list of nodes, in list order. */
  function StartUrlsOf(ns: seq<CategoryNode>): (r: seq<string>)
    ensures forall k :: 0 <= k < |r| ==> IsStartUrl(r[k])
  {
    if |ns| == 0 then [] else OwnUrl(ns[0]) + StartUrlsOf(ns[1..])
  }

  lemma {:induction false} StartUrlsOfAppend(a: seq<CategoryNode>, b: seq<CategoryNode>)
    ensures StartUrlsOf(a + b) == StartUrlsOf(a) + StartUrlsOf(b)
    decreases |a|
  {
    if |a| == 0 {
      assert a + b == b;
    } else {
      assert (a + b)[1..] == a[1..] + b;
      StartUrlsOfAppend(a[1..], b);
    }
  }

  lemma {:induction false} StartUrlsOfMembership(ns: seq<CategoryNode>, u: string)
    ensures u in StartUrlsOf(ns) <==> exists n :: n in ns && IsStartUrl(n.url) && u == n.url
    decreases |ns|
  {
    if |ns| > 0 {
      StartUrlsOfMembership(ns[1..], u);
      assert ns == [ns[0]] + ns[1..];
      if exists n :: n in ns && IsStartUrl(n.url) && u == n.url {
        var n :| n in ns && IsStartUrl(n.url) && u == n.url;
        if n != ns[0] {
          assert n in ns[1..];
        }
      }
      if u in StartUrlsOf(ns[1..]) {
        var n :| n in ns[1..] && IsStartUrl(n.url) && u == n.url;
        assert n in ns;
      }
    }
  }

  /** `traverse` collects, in pre-order, the addresses of exactly the nodes
      whose address is non-empty and starts with `http`. */
  lemma {:induction false} FlattenIsPreOrder(nodes: seq<CategoryNode>)
    ensures Flatten(nodes) == StartUrlsOf(PreOrder(nodes))
    decreases nodes
  {
    if |nodes| > 0 {
      var n := nodes[0];
      FlattenIsPreOrder(n.children);
      FlattenIsPreOrder(nodes[1..]);
      StartUrlsOfAppend([n] + PreOrder(n.children), PreOrder(nodes[1..]));
      StartUrlsOfAppend([n], PreOrder(n.children));
      assert StartUrlsOf([n]) == OwnUrl(n) by {
        assert [n][1..] == [];
      }
    }
  }

  /** The start URLs are exactly the http addresses of the tree's nodes;
      grouping nodes with an empty address contribute nothing. */
  lemma FlattenMembership(nodes: seq<CategoryNode>, u: string)
    ensures u in Flatten(nodes) <==> exists n :: n in PreOrder(nodes) && IsStartUrl(n.url) && u == n.url
  {
    FlattenIsPreOrder(nodes);
    StartUrlsOfMembership(PreOrder(nodes), u);
  }

  lemma {:induction false} FlattenAppend(a: seq<CategoryNode>, b: seq<CategoryNode>)
    ensures Flatten(a + b) == Flatten(a) + Flatten(b)
    decreases |a|
  {
    if |a| == 0 {
      assert a + b == b;
    } else {
      assert (a + b)[0] == a[0];
      assert (a + b)[1..] == a[1..] + b;
      FlattenAppend(a[1..], b);
    }
  }

  /** `a` is `b` with some elements dropped. */
  predicate IsSubseq(a: seq<string>, b: seq<string>)
    decreases |b|
  {
    if |a| == 0 then true
    else if |b| == 0 then false
    else (a[0] == b[0] && IsSubseq(a[1..], b[1..])) || IsSubseq(a, b[1..])
  }

  lemma {:induction false} SubseqRefl(a: seq<string>)
    ensures IsSubseq(a, a)
    decreases |a|
  {
    if |a| > 0 {
      SubseqRefl(a[1..]);
    }
  }

  lemma {:induction false} SubseqExtendLeft(a: seq<string>, b1: seq<string>, b2: seq<string>)
    requires IsSubseq(a, b2)
    ensures IsSubseq(a, b1 + b2)
    decreases |b1|
  {
    if |b1| == 0 {
      assert b1 + b2 == b2;
    } else if |a| > 0 {
      SubseqExtendLeft(a, b1[1..], b2);
      assert (b1 + b2)[1..] == b1[1..] + b2;
    }
  }

  lemma {:induction false} SubseqAppend(a1: seq<string>, b1: seq<string>, a2: seq<string>, b2: seq<string>)
    requires IsSubseq(a1, b1) && IsSubseq(a2, b2)
    ensures IsSubseq(a1 + a2, b1 + b2)
    decreases |b1|
  {
    if |a1| == 0 {
      assert a1 + a2 == a2;
      SubseqExtendLeft(a2, b1, b2);
    } else {
      assert (a1 + a2)[0] == a1[0] && (a1 + a2)[1..] == a1[1..] + a2;
      assert (b1 + b2)[0] == b1[0] && (b1 + b2)[1..] == b1[1..] + b2;
      if a1[0] == b1[0] && IsSubseq(a1[1..], b1[1..]) {
        SubseqAppend(a1[1..], b1[1..], a2, b2);
      } else {
        SubseqAppend(a1, b1[1..], a2, b2);
      }
    }
  }

  /** Filtering only removes start URLs: those of the filtered tree appear,
      in the same order, among those of the whole tree. */
  lemma {:induction false} FlattenFilterSubseq(nodes: seq<CategoryNode>, filter: string)
    ensures IsSubseq(Flatten(FilterTree(nodes, filter)), Flatten(nodes))
    decreases nodes
  {
    if |nodes| > 0 {
      var n := nodes[0];
      FlattenFilterSubseq(n.children, filter);
      FlattenFilterSubseq(nodes[1..], filter);
      var kept := if Kept(n, filter) then [Pruned(n, filter)] else [];
      assert FilterTree(nodes, filter) == kept + FilterTree(nodes[1..], filter);
      FlattenAppend(kept, FilterTree(nodes[1..], filter));
      var whole := OwnUrl(n) + Flatten(n.children);
      if Kept(n, filter) {
        assert Flatten(kept) == OwnUrl(n) + Flatten(FilterTree(n.children, filter)) by {
          assert kept[1..] == [];
          assert Flatten(kept[1..]) == [];
        }
        SubseqRefl(OwnUrl(n));
        SubseqAppend(OwnUrl(n), OwnUrl(n), Flatten(FilterTree(n.children, filter)), Flatten(n.children));
      }
      assert IsSubseq(Flatten(kept), whole);
      SubseqAppend(Flatten(kept), whole, Flatten(FilterTree(nodes[1..], filter)), Flatten(nodes[1..]));
    }
  }

  // ---------------------------------------------------------------------------
  // The imperative walk
  // ---------------------------------------------------------------------------

  /** `traverse(node)`: pushes the node's address when it is a start URL,
      then walks the children in order. */
  method Traverse(node: CategoryNode, startUrls: seq<string>) returns (urls: seq<string>)
    ensures urls == startUrls + Flatten([node])
    decreases node
  {
    urls := startUrls;
    if node.url != "" && StartsWith(node.url, "http") {
      urls := urls + [node.url];
    }
    ghost var own := urls;
    assert own == startUrls + OwnUrl(node);
    var children := node.children;
    for i := 0 to |children|
      invariant urls == own + Flatten(children[..i])
    {
      urls := Traverse(children[i], urls);
      FlattenSnoc(children, i);
      ConcatAssoc(own, Flatten(children[..i]), Flatten([children[i]]));
    }
    TraverseDone(node, startUrls);
  }

  lemma ConcatAssoc(a: seq<string>, b: seq<string>, c: seq<string>)
    ensures (a + b) + c == a + (b + c)
  {
  }

  lemma FlattenSnoc(ns: seq<CategoryNode>, i: nat)
    requires i < |ns|
    ensures Flatten(ns[..i + 1]) == Flatten(ns[..i]) + Flatten([ns[i]])
  {
    assert ns[..i + 1] == ns[..i] + [ns[i]];
    FlattenAppend(ns[..i], [ns[i]]);
  }

  lemma TraverseDone(n: CategoryNode, startUrls: seq<string>)
    ensures (startUrls + OwnUrl(n)) + Flatten(n.children[..|n.children|]) == startUrls + Flatten([n])
  {
    assert n.children[..|n.children|] == n.children;
    FlattenSingle(n);
  }

  lemma FlattenSingle(n: CategoryNode)
    ensures Flatten([n]) == OwnUrl(n) + Flatten(n.children)
  {
    assert [n][1..] == [];
    assert Flatten([n][1..]) == [];
  }

  /** `categories.forEach(traverse)` into a fresh `startUrls` list. */
  method CollectStartUrls(categories: seq<CategoryNode>) returns (startUrls: seq<string>)
    ensures startUrls == Flatten(categories)
  {
    startUrls := [];
    for i := 0 to |categories|
      invariant startUrls == Flatten(categories[..i])
    {
      FlattenSnoc(categories, i);
      startUrls := Traverse(categories[i], startUrls);
    }
    assert categories[..|categories|] == categories;
  }
}
