/**
 * Category discovery for the Falabella store: for each first-level label
 * of the site's menu, except a fixed list of service labels, open its panel
 * and turn the panel's second-level links into child categories. A label
 * whose panel cannot be found or whose extraction throws is left out.
 */
module Discovery {
  import opened JsString
  import opened JsValue
  import opened Types
  import opened Browser
  import opened Collect

  /** The menu labels that are not product categories. */
  const ExcludedLabels := ["Vende con nosotros", "Centro de ayuda", "Horario de tiendas", "Seguros", "Garantía extendida", "Guías de compra"]
  const VerTodo := "ver todo"

  // ---------------------------------------------------------------------------
  // The links of one panel
  // ---------------------------------------------------------------------------

  /** `text.replace(/\n/g, ' ').trim()`. */
  function LinkText(link: Link): string {
    Trim(NewlinesToSpaces(link.text))
  }

  /** The tests of line 92 that do not depend on earlier links: visible, a
      non-empty `href`, non-empty text that does not mention "ver todo". */
  predicate Eligible(link: Link) {
    link.visible && link.href.Some? && link.href.value != ""
    && LinkText(link) != "" && !Includes(ToLower(LinkText(link)), VerTodo)
  }

  /** The raw `href` a link is deduplicated by (`""` when it has none,
      which the tests reject anyway). */
  function Key(link: Link): string {
    link.href.GetOr("")
  }

  /** The child category a link becomes. */
  function ChildOf(link: Link): CategoryNode {
    CategoryNode(LinkText(link), FullUrl(Key(link)), [], 2)
  }

  /** The link loop over a panel: the children pushed, the raw `href`s added
      to `seenUrls`, in order, and the index of the link each child came from
      (the last is for the statement of the loop's properties only). */
  datatype LinkScan = LinkScan(children: seq<CategoryNode>, hrefs: seq<string>, sources: seq<nat>)

  /** The loop for any link test `ok` and child builder `child`; the loop of
      the source is `ScanLinks`. Its properties are proved for every test,
      which keeps the text functions out of the proofs. */
  function ScanWith(links: seq<Link>, ok: Link -> bool, child: Link -> CategoryNode): LinkScan {
    if |links| == 0 then LinkScan([], [], [])
    else
      var s := ScanWith(links[..|links| - 1], ok, child);
      var link := links[|links| - 1];
      if ok(link) && Key(link) !in s.hrefs then
        LinkScan(s.children + [child(link)], s.hrefs + [Key(link)], s.sources + [|links| - 1])
      else s
  }

  function ScanLinks(links: seq<Link>): LinkScan {
    ScanWith(links, Eligible, ChildOf)
  }

  /** Every link `j` before `i` that passes the test has a different raw
      `href`. */
  predicate FirstOfItsHref(links: seq<Link>, ok: Link -> bool, i: nat)
    requires i < |links|
  {
    forall j :: 0 <= j < i && ok(links[j]) ==> Key(links[j]) != Key(links[i])
  }

  predicate Increasing(xs: seq<nat>) {
    forall k1, k2 :: 0 <= k1 < k2 < |xs| ==> xs[k1] < xs[k2]
  }

  /** Appending an index above all others keeps indices increasing. */
  lemma IncreasingSnoc(xs: seq<nat>, n: nat)
    requires Increasing(xs) && forall k :: 0 <= k < |xs| ==> xs[k] < n
    ensures Increasing(xs + [n])
  {
    var ys := xs + [n];
    forall k1, k2 | 0 <= k1 < k2 < |ys|
      ensures ys[k1] < ys[k2]
    {
      assert ys[k1] == xs[k1];
      if k2 < |xs| {
        assert ys[k2] == xs[k2];
      }
    }
  }

  /** Each entry of a scan comes from a link that passes the test and
      carries that link's raw `href` and child, in link order. */
  predicate Traced(links: seq<Link>, ok: Link -> bool, child: Link -> CategoryNode, s: LinkScan) {
    && |s.children| == |s.hrefs| == |s.sources|
    && (forall k :: 0 <= k < |s.sources| ==>
          && s.sources[k] < |links| && ok(links[s.sources[k]])
          && s.hrefs[k] == Key(links[s.sources[k]])
          && s.children[k] == child(links[s.sources[k]]))
    && Increasing(s.sources)
  }

  /** One child per accepted link, in link order: each comes from a link
      that passes the test and carries that link's raw `href`. */
  lemma {:induction false} ScanSources(links: seq<Link>, ok: Link -> bool, child: Link -> CategoryNode)
    ensures Traced(links, ok, child, ScanWith(links, ok, child))
    decreases |links|
  {
    if |links| > 0 {
      var n := |links| - 1;
      var init := links[..n];
      ScanSources(init, ok, child);
      var s := ScanWith(init, ok, child);
      var r := ScanWith(links, ok, child);
      forall k | 0 <= k < |r.sources|
        ensures && r.sources[k] < |links| && ok(links[r.sources[k]])
                && r.hrefs[k] == Key(links[r.sources[k]])
                && r.children[k] == child(links[r.sources[k]])
      {
        if k < |s.sources| {
          assert r.sources[k] == s.sources[k] && init[s.sources[k]] == links[s.sources[k]];
        }
      }
      if ok(links[n]) && Key(links[n]) !in s.hrefs {
        assert forall k :: 0 <= k < |s.sources| ==> s.sources[k] < n;
        IncreasingSnoc(s.sources, n);
      }
    }
  }

  /** No two children share a raw `href`, and the `href` of every link that
      passes the test has been seen. */
  lemma {:induction false} ScanDistinct(links: seq<Link>, ok: Link -> bool, child: Link -> CategoryNode)
    ensures var s := ScanWith(links, ok, child);
            && (forall k1, k2 :: 0 <= k1 < k2 < |s.hrefs| ==> s.hrefs[k1] != s.hrefs[k2])
            && (forall i :: 0 <= i < |links| && ok(links[i]) ==> Key(links[i]) in s.hrefs)
    decreases |links|
  {
    if |links| > 0 {
      var init := links[..|links| - 1];
      ScanDistinct(init, ok, child);
      assert forall i :: 0 <= i < |init| ==> init[i] == links[i];
    }
  }

  /** A link becomes a child exactly when it passes the test and no earlier
      link that passes it has the same raw `href`. */
  lemma {:induction false} ScanFirst(links: seq<Link>, ok: Link -> bool, child: Link -> CategoryNode)
    ensures var s := ScanWith(links, ok, child);
            forall i :: 0 <= i < |links| ==>
              (i in s.sources <==> ok(links[i]) && FirstOfItsHref(links, ok, i))
    decreases |links|
  {
    if |links| > 0 {
      var n := |links| - 1;
      var init := links[..n];
      ScanFirst(init, ok, child);
      ScanSources(init, ok, child);
      ScanDistinct(init, ok, child);
      var s := ScanWith(init, ok, child);
      assert forall i :: 0 <= i < n ==> init[i] == links[i];
      assert forall i :: 0 <= i < n ==> (FirstOfItsHref(links, ok, i) <==> FirstOfItsHref(init, ok, i));
      assert forall k :: 0 <= k < |s.sources| ==> s.sources[k] < n;
      if ok(links[n]) && Key(links[n]) !in s.hrefs {
        assert FirstOfItsHref(links, ok, n);
      } else if ok(links[n]) {
        var k :| 0 <= k < |s.hrefs| && s.hrefs[k] == Key(links[n]);
        assert Key(links[s.sources[k]]) == Key(links[n]);
        assert !FirstOfItsHref(links, ok, n);
      }
    }
  }

  /** The loop of the source: the children are those of the links that pass
      the tests and come first with their raw `href`, in link order, and no
      two of them share a raw `href`. */
  lemma ScanLinksSpec(links: seq<Link>)
    ensures var s := ScanLinks(links);
            && Traced(links, Eligible, ChildOf, s)
            && (forall i :: 0 <= i < |links| ==>
                  (i in s.sources <==> Eligible(links[i]) && FirstOfItsHref(links, Eligible, i)))
            && (forall k1, k2 :: 0 <= k1 < k2 < |s.hrefs| ==> s.hrefs[k1] != s.hrefs[k2])
  {
    ScanSources(links, Eligible, ChildOf);
    ScanFirst(links, Eligible, ChildOf);
    ScanDistinct(links, Eligible, ChildOf);
  }

  /** Every child is a leaf of depth 2 named by its link's non-empty text,
      which does not mention "ver todo", with an absolute address. */
  lemma ChildShape(links: seq<Link>)
    ensures forall c :: c in ScanLinks(links).children ==>
              && c.depth == 2 && c.children == [] && c.name != ""
              && !Includes(ToLower(c.name), VerTodo) && StartsWith(c.url, "http")
  {
    ScanSources(links, Eligible, ChildOf);
    var s := ScanLinks(links);
    forall c | c in s.children
      ensures c.depth == 2 && c.children == [] && c.name != ""
              && !Includes(ToLower(c.name), VerTodo) && StartsWith(c.url, "http")
    {
      var k :| 0 <= k < |s.children| && s.children[k] == c;
      FullUrlSpec(Key(links[s.sources[k]]));
    }
  }

  lemma PlainText(visible: bool, href: Option<string>)
    ensures LinkText(Link(visible, href, "TV")) == "TV"
    ensures !Includes(ToLower("TV"), VerTodo)
  {
    assert NewlinesToSpaces("TV") == "TV";
    assert TrimStart("TV") == "TV";
    assert TrimEnd("TV") == "TV";
    assert ToLower("TV") == "tv";
  }

  /** Deduplication is by the raw `href`: a relative link and the absolute
      link it stands for are both kept, as two children with one address. */
  lemma RawHrefDedup()
    ensures var links := [Link(true, Some("/x"), "TV"), Link(true, Some("https://www.falabella.com/x"), "TV")];
            ScanLinks(links).children ==
              [CategoryNode("TV", "https://www.falabella.com/x", [], 2), CategoryNode("TV", "https://www.falabella.com/x", [], 2)]
  {
    var first := Link(true, Some("/x"), "TV");
    var second := Link(true, Some("https://www.falabella.com/x"), "TV");
    var node := CategoryNode("TV", "https://www.falabella.com/x", [], 2);
    PlainText(true, Some("/x"));
    PlainText(true, Some("https://www.falabella.com/x"));
    assert FullUrl("https://www.falabella.com/x") == "https://www.falabella.com/x" by {
      assert "http" <= "https://www.falabella.com/x";
    }
    assert ChildOf(first) == node && ChildOf(second) == node;
    assert [first, second][..1] == [first];
    assert [first][..0] == [];
    assert Eligible(first) && Eligible(second) && Key(first) == "/x";
    assert ScanWith([], Eligible, ChildOf) == LinkScan([], [], []);
    assert ScanLinks([first]) == LinkScan([node], ["/x"], [0]);
  }

  /** Scanning one more link: it is taken exactly when it passes the tests
      and its raw `href` has not been seen. */
  lemma ScanLinksStep(links: seq<Link>, i: nat)
    requires i < |links|
    ensures var s := ScanLinks(links[..i]);
            var link := links[i];
            ScanLinks(links[..i + 1]) ==
              if Eligible(link) && Key(link) !in s.hrefs
              then LinkScan(s.children + [ChildOf(link)], s.hrefs + [Key(link)], s.sources + [i])
              else s
  {
    assert links[..i + 1][..i] == links[..i];
  }

  /** The link loop of `extractCategoryBranch`. */
  method ExtractLinks(links: seq<Link>) returns (subcategories: seq<CategoryNode>)
    ensures subcategories == ScanLinks(links).children
  {
    subcategories := [];
    var seenUrls: set<string> := {};
    for i := 0 to |links|
      invariant subcategories == ScanLinks(links[..i]).children
      invariant forall h :: h in seenUrls <==> h in ScanLinks(links[..i]).hrefs
    {
      ScanLinksStep(links, i);
      var link := links[i];
      if link.visible {
        var url := link.href;
        var text := Trim(NewlinesToSpaces(link.text));
        if url.Some? && url.value != "" && text != "" && url.value !in seenUrls && !Includes(ToLower(text), VerTodo) {
          seenUrls := seenUrls + {url.value};
          subcategories := subcategories + [CategoryNode(text, FullUrl(url.value), [], 2)];
        }
      }
    }
    assert links[..|links|] == links;
  }

  // ---------------------------------------------------------------------------
  // Branches and the label loop
  // ---------------------------------------------------------------------------

  /** `extractCategoryBranch`: no node when no title carries the label, a
      throw when a call of the extraction throws, and otherwise the label's
      depth-1 node holding the panel's children. */
  function Branch(name: string, panel: Panel): Completion<Option<CategoryNode>> {
    match panel
    case TitleNotFound => Normal(None)
    case BranchFailed => Threw
    case Opened(links) => Normal(Some(CategoryNode(name, "", ScanLinks(links).children, 1)))
  }

  method ExtractCategoryBranch(name: string, panel: Panel) returns (r: Completion<Option<CategoryNode>>)
    ensures r == Branch(name, panel)
  {
    match panel
    case TitleNotFound =>
      return Normal(None);
    case BranchFailed =>
      return Threw;
    case Opened(links) =>
      var subcategories := ExtractLinks(links);
      return Normal(Some(CategoryNode(name, "", subcategories, 1)));
  }

  /** The node one menu entry contributes, if any. */
  function EntryNode(entry: MenuEntry): Option<CategoryNode> {
    if entry.name in ExcludedLabels then None
    else
      match Branch(entry.name, entry.panel)
      case Normal(Some(node)) => Some(node)
      case _ => None
  }

  /** The nodes of the label loop, in menu order. */
  function DiscoverEntries(entries: seq<MenuEntry>): seq<CategoryNode> {
    Present(entries, EntryNode)
  }

  /** `discover`: `None` stands for a failure inside its `try` (navigation,
      opening the menu, reading the labels), which gives no categories. */
  function DiscoverResult(menu: Option<seq<MenuEntry>>): seq<CategoryNode> {
    match menu
    case None => []
    case Some(entries) => DiscoverEntries(entries)
  }

  /** An excluded label, a label without a title and a label whose
      extraction throws contribute nothing; the others keep their places. */
  lemma DiscoverSkips(a: seq<MenuEntry>, entry: MenuEntry, b: seq<MenuEntry>)
    requires entry.name in ExcludedLabels || entry.panel.TitleNotFound? || entry.panel.BranchFailed?
    ensures DiscoverEntries(a + [entry] + b) == DiscoverEntries(a + b)
  {
    PresentSkip(a, entry, b, EntryNode);
  }

  /** A node is discovered exactly when some menu entry contributes it. */
  lemma DiscoverMembership(entries: seq<MenuEntry>, node: CategoryNode)
    ensures node in DiscoverEntries(entries) <==> exists i :: 0 <= i < |entries| && EntryNode(entries[i]) == Some(node)
  {
    PresentMembership(entries, EntryNode, node);
  }

  /** Every discovered node is a non-excluded label's depth-1 node without
      an address, whose children are all depth-2 leaves. */
  lemma DiscoverShape(entries: seq<MenuEntry>)
    ensures forall n :: n in DiscoverEntries(entries) ==>
              && n.name !in ExcludedLabels && n.url == "" && n.depth == 1
              && (exists i :: 0 <= i < |entries| && entries[i].name == n.name)
              && forall c :: c in n.children ==> c.depth == 2 && c.children == []
  {
    forall n | n in DiscoverEntries(entries)
      ensures && n.name !in ExcludedLabels && n.url == "" && n.depth == 1
              && (exists i :: 0 <= i < |entries| && entries[i].name == n.name)
              && forall c :: c in n.children ==> c.depth == 2 && c.children == []
    {
      DiscoverMembership(entries, n);
      var i :| 0 <= i < |entries| && EntryNode(entries[i]) == Some(n);
      ChildShape(entries[i].panel.links);
    }
  }

  /** The label loop of `discover`. */
  method DiscoverLabels(entries: seq<MenuEntry>) returns (categories: seq<CategoryNode>)
    ensures categories == DiscoverEntries(entries)
  {
    categories := [];
    for i := 0 to |entries|
      invariant categories == DiscoverEntries(entries[..i])
    {
      assert entries[..i + 1][..i] == entries[..i];
      var name := entries[i].name;
      if name in ExcludedLabels {
        continue;
      }
      var node := ExtractCategoryBranch(name, entries[i].panel);
      if node.Normal? && node.value.Some? {
        categories := categories + [node.value.value];
      }
    }
    assert entries[..|entries|] == entries;
  }

  method Discover(menu: Option<seq<MenuEntry>>) returns (categories: seq<CategoryNode>)
    ensures categories == DiscoverResult(menu)
  {
    if menu.None? {
      return [];
    }
    categories := DiscoverLabels(menu.value);
  }
}
