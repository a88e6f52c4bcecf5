/**
 * The one-page debugging script for a Falabella product page: it parses
 * every JSON-LD script of the page, skipping those that do not parse, picks
 * the first block that is a `Product` or an array holding one, and maps that
 * product exactly as the production handler does, with a fixed store,
 * category and address.
 */
module DebugFalabella {
  import opened JsString
  import opened JsValue
  import opened Types
  import opened Browser
  import opened Falabella
  import opened Collect

  const DebugStoreId := "debug-store-id"
  const DebugCategory := "Debug Category"
  const DebugUrl := "https://www.falabella.com/falabella-cl/product/148445589/SMART-TV-HISENSE-LED-50-50A4NV-FHD/148445591"

  // ---------------------------------------------------------------------------
  // Collecting the blocks
  // ---------------------------------------------------------------------------

  /** The block a script gives, if it parses. */
  function BlockOf(script: Script): Option<Value> {
    if script.Parsed? then Some(script.value) else None
  }

  /** The parsed blocks, in document order; scripts that do not parse are
      dropped. */
  function ParsedBlocks(scripts: seq<Script>): seq<Value> {
    Present(scripts, BlockOf)
  }

  /** A value is a block exactly when some script parses to it: unparsable
      scripts are skipped and nothing else is lost. */
  lemma ParsedBlocksMembership(scripts: seq<Script>, v: Value)
    ensures v in ParsedBlocks(scripts) <==> Parsed(v) in scripts
  {
    PresentMembership(scripts, BlockOf, v);
    if Parsed(v) in scripts {
      var i :| 0 <= i < |scripts| && scripts[i] == Parsed(v);
      assert BlockOf(scripts[i]) == Some(v);
    }
  }

  /** The `for (const s of scripts)` loop inside `page.evaluate`. */
  method CollectBlocks(scripts: seq<Script>) returns (found: seq<Value>)
    ensures found == ParsedBlocks(scripts)
  {
    found := [];
    for i := 0 to |scripts|
      invariant found == ParsedBlocks(scripts[..i])
    {
      assert scripts[..i + 1][..i] == scripts[..i];
      match scripts[i]
      case Parsed(v) =>
        found := found + [v];
      case Unparsable =>
    }
    assert scripts[..|scripts|] == scripts;
  }

  // ---------------------------------------------------------------------------
  // Selecting the product
  // ---------------------------------------------------------------------------

  /** The list of types the script logs: `j['@type']`, else `Array` or
      `Unknown`; it throws on a `null` block. */
  function TypeLabels(blocks: seq<Value>): (r: Completion<seq<Value>>)
    ensures r.Threw? <==> exists j :: 0 <= j < |blocks| && Nullish(blocks[j])
    ensures r.Normal? ==> |r.value| == |blocks|
  {
    if |blocks| == 0 then Normal([])
    else if Nullish(blocks[0]) then Threw
    else
      var typeLabel := Or(Member(blocks[0], "@type"), Str(if blocks[0].Arr? then "Array" else "Unknown"));
      var rest := TypeLabels(blocks[1..]);
      assert forall j :: 1 <= j < |blocks| ==> blocks[j] == blocks[1..][j - 1];
      if rest.Threw? then Threw else Normal([typeLabel] + rest.value)
  }

  /** The test of the outer `find`: the block is typed `Product`, or it is an
      array whose own `find` returns a `Product`; reading `@type` of a
      nullish block or element throws. */
  function BlockMatches(block: Value): Completion<bool> {
    if Nullish(block) then Threw
    else if HasProductType(block) then Normal(true)
    else if block.Arr? then
      match FindProduct(block.items)
      case Threw => Threw
      case Normal(found) => Normal(found.Some?)
    else Normal(false)
  }

  /** Index of the block at which the outer `find` stops: the first one
      that matches or whose test throws. */
  function FirstBlockStop(blocks: seq<Value>): (k: nat)
    ensures k <= |blocks|
    ensures forall j :: 0 <= j < k ==> BlockMatches(blocks[j]) == Normal(false)
    ensures k < |blocks| ==> BlockMatches(blocks[k]) != Normal(false)
  {
    if |blocks| == 0 || BlockMatches(blocks[0]) != Normal(false) then 0
    else 1 + FirstBlockStop(blocks[1..])
  }

  /** The outer `jsonLd.find(...)`. */
  function FindBlock(blocks: seq<Value>): Completion<Option<Value>> {
    if |blocks| == 0 then Normal(None)
    else
      match BlockMatches(blocks[0])
      case Threw => Threw
      case Normal(true) => Normal(Some(blocks[0]))
      case Normal(false) => FindBlock(blocks[1..])
  }

  /** The outer `find` returns the first matching block, throws when a test
      throws first, and finds nothing when neither happens. */
  lemma {:induction false} FindBlockSpec(blocks: seq<Value>)
    ensures var k := FirstBlockStop(blocks);
            FindBlock(blocks) ==
              if k == |blocks| then Normal(None)
              else if BlockMatches(blocks[k]).Threw? then Threw
              else Normal(Some(blocks[k]))
    decreases |blocks|
  {
    if |blocks| > 0 && BlockMatches(blocks[0]) == Normal(false) {
      FindBlockSpec(blocks[1..]);
    }
  }

  /** The normalisation step: an array block gives its first `Product`
      element, any other block is taken as it is. */
  function FinalProduct(raw: Option<Value>): Completion<Option<Value>> {
    match raw
    case None => Normal(None)
    case Some(r) => if r.Arr? then FindProduct(r.items) else Normal(Some(r))
  }

  /** The product the script maps: `None` when any step throws or nothing
      is found. */
  function SelectDebugProduct(blocks: seq<Value>): Option<Value> {
    if TypeLabels(blocks).Threw? then None
    else
      match FindBlock(blocks)
      case Threw => None
      case Normal(raw) =>
        match FinalProduct(raw)
        case Threw => None
        case Normal(p) => if p.Some? && Truthy(p.value) then p else None
  }

  /** The record the script prints, if any. */
  function DebugRecord(scripts: seq<Script>): Option<ScrapedProduct> {
    match SelectDebugProduct(ParsedBlocks(scripts))
    case Some(p) => Some(MapProduct(p, DebugStoreId, DebugUrl, DebugCategory))
    case None => None
  }

  /** The selected product is typed `Product`. It is the first block that
      is a product or an array holding one, all earlier blocks being
      neither; when that block is an array, it is the array's first
      `Product` element. Conversely, when no block is nullish and some block
      matches, a product is selected. */
  lemma SelectDebugProductSpec(blocks: seq<Value>)
    ensures var p := SelectDebugProduct(blocks);
            var k := FirstBlockStop(blocks);
            p.Some? ==>
              && HasProductType(p.value)
              && k < |blocks|
              && (forall j :: 0 <= j < k ==> BlockMatches(blocks[j]) == Normal(false))
              && (!blocks[k].Arr? ==> p.value == blocks[k])
              && (blocks[k].Arr? ==> FindProduct(blocks[k].items) == Normal(Some(p.value)))
    ensures (exists j :: 0 <= j < |blocks| && Nullish(blocks[j])) ==> SelectDebugProduct(blocks).None?
    ensures var k := FirstBlockStop(blocks);
            (forall j :: 0 <= j < |blocks| ==> !Nullish(blocks[j]))
            && k < |blocks| && BlockMatches(blocks[k]) == Normal(true) ==>
              SelectDebugProduct(blocks).Some?
  {
    FindBlockSpec(blocks);
    var k := FirstBlockStop(blocks);
    if k < |blocks| {
      FindProductBlock(blocks[k]);
      if BlockMatches(blocks[k]) == Normal(true) {
        var p := FinalProduct(Some(blocks[k]));
        if p.Normal? && p.value.Some? {
          ProductTypedIsObject(p.value.value);
        }
      }
    }
  }

  /** A matching block is either typed `Product` itself or an array whose
      `find` returns a `Product`. */
  lemma FindProductBlock(block: Value)
    ensures BlockMatches(block) == Normal(true) ==>
              if block.Arr? then
                var f := FindProduct(block.items);
                f.Normal? && f.value.Some? && HasProductType(f.value.value)
              else HasProductType(block)
  {
    if block.Arr? {
      FindProductSpec(block.items);
    }
  }

  /** A record is printed exactly when a product is selected from the
      parsed blocks. It has the fixed store, category and address, keeps the
      selected product verbatim, and uses the production handler's field
      defaults and image rule. */
  lemma DebugRecordSpec(scripts: seq<Script>)
    ensures DebugRecord(scripts).Some? <==> SelectDebugProduct(ParsedBlocks(scripts)).Some?
    ensures DebugRecord(scripts).Some? ==> DebugRecord(scripts).value.additionalData == SelectDebugProduct(ParsedBlocks(scripts))
    ensures var r := DebugRecord(scripts);
            r.Some? ==>
              && r.value.storeId == DebugStoreId && r.value.categoryName == DebugCategory
              && r.value.url == DebugUrl
              && r.value.additionalData.Some? && HasProductType(r.value.additionalData.value)
              && r.value == MapProduct(r.value.additionalData.value, DebugStoreId, DebugUrl, DebugCategory)
  {
    var blocks := ParsedBlocks(scripts);
    SelectDebugProductSpec(blocks);
  }

  /** With a single JSON-LD script, the script and the production handler
      pick the same product and build the same record. */
  lemma AgreesWithProduction(v: Value)
    ensures DebugRecord([Parsed(v)]) == JsonLdStage(Some(Parsed(v)), DebugStoreId, DebugUrl, DebugCategory)
  {
    PresentSnoc([], Parsed(v), BlockOf);
    assert [] + [Parsed(v)] == [Parsed(v)];
    assert ParsedBlocks([Parsed(v)]) == [v];
    assert [v][1..] == [];
    assert FindBlock([v]) == match BlockMatches(v)
                             case Threw => Threw
                             case Normal(true) => Normal(Some(v))
                             case Normal(false) => Normal(None);
    if HasProductType(v) {
      ProductTypedIsObject(v);
    }
  }

  /** The script after navigation: collect the blocks, log their types,
      select and map the product. */
  method Extract(scripts: seq<Script>) returns (productData: Option<ScrapedProduct>)
    ensures productData == DebugRecord(scripts)
  {
    productData := None;
    var jsonLd := CollectBlocks(scripts);
    if |jsonLd| > 0 && TypeLabels(jsonLd).Threw? {
      return;
    }
    var rawProduct := FindBlock(jsonLd);
    if rawProduct.Threw? {
      return;
    }
    var finalProduct := FinalProduct(rawProduct.value);
    if finalProduct.Threw? {
      return;
    }
    if finalProduct.value.Some? && Truthy(finalProduct.value.value) {
      productData := Some(MapProduct(finalProduct.value.value, DebugStoreId, DebugUrl, DebugCategory));
    }
  }
}
