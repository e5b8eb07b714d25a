/** What the two storefront scrapers (the serverless handler and the
    Empretienda updater) share: turning the `h3 a` links of a catalog page
    into a list of uniquely named products with a price and a stock flag,
    splitting that list by stock, and rendering the two blocks of the
    system prompt. */
module Storefront {
  import opened Strings
  import opened JsValues
  import opened Dedup

  /** One `h3 a` link: its trimmed text and the text of its product card
      (the parent of its closest enclosing `div`). */
  datatype Candidate = Candidate(name: string, containerText: string)

  /** `{ name, price, hasStock }`, where a `null` price is `None`. */
  datatype StoreProduct = StoreProduct(name: string, price: Option<string>, hasStock: bool)

  /** The client row read from the `clients` table: the fields the prompt uses. */
  datatype ClientRow = ClientRow(name: JsValue, hours: JsValue, shipping: JsValue, payments: JsValue, returnPolicy: JsValue)

  /** The answer of `.select('*').eq('client_id', id).single()`. */
  datatype Lookup = LookupError | NoRow | Row(row: ClientRow)

  /** The answer of fetching the catalog page: its links, or the error message. */
  datatype Fetch = Fetched(cands: seq<Candidate>) | FetchFailed(message: string)

  /** The update the handler sends to the `clients` table. */
  datatype PromptWrite = PromptWrite(clientId: string, prompt: string)

  const CatalogPath := "/productos"
  const OutOfStockMark := "sin stock"

  // ----- `priceText.match(/\$[\d.,]+/)` -----

  predicate IsPriceChar(c: char) {
    IsDigit(c) || c == '.' || c == ','
  }

  /** A match of the price pattern starts at `i`. */
  predicate MatchesAt(s: string, i: nat) {
    i + 1 < |s| && s[i] == '$' && IsPriceChar(s[i + 1])
  }

  /** A text the pattern matches in full: `$` and one or more digits, dots or commas. */
  predicate IsPriceMatch(t: string) {
    |t| >= 2 && t[0] == '$' && forall k :: 1 <= k < |t| ==> IsPriceChar(t[k])
  }

  /** The number of price characters from `i` on. */
  function PriceRun(s: string, i: nat): (n: nat)
    requires i <= |s|
    ensures i + n <= |s|
    ensures forall j :: i <= j < i + n ==> IsPriceChar(s[j])
    ensures i + n < |s| ==> !IsPriceChar(s[i + n])
    decreases |s| - i
  {
    if i == |s| || !IsPriceChar(s[i]) then 0 else 1 + PriceRun(s, i + 1)
  }

  /** The leftmost position at or after `i` where a match starts. */
  function MatchFrom(s: string, i: nat): (r: Option<nat>)
    requires i <= |s|
    ensures r.Some? ==> i <= r.value < |s| && MatchesAt(s, r.value)
    ensures r.Some? ==> forall j :: i <= j < r.value ==> !MatchesAt(s, j)
    ensures r.None? ==> forall j :: i <= j < |s| ==> !MatchesAt(s, j)
    decreases |s| - i
  {
    if i == |s| then None
    else if MatchesAt(s, i) then Some(i)
    else MatchFrom(s, i + 1)
  }

  /** `priceMatch ? priceMatch[0] : null`: regular-expression search finds
      the leftmost position where the pattern matches and, the `+` being
      greedy, takes the longest run of price characters there. */
  function FirstPrice(s: string): (r: Option<string>)
    ensures r.None? <==> forall j :: 0 <= j < |s| ==> !MatchesAt(s, j)
    ensures r.Some? ==> IsPriceMatch(r.value)
    ensures r.Some? ==>
      exists i: nat :: (i <= |s| && OccursAt(s, r.value, i)
        && (forall j :: 0 <= j < i ==> !MatchesAt(s, j))
        && (i + |r.value| == |s| || !IsPriceChar(s[i + |r.value|])))
  {
    match MatchFrom(s, 0)
    case None => None
    case Some(i) =>
      var t := s[i..i + 1 + PriceRun(s, i + 1)];
      assert OccursAt(s, t, i);
      Some(t)
  }

  /** `!container.text().toLowerCase().includes('sin stock')` */
  predicate HasStock(containerText: string) {
    !Contains(Lower(containerText), OutOfStockMark)
  }

  /** What each link would become if it were kept. */
  function ToProduct(c: Candidate): StoreProduct {
    StoreProduct(c.name, FirstPrice(c.containerText), HasStock(c.containerText))
  }

  function ToProducts(cands: seq<Candidate>): (r: seq<StoreProduct>)
    ensures |r| == |cands|
    ensures forall i :: 0 <= i < |cands| ==> r[i] == ToProduct(cands[i])
  {
    seq(|cands|, i requires 0 <= i < |cands| => ToProduct(cands[i]))
  }

  /** `name && name.length > 2` */
  predicate IsProductName(n: string) {
    n != "" && |n| > 2
  }

  function ProductName(p: StoreProduct): string {
    p.name
  }

  /** The products of a catalog page: its links, keeping the first link of
      each name longer than two characters. */
  function Products(cands: seq<Candidate>): seq<StoreProduct> {
    KeepFirst(ToProducts(cands), ProductName, IsProductName)
  }

  /** The collected products have names longer than two characters, no
      name twice, every long enough link name among them, the links' order,
      and for each name the first link that carries it: a later link with
      the same name is ignored whatever its price or stock. */
  lemma ProductsSpec(cands: seq<Candidate>)
    ensures forall i :: 0 <= i < |Products(cands)| ==> |Products(cands)[i].name| > 2
    ensures forall i, j :: 0 <= i < j < |Products(cands)| ==> Products(cands)[i].name != Products(cands)[j].name
    ensures forall k :: 0 <= k < |cands| && |cands[k].name| > 2 ==> cands[k].name in Names(Products(cands), ProductName)
    ensures IsSubsequence(Products(cands), ToProducts(cands))
    ensures forall i :: 0 <= i < |Products(cands)| ==>
      FirstNamed(ToProducts(cands), ProductName, Products(cands)[i].name) == Some(Products(cands)[i])
  {
    var all := ToProducts(cands);
    assert forall k :: 0 <= k < |cands| ==> ProductName(all[k]) == cands[k].name;
    KeepFirstOrdered(all, ProductName, IsProductName);
    KeepFirstEarliest(all, ProductName, IsProductName);
  }

  /** The `$('h3 a').each` loop. */
  method CollectProducts(cands: seq<Candidate>) returns (products: seq<StoreProduct>)
    ensures products == Products(cands)
  {
    products := [];
    for i := 0 to |cands|
      invariant products == KeepFirst(ToProducts(cands)[..i], ProductName, IsProductName)
    {
      var name := cands[i].name;
      var container := cands[i].containerText;
      var price := FirstPrice(container);
      var hasStock := !Contains(Lower(container), OutOfStockMark);
      var known := exists k :: 0 <= k < |products| && products[k].name == name;
      CollectStep(cands, i, products);
      if name != "" && |name| > 2 && !known {
        products := products + [StoreProduct(name, price, hasStock)];
      }
    }
    assert ToProducts(cands)[..|cands|] == ToProducts(cands);
  }

  /** One iteration of the loop extends the pass over the links by one. */
  lemma CollectStep(cands: seq<Candidate>, i: nat, products: seq<StoreProduct>)
    requires i < |cands|
    requires products == KeepFirst(ToProducts(cands)[..i], ProductName, IsProductName)
    ensures KeepFirst(ToProducts(cands)[..i + 1], ProductName, IsProductName) ==
      if IsProductName(cands[i].name) && !(exists k :: 0 <= k < |products| && products[k].name == cands[i].name)
      then products + [ToProduct(cands[i])]
      else products
  {
    var all := ToProducts(cands);
    assert all[..i + 1] == all[..i] + [ToProduct(cands[i])];
    KeepFirstSnoc(all[..i], ToProduct(cands[i]), ProductName, IsProductName);
    var name := cands[i].name;
    assert (exists k :: 0 <= k < |products| && products[k].name == name) <==> name in Names(products, ProductName);
  }

  // ----- The stock partition -----

  /** `products.filter(p => p.hasStock == stocked)` */
  function WithStock(ps: seq<StoreProduct>, stocked: bool): seq<StoreProduct>
    decreases |ps|
  {
    if ps == [] then []
    else
      WithStock(ps[..|ps| - 1], stocked)
      + (if ps[|ps| - 1].hasStock == stocked then [ps[|ps| - 1]] else [])
  }

  function InStock(ps: seq<StoreProduct>): seq<StoreProduct> {
    WithStock(ps, true)
  }

  function OutOfStock(ps: seq<StoreProduct>): seq<StoreProduct> {
    WithStock(ps, false)
  }

  /** The filter keeps exactly the products with the wanted stock flag, in order. */
  lemma {:induction false} WithStockSpec(ps: seq<StoreProduct>, stocked: bool)
    ensures forall i :: 0 <= i < |WithStock(ps, stocked)| ==> WithStock(ps, stocked)[i].hasStock == stocked
    ensures forall p :: p in WithStock(ps, stocked) <==> p in ps && p.hasStock == stocked
    ensures IsSubsequence(WithStock(ps, stocked), ps)
    decreases |ps|
  {
    if ps != [] {
      var pre := ps[..|ps| - 1];
      var x := ps[|ps| - 1];
      WithStockSpec(pre, stocked);
      assert ps == pre + [x];
      var w := WithStock(ps, stocked);
      if x.hasStock == stocked {
        assert w[..|w| - 1] == WithStock(pre, stocked);
      } else {
        assert w == WithStock(pre, stocked);
        assert ps[..|ps| - 1] == pre;
      }
    }
  }

  /** Every product is in exactly one of the two blocks: the counts add up
      and, as multisets, the two blocks are the product list. */
  lemma {:induction false} StockPartition(ps: seq<StoreProduct>)
    ensures |InStock(ps)| + |OutOfStock(ps)| == |ps|
    ensures multiset(InStock(ps)) + multiset(OutOfStock(ps)) == multiset(ps)
    decreases |ps|
  {
    if ps != [] {
      var pre, x := ps[..|ps| - 1], ps[|ps| - 1];
      StockPartition(pre);
      assert ps == pre + [x];
      assert multiset(ps) == multiset(pre) + multiset{x};
      if x.hasStock {
        assert InStock(ps) == InStock(pre) + [x];
        assert OutOfStock(ps) == OutOfStock(pre);
      } else {
        assert InStock(ps) == InStock(pre);
        assert OutOfStock(ps) == OutOfStock(pre) + [x];
      }
    }
  }

  // ----- The prompt blocks -----

  /** `p.price || fallback`: a match is never empty, so any price wins. */
  function PriceOr(price: Option<string>, fallback: string): string {
    if price.Some? && price.value != "" then price.value else fallback
  }

  /** `- ${p.name}: ${p.price || fallback}` */
  function AvailableLine(p: StoreProduct, fallback: string): string {
    "- " + p.name + ": " + PriceOr(p.price, fallback)
  }

  function AvailableLines(ps: seq<StoreProduct>, fallback: string): seq<string> {
    var stocked := InStock(ps);
    seq(|stocked|, i requires 0 <= i < |stocked| => AvailableLine(stocked[i], fallback))
  }

  /** The in-stock block: one line per in-stock product. */
  function AvailableList(ps: seq<StoreProduct>, fallback: string): string {
    Join(AvailableLines(ps, fallback), "\n")
  }

  /** The out-of-stock names joined with `", "`. */
  function OutOfStockNames(ps: seq<StoreProduct>): string {
    Join(Names(OutOfStock(ps), ProductName), ", ")
  }

  /** `${outOfStock ? `SIN STOCK: ${outOfStock}` : ''}` */
  function SinStockSection(ps: seq<StoreProduct>): string {
    var names := OutOfStockNames(ps);
    if names != "" then "SIN STOCK: " + names else ""
  }

  /** The middle of both prompts, from the product heading to the info heading. */
  function Catalog(ps: seq<StoreProduct>, fallback: string): string {
    "PRODUCTOS DISPONIBLES:\n" + AvailableList(ps, fallback) + CatalogTail(ps)
  }

  function CatalogTail(ps: seq<StoreProduct>): string {
    "\n\n" + SinStockSection(ps) + "\n\nINFO:\n"
  }

  lemma {:induction false} JoinNonEmpty(parts: seq<string>, sep: string)
    requires |parts| > 0 && parts[0] != ""
    ensures Join(parts, sep) != ""
  {
    if |parts| > 1 {
      assert |Join(parts, sep)| >= |parts[0]|;
    }
  }

  /** The `SIN STOCK:` section is empty exactly when no product is out of
      stock (product names being non-empty, as collected ones are). */
  lemma SinStockSectionEmpty(ps: seq<StoreProduct>)
    requires forall i :: 0 <= i < |ps| ==> ps[i].name != ""
    ensures SinStockSection(ps) == "" <==> |OutOfStock(ps)| == 0
    ensures |OutOfStock(ps)| > 0 ==> SinStockSection(ps) == "SIN STOCK: " + OutOfStockNames(ps)
  {
    var out := OutOfStock(ps);
    if |out| > 0 {
      WithStockSpec(ps, false);
      assert out[0] in ps;
      JoinNonEmpty(Names(out, ProductName), ", ");
    }
  }

  /** The catalog block, spelled out, contains itself. */
  lemma CatalogText(ps: seq<StoreProduct>, fallback: string)
    ensures Contains(Catalog(ps, fallback),
      "PRODUCTOS DISPONIBLES:\n" + AvailableList(ps, fallback) + "\n\n" + SinStockSection(ps) + "\n\nINFO:\n")
  {
    ContainsSelf(Catalog(ps, fallback));
    assert Catalog(ps, fallback) ==
      "PRODUCTOS DISPONIBLES:\n" + AvailableList(ps, fallback) + "\n\n" + SinStockSection(ps) + "\n\nINFO:\n";
  }

  /** The catalog block holds the in-stock block under its heading, then
      the `SIN STOCK:` section on its own paragraph, then the info heading. */
  lemma CatalogLayout(ps: seq<StoreProduct>, fallback: string)
    ensures StartsWith(Catalog(ps, fallback), "PRODUCTOS DISPONIBLES:\n" + AvailableList(ps, fallback) + "\n\n")
    ensures Contains(Catalog(ps, fallback), "\n\n" + SinStockSection(ps) + "\n\nINFO:\n")
    ensures Catalog(ps, fallback)[|"PRODUCTOS DISPONIBLES:\n" + AvailableList(ps, fallback)| + 2..]
      == SinStockSection(ps) + "\n\nINFO:\n"
  {
    var head := "PRODUCTOS DISPONIBLES:\n" + AvailableList(ps, fallback);
    var rest := SinStockSection(ps) + "\n\nINFO:\n";
    assert CatalogTail(ps) == "\n\n" + rest;
    assert Catalog(ps, fallback) == head + "\n\n" + rest;
    SplitAround(head, "\n\n", rest);
  }

  /** Each in-stock product has its line in the in-stock block. */
  lemma CatalogListsInStock(ps: seq<StoreProduct>, fallback: string)
    ensures forall p :: p in ps && p.hasStock ==> Contains(AvailableList(ps, fallback), AvailableLine(p, fallback))
    ensures forall p :: p in ps && p.hasStock ==> Contains(Catalog(ps, fallback), AvailableLine(p, fallback))
  {
    WithStockSpec(ps, true);
    var stocked := InStock(ps);
    var lines := AvailableLines(ps, fallback);
    forall p | p in ps && p.hasStock
      ensures Contains(AvailableList(ps, fallback), AvailableLine(p, fallback))
      ensures Contains(Catalog(ps, fallback), AvailableLine(p, fallback))
    {
      var i :| 0 <= i < |stocked| && stocked[i] == p;
      assert lines[i] == AvailableLine(p, fallback);
      JoinContains(lines, "\n", i);
      ContainsLeft("PRODUCTOS DISPONIBLES:\n", AvailableList(ps, fallback), lines[i]);
      ContainsRight("PRODUCTOS DISPONIBLES:\n" + AvailableList(ps, fallback), CatalogTail(ps), lines[i]);
    }
  }

  /** Each out-of-stock product has its name in the `SIN STOCK:` section. */
  lemma CatalogListsOutOfStock(ps: seq<StoreProduct>, fallback: string)
    requires forall i :: 0 <= i < |ps| ==> ps[i].name != ""
    ensures forall p :: p in ps && !p.hasStock ==> Contains(SinStockSection(ps), p.name)
    ensures forall p :: p in ps && !p.hasStock ==> Contains(Catalog(ps, fallback), p.name)
  {
    WithStockSpec(ps, false);
    var out := OutOfStock(ps);
    var names := Names(out, ProductName);
    forall p | p in ps && !p.hasStock
      ensures Contains(SinStockSection(ps), p.name)
      ensures Contains(Catalog(ps, fallback), p.name)
    {
      var i :| 0 <= i < |out| && out[i] == p;
      assert names[i] == p.name;
      JoinContains(names, ", ", i);
      SinStockSectionEmpty(ps);
      var section := SinStockSection(ps);
      ContainsLeft("SIN STOCK: ", OutOfStockNames(ps), p.name);
      assert Contains(section, p.name);
      ContainsLeft("\n\n", section, p.name);
      ContainsRight("\n\n" + section, "\n\nINFO:\n", p.name);
      ContainsLeft("PRODUCTOS DISPONIBLES:\n" + AvailableList(ps, fallback), CatalogTail(ps), p.name);
    }
  }

  /** When no line holds a line break, the in-stock block splits back into
      exactly one `- name: price` line per in-stock product, in list order. */
  lemma AvailableListLines(ps: seq<StoreProduct>, fallback: string)
    requires forall i :: 0 <= i < |AvailableLines(ps, fallback)| ==> NoLineBreak(AvailableLines(ps, fallback)[i])
    ensures |InStock(ps)| == 0 <==> AvailableList(ps, fallback) == ""
    ensures |InStock(ps)| > 0 ==> |SplitLines(AvailableList(ps, fallback))| == |InStock(ps)|
    ensures forall i :: 0 <= i < |InStock(ps)| ==>
      SplitLines(AvailableList(ps, fallback))[i] == AvailableLine(InStock(ps)[i], fallback)
  {
    var lines := AvailableLines(ps, fallback);
    if |lines| > 0 {
      SplitJoin(lines);
      assert |lines[0]| >= 4;
      JoinNonEmpty(lines, "\n");
    }
  }

  // ----- The info block and the closing lines -----

  const DefaultShipping := "Consultar"
  const DefaultPayments := "Mercado Pago, tarjetas, transferencia"
  const DefaultReturns := "30 días"

  /** `${heading}${field || fallback}`, the heading being `- Envíos: ` and the like. */
  function InfoLine(heading: string, field: JsValue, fallback: string): string {
    heading + OrDefault(field, fallback)
  }

  /** The shipping, payments and returns lines both prompts end their info block with. */
  function CommonInfo(row: ClientRow): string {
    InfoLine("- Envíos: ", row.shipping, DefaultShipping) + "\n"
    + InfoLine("- Pagos: ", row.payments, DefaultPayments) + "\n"
    + InfoLine("- Cambios: ", row.returnPolicy, DefaultReturns)
  }

  function Footer(timestamp: string): string {
    "\n\nResponde en español argentino, sé amable. No inventes productos.\nActualizado: " + timestamp
  }

  /** Each info line shows the client's field when it is set and its default otherwise. */
  lemma CommonInfoMentions(row: ClientRow)
    ensures Contains(CommonInfo(row), "- Envíos: " + (if Truthy(row.shipping) then row.shipping.s else DefaultShipping))
    ensures Contains(CommonInfo(row), "- Pagos: " + (if Truthy(row.payments) then row.payments.s else DefaultPayments))
    ensures Contains(CommonInfo(row), "- Cambios: " + (if Truthy(row.returnPolicy) then row.returnPolicy.s else DefaultReturns))
  {
    var l1 := InfoLine("- Envíos: ", row.shipping, DefaultShipping);
    var l2 := InfoLine("- Pagos: ", row.payments, DefaultPayments);
    var l3 := InfoLine("- Cambios: ", row.returnPolicy, DefaultReturns);
    ContainsSelf(l1);
    ContainsRight(l1, "\n", l1);
    ContainsRight(l1 + "\n", l2, l1);
    ContainsRight(l1 + "\n" + l2, "\n", l1);
    ContainsRight(l1 + "\n" + l2 + "\n", l3, l1);
    ContainsSelf(l2);
    ContainsLeft(l1 + "\n", l2, l2);
    ContainsRight(l1 + "\n" + l2, "\n", l2);
    ContainsRight(l1 + "\n" + l2 + "\n", l3, l2);
    ContainsSelf(l3);
    ContainsLeft(l1 + "\n" + l2 + "\n", l3, l3);
  }
}
