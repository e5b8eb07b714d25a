/** The catalog scraper of scraper.js. The page is the sequence of trimmed
    texts of its elements in document order (what `$('*').each` visits). A
    walk over those texts opens a product at each exact text `Ver detalle`,
    names it after the first name-shaped text and prices it after the last
    price-shaped text before the next such marker; a cleaning pass then drops
    short, duplicate and blacklisted names, and the survivors are rendered
    as a numbered list for the system prompt. */
module CousinsScraper {
  import opened Strings
  import opened Dedup
  import opened ClientsJson

  /** The text that starts a product card. */
  const Marker := "Ver detalle"

  /** The record the client id whose prompt the scraper rewrites. */
  const StoreClient := "cousinssnkrs"

  /** Names that are page chrome rather than products; compared without case. */
  const InvalidTexts: seq<string> := [
    "Información", "Compra por", "Iniciar sesión",
    "Crear cuenta", "cousinsnkrs", "Productos",
    "más viejo", "más nuevo", "Precio menor", "Precio mayor"
  ]

  datatype Listing = Listing(name: string, price: string)

  /** `currentProduct`: no product before the first marker, then the open one. */
  datatype Cursor = NoProduct | Current(draft: Listing)

  datatype WalkState = WalkState(products: seq<Listing>, cursor: Cursor)

  predicate IsPriceChar(c: char) {
    IsDigit(c) || c == '.'
  }

  /** `/^\$[\d\.]+,\d{2}$/`: a dollar sign, one or more digits or dots, a
      comma and exactly two digits, and nothing else. */
  predicate IsPriceText(t: string) {
    && |t| >= 5
    && t[0] == '$'
    && (forall i :: 1 <= i < |t| - 3 ==> IsPriceChar(t[i]))
    && t[|t| - 3] == ','
    && IsDigit(t[|t| - 2]) && IsDigit(t[|t| - 1])
  }

  /** The test a text must pass to become a product name (besides the open
      product having no name yet). */
  predicate IsNameText(t: string) {
    && 5 < |t| < 100
    && !Contains(t, Marker)
    && !StartsWith(t, "$")
    && !Contains(t, "Más nuevo")
    && !Contains(t, "Precio")
  }

  /** The open product, when it has a name, is added to the list. */
  function Emit(c: Cursor): seq<Listing> {
    if c.Current? && c.draft.name != "" then [c.draft] else []
  }

  /** One iteration of the element walk. */
  function Step(w: WalkState, text: string): WalkState {
    if text == Marker then
      WalkState(w.products + Emit(w.cursor), Current(Listing("", "")))
    else if IsPriceText(text) then
      if w.cursor.Current? then WalkState(w.products, Current(w.cursor.draft.(price := text))) else w
    else if IsNameText(text) && w.cursor.Current? && w.cursor.draft.name == "" then
      WalkState(w.products, Current(w.cursor.draft.(name := text)))
    else
      w
  }

  /** The state after walking over `texts`. */
  function Walk(texts: seq<string>): WalkState
    decreases |texts|
  {
    if texts == [] then WalkState([], NoProduct)
    else Step(Walk(texts[..|texts| - 1]), texts[|texts| - 1])
  }

  // ----- Reference definition: one product per marker -----

  /** The index of the last marker in `texts`, if any. */
  function LastMarker(texts: seq<string>): (r: Option<nat>)
    ensures r.Some? ==> r.value < |texts| && texts[r.value] == Marker
    ensures r.Some? ==> forall j :: r.value < j < |texts| ==> texts[j] != Marker
    ensures r.None? ==> forall j :: 0 <= j < |texts| ==> texts[j] != Marker
    decreases |texts|
  {
    if texts == [] then None
    else if texts[|texts| - 1] == Marker then Some(|texts| - 1)
    else LastMarker(texts[..|texts| - 1])
  }

  /** The first name-shaped text of a segment, or "" when there is none. */
  function FirstName(seg: seq<string>): string
    decreases |seg|
  {
    if seg == [] then "" else if IsNameText(seg[0]) then seg[0] else FirstName(seg[1..])
  }

  /** The last price-shaped text of a segment, or "" when there is none. */
  function LastPrice(seg: seq<string>): string
    decreases |seg|
  {
    if seg == [] then ""
    else if IsPriceText(seg[|seg| - 1]) then seg[|seg| - 1]
    else LastPrice(seg[..|seg| - 1])
  }

  /** The product a segment between two markers describes. */
  function Fill(seg: seq<string>): Listing {
    Listing(FirstName(seg), LastPrice(seg))
  }

  /** The products of a page: every marker opens a segment that runs to the
      next marker (or the end); a segment with a name-shaped text yields one
      product, named after its first such text and priced after its last
      price-shaped text. */
  function Listings(texts: seq<string>): seq<Listing>
    decreases |texts|
  {
    match LastMarker(texts)
    case None => []
    case Some(k) => Listings(texts[..k]) + Emit(Current(Fill(texts[k + 1..])))
  }

  lemma {:induction false} FirstNameShape(seg: seq<string>)
    ensures FirstName(seg) == "" || IsNameText(FirstName(seg))
    ensures FirstName(seg) == "" <==> forall i :: 0 <= i < |seg| ==> !IsNameText(seg[i])
    decreases |seg|
  {
    if seg != [] {
      FirstNameShape(seg[1..]);
      if !IsNameText(seg[0]) {
        forall i | 0 <= i < |seg| && i > 0 ensures (seg[1..][i - 1] == seg[i]) {}
      }
    }
  }

  lemma {:induction false} LastPriceShape(seg: seq<string>)
    ensures LastPrice(seg) == "" || IsPriceText(LastPrice(seg))
    decreases |seg|
  {
    if seg != [] {
      LastPriceShape(seg[..|seg| - 1]);
    }
  }

  lemma {:induction false} FirstNameSnoc(seg: seq<string>, t: string)
    ensures FirstName(seg + [t]) ==
      if FirstName(seg) != "" then FirstName(seg) else if IsNameText(t) then t else ""
    decreases |seg|
  {
    if seg != [] {
      assert (seg + [t])[1..] == seg[1..] + [t];
      FirstNameSnoc(seg[1..], t);
      if IsNameText(seg[0]) {
        assert FirstName(seg) == seg[0] != "";
      }
    }
  }

  /** Walking a non-marker text changes only the open product, as `Fill` predicts. */
  lemma FillSnoc(seg: seq<string>, t: string)
    requires t != Marker
    ensures Step(WalkState([], Current(Fill(seg))), t).cursor == Current(Fill(seg + [t]))
  {
    FirstNameSnoc(seg, t);
    assert (seg + [t])[..|seg|] == seg;
    if IsNameText(t) {
      assert !IsPriceText(t) by {
        assert !StartsWith(t, "$");
        assert t[0..1] == [t[0]];
      }
    }
  }

  /** The walk state the markers determine: before the first marker nothing
      is open; after the last one, the products of the earlier segments are
      listed and the product of the last segment is open. */
  function Expected(texts: seq<string>): WalkState {
    match LastMarker(texts)
    case None => WalkState([], NoProduct)
    case Some(k) => WalkState(Listings(texts[..k]), Current(Fill(texts[k + 1..])))
  }

  lemma MarkerStep(pre: seq<string>)
    ensures Expected(pre + [Marker]) == Step(Expected(pre), Marker)
  {
    var texts := pre + [Marker];
    assert LastMarker(texts) == Some(|pre|);
    assert texts[..|pre|] == pre;
    assert texts[|pre| + 1..] == [];
    assert Expected(texts) == WalkState(Listings(pre), Current(Listing("", "")));
  }

  lemma OtherStep(pre: seq<string>, t: string)
    requires t != Marker
    ensures Expected(pre + [t]) == Step(Expected(pre), t)
  {
    var texts := pre + [t];
    assert texts[..|pre|] == pre;
    assert LastMarker(texts) == LastMarker(pre);
    match LastMarker(pre)
    case None =>
    case Some(k) =>
      assert texts[..k] == pre[..k];
      assert texts[k + 1..] == pre[k + 1..] + [t];
      FillSnoc(pre[k + 1..], t);
  }

  /** The walk reaches the state the markers determine. */
  lemma {:induction false} WalkShape(texts: seq<string>)
    ensures Walk(texts) == Expected(texts)
    decreases |texts|
  {
    if texts != [] {
      var pre := texts[..|texts| - 1];
      var t := texts[|texts| - 1];
      assert texts == pre + [t];
      WalkShape(pre);
      if t == Marker {
        MarkerStep(pre);
      } else {
        OtherStep(pre, t);
      }
    }
  }

  /** The walk followed by the final push yields exactly the reference products. */
  lemma WalkListings(texts: seq<string>)
    ensures Walk(texts).products + Emit(Walk(texts).cursor) == Listings(texts)
  {
    WalkShape(texts);
    match LastMarker(texts)
    case None =>
    case Some(k) => ListingsSplit(texts, k, texts[..k], texts[k + 1..]);
  }

  /** Texts before the first marker never produce or change a product. */
  lemma {:induction false} PrefixBeforeMarkerIgnored(pre: seq<string>, rest: seq<string>)
    requires forall j :: 0 <= j < |pre| ==> pre[j] != Marker
    ensures Listings(pre + rest) == Listings(rest)
    decreases |rest|
  {
    if LastMarker(rest).Some? {
      var k := LastMarker(rest).value;
      ListingsConcatAt(pre, rest, k);
      ListingsSplit(rest, k, rest[..k], rest[k + 1..]);
      PrefixBeforeMarkerIgnored(pre, rest[..k]);
    } else {
      NoMarkerConcat(pre, rest);
    }
  }

  lemma ListingsConcatAt(pre: seq<string>, rest: seq<string>, k: nat)
    requires LastMarker(rest) == Some(k)
    ensures Listings(pre + rest) == Listings(pre + rest[..k]) + Emit(Current(Fill(rest[k + 1..])))
  {
    LastMarkerConcat(pre, rest, k);
    ListingsSplit(pre + rest, |pre| + k, pre + rest[..k], rest[k + 1..]);
  }

  lemma ListingsSplit(texts: seq<string>, k: nat, before: seq<string>, after: seq<string>)
    requires LastMarker(texts) == Some(k)
    requires texts[..k] == before && texts[k + 1..] == after
    ensures Listings(texts) == Listings(before) + Emit(Current(Fill(after)))
  {
  }

  lemma NoMarkerConcat(pre: seq<string>, rest: seq<string>)
    requires forall j :: 0 <= j < |pre| ==> pre[j] != Marker
    requires forall j :: 0 <= j < |rest| ==> rest[j] != Marker
    ensures Listings(pre + rest) == []
  {
    var all := pre + rest;
    forall j | 0 <= j < |all| ensures all[j] != Marker {
      if j >= |pre| {
        assert all[j] == rest[j - |pre|];
      }
    }
  }

  lemma LastMarkerConcat(pre: seq<string>, rest: seq<string>, k: nat)
    requires LastMarker(rest) == Some(k)
    ensures LastMarker(pre + rest) == Some(|pre| + k)
    ensures (pre + rest)[..|pre| + k] == pre + rest[..k]
    ensures (pre + rest)[|pre| + k + 1..] == rest[k + 1..]
  {
    var all := pre + rest;
    forall j | |pre| + k < j < |all| ensures all[j] != Marker {
      assert all[j] == rest[j - |pre|];
    }
    LastMarkerAt(all, |pre| + k);
  }

  lemma LastMarkerAt(texts: seq<string>, k: nat)
    requires k < |texts| && texts[k] == Marker
    requires forall j :: k < j < |texts| ==> texts[j] != Marker
    ensures LastMarker(texts) == Some(k)
  {
  }

  function MarkerCount(texts: seq<string>): nat
    decreases |texts|
  {
    if texts == [] then 0
    else MarkerCount(texts[..|texts| - 1]) + (if texts[|texts| - 1] == Marker then 1 else 0)
  }

  /** Every product comes from its own marker, is named by a name-shaped
      text, and has either no price or a price-shaped one. */
  lemma {:induction false} ListingsShape(texts: seq<string>)
    ensures |Listings(texts)| <= MarkerCount(texts)
    ensures forall i :: 0 <= i < |Listings(texts)| ==>
      IsNameText(Listings(texts)[i].name) && (Listings(texts)[i].price == "" || IsPriceText(Listings(texts)[i].price))
    decreases |texts|
  {
    match LastMarker(texts)
    case None =>
    case Some(k) =>
      ListingsShape(texts[..k]);
      FirstNameShape(texts[k + 1..]);
      LastPriceShape(texts[k + 1..]);
      MarkerCountPrefix(texts, k);
  }

  lemma {:induction false} MarkerCountPrefix(texts: seq<string>, k: nat)
    requires k < |texts| && texts[k] == Marker
    ensures MarkerCount(texts[..k]) + 1 <= MarkerCount(texts)
    decreases |texts|
  {
    if k < |texts| - 1 {
      assert texts[..|texts| - 1][..k] == texts[..k];
      MarkerCountPrefix(texts[..|texts| - 1], k);
    } else {
      assert texts[..|texts| - 1] == texts[..k];
    }
  }

  /** The `$('*').each` walk of `scrapeCousinsSnkrs` with its `currentProduct` cursor, and the final push. */
  method ExtractListings(texts: seq<string>) returns (products: seq<Listing>)
    ensures products == Listings(texts)
  {
    products := [];
    var current: Cursor := NoProduct;
    var i := 0;
    while i < |texts|
      invariant 0 <= i <= |texts|
      invariant WalkState(products, current) == Walk(texts[..i])
    {
      var text := texts[i];
      if text == Marker {
        if current.Current? && current.draft.name != "" {
          products := products + [current.draft];
        }
        current := Current(Listing("", ""));
      } else if IsPriceText(text) {
        if current.Current? {
          current := Current(current.draft.(price := text));
        }
      } else if IsNameText(text) && current.Current? && current.draft.name == "" {
        current := Current(current.draft.(name := text));
      }
      assert texts[..i + 1][..i] == texts[..i];
      i := i + 1;
    }
    assert texts[..|texts|] == texts;
    if current.Current? && current.draft.name != "" {
      products := products + [current.draft];
    }
    WalkListings(texts);
  }

  /** `invalidTexts.some(invalid => name.toLowerCase().includes(invalid.toLowerCase()))` */
  predicate IsBlacklisted(name: string) {
    exists i :: 0 <= i < |InvalidTexts| && Contains(Lower(name), Lower(InvalidTexts[i]))
  }

  /** What the cleaning pass asks of a name besides not having been kept before. */
  predicate IsCleanName(name: string) {
    name != "" && |name| > 3 && !IsBlacklisted(name)
  }

  function ListingName(p: Listing): string {
    p.name
  }

  /** The `for (const p of products)` cleaning loop of `scrapeCousinsSnkrs`, with its `seen` set. */
  method CleanListings(products: seq<Listing>) returns (clean: seq<Listing>)
    ensures clean == KeepFirst(products, ListingName, IsCleanName)
  {
    clean := [];
    var seen: set<string> := {};
    for i := 0 to |products|
      invariant clean == KeepFirst(products[..i], ListingName, IsCleanName)
      invariant forall n :: n in seen <==> n in Names(clean, ListingName)
    {
      var p := products[i];
      assert products[..i + 1] == products[..i] + [p];
      KeepFirstSnoc(products[..i], p, ListingName, IsCleanName);
      if p.name != "" && |p.name| > 3 && p.name !in seen {
        var isValid := !IsBlacklisted(p.name);
        if isValid {
          NamesSnoc(clean, p, ListingName);
          clean := clean + [p];
          seen := seen + {p.name};
        }
      }
    }
    assert products[..|products|] == products;
  }

  /** The cleaned list keeps input order, has pairwise distinct names, each
      longer than three characters and free of every blacklisted text
      regardless of case, and keeps each name's first listing. */
  lemma CleanListingsSpec(products: seq<Listing>)
    ensures forall i :: 0 <= i < |KeepFirst(products, ListingName, IsCleanName)| ==>
      var n := KeepFirst(products, ListingName, IsCleanName)[i].name;
      |n| > 3 && forall k :: 0 <= k < |InvalidTexts| ==> !Contains(Lower(n), Lower(InvalidTexts[k]))
    ensures forall i, j :: 0 <= i < j < |KeepFirst(products, ListingName, IsCleanName)| ==>
      KeepFirst(products, ListingName, IsCleanName)[i].name != KeepFirst(products, ListingName, IsCleanName)[j].name
    ensures IsSubsequence(KeepFirst(products, ListingName, IsCleanName), products)
    ensures forall i :: 0 <= i < |KeepFirst(products, ListingName, IsCleanName)| ==>
      FirstNamed(products, ListingName, KeepFirst(products, ListingName, IsCleanName)[i].name)
        == Some(KeepFirst(products, ListingName, IsCleanName)[i])
  {
    KeepFirstOrdered(products, ListingName, IsCleanName);
    KeepFirstEarliest(products, ListingName, IsCleanName);
  }

  /** One line of the `cleanProducts.map(...)` product list. */
  function ListLine(n: nat, p: Listing): string {
    NatToString(n) + ". " + p.name + (if p.price != "" then " - " + p.price else "")
  }

  function ListLines(ps: seq<Listing>): seq<string> {
    seq(|ps|, i requires 0 <= i < |ps| => ListLine(i + 1, ps[i]))
  }

  /** `cleanProducts.map(...).join('\n')` */
  function ProductList(ps: seq<Listing>): string {
    Join(ListLines(ps), "\n")
  }

  /** Line `i` of the rendered list is product `i + 1` of the list, numbered
      from 1, with " - price" only when the price is non-empty (as long as no
      name or price holds a line break of its own). */
  lemma ProductListLines(ps: seq<Listing>)
    requires |ps| > 0
    requires forall i :: 0 <= i < |ps| ==> NoLineBreak(ps[i].name) && NoLineBreak(ps[i].price)
    ensures |SplitLines(ProductList(ps))| == |ps|
    ensures forall i :: 0 <= i < |ps| ==>
      (SplitLines(ProductList(ps))[i] ==
       NatToString(i + 1) + ". " + ps[i].name + (if ps[i].price != "" then " - " + ps[i].price else ""))
  {
    var lines := ListLines(ps);
    ListLinesNoBreak(ps);
    SplitJoin(lines);
    assert SplitLines(ProductList(ps)) == lines;
  }

  lemma ListLinesNoBreak(ps: seq<Listing>)
    requires forall i :: 0 <= i < |ps| ==> NoLineBreak(ps[i].name) && NoLineBreak(ps[i].price)
    ensures forall i :: 0 <= i < |ListLines(ps)| ==> NoLineBreak(ListLines(ps)[i])
  {
    forall i | 0 <= i < |ps| ensures NoLineBreak(ListLines(ps)[i]) {
      ListLineNoBreak(i + 1, ps[i]);
    }
  }

  lemma ListLineNoBreak(n: nat, p: Listing)
    requires NoLineBreak(p.name) && NoLineBreak(p.price)
    ensures NoLineBreak(ListLine(n, p))
  {
    var num := NatToString(n);
    assert NoLineBreak(num);
    NoLineBreakConcat(num, ". ");
    NoLineBreakConcat(num + ". ", p.name);
    NoLineBreakConcat(" - ", p.price);
    NoLineBreakConcat(num + ". " + p.name, if p.price != "" then " - " + p.price else "");
  }

  /** What the run of scrapeCousinsSnkrs produces. */
  datatype CousinsOutcome =
    | ScrapeFailed
    | Scraped(products: seq<Listing>, productList: Option<string>)

  /** scrapeCousinsSnkrs without its file writes and console output: a failed
      fetch fails the run; otherwise the page is walked and cleaned, and a
      product list for the prompt is rendered only when some product survived.
      The run reports success with the number of cleaned products. */
  method ScrapeCousins(page: Option<seq<string>>) returns (outcome: CousinsOutcome)
    ensures page.None? <==> outcome.ScrapeFailed?
    ensures page.Some? ==> outcome.products == KeepFirst(Listings(page.value), ListingName, IsCleanName)
    ensures outcome.Scraped? ==> (outcome.productList.Some? <==> |outcome.products| > 0)
    ensures outcome.Scraped? && outcome.productList.Some? ==> outcome.productList.value == ProductList(outcome.products)
  {
    if page.None? {
      return ScrapeFailed;
    }
    var products := ExtractListings(page.value);
    var clean := CleanListings(products);
    if |clean| > 0 {
      outcome := Scraped(clean, Some(ProductList(clean)));
    } else {
      outcome := Scraped(clean, None);
    }
  }

  /** The automatic update of clients.json after the prompt is generated: only the store's
      own record, when it is present and truthy, gets the new prompt; every
      other record, and an unreadable file, stays as it was. */
  function UpdateStorePrompt(file: ClientsFile, prompt: string): (r: ClientsFile)
    ensures !HasRecord(file, StoreClient) ==> r == file
    ensures HasRecord(file, StoreClient) ==>
      && r.Parsed? && r.entries.Keys == file.entries.Keys
      && r.entries[StoreClient] == Some(file.entries[StoreClient].value.(systemPrompt := prompt))
      && forall key :: key in file.entries && key != StoreClient ==> r.entries[key] == file.entries[key]
  {
    if HasRecord(file, StoreClient) then
      Parsed(file.entries[StoreClient := Some(file.entries[StoreClient].value.(systemPrompt := prompt))])
    else
      file
  }
}
