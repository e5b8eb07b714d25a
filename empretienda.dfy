/** The Empretienda catalog updater of scraper-empretienda.js: collect a
    store's products, render its system prompt, and write it to the client's
    row unless the client is unknown or no product was found. The database,
    the HTTP fetch and the clock are parameters. */
module Empretienda {
  import opened Strings
  import opened JsValues
  import opened Storefront

  const PriceFallback := "Consultar precio"
  const DefaultHours := "Consultar"

  /** What `scrapeAndUpdate` resolves to. */
  datatype UpdateOutcome =
    | ClientMissing          // `{ success: false }`
    | NoProductsFound        // `{ success: false, message: 'No products found' }`
    | Updated(products: nat) // `{ success: true, products }`

  /** The products `scrapeEmpretienda` resolves to: the collected ones, or
      none when the request fails (the error is logged and swallowed). */
  function Scraped(page: Fetch): seq<StoreProduct> {
    if page.Fetched? then Products(page.cands) else []
  }

  /** scrapeEmpretienda: the same `h3 a` loop as the serverless handler; a
      failed request yields an empty list instead of an error. */
  method ScrapeEmpretienda(page: Fetch) returns (products: seq<StoreProduct>)
    ensures products == Scraped(page)
    ensures page.FetchFailed? ==> products == []
    ensures forall i :: 0 <= i < |products| ==> |products[i].name| > 2
    ensures forall i, j :: 0 <= i < j < |products| ==> products[i].name != products[j].name
  {
    products := [];
    if page.Fetched? {
      products := CollectProducts(page.cands);
      ProductsSpec(page.cands);
    }
  }

  function Heading(row: ClientRow): string {
    "Eres el asistente virtual de " + Interp(row.name) + ". \n\n"
  }

  /** generateSystemPrompt: like the serverless handler's
      prompt, but with `Consultar precio` for a missing price, a space after
      the opening sentence and an opening-hours line. */
  function SystemPrompt(row: ClientRow, ps: seq<StoreProduct>, timestamp: string): string {
    Heading(row) + Catalog(ps, PriceFallback) + Info(row) + Footer(timestamp)
  }

  /** The info block: the opening hours, then the lines both prompts share. */
  function Info(row: ClientRow): string {
    InfoLine("- Horarios: ", row.hours, DefaultHours) + "\n" + CommonInfo(row)
  }

  /** Anything the catalog block mentions, the prompt mentions. */
  lemma SystemPromptHasCatalog(row: ClientRow, ps: seq<StoreProduct>, timestamp: string, t: string)
    requires Contains(Catalog(ps, PriceFallback), t)
    ensures Contains(SystemPrompt(row, ps, timestamp), t)
  {
    ContainsInfix(Heading(row), Catalog(ps, PriceFallback), Info(row), t);
    ContainsRight(Heading(row) + Catalog(ps, PriceFallback) + Info(row), Footer(timestamp), t);
  }

  /** The prompt holds the in-stock block under its heading, then the
      `SIN STOCK:` section, then the info heading; each in-stock product's
      line is in the in-stock block and each out-of-stock name in the
      `SIN STOCK:` section. */
  lemma SystemPromptBlocks(row: ClientRow, ps: seq<StoreProduct>, timestamp: string)
    requires forall i :: 0 <= i < |ps| ==> ps[i].name != ""
    ensures Contains(SystemPrompt(row, ps, timestamp),
      "PRODUCTOS DISPONIBLES:\n" + AvailableList(ps, PriceFallback) + "\n\n" + SinStockSection(ps) + "\n\nINFO:\n")
    ensures forall p :: p in ps && p.hasStock ==> Contains(AvailableList(ps, PriceFallback), AvailableLine(p, PriceFallback))
    ensures forall p :: p in ps && !p.hasStock ==> Contains(SinStockSection(ps), p.name)
  {
    CatalogText(ps, PriceFallback);
    SystemPromptHasCatalog(row, ps, timestamp,
      "PRODUCTOS DISPONIBLES:\n" + AvailableList(ps, PriceFallback) + "\n\n" + SinStockSection(ps) + "\n\nINFO:\n");
    CatalogListsInStock(ps, PriceFallback);
    CatalogListsOutOfStock(ps, PriceFallback);
  }

  /** Each in-stock product's line occurs in the prompt. */
  lemma SystemPromptMentionsInStock(row: ClientRow, ps: seq<StoreProduct>, timestamp: string)
    ensures forall p :: p in ps && p.hasStock ==>
      Contains(SystemPrompt(row, ps, timestamp),
        "- " + p.name + ": " + (if p.price.Some? && p.price.value != "" then p.price.value else "Consultar precio"))
  {
    CatalogListsInStock(ps, PriceFallback);
    forall p | p in ps && p.hasStock
      ensures Contains(SystemPrompt(row, ps, timestamp), AvailableLine(p, PriceFallback))
    {
      SystemPromptHasCatalog(row, ps, timestamp, AvailableLine(p, PriceFallback));
    }
  }

  /** Each out-of-stock product's name occurs in the prompt. */
  lemma SystemPromptMentionsOutOfStock(row: ClientRow, ps: seq<StoreProduct>, timestamp: string)
    requires forall i :: 0 <= i < |ps| ==> ps[i].name != ""
    ensures forall p :: p in ps && !p.hasStock ==> Contains(SystemPrompt(row, ps, timestamp), p.name)
  {
    CatalogListsOutOfStock(ps, PriceFallback);
    forall p | p in ps && !p.hasStock
      ensures Contains(SystemPrompt(row, ps, timestamp), p.name)
    {
      SystemPromptHasCatalog(row, ps, timestamp, p.name);
    }
  }

  /** Each product appears in exactly one block: in stock, as its
      `- name: price` line with `Consultar precio` for a missing price, and
      out of stock, by name in the `SIN STOCK:` section. */
  lemma SystemPromptListsProducts(row: ClientRow, ps: seq<StoreProduct>, timestamp: string)
    requires forall i :: 0 <= i < |ps| ==> ps[i].name != ""
    ensures forall p :: p in ps && p.hasStock ==>
      Contains(SystemPrompt(row, ps, timestamp),
        "- " + p.name + ": " + (if p.price.Some? && p.price.value != "" then p.price.value else "Consultar precio"))
    ensures forall p :: p in ps && !p.hasStock ==> Contains(SystemPrompt(row, ps, timestamp), p.name)
    ensures forall p :: p in InStock(ps) <==> p in ps && p.hasStock
    ensures forall p :: p in OutOfStock(ps) <==> p in ps && !p.hasStock
    ensures |InStock(ps)| + |OutOfStock(ps)| == |ps|
    ensures Contains(SystemPrompt(row, ps, timestamp),
      "PRODUCTOS DISPONIBLES:\n" + AvailableList(ps, PriceFallback) + "\n\n" + SinStockSection(ps) + "\n\nINFO:\n")
    ensures forall p :: p in ps && p.hasStock ==> Contains(AvailableList(ps, PriceFallback), AvailableLine(p, PriceFallback))
    ensures forall p :: p in ps && !p.hasStock ==> Contains(SinStockSection(ps), p.name)
  {
    SystemPromptBlocks(row, ps, timestamp);
    WithStockSpec(ps, true);
    WithStockSpec(ps, false);
    StockPartition(ps);
    SystemPromptMentionsInStock(row, ps, timestamp);
    SystemPromptMentionsOutOfStock(row, ps, timestamp);
  }

  /** The info block shows the opening hours, shipping, payments and
      returns, each defaulted when unset. */
  lemma InfoMentions(row: ClientRow)
    ensures Contains(Info(row), "- Horarios: " + (if Truthy(row.hours) then row.hours.s else "Consultar"))
    ensures Contains(Info(row), "- Envíos: " + (if Truthy(row.shipping) then row.shipping.s else "Consultar"))
    ensures Contains(Info(row), "- Pagos: " + (if Truthy(row.payments) then row.payments.s else "Mercado Pago, tarjetas, transferencia"))
    ensures Contains(Info(row), "- Cambios: " + (if Truthy(row.returnPolicy) then row.returnPolicy.s else "30 días"))
  {
    var hours := InfoLine("- Horarios: ", row.hours, DefaultHours);
    ContainsSelf(hours);
    ContainsRight(hours, "\n", hours);
    ContainsRight(hours + "\n", CommonInfo(row), hours);
    CommonInfoMentions(row);
    forall t | Contains(CommonInfo(row), t) ensures Contains(Info(row), t) {
      ContainsLeft(hours + "\n", CommonInfo(row), t);
    }
  }

  /** The prompt opens by naming the client. */
  lemma SystemPromptOpens(row: ClientRow, ps: seq<StoreProduct>, timestamp: string)
    ensures StartsWith(SystemPrompt(row, ps, timestamp), "Eres el asistente virtual de " + Interp(row.name) + ". \n\n")
  {
    var head := Heading(row);
    assert head[..|head|] == head;
    StartsWithAppend(head, Catalog(ps, PriceFallback), head);
    StartsWithAppend(head + Catalog(ps, PriceFallback), Info(row), head);
    StartsWithAppend(head + Catalog(ps, PriceFallback) + Info(row), Footer(timestamp), head);
  }

  /** The prompt shows the opening hours, shipping, payments and returns,
      each defaulted when unset. */
  lemma SystemPromptInfo(row: ClientRow, ps: seq<StoreProduct>, timestamp: string)
    ensures Contains(SystemPrompt(row, ps, timestamp), "- Horarios: " + (if Truthy(row.hours) then row.hours.s else "Consultar"))
    ensures Contains(SystemPrompt(row, ps, timestamp), "- Envíos: " + (if Truthy(row.shipping) then row.shipping.s else "Consultar"))
    ensures Contains(SystemPrompt(row, ps, timestamp), "- Pagos: " + (if Truthy(row.payments) then row.payments.s else "Mercado Pago, tarjetas, transferencia"))
    ensures Contains(SystemPrompt(row, ps, timestamp), "- Cambios: " + (if Truthy(row.returnPolicy) then row.returnPolicy.s else "30 días"))
  {
    InfoMentions(row);
    SystemPromptHasInfo(row, ps, timestamp, "- Horarios: " + (if Truthy(row.hours) then row.hours.s else "Consultar"));
    SystemPromptHasInfo(row, ps, timestamp, "- Envíos: " + (if Truthy(row.shipping) then row.shipping.s else "Consultar"));
    SystemPromptHasInfo(row, ps, timestamp, "- Pagos: " + (if Truthy(row.payments) then row.payments.s else "Mercado Pago, tarjetas, transferencia"));
    SystemPromptHasInfo(row, ps, timestamp, "- Cambios: " + (if Truthy(row.returnPolicy) then row.returnPolicy.s else "30 días"));
  }

  /** Anything the info block mentions, the prompt mentions. */
  lemma SystemPromptHasInfo(row: ClientRow, ps: seq<StoreProduct>, timestamp: string, t: string)
    requires Contains(Info(row), t)
    ensures Contains(SystemPrompt(row, ps, timestamp), t)
  {
    ContainsInfix(Heading(row) + Catalog(ps, PriceFallback), Info(row), Footer(timestamp), t);
  }

  /** scrapeAndUpdate. `lookup` answers the client query (an error leaves no
      row), `fetch` the catalog request, and `timestamp` is the clock as
      `toLocaleString` renders it. `write` is the update sent to the
      database; its answer is not awaited for errors. */
  method ScrapeAndUpdate(clientId: string, storeUrl: JsValue, lookup: string -> Lookup,
                         fetch: string -> Fetch, timestamp: string)
    returns (outcome: UpdateOutcome, write: Option<PromptWrite>)
    ensures outcome.ClientMissing? <==> !lookup(clientId).Row?
    ensures outcome.NoProductsFound? <==>
      lookup(clientId).Row? && |Scraped(fetch(Interp(storeUrl) + CatalogPath))| == 0
    ensures write.Some? <==> outcome.Updated?
    ensures outcome.Updated? ==>
      && outcome.products == |Scraped(fetch(Interp(storeUrl) + CatalogPath))| > 0
      && write.value == PromptWrite(clientId,
           SystemPrompt(lookup(clientId).row, Scraped(fetch(Interp(storeUrl) + CatalogPath)), timestamp))
  {
    write := None;
    var found := lookup(clientId);
    if !found.Row? {
      outcome := ClientMissing;
    } else {
      var products := ScrapeEmpretienda(fetch(Interp(storeUrl) + CatalogPath));
      if |products| == 0 {
        outcome := NoProductsFound;
      } else {
        var prompt := SystemPrompt(found.row, products, timestamp);
        write := Some(PromptWrite(clientId, prompt));
        outcome := Updated(|products|);
      }
    }
  }
}
