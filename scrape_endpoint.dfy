/** The serverless scrape handler of api/scraper.js: check the query, look
    the client up, collect the catalog's products, write a fresh system
    prompt for the client, and report the counts. The database, the HTTP
    fetch and the clock are parameters. */
module ScrapeEndpoint {
  import opened Strings
  import opened JsValues
  import opened Storefront

  /** `req.query.client_id` and `req.query.store_url`. */
  datatype ScrapeQuery = ScrapeQuery(clientId: JsValue, storeUrl: JsValue)

  datatype ScrapeReply =
    | MissingParams                 // 400 `Faltan client_id y store_url`
    | UnknownClient                 // 404 `Cliente no encontrado`
    | NoProducts                    // `success: false`, `No se encontraron productos`
    | UpdateFailed                  // 500 `Error actualizando base de datos`
    | ServerError(message: string)  // 500, the message of what was thrown
    | Refreshed(products: nat, withStock: nat, outOfStock: nat)

  /** `!client_id || !store_url` fails the request. */
  predicate HasParams(q: ScrapeQuery) {
    Truthy(q.clientId) && Truthy(q.storeUrl)
  }

  /** `store_url + '/productos'` */
  function CatalogUrl(q: ScrapeQuery): string
    requires HasParams(q)
  {
    q.storeUrl.s + CatalogPath
  }

  const PriceFallback := "Consultar"

  function Heading(row: ClientRow): string {
    "Eres el asistente virtual de " + Interp(row.name) + ".\n\n"
  }

  /** The `newPrompt` template the handler writes for the client. */
  function StorePrompt(row: ClientRow, ps: seq<StoreProduct>, timestamp: string): string {
    Heading(row) + Catalog(ps, PriceFallback) + CommonInfo(row) + Footer(timestamp)
  }

  /** Anything the catalog block mentions, the prompt mentions. */
  lemma StorePromptHasCatalog(row: ClientRow, ps: seq<StoreProduct>, timestamp: string, t: string)
    requires Contains(Catalog(ps, PriceFallback), t)
    ensures Contains(StorePrompt(row, ps, timestamp), t)
  {
    ContainsInfix(Heading(row), Catalog(ps, PriceFallback), CommonInfo(row), t);
    ContainsRight(Heading(row) + Catalog(ps, PriceFallback) + CommonInfo(row), Footer(timestamp), t);
  }

  /** The prompt holds the in-stock block under its heading, then the
      `SIN STOCK:` section, then the info heading; each in-stock product's
      line is in the in-stock block and each out-of-stock name in the
      `SIN STOCK:` section. */
  lemma StorePromptBlocks(row: ClientRow, ps: seq<StoreProduct>, timestamp: string)
    requires forall i :: 0 <= i < |ps| ==> ps[i].name != ""
    ensures Contains(StorePrompt(row, ps, timestamp),
      "PRODUCTOS DISPONIBLES:\n" + AvailableList(ps, PriceFallback) + "\n\n" + SinStockSection(ps) + "\n\nINFO:\n")
    ensures forall p :: p in ps && p.hasStock ==> Contains(AvailableList(ps, PriceFallback), AvailableLine(p, PriceFallback))
    ensures forall p :: p in ps && !p.hasStock ==> Contains(SinStockSection(ps), p.name)
  {
    CatalogText(ps, PriceFallback);
    StorePromptHasCatalog(row, ps, timestamp,
      "PRODUCTOS DISPONIBLES:\n" + AvailableList(ps, PriceFallback) + "\n\n" + SinStockSection(ps) + "\n\nINFO:\n");
    CatalogListsInStock(ps, PriceFallback);
    CatalogListsOutOfStock(ps, PriceFallback);
  }

  /** Each in-stock product's line occurs in the prompt. */
  lemma StorePromptMentionsInStock(row: ClientRow, ps: seq<StoreProduct>, timestamp: string)
    ensures forall p :: p in ps && p.hasStock ==>
      Contains(StorePrompt(row, ps, timestamp),
        "- " + p.name + ": " + (if p.price.Some? && p.price.value != "" then p.price.value else "Consultar"))
  {
    CatalogListsInStock(ps, PriceFallback);
    forall p | p in ps && p.hasStock
      ensures Contains(StorePrompt(row, ps, timestamp), AvailableLine(p, PriceFallback))
    {
      StorePromptHasCatalog(row, ps, timestamp, AvailableLine(p, PriceFallback));
    }
  }

  /** Each out-of-stock product's name occurs in the prompt. */
  lemma StorePromptMentionsOutOfStock(row: ClientRow, ps: seq<StoreProduct>, timestamp: string)
    requires forall i :: 0 <= i < |ps| ==> ps[i].name != ""
    ensures forall p :: p in ps && !p.hasStock ==> Contains(StorePrompt(row, ps, timestamp), p.name)
  {
    CatalogListsOutOfStock(ps, PriceFallback);
    forall p | p in ps && !p.hasStock
      ensures Contains(StorePrompt(row, ps, timestamp), p.name)
    {
      StorePromptHasCatalog(row, ps, timestamp, p.name);
    }
  }

  /** The prompt lists every in-stock product with its price, or `Consultar`
      when it has none, and names every out-of-stock product. */
  lemma StorePromptListsProducts(row: ClientRow, ps: seq<StoreProduct>, timestamp: string)
    requires forall i :: 0 <= i < |ps| ==> ps[i].name != ""
    ensures forall p :: p in ps && p.hasStock ==>
      Contains(StorePrompt(row, ps, timestamp),
        "- " + p.name + ": " + (if p.price.Some? && p.price.value != "" then p.price.value else "Consultar"))
    ensures forall p :: p in ps && !p.hasStock ==> Contains(StorePrompt(row, ps, timestamp), p.name)
    ensures Contains(StorePrompt(row, ps, timestamp),
      "PRODUCTOS DISPONIBLES:\n" + AvailableList(ps, PriceFallback) + "\n\n" + SinStockSection(ps) + "\n\nINFO:\n")
    ensures forall p :: p in ps && p.hasStock ==> Contains(AvailableList(ps, PriceFallback), AvailableLine(p, PriceFallback))
    ensures forall p :: p in ps && !p.hasStock ==> Contains(SinStockSection(ps), p.name)
  {
    StorePromptBlocks(row, ps, timestamp);
    StorePromptMentionsInStock(row, ps, timestamp);
    StorePromptMentionsOutOfStock(row, ps, timestamp);
  }

  /** The prompt opens by naming the client. */
  lemma StorePromptOpens(row: ClientRow, ps: seq<StoreProduct>, timestamp: string)
    ensures StartsWith(StorePrompt(row, ps, timestamp), "Eres el asistente virtual de " + Interp(row.name) + ".\n\n")
  {
    var head := Heading(row);
    assert head[..|head|] == head;
    StartsWithAppend(head, Catalog(ps, PriceFallback), head);
    StartsWithAppend(head + Catalog(ps, PriceFallback), CommonInfo(row), head);
    StartsWithAppend(head + Catalog(ps, PriceFallback) + CommonInfo(row), Footer(timestamp), head);
  }

  /** The prompt shows each info field, or its default when the field is unset. */
  lemma StorePromptInfo(row: ClientRow, ps: seq<StoreProduct>, timestamp: string)
    ensures Contains(StorePrompt(row, ps, timestamp), "- Envíos: " + (if Truthy(row.shipping) then row.shipping.s else "Consultar"))
    ensures Contains(StorePrompt(row, ps, timestamp), "- Pagos: " + (if Truthy(row.payments) then row.payments.s else "Mercado Pago, tarjetas, transferencia"))
    ensures Contains(StorePrompt(row, ps, timestamp), "- Cambios: " + (if Truthy(row.returnPolicy) then row.returnPolicy.s else "30 días"))
  {
    CommonInfoMentions(row);
    StorePromptHasInfo(row, ps, timestamp, "- Envíos: " + (if Truthy(row.shipping) then row.shipping.s else "Consultar"));
    StorePromptHasInfo(row, ps, timestamp, "- Pagos: " + (if Truthy(row.payments) then row.payments.s else "Mercado Pago, tarjetas, transferencia"));
    StorePromptHasInfo(row, ps, timestamp, "- Cambios: " + (if Truthy(row.returnPolicy) then row.returnPolicy.s else "30 días"));
  }

  /** Anything the info block mentions, the prompt mentions. */
  lemma StorePromptHasInfo(row: ClientRow, ps: seq<StoreProduct>, timestamp: string, t: string)
    requires Contains(CommonInfo(row), t)
    ensures Contains(StorePrompt(row, ps, timestamp), t)
  {
    ContainsInfix(Heading(row) + Catalog(ps, PriceFallback), CommonInfo(row), Footer(timestamp), t);
  }

  /** The handler. `lookup` answers the client query, `fetch` the catalog
      request (a failure stands for anything the request throws),
      `updateFails` whether the database rejects the prompt update, and
      `timestamp` is the clock as `toLocaleString` renders it. `write` is the
      update sent to the database, if any. */
  method HandleScrape(query: ScrapeQuery, lookup: string -> Lookup, fetch: string -> Fetch,
                      updateFails: PromptWrite -> bool, timestamp: string)
    returns (reply: ScrapeReply, write: Option<PromptWrite>)
    ensures reply.MissingParams? <==> !HasParams(query)
    ensures HasParams(query) ==> (reply.UnknownClient? <==> !lookup(query.clientId.s).Row?)
    ensures reply.ServerError? <==>
      HasParams(query) && lookup(query.clientId.s).Row? && fetch(CatalogUrl(query)).FetchFailed?
    ensures reply.ServerError? ==> reply.message == fetch(CatalogUrl(query)).message
    ensures reply.NoProducts? <==>
      && HasParams(query) && lookup(query.clientId.s).Row? && fetch(CatalogUrl(query)).Fetched?
      && |Products(fetch(CatalogUrl(query)).cands)| == 0
    ensures write.Some? <==>
      && HasParams(query) && lookup(query.clientId.s).Row? && fetch(CatalogUrl(query)).Fetched?
      && |Products(fetch(CatalogUrl(query)).cands)| > 0
    ensures write.Some? ==>
      write.value == PromptWrite(query.clientId.s,
        StorePrompt(lookup(query.clientId.s).row, Products(fetch(CatalogUrl(query)).cands), timestamp))
    ensures reply.UpdateFailed? <==> write.Some? && updateFails(write.value)
    ensures reply.Refreshed? <==> write.Some? && !updateFails(write.value)
    ensures reply.Refreshed? ==>
      && reply.products == |Products(fetch(CatalogUrl(query)).cands)| > 0
      && reply.withStock == |InStock(Products(fetch(CatalogUrl(query)).cands))|
      && reply.outOfStock == |OutOfStock(Products(fetch(CatalogUrl(query)).cands))|
      && reply.withStock + reply.outOfStock == reply.products
  {
    write := None;
    if !Truthy(query.clientId) || !Truthy(query.storeUrl) {
      reply := MissingParams;
    } else {
      var id := query.clientId.s;
      var found := lookup(id);
      if !found.Row? {
        reply := UnknownClient;
      } else {
        var page := fetch(query.storeUrl.s + CatalogPath);
        if page.FetchFailed? {
          reply := ServerError(page.message);
        } else {
          var products := CollectProducts(page.cands);
          if |products| == 0 {
            reply := NoProducts;
          } else {
            var prompt := StorePrompt(found.row, products, timestamp);
            write := Some(PromptWrite(id, prompt));
            if updateFails(write.value) {
              reply := UpdateFailed;
            } else {
              StockPartition(products);
              reply := Refreshed(|products|, |InStock(products)|, |OutOfStock(products)|);
            }
          }
        }
      }
    }
  }
}
