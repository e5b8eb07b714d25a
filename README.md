# chatech-widget core, modelled in Dafny

This project models the small pieces of sequential logic inside the
chatech-widget backend. The backend is a multi-tenant chat widget server. It
keeps a per-session chat history for the completion API, and it refreshes a
store's product catalog by scraping its web page and rewriting the store's
system prompt.

Modules, one per source component:

- `JsValues` (js_values.dfy): request, environment and database values as
  the handlers see them (absent, `null`, or a string), with JavaScript
  truthiness, `x || default` and template interpolation.
- `Strings` (strings.dfy): the string operations the source uses
  (`includes`, `startsWith`, `toLowerCase`, `join`, decimal rendering) and
  line splitting, used to state properties of joined text.
- `ClientsJson` (clients_json.dfy): the parsed `clients.json` file.
- `ChatServer` (chat_server.dfy): `getClientConfig` and its `demo` fallback,
  the configuration endpoint, and the `/api/chat` turn of server.js. The
  module-level `conversations` map is the field of class `ChatService`. Its
  method `HandleChat` performs the handler's steps and is proved equal to the
  function `ChatTurn`. The lemmas about `ChatTurn` state what a turn does.
- `Dedup` (dedup.dfy): the first-occurrence deduplication by name that all
  three scrapers use.
- `CousinsScraper` (cousins_scraper.dfy): scraper.js. It covers the element
  walk with its `currentProduct` cursor, the cleaning pass with its blacklist,
  the numbered product list and the `clients.json` prompt update. The walk
  (`ExtractListings`) is proved equal to a reference definition, `Listings`,
  which cuts the page into one segment per `Ver detalle` marker.
- `Storefront` (storefront.dfy): what api/scraper.js and
  scraper-empretienda.js share. It turns `h3 a` links into unique products,
  reads the price with the regular expression `\$[\d.,]+`, derives the stock
  flag, splits products by stock and renders the catalog blocks of the prompt.
- `ScrapeEndpoint` (scrape_endpoint.dfy): the serverless handler in
  api/scraper.js.
- `Empretienda` (empretienda.dfy): `scrapeEmpretienda`, `generateSystemPrompt`
  and `scrapeAndUpdate` of scraper-empretienda.js.

External services become parameters:

- The completion API is a function from the prompt list to a `Completion`:
  a reply, a non-success status, or a broken call or response.
- The Supabase client query is a function from client id to a `Lookup`.
- In the serverless handler and in `scrapeAndUpdate`, a page fetch is a
  function from URL to the page's links or an error message.
  `scrapeEmpretienda` receives that answer (`Fetch`) directly. The
  scraper.js run receives the page's element texts, or nothing when the
  fetch fails. Its failed outcome does not carry the error message that
  `scrapeCousinsSnkrs` returns.
- The database update outcome is a predicate on the write.
- The API key, `Date.now()` and the rendered date are plain values.
- The DOM walk of scraper.js is the sequence of trimmed element texts in
  document order.
- The `h3 a` loop receives `(name, containerText)` pairs. They stand for the
  link's trimmed text and the text of `closest('div').parent()`.

Behaviour of the code worth knowing:

- `GET /api/config/:clientId` returns the whole client record, its system
  prompt included.
- A client id with no truthy record of its own in `clients.json` falls back
  to the `demo` record rather than failing (for ids that are not names of
  properties every JavaScript object inherits; see "## Left out").
- There is no activation status and no identifier validation.
- The chat message is neither trimmed nor truncated. Only a falsy message is
  refused.
- History is trimmed to 20 entries only after a successful reply. A failed
  completion leaves the user turn in the history untrimmed, so repeated
  failures grow a history, and the next prompt, past 20 entries
  (`ChatServer.ExchangeFailed`).
- Sessions are minted as `clientId-timestamp`, with no random suffix.
- Conversations live only in process memory.

## Model

| member | source | states |
|---|---|---|
| ChatServer.GetClientConfig | server.js:18-27 | the record under the requested id when it is truthy, else the `demo` record; nothing exactly when the file is unreadable or neither record exists |
| ChatServer.ConfigEndpoint | server.js:30-39 | 404 exactly when the lookup yields nothing; otherwise the whole looked-up record, system prompt included |
| ChatServer.SessionIdFor | server.js:61 | the supplied session id when truthy, otherwise `clientId-timestamp`; never empty |
| ChatServer.MintedIdsCollide | server.js:61 | two ids minted for one client are equal exactly when their timestamps are equal, so two new sessions of one client in the same millisecond share a history |
| ChatServer.KeepLast | server.js:113-116 | the trimmed history is a suffix of the history, of length min(length, 20) |
| ChatServer.ChatTurnGuards | server.js:42-58 | a falsy message gives 400, a failed lookup 404, a missing API key 500, each with the conversation map unchanged and no completion call; otherwise the turn is an exchange under the chosen session id |
| ChatServer.ExchangePrompt | server.js:63-83 | the prompt list is the system prompt, then the session's stored history in order, then the new user message as its last entry |
| ChatServer.ExchangeAnswered | server.js:100-121 | after a reply the history ends with (user, message), (assistant, reply), has at most 20 entries, is a suffix of old history plus both turns (all of it when it fits), the session id is echoed and no other session changes |
| ChatServer.ExchangeFailed | server.js:100-129 | on an upstream failure the user turn stays in the history with no reply and no trimming, and the error details name the status or the failure |
| ChatServer.ChatTurnKeepsWellFormed | server.js:64-116 | every turn keeps every stored history free of system entries, and no assistant entry follows anything but a user entry |
| ChatServer.ExchangeContinues | server.js:64-83 | a session whose history ends with a question and its answer sends both right before the new question |
| ChatServer.SessionContinues | server.js:61-121 | reusing the session id a successful turn returned sends that turn's question and answer in the next prompt |
| ChatServer.FreshSessionSecondPrompt | server.js:61-83 | on a new session, the second turn's prompt list is exactly system prompt, first question, first reply, second question |
| ChatServer.ChatService.constructor | server.js:15 | the conversation map starts empty |
| ChatServer.ChatService.HandleChat | server.js:42-130 | the handler's step-by-step updates of the conversation map give the reply and the new map `ChatTurn` defines, and keep histories well formed |
| Dedup.KeepFirst | api/scraper.js:41-43 | kept names pass the validity test and are pairwise distinct; every valid input name is kept; no name is invented |
| Dedup.KeepFirstOrdered | scraper.js:59-77 | the pass keeps items in input order |
| Dedup.KeepFirstEarliest | scraper-empretienda.js:24-26 | each kept item is the first input item with its name; later duplicates are ignored whatever their other fields |
| CousinsScraper.FirstNameShape | scraper.js:39-47 | a segment's name is empty exactly when no text in it is name-shaped, and otherwise name-shaped |
| CousinsScraper.LastPriceShape | scraper.js:33-36 | a segment's price is empty or matches `^\$[\d.]+,\d{2}$` |
| CousinsScraper.WalkShape | scraper.js:22-48 | after any prefix of the walk, the finished products are those of the earlier marker segments and the open product is the current segment's first name and last price |
| CousinsScraper.WalkListings | scraper.js:20-53 | the walk plus the final push yields one product per marker whose segment holds a name-shaped text |
| CousinsScraper.PrefixBeforeMarkerIgnored | scraper.js:20-44 | texts before the first `Ver detalle` never produce or change a product |
| CousinsScraper.ListingsShape | scraper.js:26-47 | at most one product per marker; each is named by a name-shaped text and priced by a price-shaped text or nothing |
| CousinsScraper.ExtractListings | scraper.js:20-53 | the element walk with its cursor returns exactly the reference products |
| CousinsScraper.CleanListings | scraper.js:56-77 | the cleaning loop with its `seen` set returns the first-occurrence pass over names longer than 3 and not blacklisted |
| CousinsScraper.CleanListingsSpec | scraper.js:56-77 | cleaned names are longer than 3, free of every blacklisted text regardless of case, pairwise distinct, in input order, each the first listing with that name |
| CousinsScraper.ProductListLines | scraper.js:109-115 | line i of the list is `{i+1}. {name}`, plus ` - {price}` only when the price is non-empty, one line per product |
| CousinsScraper.ScrapeCousins | scraper.js:5-172 | a failed fetch fails the run; otherwise the products are the cleaned walk and a product list is rendered exactly when some product survived |
| CousinsScraper.UpdateStorePrompt | scraper.js:153-163 | only a truthy `cousinssnkrs` record gets the new prompt; all other records, and an unreadable file, are unchanged |
| Storefront.FirstPrice | api/scraper.js:36-38 | null exactly when no `$` is followed by a digit, dot or comma; otherwise the leftmost such match, extended greedily |
| Storefront.ProductsSpec | api/scraper.js:33-44 | products have unique names longer than 2, every long enough link name is present, links' order is kept, and each product comes from the first link of its name |
| Storefront.CollectProducts | api/scraper.js:33-44 | the `h3 a` loop with its `some` membership check returns the first-occurrence products of the links |
| Storefront.WithStockSpec | api/scraper.js:50-58 | each filter keeps exactly the products with the wanted stock flag, in order |
| Storefront.StockPartition | api/scraper.js:84-89 | in-stock and out-of-stock counts add up to the product count, and the two blocks together are the product list as a multiset |
| Storefront.SinStockSectionEmpty | api/scraper.js:55-65 | the `SIN STOCK:` section is empty exactly when no product is out of stock |
| Storefront.CatalogLayout | api/scraper.js:62-67 | the catalog block starts with `PRODUCTOS DISPONIBLES:`, the in-stock block and a blank line, and continues right there with the `SIN STOCK:` section, a blank line and `INFO:` |
| Storefront.CatalogListsInStock | api/scraper.js:50-53 | every in-stock product's `- name: price` line appears in the in-stock block |
| Storefront.CatalogListsOutOfStock | api/scraper.js:55-65 | every out-of-stock product's name appears in the `SIN STOCK:` section |
| Storefront.AvailableListLines | api/scraper.js:50-53 | the in-stock block is empty exactly when no product is in stock (the prompt is still written, with an empty block); otherwise it has exactly one `- name: price` line per in-stock product, in order |
| Storefront.CommonInfoMentions | api/scraper.js:68-70 | the shipping, payments and returns lines show the client's field, or `Consultar`, `Mercado Pago, tarjetas, transferencia` and `30 días` when it is falsy |
| ScrapeEndpoint.StorePromptBlocks | api/scraper.js:50-67 | the prompt holds the in-stock block, then the `SIN STOCK:` section, then `INFO:`; each in-stock line is in the in-stock block and each out-of-stock name in the `SIN STOCK:` section |
| ScrapeEndpoint.StorePromptListsProducts | api/scraper.js:50-73 | the written prompt lists each in-stock product with its price, or `Consultar`, in the in-stock block, and names each out-of-stock product in the `SIN STOCK:` section, both blocks laid out as the template has them |
| ScrapeEndpoint.StorePromptOpens | api/scraper.js:60 | the prompt opens by naming the client |
| ScrapeEndpoint.StorePromptInfo | api/scraper.js:67-70 | the prompt shows each info field or its default |
| ScrapeEndpoint.HandleScrape | api/scraper.js:5-94 | missing parameters give 400, an unknown client 404, a failed fetch 500; zero products give `success: false` with no write; otherwise exactly one prompt write, and on success counts with withStock + outOfStock == products |
| Empretienda.ScrapeEmpretienda | scraper-empretienda.js:9-33 | unique names longer than 2 from the links; a failed fetch is swallowed and yields an empty list |
| Empretienda.SystemPromptBlocks | scraper-empretienda.js:36-47 | the prompt holds the in-stock block, then the `SIN STOCK:` section, then `INFO:`; each in-stock line is in the in-stock block and each out-of-stock name in the `SIN STOCK:` section |
| Empretienda.SystemPromptListsProducts | scraper-empretienda.js:35-51 | each product is in exactly one of the two lists by its stock flag; the prompt shows in-stock ones as `- name: price` lines of the in-stock block, with `Consultar precio` as default, and out-of-stock names in the `SIN STOCK:` section |
| Empretienda.InfoMentions | scraper-empretienda.js:53-57 | the info block shows hours, shipping, payments and returns, each defaulted when falsy |
| Empretienda.SystemPromptOpens | scraper-empretienda.js:46 | the prompt opens by naming the client |
| Empretienda.SystemPromptInfo | scraper-empretienda.js:53-57 | the prompt shows the four info fields or their defaults |
| Empretienda.ScrapeAndUpdate | scraper-empretienda.js:63-92 | a missing client or zero products give `success: false` with no write; otherwise one write of the generated prompt for that client and `success: true` with the product count |

## Left out

- The Express server setup, CORS, static files and the `/admin` page (server.js:1-12, 132-141): framework plumbing and a constant HTML reply.
- The HTTP request to the completion API, its JSON body and the reading of `data.choices[0].message.content` (server.js:85-105): one oracle call. A response that cannot be read is a `Broken` completion.
- Environment reads (`OPENAI_API_KEY`, `SUPABASE_URL`, `PORT`): parameters. A `createClient` that throws on missing settings is not modelled.
- ChatServer.GetClientConfig: does not model keys that every object parsed by `JSON.parse` inherits from `Object.prototype`, such as `constructor`, `toString`, `hasOwnProperty` and `__proto__`. When such a key is not in the file, `clients[clientId]` finds the inherited function or object. That value is truthy, so the source returns it instead of the `demo` record. The config endpoint then answers 200 with a body that is not a client record, and a chat turn sends a system entry with no content. The model treats these ids like any other missing id and falls back to `demo`. It also assumes every truthy entry of `clients.json` is an object with a string `systemPrompt`. In the source, a record without `systemPrompt` makes a chat turn send a system entry whose `content` is `undefined`, which `JSON.stringify` drops from the request. A truthy entry that is not an object (a string, a number, `true`, an array) is returned by the lookup like a record: the config endpoint serves it whole, and a chat turn sends a system entry with no content.
- Timers and process spawning of the auto-scraper (server.js:143-165): scheduling and process control.
- Concurrency: two chat turns on one session can interleave at the completion call, because the handler awaits it between its two pushes. The model runs each turn as one atomic step.
- File I/O and console output: reading and writing `clients.json`, `scraped-data.json` and `generated-prompt.txt`, and the console summaries (scraper.js:79-105, 145-151, 174-184). `clients.json` is a parsed value and an update is a new value.
- The literal prompt text of scraper.js:117-143: only the interpolated product list and the rule "render only when some product survived" are modelled. `CousinsScraper.UpdateStorePrompt` takes the finished prompt as a parameter.
- Dates: `Date.now()`, `toLocaleString` and `toLocaleDateString` are opaque values.
- DOM traversal: cheerio's `text()`, `trim()`, `closest` and `parent` are inputs (element texts and `(name, containerText)` pairs).
- A throw part-way through the `h3 a` loop, leaving a partial list in `scrapeEmpretienda`, is not modelled. Only a failed fetch is, and it yields the empty list.
- JavaScript values other than strings, `null` and absence (numbers, objects) in request bodies, query strings and database rows.
- `toLowerCase` covers ASCII and Latin-1 capitals only. Other case mappings, such as the Kelvin sign or letters whose lower case is longer, are not modelled.
- String lengths are counted in Unicode code points, not UTF-16 units.
- The update result in `scrapeAndUpdate` is not checked by the source. The model emits the write and reports success whatever the database answers.
- public/widget.js and migrate-to-supabase.js are not part of this model.
- CousinsScraper.ProductListLines: states the line structure only when no name or price holds a line break, because a break inside a name gives the rendered text more lines than products.
- Storefront.AvailableListLines: states the line structure only when no rendered line holds a line break, for the same reason.
- Storefront.SinStockSectionEmpty: assumes non-empty product names, which every collected product has, because an empty out-of-stock name would render an empty section.
- Storefront.CatalogListsOutOfStock: assumes non-empty product names, for the same reason.
- ScrapeEndpoint.StorePromptBlocks: assumes non-empty product names, for the same reason.
- Empretienda.SystemPromptBlocks: assumes non-empty product names, for the same reason.
- ScrapeEndpoint.StorePromptListsProducts: assumes non-empty product names, for the same reason.
- Empretienda.SystemPromptListsProducts: assumes non-empty product names, for the same reason.
