# Curriculum generator: a Dafny model of its request logic

This project models the server routes and page handlers of a Next.js curriculum-planning
SaaS. The models are pure functions over immutable data. Teachers upload a PDF curriculum;
the server extracts its text; a language model turns it into lesson plans or question sets.
Each generation costs one credit; credits are bought through a payment provider whose
webhook adds them to the account.

Every external collaborator becomes an input:
- the signed-in user is an `Option`;
- the database tables are maps (`Store.Db`);
- each table, storage or payment call becomes a success flag or a returned value;
- `JSON.parse` and the PDF parser are function parameters;
- the clock reading is a number;
- the language model's stream is a sequence of chunks.

Modules:

- `Wrappers`, `Text`, `Numbers`: the JavaScript semantics the code relies on:
  - truthiness and `||` on strings;
  - `split` with a one-character separator, `join`, `.pop()`, `substring`;
  - `Number#toString` for integers, and `parseInt` (white space, sign, `0x`, digit prefix, `NaN`).
- `Store`: the `users`, `documents` and `transactions` tables, the owner-filtered document
  lookup and the balance update.
- `CurriculumCache`: the one-hour in-memory cache with its two invalidation calls.
- `Prompts`: prompt selection by content type, with the fixed templates.
- `GenerateRoute`: `POST /api/generate`, covering:
  - the 401/404/402 guard and the single debit;
  - the provider call, recorded as an ordered log of effects;
  - the relay of delta texts into the response stream.
- `WebhookRoute`: `POST /api/webhook`:
  - the signature gate;
  - the metadata parse;
  - crediting the balance and recording the transaction.
- `ExtractTextRoute`: `POST /api/extract-text`:
  - the early return when text is present;
  - the download key, the parse, and the truncation to 100 000 characters;
  - the update.
- `Proxy`: the route guard and its matcher.
- `Upload`: the dashboard's `handleFileUpload`: validation, storage path, document row,
  extraction request and redirect.
- `GeneratePage`: the generate page's `handleGenerate`:
  - the client credit check and the output reset;
  - the `data: ` line parser with its `[DONE]` marker.
- `Flows`: the pieces composed:
  - the ledger invariant over any sequence of generations and purchases;
  - four end-to-end scenarios;
  - upload followed by extraction;
  - the generate route's stream as the page renders it.

The generate route debits the credit before it calls the provider, and nothing refunds it.
`GenerateRoute.Generate` states this ordering. The credits page's FAQ says credits are
deducted only after a successful generation; the model follows the code.

## Model

| member | source | states |
|---|---|---|
| CurriculumCache.Get | lib/cache/curriculumCache.ts:7-28 | A call hits exactly when an entry for the key exists whose age is strictly below 3 600 000 ms. A hit returns the stored data, calls no fetch and leaves the map alone. A miss calls the fetch once and returns its result. A successful miss stores (data, `now`), where `now` is read before the fetch. A throwing fetch leaves the map unchanged |
| CurriculumCache.Run | lib/cache/curriculumCache.ts:7-36 | Runs a sequence of gets and clears in order. There is one reply per call: a get is answered with a served result and a clear with an acknowledgement. No calls leave the cache as it was, and the first call is answered on the cache given |
| CurriculumCache.RunAppend | lib/cache/curriculumCache.ts:7-36 | Running one sequence of calls and then another, starting from the cache the first one left, gives the same cache and replies as running them joined. So the cache is threaded from call to call |
| CurriculumCache.ReplyOnThreadedCache | lib/cache/curriculumCache.ts:7-36 | The reply to the i-th call is that call answered on the cache left by the calls before it |
| CurriculumCache.Clear | lib/cache/curriculumCache.ts:30-32 | Removes exactly the given key; every other entry is unchanged |
| CurriculumCache.ClearAll | lib/cache/curriculumCache.ts:34-36 | Leaves the map empty |
| CurriculumCache.SecondGet | lib/cache/curriculumCache.ts:5-28 | After a successful fetch at `t1`, a get at `t2` is served from the cache iff `t2 - t1` is below the timeout. At exactly the timeout it fetches again |
| CurriculumCache.HitDoesNotRefresh | lib/cache/curriculumCache.ts:12-15 | A hit keeps the stored timestamp, so the entry expires one timeout after its fetch however often it is read |
| CurriculumCache.NoRefetchWithinWindow | lib/cache/curriculumCache.ts:7-36 | Over any sequence of gets and clears that neither clears the key nor reads it after its window, every get of the key returns the stored data without a fetch, and the entry survives |
| Text.JoinSplit | app/dashboard/generate/page.tsx:139 | Splitting a chunk into lines loses nothing: joining the lines with the separator gives the chunk back |
| Text.LastSegmentIsFinalSuffix | app/api/extract-text/route.ts:37 | `split('/').pop()` is the longest `/`-free suffix of the string, and a `/` precedes it when it is not the whole string |
| Text.Truncate | app/api/extract-text/route.ts:50-52 | The result is a prefix of the text, at most `n` long, the whole text when it fits, and exactly `n` long otherwise |
| Numbers.ParseIntRoundTrip | app/api/webhook/route.ts:49 | `parseInt` applied to an integer's decimal text returns that integer, so the credits checkout writes with `toString` read back unchanged |
| Store.OwnedDocument | app/api/generate/route.ts:16-25 | The lookup by both `id` and `user_id` finds a row iff one exists under that id and it belongs to the caller |
| Store.SetCredits | app/api/generate/route.ts:34 | The update sets the user's balance when the row exists and changes nothing when it does not. No other balance, document or transaction changes |
| Prompts.ContentTypeOf | app/api/generate/route.ts:38-108 | Only `lesson`, `mcq`, `srq` and `erq` select their own template; every other type takes the fallback branch |
| Prompts.WeekCount | app/api/generate/route.ts:44 | `weeks \|\| 8`: a missing or zero week count becomes 8; any other count is kept |
| Prompts.TemplateFor | app/api/generate/route.ts:38-109 | Each type gets its own head. The four known types ask for a counted number of items, which is `ItemCount`; the fallback asks for none |
| Prompts.BuildPrompt | app/api/generate/route.ts:36-109 | The prompt starts with the content type's fixed head, immediately followed by `extracted_text \|\| title`. It ends right after that text iff the type is unknown; every known type adds its instructions after it |
| Prompts.PromptEmbedsCurriculum | app/api/generate/route.ts:38-109 | Every prompt starts with its template's head followed immediately by the curriculum text. That text is `extracted_text` when non-empty, otherwise the title |
| Prompts.RequestedItems | app/api/generate/route.ts:38-106 | Reading the number at the count position of the prompt gives 10 for `mcq`, 8 for `srq`, 5 for `erq`, and `weeks \|\| 8` for `lesson` |
| Prompts.UnknownTypeFallsBack | app/api/generate/route.ts:107-109 | Any other type gets the generic lesson-plan prompt followed by the curriculum text, instead of an error |
| GenerateRoute.DeltaText | app/api/generate/route.ts:121 | A chunk contributes its first choice's delta content; a missing choice, delta or content, or an empty one, contributes "" |
| GenerateRoute.Relay | app/api/generate/route.ts:117-129 | The stream holds one piece per provider chunk, in order, each that chunk's delta text |
| GenerateRoute.RelayAppend | app/api/generate/route.ts:119-124 | Relaying two chunk sequences one after the other gives the concatenation of their relays, both as pieces and as text |
| GenerateRoute.EventRelay | app/api/generate/route.ts:117-124 | The corrected relay sends one event per provider chunk, in order. Each event is `data: ` followed by the JSON encoding of that chunk's delta text and a newline |
| GenerateRoute.Generate | app/api/generate/route.ts:7-133 | 401 iff there is no user, before any lookup. 404 iff the caller owns no such document, before any balance read. 402 iff the balance (null counts as 0) is below 1, with no write. Past the guard, one debit to exactly balance − 1 comes before the provider call, which carries the document's extracted text and title with the requested type and number of weeks, and it stays when the provider fails (500). Once the stream is opened it relays every chunk's delta text in order, whether or not the debit was written. It ends errored exactly when the provider's iterator throws, and is closed once otherwise. No other account, document or transaction changes |
| GenerateRoute.StreamedBody | app/api/generate/route.ts:111-133 | A successful generation sends the prompt built from the owned document's text, title and the request's `type` and `weeks`. It streams the relayed pieces, closed once, and the balance drops by one |
| WebhookRoute.PurchasedCredits | app/api/webhook/route.ts:49 | `parseInt(credits \|\| '0')`: missing metadata, or a missing or empty `credits` entry, reads as 0 and never as `NaN`. Any other entry is read with `parseInt` |
| WebhookRoute.CheckoutMetadata | app/api/checkout/route.ts:48-51 | The metadata checkout attaches names the buyer, and its `credits` text reads back with `parseInt` as exactly the number bought |
| WebhookRoute.HandleWebhook | app/api/webhook/route.ts:15-111 | A missing or empty signature, or a failed verification, gives 400 with no change; everything else is acknowledged. The tables change iff a completed checkout names a buyer and a non-zero parsed amount, and the buyer's row is read and written. Then the balance rises by exactly that amount, other balances stay, and a completed transaction is appended unless its insert fails |
| WebhookRoute.PurchaseRoundTrip | app/api/webhook/route.ts:45-91 | A completed checkout whose metadata checkout wrote for `n` credits adds exactly `n` and records one completed transaction of `n` |
| WebhookRoute.UnreadableCreditsIgnored | app/api/webhook/route.ts:48-54 | Credits metadata that reads as 0 or `NaN` changes nothing and is still acknowledged |
| WebhookRoute.PreservesNonNegative | app/api/webhook/route.ts:69-74 | With a non-negative purchased amount, no balance becomes negative |
| WebhookRoute.NegativePurchaseBreaksInvariant | app/api/webhook/route.ts:49-74 | A negative `credits` metadata larger than the balance is applied as is and leaves the balance negative |
| ExtractTextRoute.ExtractWith | app/api/extract-text/route.ts:5-69 | 401 iff there is no user; 404 iff the caller owns no such document. Present text is answered "Text already extracted", with no download and no write. Storage is asked iff the caller owns a document without text, and only for its download key. Past that point a missing object gives 500 "Failed to download PDF", a parser that throws gives 500 "Failed to extract text from PDF", and a failed update gives 500 "Failed to update document"; none of the three writes. Otherwise the answer is "Text extracted successfully". Only a success writes, and it writes that document's text: the parse of the downloaded object, truncated. No other row changes |
| ExtractTextRoute.Extract | app/api/extract-text/route.ts:35-37 | The route as written downloads only for an owned document without text. The key it asks for has no `/` and is a suffix of the document's `file_url` |
| ExtractTextRoute.ExtractFixed | app/api/extract-text/route.ts:35-41 | The corrected route downloads only for an owned document without text, and asks for exactly its recorded `file_path` |
| ExtractTextRoute.StoredTextBounded | app/api/extract-text/route.ts:44-62 | The stored text is a prefix of the parsed text, at most 100 000 characters, and all of it when it fits |
| ExtractTextRoute.ExtractIdempotent | app/api/extract-text/route.ts:29-32 | After a successful extraction of non-empty text, a second request answers "Text already extracted" and changes nothing, whatever storage and parser then do |
| ExtractTextRoute.DownloadKeyHasNoFolder | app/api/extract-text/route.ts:35-37 | The key requested from storage is the URL's final segment: it contains no `/` |
| Proxy.Guard | proxy.ts:27-51 | Redirect to `/login?redirect=/dashboard` iff the path starts with `/dashboard` and there is no session. Redirect to `/dashboard` iff the path is `/login` or `/signup` and there is a session. A lookup that throws lets the request through |
| Proxy.Route | proxy.ts:54-56 | Paths outside `/dashboard/:path*`, `/login` and `/signup` are never redirected; matched paths get the guard's decision |
| Proxy.DashboardNeedsSession | proxy.ts:33-38 | `/dashboard` and every path under it send a signed-out visitor to the login page |
| Proxy.SignedInPassesDashboard | proxy.ts:33-47 | A signed-in visitor reaches dashboard pages; a signed-out visitor reaches the auth pages |
| Proxy.RedirectSettles | proxy.ts:33-47 | The path of every redirect target is matched, and the guard lets it through with the same session, so redirects never loop |
| Upload.Validate | app/dashboard/page.tsx:106-114 | A file passes iff it is `application/pdf` and at most 10 485 760 bytes. A wrong type is reported as such whatever its size, because the type check comes first |
| Upload.HandleUpload | app/dashboard/page.tsx:102-199 | No file does nothing. A rejected file reaches neither storage nor the tables. The object is written only at `userId/timestamp-name`. A row with that `file_path` and its public URL is added only once the upload, the profile check and the insert succeed. Extraction is requested and the page redirects to `/dashboard/generate?docId=<id>` only when the row has an id |
| Upload.SizeBoundary | app/dashboard/page.tsx:111-114 | A PDF of exactly 10 485 760 bytes is accepted; one byte more is refused |
| Upload.StoragePath | app/dashboard/page.tsx:122 | `${user.id}/${Date.now()}-${file.name}` starts with the user's id and a `/`, and ends with the file's name. The timestamp between them reads back with `parseInt` as the upload time |
| Upload.StoragePathSegments | app/dashboard/page.tsx:122 | The storage path splits at `/` into the user id and `timestamp-name`; its last segment is `timestamp-name` |
| GeneratePage.LineContent | app/dashboard/generate/page.tsx:141-158 | Lines without the `data: ` prefix, and data lines whose payload does not parse, contribute nothing. A data line whose payload parses contributes its `content` when that is truthy, and nothing when it is missing or empty |
| GeneratePage.ProcessLines | app/dashboard/generate/page.tsx:141-160 | The line loop of one chunk: lines none of which starts with `data: ` contribute nothing |
| GeneratePage.ChunkContent | app/dashboard/generate/page.tsx:138-160 | A chunk none of whose lines, split at `\n`, starts with `data: ` contributes nothing |
| GeneratePage.ProcessLinesReference | app/dashboard/generate/page.tsx:138-160 | A chunk's output is the in-order concatenation of the contributions of its lines before the first `data: [DONE]` |
| GeneratePage.UnparsableSkipped | app/dashboard/generate/page.tsx:146-158 | A payload that fails to parse is skipped and the lines after it are still read |
| GeneratePage.DoneCutsChunk | app/dashboard/generate/page.tsx:144 | Nothing after a `data: [DONE]` line in the same chunk is read |
| GeneratePage.ReadStream | app/dashboard/generate/page.tsx:133-162 | The read loop's accumulated output is the in-order concatenation of every chunk's output |
| GeneratePage.DoneStopsOnlyItsChunk | app/dashboard/generate/page.tsx:133-162 | The output of a stream is the output of its first part followed by that of the rest, so `[DONE]` in one chunk does not stop later chunks |
| GeneratePage.PlainStreamShowsNothing | app/dashboard/generate/page.tsx:138-160 | A stream in which no line starts with `data: ` shows nothing |
| GeneratePage.HandleGenerate | app/dashboard/generate/page.tsx:97-172 | Below one credit, the page goes to `/dashboard/credits`, sends nothing and keeps its output. Otherwise the request is sent iff a user is signed in. A failed response shows its `error` or the default message over an empty output. A signed-out click, or a successful response without a body, leaves the output reset to "". After a successful response the page shows every chunk's output received before the body ended or before a read failed. It reloads the balance iff the body was read to its end without a failure; a failed read shows that error's message, or the default one |
| GeneratePage.OutputReset | app/dashboard/generate/page.tsx:105-133 | Once the guard passes the output is reset to "", and the output after the click is exactly the stream's output when a body was read, and "" otherwise. So the output shown before the click has no influence on it |
| Flows.GenerateKeepsNonNegative | app/api/generate/route.ts:28-34 | A generation never makes a balance negative |
| Flows.LedgerStaysNonNegative | app/api/generate/route.ts:28-34 | Any sequence of generations and non-negative purchases keeps every balance non-negative |
| Flows.ScenarioPaidGeneration | app/api/generate/route.ts:27-82 | With 5 credits and extracted text, an `mcq` request streams, leaves 4 credits, and sends a prompt asking for 10 questions |
| Flows.ScenarioNoCredits | app/api/generate/route.ts:28-31 | With 0 credits the answer is 402 "Not enough credits" and the balance stays 0 |
| Flows.ScenarioSignedOut | app/api/generate/route.ts:12-13 | Without a user the answer is 401 and nothing is read or written |
| Flows.ScenarioPurchase | app/api/webhook/route.ts:45-88 | A signed completed checkout for `u1` with credits `"50"` adds exactly 50 and records one completed transaction |
| Flows.UploadedPdfNotFound | app/api/extract-text/route.ts:35-41 | After an upload, the route as written asks storage for `timestamp-name` while the file sits at `userId/timestamp-name`, and answers 500 "Failed to download PDF" |
| Flows.UploadedPdfExtracted | app/api/extract-text/route.ts:35-64 | Downloading the stored `file_path` instead finds the upload, and the document gets its parsed text, truncated |
| Flows.PlainRelayShowsNothing | app/api/generate/route.ts:117-132 | The route streams plain text, so whenever no generated line starts with `data: `, the page shows nothing, though the credit is spent |
| Flows.PaidForNothing | app/api/generate/route.ts:117-132 | A generation of "Week 1: Fractions" spends one credit, and the page shows "" |
| Flows.FramedRelayShown | app/dashboard/generate/page.tsx:133-162 | If each piece is sent as one `data: ` line carrying its JSON, the page shows exactly the generated text |
| GeneratePage.AppendChunks | app/dashboard/generate/page.tsx:133-149 | A page that appends each decoded chunk instead of parsing `data: ` lines shows the concatenation of the chunks, however the text was split into chunks |
| Flows.PlainPageShowsRelay | app/api/generate/route.ts:117-129 | With the route as written, such a page shows exactly the generated text, every chunk's delta in order |

## Left out

- Concurrency: the balance is read and then written by separate calls, in both the generate route and the webhook. Requests are modelled one at a time, so interleavings that lose updates are not covered.
- The transaction's `amount` field (`amount_total / 100`) is floating point and is not modelled.
- Text lengths count Dafny characters, while JavaScript's `length` and `substring` count UTF-16 code units. They differ only for characters outside the Basic Multilingual Plane.
- Numbers.IntToString: matches `Number#toString` only below 10^21 in magnitude, where JavaScript switches to exponent form.
- Numbers.ParseInt: yields the exact integer; `parseInt`'s rounding above 2^53 is not modelled.
- GenerateRoute.Generate: a malformed request body makes `req.json()` throw, and the framework answers 500; this is not modelled. The debit's own error is ignored by the code; the model takes a flag saying whether the write took effect.
- WebhookRoute.HandleWebhook: the 500 "Webhook handler failed" branch is not modelled; the modelled table calls report errors instead of throwing. `fetchFails` and a missing row both count as the fetch error that `.single()` reports.
- ExtractTextRoute.ExtractWith: of the exceptions that reach the catch-all 500, only the parser's is modelled. A null `file_url` and a failing `arrayBuffer()` are not.
- Upload.HandleUpload:
  - `ensureUserExists` counts as succeeding exactly when the user's profile row exists; its one-second retry waiting for a trigger is timing and is not modelled;
  - the list reload, the 500 ms delay and the toasts are UI;
  - the extraction request is recorded, but its answer is ignored by the code and not modelled.
- GeneratePage.HandleGenerate:
  - each server piece is assumed to reach the page as one decoded chunk; network re-chunking and `TextDecoder` splitting of multi-byte characters are not modelled;
  - a `content` field that is not a string, and a failing `response.json()` on an error answer, are not modelled;
  - a `fetch` that rejects (a network failure) is not modelled; the response is always received.
- CurriculumCache.Get: each get is modelled as one atomic step. In the code, `await fetchFunction()` yields between the lookup and the `set`, so two overlapping gets of the same key can both miss and both fetch. The later `set` then wins, possibly with the earlier `now`; this interleaving is not modelled.
- Prompts.WeekCount: `weeks` is an optional integer; strings or fractions from the request body are not modelled.
- Proxy.Guard: the cookie plumbing of the server client is left out, and so is the `error` field of `getSession`. A lookup that returns no session counts as signed out.
- React rendering, toasts, timers, scrolling and clipboard are not modelled. Nor are the Supabase, Stripe, OpenAI and Gemini clients, beyond their modelled inputs and results.
- The checkout route is not part of this model beyond the metadata it writes (`Flows.ScenarioPurchase`, `WebhookRoute.CheckoutMetadata`).
- The PDF parser and the webhook signature check are opaque: a parameter and an `Option`.

## Findings

| source | as written | input that shows it | evidently intended | confidence | as-written member | corrected member |
|---|---|---|---|---|---|---|
| app/api/extract-text/route.ts:37 | the download key is `file_url.split('/').pop()`, i.e. `timestamp-name`, but the upload (app/dashboard/page.tsx:122) stored the file at `userId/timestamp-name` | user `u1` uploads `a.pdf` at time 5; the object is `u1/5-a.pdf`, and extraction asks for `5-a.pdf` and answers 500 "Failed to download PDF" | download the stored object path `file_path` | not executed; high (the stored path is built at app/dashboard/page.tsx:122, the requested key at app/api/extract-text/route.ts:37) | Flows.UploadedPdfNotFound | Flows.UploadedPdfExtracted |
| app/api/generate/route.ts:117-129 | the route streams the model's text as `text/plain`, while the page (app/dashboard/generate/page.tsx:138-149) keeps only lines starting with `data: ` | the model yields "Week 1: Fractions"; the balance drops by one and the page shows "" | the route and the page disagree on the body format: the route deliberately sends `text/plain`, and the page parses `data: ` lines. Either the route frames each piece as a `data: ` line carrying `{"content": piece}` as JSON, or the page appends the decoded chunks as they arrive; both restore the output | not executed; high | Flows.PaidForNothing | Flows.FramedRelayShown |

The corrected download key is `ExtractTextRoute.ExtractFixed`. The route-side repair of the relay is
`GenerateRoute.EventRelay`, shown on the page by `Flows.FramedRelayShown`. The page-side repair is
`GeneratePage.AppendChunks`, shown against the route as written by `Flows.PlainPageShowsRelay`. `GenerateRoute.Generate` keeps the relay as written, because it
models the route as it is.

A negative `credits` value in the session metadata is applied unchecked. This is shown by
`WebhookRoute.NegativePurchaseBreaksInvariant`. The value comes from the checkout request
body (app/api/checkout/route.ts:11, 50) without validation, so the webhook credits whatever
amount the client named. The checkout route is outside this model, so this is noted here
rather than listed as a finding.
