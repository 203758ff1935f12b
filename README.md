# Save Link to Notion: the save/sync decision logic

A browser extension saves the page in the active tab as a row of a Notion database. This project models in Dafny the three parts of it that make decisions, and proves properties of them:

* **The Notion client** (`NotionClient`, `notion_client.dfy`). This part builds the request bodies for create, update, query, comment and block append. It also reads the dedup answer ("is this URL already saved?"). Each HTTP call is modelled by the request it sends: the verb, the URL, the headers and the JSON body. The response is an input.
* **The background worker** (`Background`, `background.dfy`). Its class `ServiceWorker` holds the stored credentials and the stored `offlineQueue`. The `SAVE_PAGE` handler refuses without credentials. Otherwise it updates the page when it is given a page id and creates one when it is not. On any failure, including being offline, it appends exactly one entry to the queue and still answers success with `queued`. The periodic `processOfflineQueue` pass retries every entry once. It keeps the entries that failed, in their order, and writes them back in one store. The outcome of each remote call is an oracle (`accepts(i)`: did the call for the entry at position `i` succeed?).
* **The popup** (`ActionProtocol` in `action_protocol.dfy`, `Popup` in `popup.dfy`). This covers the save payload and the create-or-update choice, and the system turn that opens a chat. It also covers how a language-model reply is read. The popup finds the first `<action>` region, closed or running to the end of the reply. It strips a ```` ```json ```` fence and parses the body. Then it asks for images by `IMG_<n>` reference, asks for text, or shows a message, with both appends gated on a synced page. The React state is the state of a class `App`, and each handler is a method.

Supporting modules: `Wrappers` (Option, Result), `Json` (a parsed JSON value, with JavaScript truthiness and property access), and `Strings`. `Strings` holds the JavaScript string operations the code relies on: `trim` with the ECMAScript whitespace set, `split`, `indexOf`, decimal printing and `parseInt` of a `\d+` capture.

For an `append_images` action, the check that some image resolved comes before the synced-page check (src/App.tsx:157-171). So an unsynced page with no resolvable image gets "No valid image IDs", not "Page is not saved". `ActionProtocol.Dispatch` keeps that order, and `ActionProtocol.DispatchImagesNone` states it.

## Model

| member | source | states |
|---|---|---|
| `NotionClient.BuildProperties` | src/notionClient.ts:14-37 | The in-place construction of the property dictionary yields exactly `Properties(data)`. |
| `NotionClient.PropertiesRoundTrip` | src/notionClient.ts:14-35 | Reading the dictionary back gives the page data, with the title replaced by the URL when the title is empty. The URL is verbatim, tags keep their length, order and names, and the status name is always "New". |
| `NotionClient.DecodeOf` | src/notionClient.ts:14-35 | Any dictionary that holds, under each key, what `buildProperties` puts there decodes to the page data and has status "New". |
| `NotionClient.PropertyKeys` | src/notionClient.ts:21-35 | The keys are exactly Title, Link and Status, plus Description, Tags, Session ID and Highlights each exactly when its field is non-empty. |
| `NotionClient.PropertiesAt` | src/notionClient.ts:14-35 | The value under each key: a rich-text title of `title` or else `url`, the URL, status New, and each optional key's value or absence. |
| `NotionClient.EmptyFieldOnlyDropsItsKey` | src/notionClient.ts:21-35 | Emptying one optional field removes only its key and changes nothing else in the dictionary. |
| `NotionClient.CreateAndUpdateShareProperties` | src/notionClient.ts:39-94 | Create POSTs to `pages` with a body of exactly `parent.database_id` and `properties`. Update PATCHes `pages/{pageId}` with only `properties`. Both send the same `buildProperties` output and the same headers. |
| `NotionClient.QueryRequestSpec` | src/notionClient.ts:101-118 | The dedup query POSTs to `databases/{id}/query` with a filter on `Link` equal to the URL. |
| `NotionClient.CommentRoundTrip` | src/notionClient.ts:141-161 | The comment request names the page as parent and carries the text verbatim as its rich text. |
| `NotionClient.Summary` | src/notionClient.ts:129 | The summary is `Zapisano <date>` followed by exactly `.` when the note is empty, and by exactly ` z notatką: "<note>"` otherwise. It ends in `.` exactly when the note is empty. |
| `NotionClient.SummaryDeterminesNote` | src/notionClient.ts:127-129 | For a given date, two summaries are equal only when their notes are. |
| `NotionClient.CheckIfPageSaved` | src/notionClient.ts:120-133 | A `null` body, or a `null` first result, throws the `TypeError` of reading a property of `null`. Otherwise the page is found exactly when the response is OK and `results` is a non-empty array. A found page's id is that of `results[0]`, and its summary is `Summary` of that result's creation date and stored note. Otherwise the result is `{exists:false, summary:'', pageId:null}`. |
| `NotionClient.FirstMatchWins` | src/notionClient.ts:125-130 | With a non-empty result list, only the first match decides the answer, whatever follows it. A non-null first match is found. |
| `NotionClient.ImageBlocksRoundTrip` | src/notionClient.ts:181-190 | One external-image block per URL, in input order, each pointing at its URL. |
| `NotionClient.ParagraphRoundTrip` | src/notionClient.ts:222-232 | A paragraph block gives back exactly the text it was built from. |
| `NotionClient.TextBlocksSpec` | src/notionClient.ts:221-232 | Each block holds one whole untrimmed `\n`-line of the text, in order, with a non-blank trim. There are no more blocks than lines, and every non-blank line gets a block. |
| `NotionClient.NonBlankLinesFrom` | src/notionClient.ts:221 | Every line the blank-line filter keeps is one of the input lines. |
| `NotionClient.NonBlankLinesKeepsEvery` | src/notionClient.ts:221 | The blank-line filter drops no line whose trim is non-empty. Line `i` is kept at the position right after the lines kept from before it. |
| `NotionClient.NonBlankLinesOfNonBlank` | src/notionClient.ts:221 | A text without blank lines keeps all its lines. |
| `NotionClient.NonBlankLinesAppend` | src/notionClient.ts:221 | Filtering a concatenation of line lists gives the filtered first list followed by the filtered second. |
| `NotionClient.ParagraphsConcat` | src/notionClient.ts:221 | The paragraphs of `a + "\n" + b` are those of `a` followed by those of `b`. Nothing is merged, dropped, duplicated or reordered. |
| `NotionClient.ParagraphsOfLine` | src/notionClient.ts:221 | A text without `\n` is one paragraph, untrimmed, unless its trim is empty, in which case it gives none. With `ParagraphsConcat` this fixes the paragraphs of every text. |
| `NotionClient.TwoLineText` | src/notionClient.ts:221 | Two non-blank lines joined by `\n` give exactly those two paragraphs, in that order. |
| `Strings.SplitConcat` | src/notionClient.ts:221 | `split` at one separator splits each side on its own: the pieces of `a + sep + b` are those of `a` followed by those of `b`. |
| `Strings.SplitNoSep` | src/notionClient.ts:221 | A string without the separator splits into itself alone. |
| `Background.WriteRequest` | src/background.ts:25-27 | A save with a page id is a PATCH of `pages/{pageId}`. Without one it is a POST to `pages` with the database as parent. Both carry the page's properties. |
| `Background.RetryRequestsSnoc` | src/background.ts:143-149 | One more entry at the end of the queue adds its own write at the end of the pass's requests. |
| `Background.SurvivorsSnoc` | src/background.ts:151-154 | One more entry at the end of the queue is kept, at the end, exactly when its call fails. |
| `Background.FailedPositions` | src/background.ts:151-154 | Every position it lists lies within the queue. |
| `Background.SurvivorsLength` | src/background.ts:142-156 | The queue left by a pass has exactly as many entries as there were failed calls. |
| `Background.FailedPositionsExact` | src/background.ts:151-154 | The failed positions are strictly increasing and are exactly the positions whose call failed. |
| `Background.SurvivorsAreFailedEntries` | src/background.ts:142-156 | The queue left by a pass is the subsequence of the old queue at the failed positions, in their original relative order. |
| `Background.SurvivorsPartition` | src/background.ts:143-155 | Every entry either stays or is delivered. None is lost or duplicated, so successes are removed exactly once. |
| `Background.AllDeliveredEmpties` | src/background.ts:142-156 | A pass in which every call succeeds empties the queue. |
| `Background.NoneDeliveredKeeps` | src/background.ts:142-156 | A pass in which every call fails leaves the queue unchanged. |
| `Background.ServiceWorker.constructor` | src/background.ts:14-15 | The worker starts from the stored credentials and the stored queue value. |
| `Background.ServiceWorker.SavePage` | src/background.ts:12-46 | Without both credentials it answers the error, sends nothing and leaves the queue alone. Online, it sends the update-or-create write. A success answers with the result and leaves the queue alone. Offline or on failure, the new queue is the old one (a non-array counting as empty) plus one entry `{id, data, pageId, timestamp}` at the end. The answer is then success, marked queued, with no result. |
| `Background.ServiceWorker.ProcessOfflineQueue` | src/background.ts:136-159 | Offline, with an empty queue or without credentials, it sends nothing and stores nothing. Otherwise it sends one write per entry, in order. In a single store, it replaces the queue by the entries whose call failed. |
| `Background.ServiceWorker.CheckPage` | src/background.ts:67-83 | Without both credentials it answers "Not configured" and sends nothing. Otherwise it sends the dedup query and answers `checkIfPageSaved`'s result, or the message of what the call or `checkIfPageSaved` threw. |
| `Background.ServiceWorker.AddCommentToPage` | src/background.ts:84-98 | Without the API key it answers "Not configured". Otherwise it sends the comment request and answers with the call's outcome. |
| `Background.ServiceWorker.AppendBlocks` | src/background.ts:99-113 | Without the API key it answers "Not configured". Otherwise it sends the image-block append and answers with the call's outcome. |
| `Background.ServiceWorker.AppendTextBlocks` | src/background.ts:114-128 | Without the API key it answers "Not configured". Otherwise it sends the paragraph append and answers with the call's outcome. |
| `ActionProtocol.ExtractAction` | src/App.tsx:137 | No region exactly when the reply has no `<action>`. Otherwise the region starts at the first `<action>`. It ends at the first `</action>` after it, with no earlier one inside the body. Without a closing tag it runs to the end of the reply. The pieces rejoin to the reply. |
| `ActionProtocol.ExtractActionOf` | src/App.tsx:137-140 | The converse of `ExtractAction` for a closed region. When no `<action>` starts inside `lead` and no `</action>` starts inside `body`, `lead<action>body</action>tail` splits back into exactly those pieces. |
| `ActionProtocol.TruncatedActionExtracted` | src/App.tsx:137 | The converse for a truncated reply. When no `<action>` starts inside `lead` and no `</action>` starts after the opening tag, `lead<action>body` yields `body`, running to the end of the reply. |
| `ActionProtocol.StripFence` | src/App.tsx:144-145 | The JSON text handed to the parser neither starts nor ends with whitespace. |
| `ActionProtocol.StripFencePadded` | src/App.tsx:144 | Whitespace around a body changes nothing: the first `trim` removes it before any fence is looked for. |
| `ActionProtocol.FencedRoundTrip` | src/App.tsx:144-145 | A body fenced by ```` ```json ```` (in any letter case) and ```` ``` ````, with any whitespace before the opening fence and after the closing one, gives back exactly its trimmed content. |
| `ActionProtocol.OpenFenceOnly` | src/App.tsx:144-145 | A body that opens a ```` ```json ```` fence after any whitespace and never closes it gives back its trimmed content, when that content does not itself end in ```` ``` ````. |
| `ActionProtocol.CloseFenceOnly` | src/App.tsx:144-145 | A body that ends in ```` ``` ````, followed by any whitespace, without an opening fence gives back its trimmed content, when that content does not itself start with ```` ```json ````. |
| `ActionProtocol.UnfencedUnchanged` | src/App.tsx:144-145 | A body with no fence at either end is only trimmed. |
| `ActionProtocol.ImageRefRoundTrip` | src/App.tsx:152-153 | The name `IMG_<i>` that the context gives an image reads back, via `/IMG_(\d+)/` and `parseInt`, as `i`. |
| `ActionProtocol.ResolveIds` | src/App.tsx:150-155 | Resolution succeeds exactly when every id is a string, and otherwise throws. The URLs are at most as many as the ids, non-empty and drawn from the captured images. |
| `ActionProtocol.ResolveAppend` | src/App.tsx:150-155 | Resolution works id by id: the URLs of consecutive runs concatenate in order, and the first non-string id decides the error. |
| `ActionProtocol.UnresolvableDropped` | src/App.tsx:152-155 | An id with no `IMG_<digits>`, or with an index past the end of the images, is silently dropped. |
| `ActionProtocol.OneOfTwoResolves` | src/App.tsx:150-155 | Against one image, `["IMG_0","IMG_99"]` resolves to just that image. |
| `ActionProtocol.ListedRefsResolve` | src/App.tsx:150-155 | Asking for `IMG_k..IMG_{n-1}` gives every non-empty image from `k` on, in order. |
| `ActionProtocol.RefResolves` | src/App.tsx:152-153 | `IMG_<i>` resolves to the image at `i`, or to nothing when that image is missing or empty. |
| `ActionProtocol.ResolveCons` | src/App.tsx:150-155 | One more id in front puts its URL, if any, before the others. |
| `ActionProtocol.Dispatch` | src/App.tsx:148-187 | An image request only goes out for a synced page: to that page, with the reply's prefix, and with the non-empty resolved URLs of an array `image_ids`. A text request only goes out for a synced page: to that page, for an `append_text` action with a truthy `text`. |
| `ActionProtocol.HandleReply` | src/App.tsx:137-192 | Whatever the reply, an append is only requested for the synced page. |
| `ActionProtocol.NoActionShown` | src/App.tsx:191-193 | A reply without `<action>` is shown verbatim. |
| `ActionProtocol.UnsyncedNeverAppends` | src/App.tsx:162-184 | With no synced page, no reply ever yields an append request. |
| `ActionProtocol.ImageRequestSpec` | src/App.tsx:150-163 | An image request comes from a parsed action region. It carries that region's prefix and a non-empty list of non-empty URLs, each a captured image. |
| `ActionProtocol.UnknownTypeShowsReply` | src/App.tsx:148-187 | Any parsed action that is not `null` and matches neither gated branch shows the raw reply unchanged. Such an action is a number, a string, an array, an object of another type, an `append_images` action without an `image_ids` array, or an `append_text` action with a falsy `text`. |
| `ActionProtocol.DispatchOther` | src/App.tsx:148-187 | The exact converse of the two gated branches: a non-`null` action that is neither `append_images` with an `image_ids` array nor `append_text` with a truthy `text` shows the raw reply. |
| `ActionProtocol.DispatchNull` | src/App.tsx:148-190 | A `null` action makes reading `actionJson.type` throw. The catch shows that `TypeError` as a parse failure, with the raw body cut to 100 characters. |
| `ActionProtocol.HandleReplyDispatches` | src/App.tsx:146-148 | A reply whose action parses is decided by the dispatch on the parsed object, with the region's prefix. |
| `ActionProtocol.ParseFailureShown` | src/App.tsx:188-190 | A parse failure shows the prefix, the error and the first 100 characters of the raw body. |
| `ActionProtocol.DispatchImagesRequested` | src/App.tsx:148-163 | An `append_images` action with an array `image_ids` that resolves to a non-empty URL list requests exactly those URLs, in order, for the synced page. |
| `ActionProtocol.DispatchImagesNone` | src/App.tsx:148-159 | An `append_images` action none of whose ids resolves reports "No valid image IDs", whether or not a page is synced. |
| `ActionProtocol.DispatchImagesUnsynced` | src/App.tsx:156-171 | An `append_images` action with resolvable images and no synced page reports that the page is not saved. |
| `ActionProtocol.DispatchImagesTypeError` | src/App.tsx:150-155 | An `append_images` action holding a non-string id shows the `TypeError` thrown by `id.match` as a parse failure. |
| `ActionProtocol.DispatchText` | src/App.tsx:173-175 | An `append_text` action with a truthy text requests that text for the synced page. |
| `ActionProtocol.DispatchTextUnsynced` | src/App.tsx:182-184 | An `append_text` action with no synced page shows the not-saved error. |
| `ActionProtocol.TextActionRequested` | src/App.tsx:137-175 | For `lead<action>{append_text}</action>tail` on a synced page, the text is requested with the trimmed `lead + tail` as prefix. This holds when no `<action>` starts inside `lead` and no `</action>` starts inside the body. |
| `Popup.StoredPayload` | src/App.tsx:75-79 | The saved row reads back with the page URL and the title or else the URL. Its description is `note + "\n\n" + (description or "")` when there is a note, and the description otherwise. Its tags are `[type]` or `[]`, with no session or highlights. |
| `Popup.PayloadKeys` | src/App.tsx:75-78 | A Description is sent exactly when there is a note or a description, and Tags exactly when the page has a type. |
| `Popup.SaveTarget` | src/App.tsx:85 | The page id sent is set exactly when `!forceNew` and a page is synced, and it is then the synced page. |
| `Popup.UpsertChoice` | src/App.tsx:85 | Through the worker's rule, the save is an update of the synced page exactly when `!forceNew` and a page is synced, and a create in the database otherwise. |
| `Popup.ResultId` | src/App.tsx:89 | An id is read only from a successful, non-queued response, and it is non-empty. |
| `Popup.SavedPageIsUpdatedNext` | src/App.tsx:87-92 | After a save that returned a page id, the next save without `forceNew` updates that page. |
| `Popup.UnsavedKeepsTarget` | src/App.tsx:87-92 | A queued or refused save leaves the next save's target unchanged. |
| `Popup.ErrorText` | src/App.tsx:96 | The error shown is never empty. |
| `Popup.ImageListSpec` | src/App.tsx:114-115 | The image list is "None" exactly when there are no images. Otherwise it is the references joined by `", "`, and it splits on commas into one piece per image. |
| `Popup.ListedNamesResolve` | src/App.tsx:150-155 | Asking for every image the context lists appends every non-empty image, in order. |
| `Popup.NoCommaInRef` | src/App.tsx:114 | No reference contains a comma. |
| `Popup.JoinCount` | src/App.tsx:114 | Joining n comma-free references with `", "` gives exactly n - 1 commas. |
| `Popup.OutgoingSpec` | src/App.tsx:112-127 | The outgoing conversation keeps the history and ends with the question. It starts with the system turn exactly when the history is empty and page data exists, and a system turn is never anywhere but first. |
| `Popup.AppendReport` | src/App.tsx:163-181 | The report of an append starts with the reply's prefix. |
| `Popup.App.constructor` | src/App.tsx:5-19 | The popup starts with no page data, no synced page, `forceNew` false and an empty chat. |
| `Popup.App.LoadPage` | src/App.tsx:47-49 | The scraped page data becomes the page data. |
| `Popup.App.OnCheckPage` | src/App.tsx:52-57 | A successful lookup that found the page sets the synced page and the existing note. Anything else leaves both unchanged. |
| `Popup.App.Save` | src/App.tsx:71-85 | Without page data it does nothing. Otherwise the status becomes saving and the message is the payload with the page id chosen by the upsert rule. |
| `Popup.App.OnSaveResponse` | src/App.tsx:86-98 | On success the status is success. The synced page and the note change only when the response carries `result.id`, so a queued save keeps the synced page. On failure the status is error with a non-empty message. |
| `Popup.App.AskAI` | src/App.tsx:105-131 | A blank input, or a question already pending, changes nothing. Otherwise the chat becomes the outgoing conversation, the input clears, and loading starts. |
| `Popup.App.OnAskReply` | src/App.tsx:133-196 | Loading ends. A failed call adds `Error: <error>`. A reply is read by `HandleReply` with the synced page and images the question went out with. A message outcome is added to the chat, and an append request adds nothing yet. |
| `Popup.App.AddComment` | src/App.tsx:206-218 | A comment is sent exactly when a page is synced, and it goes to that page with the text verbatim. |
| `Popup.App.OnAppendReply` | src/App.tsx:163-181 | The append's answer adds one assistant line: the prefix, then the success report (with the image count) or the error. |

## Left out

- HTTP itself is not modelled: `fetch`, status codes, response text, `console` logging and `JSON.parse` of a response. A call is the request value it sends, plus an input saying whether it succeeded and what it returned.
- `JSON.parse` of an action body is a parameter, `parse: string -> Parsed`. The model computes the exact string handed to it. A JSON number is a real. `JSON.parse` never gives `NaN`, but it reads a literal too large for a double (`1e400`) as `Infinity`, while the model keeps the literal's real value. The code only tests a number's truthiness, and both are truthy, so no outcome differs.
- `chrome.storage`, `chrome.alarms`, `chrome.runtime` messaging, `chrome.tabs` and `navigator.onLine` are not modelled. Storage is object state, and being online is a boolean input.
- The `Date.now()` id and timestamp of a queue entry are the inputs `clock1` and `clock2`. `toLocaleDateString` is the input `localeDate`.
- Asynchrony is not modelled. `SAVE_PAGE` answers before its queue write has landed. Overlapping alarm passes, and a save that enqueues while a pass runs (the pass's single write would overwrite that entry), are not modelled either. Each method is one complete, uninterrupted step.
- `NotionClient.NotionPageData` holds only the fields `buildProperties` reads. Absent optional fields are the empty string, since the code only tests them for truthiness. The extra fields the popup spreads into the payload (`image`, `images`, `selectedText`, `type`) travel with a queue entry but are never read, and are not kept.
- The `PING` and `ASK_AI` handlers and src/openAiClient.ts are not part of this model. They are a fixed reply and a thin HTTP wrapper.
- Page scraping (src/content.ts and the script the popup injects), src/options.tsx, scripts/pack-for-store.mjs, the React rendering and the status timers are not part of this model.
- `Background.HandlerResponse` errors carry the exception's message as an input string. The exact texts the HTTP wrappers build are not modelled.
- `ActionProtocol.ResolveIds`: the messages of the `TypeError` thrown by `id.match` on a non-string id are fixed strings, modelled after the V8 engine's wording. The wording belongs to the engine, not to the code.
- An `append_text` action whose `text` is a truthy non-string is requested as is (`RequestText.text` is a JSON value). What the worker's `split` then does with it is not modelled.
- `Strings.Take`: counts Unicode scalar values, while `substring(0, 100)` counts UTF-16 code units. A raw body holding characters outside the Basic Multilingual Plane is cut at a different place, and JavaScript may even cut a surrogate pair in half. The model has no UTF-16 layer.
- `NotionClient.CheckIfPageSaved`: a `results` that is not an array but still has a positive `length` (a string, or an object with a `length` field) counts as no results here. The code would then read its element `0`. The Notion API always sends an array.
- `NotionClient.CheckIfPageSaved` and `Popup.ResultId`: a page id that is not a string is read as no id. The code passes `page.id` and `result.id` through with whatever type they have, so a truthy numeric id would become the synced page. The Notion API always sends page ids as strings.
- `NotionClient.StoredNote`: a `plain_text` that is a truthy non-string (a number, say) reads as no note here. The code would print it into the summary.
