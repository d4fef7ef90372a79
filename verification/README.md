# Resume-Job-Matcher, modelled in Dafny

Resume-Job-Matcher is a browser extension. It compares a stored CV with the job
description on the current page, using the Gemini model, and can log the
result as a row in a Google Sheets job tracker. This project models the
deterministic decision rules inside that glue code:

- the background worker (`background.js`) has three parts:
  - the analyze guards;
  - the lenient "first `{` to last `}`" JSON recovery from free model text;
  - the runtime message listener, which answers every command with one
    `{success, data | error}` envelope, and the login-then-resolve-then-append
    save chain;
- the spreadsheet client (`sheets.js`) covers:
  - tracker resolution (cached id if it verifies, else search by title, else
    create), modelled as a state machine over an abstract server and the
    one-slot `spreadsheetId` store;
  - the fixed seven-column header layout;
  - row construction with its defaults and `N%` / `N/A` score formatting;
  - the append error path;
- the content script (`content.js`) covers:
  - the job description and metadata fallback chains over an abstract page;
  - the click handler's preconditions and button reset;
  - the overlay's safe defaults, colour buckets and save control;
  - trigger injection, which happens at most once, and the singleton overlay.

Modules, one per file:

| module | file | models |
|---|---|---|
| `Js` | js.dfy | `Option`, `Result` (a settled promise), JavaScript truthiness, `x \|\| fallback` |
| `Text` | text.dfy | `indexOf`, `lastIndexOf`, `slice`, `includes`, `trim`, decimal rendering of integers |
| `LenientJson` | lenient_json.dfy | the brace-scan extraction |
| `Bridge` | bridge.dfy | the `{success, data}` / `{success, error}` response envelope |
| `Gemini` | gemini.dfy | `analyzeWithGemini` |
| `Sheets` | sheets.dfy | `SheetsService` |
| `Background` | background.dfy | `saveJobToSheet` and the message listener |
| `Scraper` | scraper.dfy | `getJobDescription`, `getJobMetadata` |
| `Overlay` | overlay.dfy | `showResultsOverlay`, `createAnalyzeButton`, the document body |
| `AnalyzeClick` | analyze_click.dfy | `handleAnalyzeClick` |

Every outside dependency is an input. The model reply is a `GeminiReply`.
`JSON.parse` is a function parameter `parse`. The Google servers are a `Drive`,
which holds:

- the set of live spreadsheet ids;
- the search reply;
- the create reply;
- the append reply.

The remaining inputs are:

- the OAuth token, as an `Option<string>`;
- the stored `spreadsheetId`, as an `Option<string>`;
- the date cell, as a string;
- the settings read, as a `SettingsRead`;
- the runtime's answer to the analyze message, as a `BridgeAnswer`;
- the page, as a record holding the text the relevant selectors find.

Requests and page effects are recorded in order as traces:

- `Sheets.Call`;
- `Gemini.GeminiRequest`;
- `AnalyzeClick.Effect`.

This makes ordering, "no create" and "no send" statements about the result.

Four behaviours of the code worth knowing, all modelled as written:

- The tracker id is cached under the single key `spreadsheetId`, not per
  account (sheets.js:14, 29, 35).
- A score of 0 is written as `"N/A"` (sheets.js:131).
- The overlay defaults a falsy `matchPercentage` to 0 but never clamps it to
  0..100 (content.js:170).
- Once the host page detaches the overlay panel, the stale reference makes
  every later show throw inside the message callback, so the click's promise
  never settles (content.js:146-147, 164-166).

## Model

| member | source | states |
|---|---|---|
| Text.IndexOf | background.js:140 | `indexOf`: -1 exactly when the character is absent, otherwise the position of its first occurrence |
| Text.LastIndexOf | background.js:141 | `lastIndexOf`: -1 exactly when absent, otherwise the position of the last occurrence |
| Text.Slice | background.js:150 | `slice(from, to)` is the substring when `from < to` and empty otherwise |
| Text.ContainsIffOccurs | content.js:7 | `includes` holds exactly when the needle occurs at some position of the host name |
| Text.Trim | content.js:55 | `trim` drops only leading and trailing white space, keeps the middle as a contiguous piece, and leaves no white space at either end |
| Text.TrimIdempotent | content.js:59 | trimming an already trimmed text changes nothing |
| Text.DecimalRoundTrip | sheets.js:131 | the decimal text of a number has no leading zero and reads back as that number |
| Text.IntToStringRoundTrip | sheets.js:131 | the text a score is interpolated as reads back as the same integer, sign included |
| LenientJson.ExtractJson | background.js:140-150 | fails with "Model did not return valid JSON" exactly when a brace is missing; otherwise the result is the text from the first `{` through the last `}` inclusive, and it starts with `{`, ends with `}` and leaves no `}` after it; it is empty exactly when the last `}` comes before the first `{` |
| LenientJson.ExtractIgnoresProse | background.js:140-150 | prose with no `{` before the object and no `}` after it never changes what is extracted |
| LenientJson.ExtractIdempotent | background.js:140-150 | extracting from an extracted object gives the same object back |
| Bridge.ReifyReflect | background.js:13-14 | a settled promise and its response envelope carry the same information in both directions |
| Gemini.AnalyzeWithGemini | background.js:50-161 | a missing or empty key fails with the key message and sends nothing; otherwise exactly one request goes to gemini-2.5-flash with the description and CV; a rejected or non-OK reply fails; an empty text fails with "Empty response from Gemini"; a missing brace fails with the JSON message; otherwise the result is the parse of the extracted object, and a success implies the reply had text with both braces |
| Sheets.TrackerLayout | sheets.js:76-101 | a new tracker is titled "Job Application Tracker - CV Matcher", freezes one row, and has exactly the seven bold headers Date, Company, Job Title, Job URL, Match Score, Status, Notes, in that order |
| Sheets.SearchSheetByName | sheets.js:42-57 | the first file's id when the response is OK and lists files; no id when it is not OK or the list is empty; a rejected request fails |
| Sheets.CreateNewSheet | sheets.js:104-116 | succeeds exactly when the server creates the sheet and returns its id, which is then live; a non-OK answer fails with "Failed to create spreadsheet"; the server changes only on success |
| Sheets.GetOrCreateSheet | sheets.js:12-37 | a verifying cached id is returned with only the verification call; otherwise the search follows; a truthy hit is stored and returned with no create; with no hit exactly one create is issued, last, and its id is stored and returned; after any success the stored id equals the returned one, a failure stores nothing, no append is issued, and no sheet disappears |
| Sheets.ResolveTwiceReusesTracker | sheets.js:13-31 | on a server whose search hits are live and whose created ids are non-empty, resolving again after a success returns the same id straight from the store, with no search and no create |
| Sheets.ScoreCell | sheets.js:131 | the cell is "N/A" exactly when the score is missing or zero, and otherwise the score followed by `%` |
| Sheets.ScoreCellRoundTrip | sheets.js:131 | the cell keeps a truthy score exactly and reads back as no score otherwise |
| Sheets.ScoreCellExamples | sheets.js:131 | 72 is written "72%"; 0 and a missing score are written "N/A" |
| Sheets.BuildRow | sheets.js:125-135 | one cell per header column: the date, company and title defaulting to "Unknown", url defaulting to "", the score cell, status always "Analyzed", notes defaulting to "" |
| Sheets.AppendJob | sheets.js:121-152 | one append request to the resolved id carrying the built row; success exactly when the server answers OK, with its body; a non-OK answer fails with the server's message or "Failed to append data" |
| Background.SaveJobToSheet | background.js:26-48 | without a token it fails with the login message and touches neither the store nor the server; without the sheets client it fails with "SheetsService not loaded"; otherwise resolution runs to completion first, a failed resolution stops there, and a successful one is followed by exactly one append, which is the last request |
| Background.OnMessage | background.js:10-24 | `analyzeCV` and `saveToSheet` keep the channel open and answer exactly once, with a success envelope carrying the result or a failure envelope carrying the error message; only the save changes the store and the server; any other action gets no answer and changes nothing |
| Scraper.FirstFound | content.js:28-30 | an `a \|\| b \|\| c` lookup chain yields nothing exactly when no lookup matches, and otherwise the first match |
| Scraper.FirstFoundAppend | content.js:27-43 | trying one chain and then another is trying their concatenation |
| Scraper.GetJobDescription | content.js:25-44 | the first match in priority order: on LinkedIn the three description selectors, then the first article, the first main element, and finally the body text |
| Scraper.DescriptionIgnoresLinkedInSelectorsElsewhere | content.js:27-32 | off LinkedIn the LinkedIn description selectors never affect the description |
| Scraper.GetJobMetadata | content.js:47-71 | the url is always the page address; title and company are the trimmed text of the first element found, or "Unknown Title" / "Unknown Company"; off LinkedIn the company is always "Unknown Company" |
| Overlay.Normalise | content.js:169-174 | the shown score is 0 exactly when the analysis score is falsy, and is otherwise kept unclamped; summary and experience get their placeholders when blank, so they are never empty; missing skill lists become empty |
| Overlay.NormaliseIdempotent | content.js:169-174 | normalising an already normalised analysis changes nothing |
| Overlay.ScoreColour | content.js:180-183 | green exactly from 70, yellow exactly from 40 below 70, red exactly below 40 |
| Overlay.ScoreColourMonotone | content.js:180-183 | a higher score never gets a worse colour |
| Overlay.SkillTags | content.js:199-209 | one tag per skill, in order, or the single placeholder "None" for an empty list |
| Overlay.OnSaveClick | content.js:253-256 | a click disables the control and shows "Saving..." |
| Overlay.OnSaveAnswer | content.js:267-278 | success shows "Saved!" and "Row added to spreadsheet."; anything else re-enables the control as "Retry Save" with "Error: " and the error, or "Unknown error" when there is no response |
| Overlay.SaveAttempt | content.js:253-279 | after a click and its answer, the control is disabled exactly when the row was added |
| Overlay.SavedRowFromOverlay | content.js:258-266 | the row saved from the overlay has "N/A" as its score exactly when the model's score was falsy, the shown summary as its non-empty notes, and the page address as its url |
| Overlay.CreateAnalyzeButton | content.js:5-23 | nothing happens off LinkedIn or when an element with the trigger id exists; otherwise exactly one trigger is appended and nothing else changes; the overlay invariant is kept |
| Overlay.CreateAnalyzeButtonIdempotent | content.js:9-10 | injecting twice is injecting once |
| Overlay.PollingInjectsOnce | content.js:283 | any number of timer ticks leaves the page as after the first, so a page without a trigger ends with at most one |
| Overlay.RemovePanelCounts | content.js:165 | removing the referenced panel removes exactly the panels with its serial and leaves every other child |
| Overlay.ShowResultsOverlay | content.js:163-167 | a reference to a panel the host page has detached makes `removeChild` throw, and exactly then nothing is shown; otherwise the old overlay is removed and the new one, with an idle save control, is appended last and referenced; host elements are untouched, and with the invariant in force the show never throws and exactly one overlay panel remains |
| Overlay.DetachedOverlayBlocksShows | content.js:163-167 | after the host page detaches the panel every show throws again, since the reference is never cleared, and a show after the close control succeeds |
| Overlay.CloseOverlay | content.js:242-247 | the close control removes the overlay if still attached and clears the reference, leaving no panel and the host elements untouched |
| AnalyzeClick.Abort | content.js:106-122 | an early exit fails, sends nothing, alerts once and resets the button once |
| AnalyzeClick.Deliver | content.js:134-159 | after the send: a throw fails with the unexpected-error alert; otherwise the send is the first effect; success exactly on a success envelope when the overlay reference is not stale, with the overlay shown last; a runtime error or failure envelope fails with its message after an alert; no response, or a success whose overlay show throws, leaves the promise unsettled after the send and the reset |
| AnalyzeClick.HandleAnalyzeClick | content.js:83-161 | the button is busy while waiting and always gets its caption back, enabled, with exactly one reset; missing key or CV fails with "Configuration missing" before scraping; a description shorter than 50 fails with "Job description not found" and sends nothing; the analyze message is sent exactly when settings load, are configured, the description is long enough and sending does not throw, and it carries the stored key, CV, model and the scraped description and metadata; success exactly on a success answer shown in a document without a stale overlay reference, ending with the overlay; unsettled exactly on no response or on a success whose show throws |
| AnalyzeClick.SentAnalysisReachesModel | content.js:125-133 | an analysis the page sends always passes the worker's key guard, so exactly one model request is made for the scraped description and stored CV |
| AnalyzeClick.WellFormedOverlaySettlesSuccess | content.js:143-167 | while only the script manages the overlay, a success answer to a sent analysis always settles the click as a success with the overlay shown, and the show does not throw |

## Left out

- The `chrome.*` APIs and `fetch` are inputs:
  - `chrome.storage.local.get` and `set`, `chrome.identity` and `chrome.runtime` messaging;
  - HTTP requests and responses are replies on `Drive` and `GeminiReply`.
  - Rejections of the storage calls inside `getOrCreateSheet` are not modelled.
- `JSON.parse`, and the JSON reading of response bodies, are oracles. The model does not say which strings parse.
- Gemini.AnalyzeWithGemini: a non-OK model response only promises some error. Its message is an oracle because background.js:123-125 reads the response body twice, so the intended server message cannot be relied on.
- The prompt text, the request body layout, the API URL apart from the model name, and the generation parameters are constants sent to a foreign service, not behaviour.
- `new Date().toLocaleDateString()` depends on locale and clock, so the date cell is an opaque input.
- The query string for the Drive search and its URL encoding are not modelled. The search reply is an input and does not depend on the title.
- `getSheetDetails` is modelled as membership of the id in the server's live set. Its response body is unused by the source.
- `importScripts` failure is the `sheetsLoaded` flag.
- `setInterval` timing is left out. `Overlay.Poll` models n ticks in sequence.
- Concurrency and callback interleaving are left out: simultaneous analyze or save requests, and the duplicate-create race of two resolutions.
- DOM querying and `innerText` are reduced to the text each selector's first match yields. As in the source, a matched element with empty text still counts as found.
- HTML rendering and escaping, inline styles, CSS classes and `alert` presentation are left out. Alerts are effects carrying their text.
- The overlay's rendered markup is left out apart from the score colour and skill tags. The colour's hex values are carried by `Overlay.Colour.Hex`.
- The content script's `triggerAnalysis` listener (content.js:74-81) only forwards the outcome of `handleAnalyzeClick` to the popup, so it is not a separate member.
- `matchPercentage` is modelled as an optional integer. A non-integer or string value from the model, and JavaScript's number formatting of very large values in exponent form, are not modelled.
- Strings are sequences of code points, while JavaScript lengths count UTF-16 units. The 50-character description check therefore counts code points.
- The white-space set of `trim` is written out by hand: the Unicode space separators, the line terminators, tab, vertical tab, form feed and the byte-order mark, as ECMAScript lists them. It is not derived from a Unicode database, so later additions to the space separators are not covered.
- The model text path `candidates?.[0]?.content?.parts?.[0]?.text` is reduced to an optional string. A truthy non-string value there is not modelled.
- Reading the append error body can itself throw when the body is not JSON. That case is not modelled; the optional server message is an input.
- The popup (popup.js, extension/popup.js) and the help page (help.js) are not part of this model. That includes the settings form, login and logout, token revocation and the per-email display key.
