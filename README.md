# Ultimated Builder IA — verified model of the generation path

Ultimated Builder IA is a small web application. A visitor describes a site idea on the
home page. The page posts the description to `/api/generate`, and a server relay forwards
it to a text-generation provider. The page then previews the HTML that comes back, under a
sub-domain label ("slug") derived from the description.

This project models the three pieces of logic on that path and proves what they promise:

- **Slug derivation** (`slugify` in `app/page.tsx`), module `Slug`. It lower-cases,
  decomposes, drops combining marks, collapses separators to single dashes, trims dashes,
  cuts to 40 characters, and falls back to `mon-site`.
- **The page's state machine** (`HomePage` in `app/page.tsx`), module `HomePage`. The
  React state cells are the fields of the class `Page`. Each handler is a method on it.
  The outcome of the `fetch` is an input. The `??` chain that picks the content field is a
  function, `Content`.
- **The two server relays**, modules `LegacyHandler` (`api/generate.js`) and
  `RouteHandler` (`app/api/generate/route.ts`). Each relay is a total function to the
  provider call it makes (if any) and the HTTP reply it sends. `LegacyHandler.Handle`
  takes the request and the provider's outcome. `RouteHandler.Post` takes the credential,
  the parsed body and the provider's outcome.

Two supporting modules:

- `Js` models the JavaScript semantics the code relies on: a JSON-like value universe,
  truthiness, member access that throws on `null`/`undefined`, optional chaining, `??`,
  `String()`, `trim()` and the rendering of a caught error.
- `Http` holds the reply and the provider outcome.

`Pipeline` connects the page to each relay. It proves what the user sees for every
provider outcome.

Behaviours the proofs make explicit:

- `slugify` is not idempotent. When the 40-character cut lands just after a separator, the
  slug ends with a dash, and slugifying it again removes that dash
  (`Slug.SlugifyNotIdempotent`, `Slug.SlugifyIdempotentIff`).
- A present but empty `html` field shadows the later fields. The page then reports "Aucune
  page générée." even when `output` holds text (`HomePage.EmptyHtmlShadows`).
- The two relays treat an empty extraction differently:
  - `api/generate.js` answers 200 with a fixed notice as `output`. The page previews that
    notice as if it were the generated page.
  - `app/api/generate/route.ts` answers 500 `empty_response`.
- `route.ts` sends a content part with no usable text as its string form. For a record,
  that is `"[object Object]"`, sent with status 200 (`RouteHandler.ExtractHtmlShapes`).
  For a record with its own `toString` key, `String` throws and the relay answers 500
  `empty_response` (`RouteHandler.ExtractHtmlEmptyShapes`).
- `route.ts` passes any truthy `text.value` on as the HTML, records included. When that
  record has its own `toString` key, the page's `String(content)` throws after the slug
  and the preview loader were set, and the user sees "Erreur réseau ou serveur."
  (`Pipeline.RecordWithOwnToString`, `Pipeline.RelaysNeverLookEmpty`).

## Model

| member | source | states |
|---|---|---|
| Slug.LowerChar | app/page.tsx:10 | a lower-cased character is never a capital (A–Z or a Latin-1 capital); a non-capital is kept; a capital becomes the small letter whose upper case it is |
| Slug.LowerSpec | app/page.tsx:10 | `toLowerCase` leaves no capital in the text, keeps every other character in place, and turns each capital into its small letter |
| Slug.LowerAppend | app/page.tsx:10 | lower-casing works character by character: it distributes over concatenation |
| Slug.Decompose | app/page.tsx:11 | a Latin-1 small letter with an accent becomes a base letter a–z followed by a combining mark; every other character is its own decomposition |
| Slug.NfdSpec | app/page.tsx:11 | after `normalize("NFD")` no character still decomposes, and a text without such a character (any text in [a-z0-9-]) is unchanged |
| Slug.NfdAppend | app/page.tsx:11 | the decomposition works character by character: it distributes over concatenation |
| Slug.DropMarksSpec | app/page.tsx:12 | no combining mark U+0300–U+036F is left, a text without marks is unchanged, and a text of marks only vanishes |
| Slug.DropMarksAppend | app/page.tsx:12 | the removal works character by character, so every other character is kept, in order |
| Slug.NormalizeAppend | app/page.tsx:10-12 | the three normalisation stages together distribute over concatenation |
| Slug.NormalizeFixesSlugText | app/page.tsx:10-12 | text in [a-z0-9-] comes out of the three normalisation stages unchanged |
| Slug.CollapseShape | app/page.tsx:13 | after the separator collapse the text is in [a-z0-9-], never has two dashes in a row, is empty only for the empty input, starts as the input does, and keeps the input's letters and digits in order |
| Slug.CollapseIsSqueezedDashes | app/page.tsx:13 | the collapse equals the reference: every character outside [a-z0-9] turned into a dash, then each run of dashes squeezed to one |
| Slug.CollapseSingleSeparators | app/page.tsx:13 | when every separator is followed by a letter or digit, the collapse just turns each separator into a dash |
| Slug.TrimLeadingDashes | app/page.tsx:14 | the result is a suffix of the input that does not start with a dash, and loses no letter or digit |
| Slug.TrimTrailingDashes | app/page.tsx:14 | the result is a prefix of the input that does not end with a dash, and loses no letter or digit |
| Slug.Cut | app/page.tsx:15 | `slice(0, 40)`: a prefix of at most 40 characters, the whole text when it fits, exactly 40 characters otherwise |
| Slug.Trimmed | app/page.tsx:10-14 | before the cut, the text is in [a-z0-9-] without double dashes, starts and ends with a letter or digit, holds exactly the letters and digits of the normalised input, and is empty exactly when there are none |
| Slug.Slugify | app/page.tsx:7-17 | the result is never empty, has at most 40 characters, uses only [a-z0-9-], never starts with a dash, never has two dashes in a row, ends with a dash only when it is 40 characters long, and is `mon-site` when the input has no letter or digit |
| Slug.SlugifyKeepsText | app/page.tsx:10-15 | the slug keeps a non-empty prefix of the input's letters and digits, and all of them when the collapsed text fits in 40 characters; it falls back exactly when there are none |
| Slug.SlugifyOfSlug | app/page.tsx:14-15 | slugifying a slug returns it unchanged, except that a trailing dash left by the cut is trimmed |
| Slug.SlugifyIdempotentIff | app/page.tsx:14-15 | `slugify(slugify(x)) == slugify(x)` exactly when `slugify(x)` does not end with a dash |
| Slug.SlugifyNotIdempotent | app/page.tsx:14-15 | 39 letters, a dash and a letter give a slug ending in a dash that a second `slugify` changes |
| Slug.CollapseFixesSlugText | app/page.tsx:13 | the separator collapse leaves text already in [a-z0-9-] without double dashes unchanged |
| Slug.SlugifyOfSpaced | app/page.tsx:7-17 | a description that normalises to words with single separators, starting and ending with a letter or digit and at most 40 characters long, has as slug that text with each separator a dash |
| Slug.SlugifyRestaurant | app/page.tsx:113 | `slugify("Restaurant haut de gamme")` is `restaurant-haut-de-gamme` |
| Slug.SlugifyPlateforme | app/page.tsx:112 | `slugify("Plateforme de towing 24/7")` is `plateforme-de-towing-24-7` |
| Slug.SlugifyCremeBrulee | app/page.tsx:10-13 | `slugify("Crème Brûlée")` is `creme-brulee`: capitals lowered, accents dropped |
| Js.Member | app/api/generate/route.ts:52-53 | a property or index access throws exactly when the receiver is `null` or `undefined`; on an object or array it reads the entry or `undefined` |
| Js.OptionalMember | app/api/generate/route.ts:56 | `?.` yields `undefined` on a nullish receiver and the plain access otherwise |
| Js.Coalesce | app/page.tsx:53-58 | `a ?? b` is `a` unless `a` is `null` or `undefined` |
| Js.Trim | app/api/generate/route.ts:42 | what `trim()` returns neither begins nor ends with whitespace (also used at app/page.tsx:31) |
| Js.TrimSpec | app/api/generate/route.ts:42 | what `trim()` returns is the infix of the input between two blank margins |
| Js.TrimEmptyIffBlank | app/page.tsx:31 | `input.trim()` is empty exactly when the input is all whitespace |
| Js.TrimBetweenBlanks | app/api/generate/route.ts:28-42 | `trim()` removes exactly the blank margins around a text that neither begins nor ends with whitespace |
| Js.ToJsString | app/page.tsx:67 | `String(v)` returns a string unchanged, renders `null` and `undefined` by name and an empty array as ""; a record renders as `[object Object]` unless it has its own `toString` key, in which case `String` throws; only records and arrays can throw (also used at app/api/generate/route.ts:59) |
| Js.ArrayStringThrows | app/page.tsx:67 | `String` of an array throws exactly when one of its elements other than `null` and `undefined` throws |
| Js.Describe | app/api/generate/route.ts:76 | `String(err?.message \|\| err)`: an `Error`'s non-empty message, or its name when the message is empty; for any other thrown value, the string form of its truthy `message`, otherwise of the value itself, and a throw when that `String` throws |
| Http.ErrorBody | api/generate.js:10 | an error reply body has the single key `error` holding the message |
| LegacyHandler.BodyField | api/generate.js:14 | `(req.body || {}).name`: a falsy body reads every field as `undefined`; an object body gives the field's value or `undefined`; any other body gives `undefined` |
| LegacyHandler.SystemPrompt | api/generate.js:20-46 | mode `"chat"` selects the support instructions, and every other mode, absent included, the site instructions |
| LegacyHandler.MaxTokens | api/generate.js:21-46 | mode `"chat"` gives 700 tokens, every other mode (absent included) 2800, and the initial 1200 is never used |
| LegacyHandler.ProviderCall | api/generate.js:48-55 | the call goes to the fixed model with the mode's system prompt first, then the user's prompt unchanged, and the mode's token budget |
| LegacyHandler.ProviderCallByMode | api/generate.js:23-55 | mode `"chat"` sends the support instructions with 700 tokens, every other mode the site instructions with 2800 |
| LegacyHandler.ExtractOutput | api/generate.js:58-74 | the text is taken exactly when `output[0].content[0].text.value` exists and is a string, and is "" for every other response shape, `null` and `undefined` included, without raising |
| LegacyHandler.Handle | api/generate.js:8-88 | a method other than POST gives 405 before the body is read; a missing, empty or non-string prompt (absent body included) gives 400 with no provider call; otherwise exactly one call is made; a provider error gives 500 with the fixed message; a response gives 200 with a non-empty `output`, which is the extracted text or the fixed notice; no other status occurs |
| LegacyHandler.HandleReturnsProviderText | api/generate.js:60-80 | a response with `output[0].content[0].text.value` set to a text yields 200 with that text verbatim |
| LegacyHandler.HandleIgnoresBareText | api/generate.js:62-78 | a response whose `text` is a bare string yields the fixed notice |
| RouteHandler.HasApiKey | app/api/generate/route.ts:11 | the key check passes exactly when the environment value is truthy: set and not empty |
| RouteHandler.ModeLine | app/api/generate/route.ts:41 | the FAQ line is chosen exactly when the mode is the string `"assistant"`, the "site clair" line otherwise |
| RouteHandler.FailureReply | app/api/generate/route.ts:73-79 | a caught error gives 500 with `error: "openai_error"` and `details` set to the error's description; when rendering the description throws, the exception escapes and the reply is still a 500 |
| RouteHandler.ComposePrompt | app/api/generate/route.ts:28-42 | the trimmed template is the instructions, the quoted description and the mode line, with the template's outer margins removed |
| RouteHandler.ComposePromptEmbeds | app/api/generate/route.ts:38-41 | the description sits verbatim between two quotes, and the text ends with the FAQ line exactly when the mode is `"assistant"` (otherwise with the "site clair" line) |
| RouteHandler.EndsWithFaqIff | app/api/generate/route.ts:41 | the mode line is the FAQ line exactly in `"assistant"` mode, whatever precedes it |
| RouteHandler.ExtractHtml | app/api/generate/route.ts:50-63 | a missing `output[0]`, or a `content[0]` that is missing or `null`, gives "" instead of an exception, and the result is falsy only when it is "" |
| RouteHandler.ExtractHtmlIsFirstHit | app/api/generate/route.ts:54-62 | the HTML comes from the first accessor that yields, in the order: `text` if it is a string, a truthy `text.value`, the string form of the part, which is "" when `String` throws |
| RouteHandler.ExtractHtmlShapes | app/api/generate/route.ts:51-63 | on concrete shapes: a bare text, a text record with a value, a string part, and a record part with no usable text (`"[object Object]"`) |
| RouteHandler.ExtractHtmlEmptyShapes | app/api/generate/route.ts:51-63 | an empty `output`, an empty `content`, a `null` first part and a part whose own `toString` key makes `String` throw all give "" |
| RouteHandler.Relay | app/api/generate/route.ts:44-79 | from the provider call on: a rejection gives the failure reply; an empty extraction gives 500 `empty_response`; anything else gives 200 with the extraction unmodified |
| RouteHandler.Post | app/api/generate/route.ts:9-80 | a missing or empty key gives 500 `missing_api_key` before the body is read; a body that is not JSON, or is `null`, gives the 500 failure reply, not 400; a missing or non-string prompt gives 400 `missing_prompt` with no call; exactly one call is made otherwise, with the composed prompt; the reply then follows `Relay`; the status is always 200, 400 or 500 |
| RouteHandler.MissingKeyWinsOverPrompt | app/api/generate/route.ts:11-25 | a missing key gives `missing_api_key` whatever the body and the provider |
| HomePage.FirstPresent | app/page.tsx:53-58 | the reference selector: the first value that is neither `null` nor `undefined`, else "" |
| HomePage.Content | app/page.tsx:53-58 | `data.html ?? data.result ?? data.output ?? data.text ?? ""` is the first present field of the four, in that order |
| HomePage.FirstPresentOfFour | app/page.tsx:53-58 | a left-nested `??` chain ending in "" equals the first-present reference |
| HomePage.ContentPriority | app/page.tsx:53-58 | each field is used exactly when every earlier field is absent |
| HomePage.EmptyHtmlShadows | app/page.tsx:53-62 | an empty `html` shadows a non-empty `output` |
| HomePage.Preview | app/page.tsx:67 | a truthy content is previewed as `String(content)` exactly when that does not throw, and otherwise ends in the `String` failure |
| HomePage.Settle | app/page.tsx:43-73 | a response that is not ok gives the generation error; a network failure, or a body on which reading `html` throws, gives the network error; an empty content gives "Aucune page générée."; a truthy content goes to `Preview` |
| HomePage.Page.constructor | app/page.tsx:20-28 | the initial state: empty input, no HTML, no error, not loading, step 1, no slug, not publishing, no preview loader |
| HomePage.Page.EditInput | app/page.tsx:150 | the input changes and nothing else does |
| HomePage.Page.BeginGenerate | app/page.tsx:31-34 | nothing changes when the input is blank or a request is in flight; otherwise loading starts with the error cleared |
| HomePage.Page.ReceiveResponse | app/page.tsx:36-76 | after a failure the HTML is cleared, the error is set and the step, slug and preview loader are unchanged; after a content the slug is `slugify` of the submitted description, the HTML is the content, the preview loader is on and the step is 2; when `String(content)` throws, the slug and the preview loader are already set, the HTML is cleared, the error is the network error and the step is unchanged; loading ends in every case; the state invariant holds |
| HomePage.Page.OpenDashboard | app/page.tsx:64-68 | the success branch sets the slug, the preview loader, the HTML and step 2 together |
| HomePage.Page.ApplyVerdict | app/page.tsx:43-76 | each verdict sets the cells its branch of the `try` sets (a failure clears the HTML and shows its message; a preview opens the dashboard; a `String` failure keeps the slug and loader of lines 64-66 and shows the network error), the `finally` ends loading, and the state invariant holds |
| HomePage.Page.GenerateSite | app/page.tsx:30-77 | one click: no change for a blank input or while loading; otherwise the state after the request settles, as `ReceiveResponse` states it (the `String` failure included), with the slug taken from the input at click time |
| HomePage.Page.Back | app/page.tsx:222-226 | step 1, no HTML and no error; the input and the slug are untouched |
| HomePage.Page.HandlePublish | app/page.tsx:96-98 | nothing changes without a slug; otherwise publishing starts and nothing else changes |
| HomePage.Page.PublishTimerFired | app/page.tsx:101-102 | publishing ends |
| HomePage.Page.PreviewLoaded | app/page.tsx:261 | the preview loader goes away |
| Pipeline.ClientView | app/page.tsx:37-52 | `res.ok` holds exactly for a status from 200 to 299, and the parsed body is then the reply's body |
| Pipeline.SentPromptIsUsable | app/page.tsx:31-41 | a description the page sends is never blank, so both relays accept it as a prompt |
| Pipeline.LegacyRoundTrip | api/generate.js:48-80 | through the serverless relay, the provider receives the description, and the page previews the extracted text or the fixed notice, or shows the generation error when the provider fails |
| Pipeline.RouteRoundTrip | app/api/generate/route.ts:11-72 | through the route relay, the page shows the generation error for a missing key, a provider failure or an empty extraction, and otherwise hands the extraction to `Preview`: its string form, or the network error when `String` of it throws |
| Pipeline.RelayAsSeenByPage | app/api/generate/route.ts:65-72 | once the provider has been called, the page shows the generation error for a rejection or an empty extraction (status 500), and otherwise (status 200) hands the extraction to `Preview` |
| Pipeline.RelaysNeverLookEmpty | app/page.tsx:43-73 | no reply of either relay makes the page report an empty page; the serverless relay's reply is previewed or shows the generation error; the route relay's reply shows the network error exactly when it carries a value whose `String` throws |
| Pipeline.RecordWithOwnToString | app/api/generate/route.ts:56-72 | a provider `text.value` that is a record with its own `toString` key is sent with status 200, and the page's `String` then throws |

## Left out

- The OpenAI client and its `responses.create` call are foreign network code. The provider's answer is a parameter: a response value, or a thrown error.
- The module-level construction of the OpenAI client (`api/generate.js:4-6`, `app/api/generate/route.ts:5-7`) is not modelled, nor any failure it causes before a handler runs.
- The browser side effects of the page are not modelled: the `fetch` itself (its outcome is an input), `console.*`, `window.open` with `document.write` (`openFullPage`), `alert`, and the 700 ms `setTimeout` (only its `setPublishing(false)` is modelled, as `PublishTimerFired`).
- `res.json()` on a response that is not ok only feeds a log, so it is not modelled.
- The Enter-key handler calls `generateSite` and adds nothing else.
- React's batching of state updates and any interleaving of two requests are not modelled. A request is a `BeginGenerate` followed by one `ReceiveResponse`.
- The JSX rendering of `app/page.tsx`, `app/components/GeneratedSitePreview.tsx`, `app/preview/page.tsx`, `app/layout.tsx` and `next.config.mjs` are presentational or configuration. They are not part of this model.
- LegacyHandler.SystemPrompt: the two system prompts are abbreviated to their first sentence, without the template's leading line break. Only the choice between them by mode is modelled, and `LegacyHandler.ProviderCall` carries the abbreviated text.
- RouteHandler.ComposePrompt: the instruction block is abbreviated to its first line. The description's quoting, the mode line and the trim are modelled exactly.
- Slug.Lower: `toLowerCase` is modelled for Basic Latin and Latin-1 only. Every character outside Latin-1 is left unchanged, Latin Extended letters such as Č, ā, ő and Ÿ included, and so is İ (U+0130), which lower-cases to i followed by U+0307.
- Slug.Nfd: `normalize("NFD")` decomposes only the Latin-1 small letters with accents. Every character outside Latin-1 is left as it is, Latin Extended letters such as č, ā and ő included. Together with the line above, `slugify("Čapek")` is `capek` in the source but `apek` in the model.
- JavaScript strings are UTF-16, while the model's strings are sequences of Unicode scalar values. Every character of a slug is ASCII, so the 40-character cut agrees. The characters outside the Basic Multilingual Plane that `trim()` and the separator collapse see are counted differently, which changes no result.
- Js.Member: properties inherited from prototypes (`length`, methods) are not modelled. None of the accessed names (`output`, `content`, `text`, `value`, `html`, `result`, `message`) is inherited.
- Js.ToJsString: a number carries its JavaScript rendering as text. JSON data holds no function, so an own `toString` key is never callable and `String` of that record throws; an own `valueOf` key alone changes nothing, since the inherited `toString` answers first.
- RouteHandler.FailureReply: when an exception escapes `POST`, the framework answers with status 500 and a body of its own, which is not modelled (the body is left empty).
- RouteHandler.DestructureError: the message of the TypeError thrown when destructuring `null` or `undefined` follows V8's wording, which is engine-specific.
