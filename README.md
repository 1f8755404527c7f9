# Samsung TV shopping assistant: a Dafny model of its logic

The chat product app is a Next.js page where a shopper types a question about
Samsung TVs, gets an answer with product cards, and can pick up to three TVs
for a side-by-side comparison. Two API routes ask the Gemini model for
product cards and for short feature descriptions, and a Python script asks it
for a batch of ten cards. This project models the sequential logic underneath
and proves what that logic guarantees:

- **Mock recommendation engine** (`MockLlm`, `MockLlmProperties`,
  `llm.dfy`). `mockLLMResponse` works over the six-TV catalog. It covers the
  filter chain (price under $1000, 75in, 120Hz), the compare, add and remove
  branches, the name regex and the proactive tip.
- **Comparison tray** (`Tray`, `HomePage`, `page.dfy`). The page's state is
  the class `HomePage.Home`, with fields `messages`, `input`, `sheetProduct`
  and `compareProducts`.
  - `HandleSend` and `HandleCompareToggle` change that state in place.
  - Every method keeps the invariant `TrayOk`: at most three entries, with
    pairwise distinct ids.
- **Chat bar and product card** (`ChatBar` in `chatbar.dfy`; `ChatResponse`
  and `ProductCard` in `card.dfy`).
  - The chat bar: the send guard, the placeholder, chip removal by id,
    Clear, and Compare Now.
  - The product card: the three-way compare-click decision, its visibility
    rule and label, and the spec line.
- **Repair of model output into a JSON array** (`JsonRepair`, `repair.dfy`).
  It comes in two variants:
  - `CleanText` models `cleanText` in the TypeScript route.
  - `CleanJsonString` models `clean_json_string` in Python.
- **Product route** (`RouteInput`, `GenerateProducts`,
  `products_route.dfy`). `POST` of `/api/generate-products` is a method with
  early returns. The request body, the API key, the catalog file, the model
  and `JSON.parse` are parameters.
- **Feature-description route** (`FeatureDescription`,
  `feature_route.dfy`). The validation order and the five-entry fallback
  table. The scope error the handler contains is under Findings.
- **Python retry loop** (`GenerateContent`, `generate_content.dfy`). Up to
  three attempts, stopping at the first list of ten or more cards, then the
  first ten cards printed.

The model follows what the code does, in particular:

- Product replies have no keyword-selected fallback titles and no
  `title`/`description` fields. The only fallbacks are the two canned cards
  at src/app/api/generate-products/route.ts:139-148 and :170-179.
- A reply the model cannot parse still reports `success: true`, with one
  canned card (`GenerateProducts.Post`).
- A parse that yields an empty array also reports `success: true`, with
  zero cards (`GenerateProducts.EmptyParseIsSuccess`).
- The page never passes `isLoading` to the chat bar
  (src/app/page.tsx:87-94), so the prop takes its default, `false`. The
  `ChatBar` methods still take it as a parameter.
- The chat removes TVs by exact *name* (src/app/page.tsx:37), while a chip
  removes by *id* (src/components/ChatBar.tsx:80).
  `Tray.RemoveByNameVersusId` proves the two agree on catalog cards. A
  matched text whose case differs from the catalog name removes nothing,
  although the reply says "Removed …".
- `toLowerCase` is modelled as lower-casing ASCII letters. Every keyword
  tested is lower-case ASCII, and none contains `k` or ends in `i`.
  The only non-ASCII characters that `toLowerCase` maps onto ASCII are the
  Kelvin sign (onto `k`) and `İ` (onto `i` plus U+0307). So both versions
  find the same keywords.
- Prices are held as whole dollars. `PriceText` renders them back as the
  catalog's `"$999"` strings. `parseFloat(price.replace('$',''))` is
  therefore the number itself.
- The name regex is modelled as JavaScript runs it (`MockLlm.MatchesFrom`):
  - the leftmost match wins, with alternatives tried in pattern order;
  - `/gi` searches resume after each match;
  - matching ignores case for ASCII letters.
  `MockLlmProperties.FirstMatchSpec`, `MatchesFromLeftmost` and
  `MatchesFromEmpty` prove these properties of the model.

## Model

| member | source | states |
|---|---|---|
| Text.StripEmpty | src/components/ChatBar.tsx:40 | `trim()` yields the empty string exactly when every character is whitespace |
| MockLlm.FindByName | src/lib/llm.ts:39 | `find` by name returns a card iff some card has exactly that name, and the one returned is the first card with that name |
| MockLlm.AlternativeAt | src/lib/llm.ts:38 | a regex alternative matched at a position is non-empty and occurs there in the query |
| MockLlm.AlternativeAtSpec | src/lib/llm.ts:38 | no match at a position iff no alternative equals the text there up to ASCII case; otherwise the match is the first such alternative in pattern order |
| MockLlm.MatchesFrom | src/lib/llm.ts:31 | every text `match(/…/gi)` returns occurs in the query |
| MockLlm.FilterMembers | src/lib/llm.ts:19-25 | `filter` keeps exactly the elements satisfying the predicate |
| MockLlm.FilterIsSubsequence | src/lib/llm.ts:19-25 | `filter` keeps the survivors in their original order |
| MockLlm.FilterKeepsAll | src/lib/llm.ts:12-14 | filtering with a predicate every element satisfies changes nothing, so the no-filter listing is the catalog |
| MockLlmProperties.PatternIsCatalogNames | src/lib/llm.ts:31 | the regex alternatives are the six catalog names, in catalog order |
| MockLlmProperties.CheapCatalog | src/lib/llm.ts:18-20 | the price filter keeps tv1, tv3, tv4 and tv6 |
| MockLlmProperties.CheapCount | src/lib/llm.ts:19-20 | four TVs are under $1000 |
| MockLlmProperties.NoKeywordListsCatalog | src/lib/llm.ts:12-27 | with no filter keyword and no action, the reply lists all six cards, has no comparison, and reads `Found 6 TVs matching "<query>":` |
| MockLlmProperties.EmptyQueryListsCatalog | src/app/page.tsx:29 | `mockLLMResponse('').cards`, the page's catalog lookup, is the whole catalog |
| MockLlmProperties.UnderThousandFilter | src/lib/llm.ts:18-27 | "under $1000" keeps exactly the cards priced below 1000, in catalog order, whatever other filter keyword is present, and the text reports the count |
| MockLlmProperties.CheapListing | src/lib/llm.ts:18-20 | the "under $1000" branch takes precedence over the other filters |
| MockLlmProperties.ListingIsCatalogSubsequence | src/lib/llm.ts:18-27 | outside the actions, the cards are a catalog-order subsequence, the text starts with `Found <count> TVs `, and there is no comparison |
| MockLlmProperties.MatchesOccur | src/lib/llm.ts:31 | every regex match is a substring of the query |
| MockLlmProperties.MatchesFromEmpty | src/lib/llm.ts:31 | `match(/…/gi)` finds nothing iff no name occurs, up to ASCII case, anywhere in the searched part of the query |
| MockLlmProperties.MatchesFromLeftmost | src/lib/llm.ts:31 | the first match is taken at the leftmost position where a name occurs, and the rest of the list is the search resumed right after it, so matches never overlap |
| MockLlmProperties.FirstMatchSpec | src/lib/llm.ts:38 | `match(/…/i)` finds nothing iff no catalog name occurs in the query up to ASCII case; otherwise it is the first alternative at the leftmost position where one occurs |
| MockLlmProperties.NamedTvMatches | src/lib/llm.ts:38 | a query that spells a catalog name, in any ASCII case, always yields a match |
| MockLlmProperties.CompareSelection | src/lib/llm.ts:30-36 | the compare branch selects the first three (or fewer) catalog TVs, in catalog order, whose exact name the `/gi` regex matched: a matched TV is left out only when three are already selected, and each one selected is named in the query. There is a comparison iff at least 2 are selected, and it is exactly the selection. There is a tip iff fewer than 2 are selected. There are no cards |
| MockLlmProperties.CompareTwoNamed | src/lib/llm.ts:31-34 | a compare query whose regex matches include the exact names of two different catalog TVs always gets a comparison, and it contains the first of them unless three TVs are selected |
| MockLlmProperties.ActionsClearCards | src/lib/llm.ts:30-47 | the compare, add and remove branches always return no cards, even after a filter matched |
| MockLlmProperties.AddNamesOnlyCatalogTvs | src/lib/llm.ts:37-42 | the add reply names the TV only when the matched text is exactly a catalog name, otherwise "TV not found". Its tip and comparison are fixed |
| MockLlmProperties.RemoveNamesMatch | src/lib/llm.ts:43-47 | the remove reply names whatever the regex matched, or says "TV not found." when nothing matched |
| MockLlmProperties.GamingSuppressesTip | src/lib/llm.ts:15 | outside the actions, the tip is absent iff the query contains `gaming` (case-sensitive). Otherwise it is the OLED/gaming question |
| Tray.FilterKeepsTrayOk | src/app/page.tsx:47 | filtering keeps the tray invariant and order, and drops exactly the rejected entries |
| Tray.WithoutPresentId | src/app/page.tsx:46-47 | removing an id present in a valid tray shortens it by exactly one |
| Tray.AbsentIdUnchanged | src/components/ChatBar.tsx:80 | removing an id no entry has changes nothing |
| Tray.ToggleSpec | src/app/page.tsx:45-51 | the toggle removes a present product, appends an absent one when there are fewer than 3 entries, leaves a full tray alone, and keeps the invariant |
| Tray.ChatAddSpec | src/app/page.tsx:26-33 | a chat add changes the tray iff the match is exactly a catalog name, the tray has room and no entry shares the id. Then it appends that catalog TV, and it keeps the invariant |
| Tray.ChatRemoveSpec | src/app/page.tsx:34-38 | a chat remove drops exactly the entries with the matched name, keeps the rest in order, and changes nothing without a match |
| Tray.WithoutIdSpec | src/components/ChatBar.tsx:80 | chip removal drops exactly the entries with that id, keeps the others in order, and keeps the invariant |
| Tray.CatalogKeys | src/lib/llm.ts:2-9 | catalog names and ids determine each other |
| Tray.RemoveByNameVersusId | src/app/page.tsx:37 | on catalog cards, removal by name equals chip removal by id. A match that is not letter for letter a catalog name removes nothing, while the reply claims a removal |
| Tray.CatalogTrayKept | src/app/page.tsx:26-50 | toggling catalog cards, chat adds and chat removes keep the tray made of catalog cards |
| HomePage.SendTrayOk | src/app/page.tsx:26-38 | the chat-driven tray update keeps the invariant |
| HomePage.SendSheetSpec | src/app/page.tsx:39-41 | a send opens only the comparison sheet on the whole tray. An add, a remove or a tray of fewer than 2 entries leaves the sheet as it is |
| HomePage.Home.constructor | src/app/page.tsx:11-16 | the page starts with no messages, empty input, no sheet and an empty tray |
| HomePage.Home.SetInput | src/components/ChatBar.tsx:112 | typing sets the input and nothing else |
| HomePage.Home.HandleSend | src/app/page.tsx:18-43 | blank input changes nothing. Otherwise the user message and the engine's reply are appended, the tray and sheet follow the add, remove and compare chain, and the input is cleared |
| HomePage.Home.RecordExchange | src/app/page.tsx:20-25 | exactly two messages are appended: the user's, then `mockLLMResponse(input)` |
| HomePage.Home.ApplyChatAction | src/app/page.tsx:26-41 | the tray and sheet become the add, remove and compare outcome computed from the tray as it was, and the invariant holds |
| HomePage.Home.HandleCompareToggle | src/app/page.tsx:45-51 | the tray becomes its toggle and nothing else changes |
| HomePage.Home.ShowProduct | src/app/page.tsx:79 | learn-more opens the product's sheet and nothing else changes |
| HomePage.Home.CloseSheet | src/components/DetailSheet.tsx:21 | the sheet's close button closes the sheet and nothing else changes |
| ProductCard.ClickMatchesVisibility | src/components/ProductCard.tsx:26-72 | the control is forced invisible and click-through iff a click emits nothing. A compared card asks for removal, any other emitted click asks to add, and the label is "✓ Compared" iff compared |
| ProductCard.ClickThenToggle | src/components/ProductCard.tsx:64-70 | with props derived from the tray, a click on a compared card removes it, a click on an uncompared card with room appends it, and a click at the cap emits nothing |
| ProductCard.SpecLineAppend | src/components/ProductCard.tsx:77 | the spec line of joined entry runs is their spec lines joined by " • " |
| ProductCard.CatalogSpecLine | src/components/ProductCard.tsx:77 | a catalog card's spec line is `size: … • refresh_rate: … • price: $…` |
| ChatBar.PlaceholderSpec | src/components/ChatBar.tsx:32-37 | the placeholder is "Max 3 TVs …" iff the tray is non-empty |
| ChatBar.SendGuardSpec | src/components/ChatBar.tsx:39-49 | click and Enter send under the same condition. The button is disabled iff a click would not send. Whitespace-only input or loading never sends |
| ChatBar.SendClick | src/components/ChatBar.tsx:39-43 | a click sends exactly when the guard holds, with the send's full effect. Otherwise nothing changes |
| ChatBar.KeyDown | src/components/ChatBar.tsx:45-49 | Enter sends exactly when the guard holds. Any other key, or a failed guard, changes nothing |
| ChatBar.RemoveChip | src/components/ChatBar.tsx:80 | the tray loses the entries with that id, and nothing else changes |
| ChatBar.ClearComparisons | src/components/ChatBar.tsx:27-30 | the tray is emptied and the sheet closed |
| ChatBar.CompareNow | src/components/ChatBar.tsx:88-92 | the sheet shows the comparison of the whole tray |
| ChatBar.CompareNowAgreesWithChat | src/components/ChatBar.tsx:88-92 | where Compare Now is shown, a "compare" chat send opens the same sheet. Where it is not shown, such a send leaves the sheet |
| JsonRepair.Slice | src/app/api/generate-products/route.ts:109 | `slice(front, -back)` is the middle when the string is long enough and "" otherwise |
| JsonRepair.OpenBracket | src/app/api/generate-products/route.ts:115-117 | the result starts with `[`, and text already starting with `[` is kept |
| JsonRepair.DropTrailingComma | src/app/api/generate-products/route.ts:119 | `/,\s*$/` removes one comma and the whitespace after it, and only when such a comma ends the text |
| JsonRepair.UnfenceOnlyWhenFenced | src/app/api/generate-products/route.ts:108-112 | a fence is removed only when both ends are fenced, trying ```` ```json ```` first |
| JsonRepair.UnfencedWithoutBacktick | src/app/api/generate-products/route.ts:108-112 | text not starting with a backtick is never unfenced |
| JsonRepair.OverlappingFence | src/app/api/generate-products/route.ts:108-112 | when the two fences overlap, nothing is left |
| JsonRepair.CleanTextBracketed | src/app/api/generate-products/route.ts:105-120 | the TypeScript repair always starts with `[` and ends with `]` |
| JsonRepair.CleanTextKeepsArray | src/app/api/generate-products/route.ts:105-120 | trimmed text that is already bracketed comes back as the trimmed text |
| JsonRepair.CleanTextOverlappingFence | src/app/api/generate-products/route.ts:105-120 | overlapping fences repair to `[]` |
| JsonRepair.CleanTextFixesArray | src/app/api/generate-products/route.ts:105-120 | bracketed text with nothing to trim is a fixed point |
| JsonRepair.CleanTextIdempotent | src/app/api/generate-products/route.ts:105-120 | the TypeScript repair is idempotent |
| JsonRepair.TrailingCommaTs | src/app/api/generate-products/route.ts:118-120 | `"a ,"` repairs to `"[a ]"` |
| JsonRepair.CleanJsonStringBracketed | generate_content.py:56-72 | the Python repair always starts with `[` and ends with `]` |
| JsonRepair.CleanJsonStringKeepsArray | generate_content.py:58-70 | stripped text that is already bracketed comes back just stripped |
| JsonRepair.CleanJsonStringClosing | generate_content.py:68-70 | when `]` is appended, no whitespace precedes it |
| JsonRepair.CleanJsonStringFixesArray | generate_content.py:56-72 | bracketed text with nothing to strip is a fixed point |
| JsonRepair.CleanJsonStringIdempotent | generate_content.py:56-72 | the Python repair is idempotent |
| JsonRepair.TrailingCommaPy | generate_content.py:68-70 | `"a ,"` repairs to `"[a]"`, unlike the TypeScript variant |
| GenerateProducts.CatalogExcerpt | src/app/api/generate-products/route.ts:57 | the prompt's catalog text is a prefix of the serialised catalog, at most 15000 UTF-16 code units, and all of it when shorter |
| GenerateProducts.ParsedCardsLossless | src/app/api/generate-products/route.ts:151-152 | handing the parsed elements on as cards drops, merges and reorders none: it distributes over concatenation, and two parses give the same cards iff they are the same parse |
| GenerateProducts.Post | src/app/api/generate-products/route.ts:7-186 | The status is 200, 400 or 500. It is 400 iff the query is falsy, checked first. It is 500 iff the key is missing or the catalog is absent or unreadable, each with its own message. A body or model failure gives the catch-all reply. Model text gives 200 with `success: true`, the parsed cards (or the canned card when the parse or the sample log throws) and a line counting them |
| GenerateProducts.FailureResponseSpec | src/app/api/generate-products/route.ts:165-185 | the catch-all reply is 200 with `success: false`, the fixed card and the error message, or "Unknown error" |
| GenerateProducts.CannedCardEmbedsQuery | src/app/api/generate-products/route.ts:139-148 | the canned card's description contains the query, right after "Perfect for " |
| GenerateProducts.EmptyParseIsSuccess | src/app/api/generate-products/route.ts:122-155 | an empty parsed array is a success with no cards, reported as "I found 0 …" |
| GenerateProducts.SampleLogFallback | src/app/api/generate-products/route.ts:126-131 | a `null` first element, or a `topFeatures` without `slice`, sends the reply to the canned card |
| FeatureDescription.DescribeSpec | src/app/api/feature-description/route.ts:6-65 | The reply is 400 iff the feature is falsy, checked first. It is 500 iff the key is missing. Success carries the feature and the trimmed model text. Every later failure gets the table fallback with `success: false`. The corrected handler never throws |
| FeatureDescription.FallbackSpec | src/app/api/feature-description/route.ts:52-62 | the five names map to exactly their table texts and any other name to the template naming it. The description is never empty |
| FeatureDescription.FallbackIsCaseSensitive | src/app/api/feature-description/route.ts:62 | `oled` is not a table key and gets the template |
| FeatureDescription.ScopeFinding | src/app/api/feature-description/route.ts:7-64 | the handler as written throws exactly where the corrected one falls back, and agrees with it elsewhere |
| FeatureDescription.ScopeFindingExample | src/app/api/feature-description/route.ts:48-62 | a "QLED" request whose model call fails throws as written, but gets the QLED text once corrected |
| GenerateContent.RunRetries | generate_content.py:75-116 | the loop's cards and attempt count are those of the attempt-by-attempt specification. What is printed is the first min(10, n) cards |
| GenerateContent.LastAttempt | generate_content.py:104-111 | the third attempt alone decides once reached: its list, or `[]` on any failure |
| GenerateContent.RetryClosedForm | generate_content.py:75-112 | the loop's outcome is the first full parse among the first two attempts, or else the third attempt's list or `[]` |
| GenerateContent.AttemptsBounded | generate_content.py:75-77 | between one and three model calls are made |
| GenerateContent.StopsAtFirstFull | generate_content.py:94-98 | the loop stops at the first attempt that parses ten or more cards and keeps that list |
| GenerateContent.LastFailureEmpties | generate_content.py:101-112 | a failure on the last attempt leaves no cards, even after earlier short parses |
| GenerateContent.ShortLastKept | generate_content.py:94-100 | a short list from the last attempt is kept as it is |

## Left out

- Gemini calls, `request.json()`, `process.env`, `fs.existsSync`/`readFileSync`, `JSON.parse` and `json.loads` are foreign calls. Each is a parameter or an outcome datatype (`RequestBody`, `ModelOutcome`, `CatalogFile`, `ApiOutcome`, a parse function).
- Prompt wording is left out. Only the 15000-character catalog slice is modelled.
- Logging is left out, and so is the Python `print(cleaned_text)` of a raw output that failed to parse.
- The `GoogleGenerativeAI` constructor and `getGenerativeModel` are assumed not to throw.
- The Python script's setup is left out: API configuration, reading `tv_feed.json`, and building the prompt.
- GenerateProducts.Item: a parsed element is held as its JSON text, plus whether it is `null` and whether its `topFeatures` has `slice`. That is all the handler inspects. A parsed value that is not an array is not modelled.
- RouteInput.Field: a non-string JSON value is reduced to its truthiness and its template rendering.
- FeatureDescription.FallbackDescription: an inherited `Object.prototype` key (such as `constructor`) is treated as missing. In JavaScript, `fallbacks[feature]` would return a function for it.
- Text.AsciiLower: Unicode case mapping beyond ASCII is not modelled. This is equivalent for every keyword tested, as argued above.
- src/components/ChatResponse.tsx is left out, except its two tray predicates (`ChatResponse.IsCompared`, `ChatResponse.MaxComparisonsReached`). Its scroll arithmetic, random background and rendering are left out.
- src/components/DetailSheet.tsx is left out except its close button (`HomePage.Home.CloseSheet`): the rest renders the sheet with hard-coded table values.
- src/app/page_backup.tsx is not part of this model: it is a superseded copy driven by random prices and timers.
- React is not modelled: its asynchronous state batching, stale closures, animations and styling. Each handler's state updates are applied in program order, reading the state as it was when the handler began.
- The learn-more payload `{ id, name, image, learn_more, specs }` carries every field of a card, so `HomePage.Home.ShowProduct` takes the card itself.
- GenerateProducts.CatalogExcerpt: the catalog is held as the UTF-16 code units `JSON.stringify` produces, as JavaScript strings are, so the 15000 limit counts code units and may split a surrogate pair; the serialisation itself is not modelled.
- The `isLoading` prop is never supplied by the page. `ChatBar.SendClick` and `ChatBar.KeyDown` take it as a parameter, which the page would pass as `false`.

## Findings

| source | as written | input that shows it | evidently intended | confidence | as-written member | corrected member |
|---|---|---|---|---|---|---|
| src/app/api/feature-description/route.ts:8 | `feature` is declared with `const` inside `try`, but the `catch` reads it at lines 61-62. There it names no binding, so the `catch` throws a ReferenceError instead of replying. Every failure after validation, and every unreadable body, escapes as an unhandled error. | body `{"feature": "QLED"}`, key set, the model call fails | the catch block replies with the table's QLED text and `success: false` | not executed | FeatureDescription.DescribeAsWritten (shown by FeatureDescription.ScopeFindingExample and FeatureDescription.ScopeFinding) | FeatureDescription.Describe (proved by FeatureDescription.DescribeSpec) |
