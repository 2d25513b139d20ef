# Content summarizer: the summarize route, in Dafny

This project models the `POST /api/summarize` handler of a small Express
backend. The handler takes `{ text, style }` and either summarises the text
directly or, when the text is a bare `http(s)` URL, fetches the page, extracts
its paragraph text (article paragraphs first, all paragraphs as a fallback),
caps it at 8000 characters, picks a style instruction, asks a chat completion
backend for a summary and answers with exactly one response: `200 {summary}`,
`400 {error, suggestManual?}` or `500 {error}`.

Modules, leaf first:

- `JsText` (`js_text.dfy`): the ECMAScript whitespace class shared by
  `String.prototype.trim` and `\s`/`\S`, and `trim` itself.
- `Classifier` (`classifier.dfy`): the test `/^https?:\/\/\S+$/i` on the
  trimmed text.
- `Extractor` (`extractor.dfy`): a fetched page as its `<p>` elements in
  document order, each flagged as inside an `article` or not; the
  `article p` → `p` extraction with its exact-`""` fallback test, the
  blank-content failure test and the `slice(0, 8000)` bound.
- `Styles` (`styles.dfy`): the `switch (style)` as a closed enumeration and
  its five instruction strings.
- `Route` (`route.dfy`): the handler as a method `Handle` that follows the
  source statement by statement (the reassigned `content`, the early
  `return`s). The page fetch and the completion call are function parameters.
  `Handle` also returns the external calls it made, in order, so the
  contracts can say what reached the network: the fetch gets the untrimmed
  text, the backend gets `[system: instruction, user: content]`, and no 400
  ever reaches the backend.
- `Optional` (`option.dfy`): `Option`, for a request field that may be absent.

The model follows the code where its evident intent reads otherwise. The
comment at `routes/summary.js:33` says "Try <article> first, fallback to
<p>", which suggests falling back whenever the article yields no readable
text. The code falls back only when the joined article text is exactly
`""` (`Extractor.FallbackTrigger`). Blank article paragraphs whose join is
not `""` suppress the fallback. That happens for two or more blank article
paragraphs, and also for a single article paragraph whose text is
whitespace but not empty, such as a lone `&nbsp;`. The handler then answers
with the manual-paste 400 even when paragraphs outside the article hold
text (`Extractor.BlankArticleBlocksFallback`, `Extractor.NbspArticleFails`).
Nor does the code check that `text` is a non-empty string: a non-string
`text` throws at `text.trim()` and ends in the catch-all 500, and an empty
string is sent to the backend as raw text.

## Model

| member | source | states |
|---|---|---|
| `JsText.IsWs` | routes/summary.js:17 | the whitespace class of `trim` and `\s`; among ASCII characters it holds exactly TAB, LF, VT, FF, CR and SPACE |
| `JsText.Trim` | routes/summary.js:17 | `trim` returns the slice of its input left after dropping whitespace before and after it, and that slice neither starts nor ends with whitespace |
| `JsText.TrimWindow` | routes/summary.js:17 | whitespace padding around a string with non-whitespace ends is exactly what `trim` removes, so the trim is the unique such core |
| `JsText.TrimBlankIff` | routes/summary.js:45 | `x.trim()` is `""` (falsy) exactly when every character of `x` is whitespace |
| `JsText.TrimIdempotent` | routes/summary.js:87 | trimming an already trimmed string changes nothing |
| `Classifier.FoldAll` | routes/summary.js:17 | the case folding of the `i` flag lower-cases exactly the ASCII letters, position by position |
| `Classifier.IsUrl` | routes/summary.js:17 | the test `/^https?:\/\/\S+$/i`; an accepted string is at least eight characters long and neither starts nor ends with whitespace |
| `Classifier.IsUrlCaseInsensitive` | routes/summary.js:17 | lower-casing the ASCII letters of a string never changes whether it is a URL |
| `Classifier.IsUrlIff` | routes/summary.js:17 | the token-by-token matcher accepts exactly the strings that are `http://` or `https://` in any letter case followed by one or more non-whitespace characters |
| `Classifier.UrlHasNoWs` | routes/summary.js:17 | a string accepted as a URL contains no whitespace, so a URL embedded among words, or text with inner spaces, stays raw text |
| `Classifier.PaddedUrl` | routes/summary.js:17 | a URL with whitespace on either side trims to the URL itself |
| `Classifier.ClassifyIff` | routes/summary.js:17 | the request text is classified as a URL exactly when it is a URL with only whitespace before and after it |
| `Extractor.JoinSpace` | routes/summary.js:37 | `join(" ")` gives the falsy `""` exactly for no strings or the single string `""` |
| `Extractor.ArticleTexts` | routes/summary.js:34-36 | the `article p` selection yields at most one text per paragraph, each the text of an article paragraph, and nothing exactly when the page has no article paragraph |
| `Extractor.ArticleTextsHas` | routes/summary.js:34-36 | the text of every article paragraph is among the selected texts |
| `Extractor.PageTexts` | routes/summary.js:39-41 | the `p` selection yields the text of every paragraph, in document order |
| `Extractor.ExtractedText` | routes/summary.js:34-43 | the extracted text is the article join or the page join, and always the page join when the page has no article paragraph |
| `Extractor.ExtractionFails` | routes/summary.js:45 | `!articleText.trim()` holds exactly when the extracted text is all whitespace |
| `Extractor.JoinBlankIff` | routes/summary.js:34-45 | the space-join is blank exactly when every joined text is blank |
| `Extractor.ArticleTextsAppend` | routes/summary.js:34-37 | the `article p` selection keeps document order: selecting from two concatenated parts is concatenating the two selections |
| `Extractor.FallbackTrigger` | routes/summary.js:34-43 | the page join replaces the article join exactly when there are no article paragraphs or exactly one with empty text; otherwise the article join is the extracted text |
| `Extractor.OutsideParagraphIgnored` | routes/summary.js:34-38 | once the article join is non-empty it is the extracted text, and inserting a paragraph outside `article` anywhere does not change it |
| `Extractor.OutsideOnly` | routes/summary.js:38-43 | a page whose paragraphs all lie outside `article` yields the space-join of all its paragraph texts in document order |
| `Extractor.ExtractionFailsIff` | routes/summary.js:34-51 | extraction fails exactly when all article paragraphs are blank and either their join is non-empty or every paragraph of the page is blank |
| `Extractor.BlankArticleBlocksFallback` | routes/summary.js:38-45 | blank article paragraphs whose join is not `""` make extraction fail whatever the rest of the page holds; such a join comes from two or more paragraphs or from one whose text is whitespace but not empty |
| `Extractor.NbspArticleFails` | routes/summary.js:34-51 | an article holding only `&nbsp;` beside a paragraph of text outside it makes extraction fail, although the page join has text |
| `Extractor.BlankPageFails` | routes/summary.js:45-51 | a page with no paragraphs, or only blank ones, makes extraction fail |
| `Extractor.ReadableArticle` | routes/summary.js:34-45 | one non-blank article paragraph makes the article join the extracted text, and extraction succeeds |
| `Extractor.Bound` | routes/summary.js:53 | the bounded content is a prefix of the extracted text of at most 8000 characters, the whole text when it is at most 8000 long and exactly 8000 characters otherwise |
| `Styles.ResolveStyle` | routes/summary.js:58-75 | a named style is chosen only when `style` equals its label exactly (case-sensitive); the default arm is taken exactly when `style` equals none of the four labels, including when absent |
| `Styles.ResolveToken` | routes/summary.js:58-71 | each label selects its own style (resolving inverts the label mapping) |
| `Styles.Instruction` | routes/summary.js:59-74 | each arm assigns a fixed instruction, and every one opens with "Summarize the text " |
| `Styles.StylePrompt` | routes/summary.js:57-75 | `stylePrompt` is the default instruction exactly when the default arm was taken |
| `Styles.InstructionInjective` | routes/summary.js:59-74 | two styles get the same instruction exactly when they are the same style: the five strings are pairwise distinct |
| `Styles.StylePromptTotal` | routes/summary.js:57-75 | every style value maps to one of the five instructions, and to the default one exactly when it is not one of the four labels |
| `Route.Respond` | routes/summary.js:86-94 | a completion yields 200 exactly when the call settled and the first choice's content is missing or a string; the summary is then the trimmed content if that is non-empty and `"No summary generated."` otherwise, never empty and already trimmed; every other case is the catch-all 500 |
| `Route.Handle` | routes/summary.js:11-96 | a non-string text gives 500 with no call made; raw text reaches the backend unchanged after the style instruction; a URL is fetched untrimmed, a failed fetch gives the fetch 400 without `suggestManual`, an unreadable page gives the manual-paste 400 with `suggestManual`, and neither reaches the backend; otherwise the backend gets the instruction and the bounded extracted text; a 200's summary is never empty; the status is 400 exactly when a URL's fetch fails or its page is unreadable |

## Left out

- `app.js`: Express bootstrap, CORS, the JSON body parser and its 2mb limit, the port, and the 20-second 504 timeout middleware. This is plumbing, and the timeout is a wall-clock race.
- The HTTP fetch (`axios.get` with its `User-Agent` header) is a parameter of `Handle`. It either fails or yields a page, and any kind of failure is one case.
- HTML parsing and CSS selector evaluation (`cheerio.load`, `$("article p")`, `$("p")`) are not modelled. A page is given already reduced to its paragraph texts in document order, each flagged as inside an `article` or not. A response body that is not HTML text, which cheerio might reject, is not modelled.
- The OpenAI client, model name and API key are left out. The completion call is a parameter of `Handle` that gives a rejection or the first choice's content (missing, a string, or another value).
- `console.error` logging, `dotenv` and the async scheduling are side effects with no decision logic.
- Strings are sequences of Unicode scalar values. JavaScript counts UTF-16 code units, so `slice(0, 8000)` and `Extractor.Bound` differ on text outside the Basic Multilingual Plane.
- A non-string `style` is read as absent. Strict equality never matches such a value against a label, so this changes nothing.
- A 400 body that leaves `suggestManual` out is written with `suggestManual` false.
