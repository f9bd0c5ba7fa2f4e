# EchoWrite transcript pipeline, modelled in Dafny

EchoWrite AI takes a YouTube link, fetches the video's captions and runs AI
text actions (summary, keywords, study notes, translation) on the transcript.
This project models the part of it that has real decision logic:

- **Video-id extraction.** There are two extractors. `parseYouTubeId` (shared
  helpers) and `getYouTubeId` (transcribe page) differ only in how they accept
  a bare id, and they share one decision over the parsed URL (`YouTubeUrl`).
- **Transcript acquisition.** The `/api/transcribe` handler tries five English
  caption hints in order, then one unconstrained call. It joins the fragments
  with spaces, trims the result and gates language detection on length
  (`TranscribeRoute`, `Transcript`). The older single-shot handler is
  `FetchYoutubeTranscript`.
- **Prompt building** in `/api/gemini`: the `PROMPTS` table, the action
  dispatch and the error answers (`GeminiRoute`).
- **CSV export**: every line is quoted and embedded quotes are doubled
  (section 2, rules 5-7, of RFC 4180). It is proved to read back losslessly
  (`TranscribeUtils`).
- **Page logic**: which transcript is shown, and how the endpoint's JSON
  answer becomes page state (`TranscribePage`).

External collaborators are function-typed parameters:

| collaborator | parameter |
|---|---|
| WHATWG URL parser | `UrlParser = string -> Option<ParsedUrl>`, giving hostname, pathname and `searchParams.get("v")` |
| caption provider | `Provider = (id, Option<hint>) -> Result<seq<Fragment>, ProviderError>` |
| `franc` detector | `Detector` |
| `langs` lookup | `NameLookup` |
| Gemini model | `Model` |
| transcribe endpoint, as the page sees it | `Server` |

The route handler is an imperative method. `TranscribeRoute.FetchWithFallback`
holds the fallback loop, with its `break`. It keeps a ghost log of the hint of
every provider call. It is proved equal to the specification functions
`Acquired` and `Attempts`, and the ordering and short-circuit lemmas are
proved about those functions.

JavaScript's `String.prototype.trim`, `split`, `join` and `filter(Boolean)` are
written out in `JsString`. Its whitespace set is ECMAScript's WhiteSpace and
LineTerminator characters.

JavaScript's `.length` counts UTF-16 code units, so `JsString.Utf16Length`
counts a character outside the Basic Multilingual Plane as two. The length
tests of `parseYouTubeId` and of the language gate use it.

Three behaviours of the code are easy to overlook:

- **Blank captions.** A non-empty list of blank fragments answers
  `{transcript: null, reason: "Success"}`, so "Success" does not imply a
  transcript (`TranscribeRoute.BlankCaptionsStillSucceed`).
- **Empty lists.** The fallback loop stops at the first call that does not
  throw, even when that call returns an empty list
  (`TranscribeRoute.AttemptsShortCircuit`).
- **Bare ids.** The two extractors accept different bare ids
  (`TranscribePage.ExtractorsDisagreeOnLooseTokens`).

## Model

| member | source | states |
|---|---|---|
| `TranscribeUtils.ParseYouTubeId` | src/lib/transcribe-utils.ts:4-38 | A trimmed token with no `/`, `?` or space is returned unchanged iff it is at least 10 UTF-16 code units long. There is no upper bound and no character check. Other input goes to the URL parser, and a parse failure gives null. A returned id is never empty. |
| `TranscribeUtils.AstralTokenIsAnId` | src/lib/transcribe-utils.ts:8-10 | A bare token of five characters outside the Basic Multilingual Plane is ten code units long, so it is an id. |
| `TranscribeUtils.ParseUrlBranch` | src/lib/transcribe-utils.ts:12-37 | Input that is not a bare token is decided by the shared URL decision on the parsed URL. |
| `YouTubeUrl.IdFromUrl` | src/lib/transcribe-utils.ts:12-34 | An id comes only from a `youtu.be` host or a host ending in `youtube.com`, after one leading `www.` is stripped. Any other host gives null. The id is never empty. |
| `YouTubeUrl.StripWww` | src/lib/transcribe-utils.ts:13 | One leading `www.` is dropped and nothing else changes; a host without it is kept as is. |
| `YouTubeUrl.ShortLinkHost` | src/app/transcribe/page.tsx:26-28 | For a `youtu.be` host, the path alone decides the id. |
| `YouTubeUrl.ShortLinkIdShape` | src/lib/transcribe-utils.ts:15-18 | A `youtu.be` id is the first path segment after the leading slashes. It is non-empty, has no slash, and ends at the end of the path or at a `/`. |
| `YouTubeUrl.ShortLinkIdOf` | src/lib/transcribe-utils.ts:15-18 | Conversely, any path made of slashes, a segment, and then nothing or `/...` gives that segment. |
| `YouTubeUrl.WatchParameterWins` | src/lib/transcribe-utils.ts:20-22 | On a youtube.com host, a non-empty `v` parameter is the id, whatever the path. |
| `YouTubeUrl.WatchHostPath` | src/app/transcribe/page.tsx:29-35 | On a youtube.com host without a usable `v`, the path alone decides the id. |
| `YouTubeUrl.PathKindGivesSecondSegment` | src/lib/transcribe-utils.ts:24-31 | A path `/shorts/<id>`, `/embed/<id>` or `/live/<id>`, optionally followed by more segments, gives `<id>`. |
| `YouTubeUrl.PathIdIsSegment` | src/app/transcribe/page.tsx:32-35 | An id taken from the path is one whole non-empty segment of the path. |
| `YouTubeUrl.SuffixTestAcceptsLookalikeHost` | src/lib/transcribe-utils.ts:20 | The host test is a plain suffix test, so `notyoutube.com` counts as youtube.com. |
| `TranscribeUtils.Escape` | src/lib/transcribe-utils.ts:67 | Escaping never shortens a line and adds only quotes. A line with no quote is left unchanged. |
| `TranscribeUtils.QuoteLine` | src/lib/transcribe-utils.ts:67 | A CSV field starts and ends with `"` and has no newline when the line had none. |
| `TranscribeUtils.UnescapeEscape` | src/lib/transcribe-utils.ts:67 | Undoubling the quotes of an escaped line recovers the line. |
| `TranscribeUtils.UnquoteQuoteLine` | src/lib/transcribe-utils.ts:67 | Stripping a field's outer quotes and undoubling the inner ones recovers the line. |
| `TranscribeUtils.ToCsv` | src/lib/transcribe-utils.ts:64-69 | The CSV splits at `\n` into exactly the input's lines, each quoted: same count, and line i of the CSV is line i of the input, quoted. |
| `TranscribeUtils.CsvRoundTrip` | src/lib/transcribe-utils.ts:64-69 | Reading the CSV back gives the original text. |
| `TranscribePage.GetYouTubeId` | src/app/transcribe/page.tsx:17-41 | Empty input gives null. A trimmed input matching `[A-Za-z0-9_-]{10,15}` is returned without a URL parse. Other input goes to the URL parser, and a parse failure gives null. A returned id is never empty. |
| `TranscribePage.GetUrlBranch` | src/app/transcribe/page.tsx:22-40 | Input that is not an id token is decided by the shared URL decision. |
| `TranscribePage.ExtractorsAgreeOnIdTokens` | src/app/transcribe/page.tsx:19-20 | On a trimmed 10-15 character token from `[A-Za-z0-9_-]`, both extractors return the token. |
| `TranscribePage.ExtractorsAgreeOnUrls` | src/app/transcribe/page.tsx:22-40 | On any input whose trimmed form contains `/`, `?` or a space, the two extractors agree for every URL parser. |
| `TranscribePage.ExtractorsDisagreeOnLooseTokens` | src/app/transcribe/page.tsx:20 | A bare token of at least 10 characters outside the id pattern is an id to `parseYouTubeId`. `getYouTubeId` gives null for it when the URL parse fails. |
| `TranscribePage.ActiveTranscript` | src/app/transcribe/page.tsx:188-190 | The translation is shown when translation is on and the translation is non-empty; otherwise the transcript is shown. The result is empty only if the transcript is empty. |
| `TranscribePage.CsvDownload` | src/app/transcribe/page.tsx:202-209 | The saved CSV is the active transcript's lines, each quoted, and it reads back as the active transcript. |
| `TranscribePage.HandleTranscribe` | src/app/transcribe/page.tsx:85-125 | A null id clears videoId, transcript and reason, and nothing else changes. Otherwise busy ends false. For a decoded answer with a truthy transcript, the state takes that transcript, `data.language` or "Unknown", and `data.reason` or "Success". Any other decoded answer gives an empty transcript, "Unknown", and `data.reason` or the not-available notice. A failed request or a null body gives the server-error reason. |
| `TranscribePage.NoRequestWithoutId` | src/app/transcribe/page.tsx:86-94 | With a null id the endpoint plays no part in the new state. |
| `TranscribePage.PageShowsRouteAnswer` | src/app/transcribe/page.tsx:100-116 | With the fallback route behind it, the page shows the route's transcript ("" for null) and its reason. A named language appears only next to a transcript. |
| `Transcript.Normalize` | src/app/api/transcribe/route.ts:60 | A transcript is never empty and has no whitespace at either end. |
| `Transcript.NormalizeNoneIff` | src/app/api/transcribe/route.ts:60 | The transcript is null exactly when every fragment is whitespace only. |
| `Transcript.NormalizeJoinsInOrder` | src/app/api/transcribe/route.ts:60 | For fragments without padding, the transcript is their texts in order, joined by single spaces. |
| `Transcript.HelloWorld` | src/app/api/transcribe/route.ts:60 | The fragments `Hello` and `world` give `Hello world`. |
| `Transcript.DetectLanguage` | src/app/api/transcribe/route.ts:63-69 | The result is "Unknown" when the transcript is null or at most 20 UTF-16 code units long, when the detector (minLength 10) gives "und" or "", or when the lookup fails. Otherwise it is the looked-up name. |
| `Transcript.AstralCharCountsTwice` | src/app/api/transcribe/route.ts:64 | Nineteen BMP characters and one astral character make 21 code units, enough to reach the detector. |
| `TranscribeRoute.Reply` | src/app/api/transcribe/route.ts:7-84 | A missing or empty id gives 400 "Missing videoId". A malformed body gives "Server error". Every other answer is 200. The reason is "Success" exactly when a non-empty caption list was obtained, and is otherwise the no-captions answer. For a non-empty list the transcript is the list joined and trimmed (null if blank), and the language is the gated detection of that transcript. A transcript or a named language only comes with "Success". |
| `TranscribeRoute.Post` | src/app/api/transcribe/route.ts:7-84 | The handler's answer equals `Reply`. Its ghost log of provider calls equals `Calls`, so there are no calls without an id. |
| `TranscribeRoute.FetchWithFallback` | src/app/api/transcribe/route.ts:24-45 | The loop over the hints, then the guarded unconstrained call. The adopted list equals `Acquired` and the calls made equal `Attempts`. |
| `TranscribeRoute.AttemptsInOrder` | src/app/api/transcribe/route.ts:24-34 | Call k uses hint k, and at most one unconstrained call comes after the hints, so the number of calls is at most the number of hints plus one. |
| `TranscribeRoute.AttemptsShortCircuit` | src/app/api/transcribe/route.ts:25-33 | Every call but the last threw. If the last call was hinted, it returned, even if it returned an empty list. |
| `TranscribeRoute.UnconstrainedIffAllHintsThrow` | src/app/api/transcribe/route.ts:37-45 | The unconstrained call happens iff every hinted call threw, which is iff there is one more call than there are hints. |
| `TranscribeRoute.AcquiredFromLastAttempt` | src/app/api/transcribe/route.ts:27-45 | The adopted list is what the last call returned, or [] if it threw. |
| `TranscribeRoute.AtMostSixCalls` | src/app/api/transcribe/route.ts:11-45 | A request makes at most 6 provider calls (five hints, `en, en-US, en-GB, en-CA, en-AU`, then one unconstrained call) and none without an id. |
| `TranscribeRoute.StopsAtFirstReturn` | src/app/api/transcribe/route.ts:25-30 | If hints before k throw and hint k returns, exactly hints 0..k are tried and hint k's list is adopted. |
| `TranscribeRoute.AllHintsThrow` | src/app/api/transcribe/route.ts:37-45 | If every hint throws, all hints are tried, then the unconstrained call, which decides the list. |
| `TranscribeRoute.ThirdHintSucceeds` | src/app/api/transcribe/route.ts:24-34 | A provider that first answers for `en-GB` is called for `en`, `en-US` and `en-GB` only. |
| `TranscribeRoute.TotalOutage` | src/app/api/transcribe/route.ts:37-57 | A provider that always throws gets 6 calls, and the answer is 200 with no captions found. |
| `TranscribeRoute.BlankCaptionsStillSucceed` | src/app/api/transcribe/route.ts:60-72 | A non-empty list of blank fragments from the first hint gives a null transcript with reason "Success". |
| `TranscribeRoute.FirstHintTrack` | src/app/api/transcribe/route.ts:27-72 | A track found under `en` takes one call and answers "Success". For fragments that are non-empty and carry no padding of their own, the transcript is their texts in order, joined by single spaces. |
| `FetchYoutubeTranscript.Post` | src/lib/fetchYoutubeTranscript.ts:6-39 | A missing id is 400 with `{error: "Missing videoId"}`, and every other answer is 200. A malformed body, a throwing provider or an empty list gives `{null, "Unknown"}`, with no reason field. A non-empty list gives its joined and trimmed text and the gated detection of it, which names a language only for a transcript of more than 20 code units. |
| `FetchYoutubeTranscript.OnlyTheUnhintedCall` | src/lib/fetchYoutubeTranscript.ts:13 | The answer depends on the provider only through one call with no hint, and not at all without an id. |
| `FetchYoutubeTranscript.AgreesWithRouteWhenHintsThrow` | src/lib/fetchYoutubeTranscript.ts:13-31 | When every hinted call of the route throws, both handlers give the same transcript and language. |
| `GeminiRoute.Render` | src/app/api/gemini/route.ts:8-15 | Every template output ends with the text and is longer than it. |
| `GeminiRoute.BuildPrompt` | src/app/api/gemini/route.ts:32-39 | Every prompt ends with the text. The prompt is the text unchanged exactly for `free` and for actions not in the table. |
| `GeminiRoute.TranslatePrompt` | src/app/api/gemini/route.ts:14-15 | The translate prompt is the fixed sentence around the target language, which defaults to English, followed by the text. |
| `GeminiRoute.InstructionPrompts` | src/app/api/gemini/route.ts:8-13 | summary, keywords and notes give their fixed instruction, then `":\n\n"`, then the text. |
| `GeminiRoute.Post` | src/app/api/gemini/route.ts:18-53 | Missing or empty text is 400 "No input text provided". Content is returned, with 200, exactly when the model answers the built prompt. Every other answer, a malformed body or a failed model call, is 500 "Gemini request failed". |
| `GeminiRoute.ModelSeesOnlyThePrompt` | src/app/api/gemini/route.ts:42-43 | The answer depends on the model only through the built prompt. |
| `GeminiRoute.AbsentActionIsFree` | src/app/api/gemini/route.ts:20 | With no action, the prompt is the text itself. |

## Left out

- URL parsing is the `UrlParser` parameter, not modelled. WHATWG parsing, percent-decoding, host lowercasing, IDNA and query decoding belong to it. So does the rule that `new URL("")` fails.
- The caption provider, `franc` and `langs` are parameters, so their internals (scraping, n-gram statistics, code tables) are not modelled.
- The Gemini model call is the `Model` parameter. A throwing `getGenerativeModel` is included in its `Failure`. The API key comes from the environment and is not modelled.
- A null caption list is not told apart from an empty one. Both handlers test `!list || list.length === 0`, so the two always behave the same.
- JSON values of the wrong type are not modelled: a numeric `videoId`, a non-string `text`, or a JSON `null` for `action` or `targetLang` (which JavaScript would render as the string "null"). Request fields are optional strings, and a body that does not parse is `Malformed`.
- "Server error" in the fallback route comes only from a malformed body. The other exceptions the catch block can meet are not modelled: a null entry in the caption list, or a throwing `franc` or `langs.where`. A fragment without `text` needs no special case: `join` renders it as "", which is `Fragment("")`.
- In the page: the noembed title fetch, `alert`, the thumbnail URL, the short-lived `busy = true` state and the other action handlers are not modelled. They are UI or network side effects.
- `copyToClipboard`, `downloadTextFile` and `downloadText` are not modelled. They are DOM operations.
- Prototype keys on `PROMPTS` (such as `"toString"`) are not modelled. The table is a finite map of its four entries.
- Awaits are not modelled as such. Every call is sequential, so the calls are plain function applications.
- `console` logging is not modelled.
