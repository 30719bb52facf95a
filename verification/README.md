# ai-kit core, modelled in Dafny

This project models the deterministic core of the ai-kit provider toolkit:

- **Fixture adapter (`testing.py`).** Offline testing: the text chunker, stream synthesis, the fixture key, and the `FixtureAdapter` lookups.
- **Replicate client.** Constructor clamping, the retry decision and delay, the `run` retry loop, output coercion, list and dict normalisation, and the grid-split geometry.
- **Gemini image client.** API-key precedence, client memoisation, the retryable-error test, image extraction from a response, and the `generate_images` retry loop that resets its client.
- **Local Whisper transcriber.** Audio-source precedence, base64/`data:` payload splitting, the media-type-to-suffix table, temp-file cleanup, and segment filtering.
- **Go SDK helpers.** `imageInputToDataURL`, `parseDataURL` and `isHTTPURL`.
- **Kit cache (`kit_cache.py`).** Memoisation and order-preserving de-duplication of model ids.
- **HTTP helpers (both Python packages).** The rule that turns a status of 400 or more into a classified error, and the multipart `files` argument.

**How the outside world enters the model.** Everything the code gets from outside is a parameter of the model:
- the vendor SDK calls;
- downloads and file reads;
- base64 decoding and SHA-256;
- JSON encoding;
- `classify_status`;
- environment variables;
- the random jitter draw, as a number `u` in [0, 1];
- Whisper itself.

Each operation is a pure function or a method over immutable values. State that the source mutates in place is threaded through explicitly:
- the kit cache;
- the adapter's call log;
- the Gemini client's cached SDK handle.

**Files and modules:**
- `base.dfy`: `Option`, `Result`, bytes, min/max.
- `text.dfy`: Python/Go string operations (prefix, containment, ASCII lower-casing and trimming, decimal rendering, first index).
- `errors.dfy`: `KitError` and `ErrorKind`.
- `backoff.dfy`: the exponential backoff shared by both clients.
- `retry_hint.dfy`: Replicate's "resets in ~Ns" hint, both as written and as intended.
- `fixture.dfy`, `replicate.dfy`, `gemini.dfy`, `transcriber.dfy`, `data_url.dfy`, `kit_cache.dfy` (modules `KitCache` and `ProviderModels`), `http.dfy`: one file per core file.

## Model

| member | source | states |
|---|---|---|
| Fixture.ChunkText | packages/python/src/ai_kit/testing.py:150-155 | the pieces concatenate back to the text, none is empty, there are none exactly for empty text, and a non-positive size gives at most one piece |
| Fixture.ChunkTextSizes | packages/python/src/ai_kit/testing.py:155 | with a positive size every piece but the last has exactly `size` characters and none has more |
| Fixture.ChunkTextCount | packages/python/src/ai_kit/testing.py:155 | the number of pieces is the ceiling of `len(text) / size` |
| Fixture.ChunkTextBracket | packages/python/src/ai_kit/testing.py:155 | for non-empty text, `(n-1)*size < len(text) <= n*size` for `n` pieces |
| Fixture.ChunkTextWindows | packages/python/src/ai_kit/testing.py:155 | piece `k` is the slice `text[k*size : k*size+size]` of the comprehension |
| Fixture.WindowShift | packages/python/src/ai_kit/testing.py:155 | dropping the first `size` characters shifts every later window down by one |
| Fixture.BuildStreamChunks | packages/python/src/ai_kit/testing.py:132-147 | deltas, then tool calls, then exactly one `message_end` carrying usage and finish reason, which is last |
| Fixture.StreamedAppend | packages/python/src/ai_kit/testing.py:132-147 | a consumer's text and tool calls distribute over concatenated streams |
| Fixture.StreamedDeltas | packages/python/src/ai_kit/testing.py:135-136 | a consumer of the delta chunks reads back the concatenated pieces and no tool calls |
| Fixture.StreamedToolCalls | packages/python/src/ai_kit/testing.py:137-139 | a consumer of the tool-call chunks reads back the calls and no text |
| Fixture.StreamRoundTrip | packages/python/src/ai_kit/testing.py:132-155 | consuming a synthesised stream gives back the output's text and tool calls, whatever the chunk size |
| Fixture.FixtureKey | packages/python/src/ai_kit/testing.py:120-129 | the key is `type:provider:model:` followed by the first twelve characters of the digest |
| Fixture.FixtureKeySeparatesKinds | packages/python/src/ai_kit/testing.py:129 | keys of two different colon-free kinds never collide |
| Fixture.KindBeforeFirstColon | packages/python/src/ai_kit/testing.py:129 | the kind is recoverable as the text before the key's first colon |
| Fixture.NewAdapter | packages/python/src/ai_kit/testing.py:48-61 | an adapter starts with empty call logs, `models or []`, `key_fn or fixture_key`, and a chunk size of 24 unless one is given |
| Fixture.RequireFixture | packages/python/src/ai_kit/testing.py:96-107 | succeeds exactly when the key is present, with its entry; otherwise a VALIDATION error naming the key and provider |
| Fixture.MissingFixtureError | packages/python/src/ai_kit/testing.py:109-117 | a VALIDATION error for the provider whose message names the kind and the key |
| Fixture.Serve | packages/python/src/ai_kit/testing.py:66-94 | the call is logged first; the result is the slot's value exactly when the entry exists and the slot is set; otherwise the not-found or missing-slot error |
| Fixture.Generate | packages/python/src/ai_kit/testing.py:66-71 | `generate` logs the call and serves the `generate` slot of the `generate` key, or the matching error |
| Fixture.GenerateImage | packages/python/src/ai_kit/testing.py:82-87 | `generate_image` logs the call and serves the `image` slot of the `image` key, or the matching error |
| Fixture.GenerateMesh | packages/python/src/ai_kit/testing.py:89-94 | `generate_mesh` logs the call and serves the `mesh` slot of the `mesh` key, or the matching error |
| Fixture.StreamGenerate | packages/python/src/ai_kit/testing.py:73-80 | an explicit stream wins, else the `generate` output is chunked with the adapter's chunk size, else the missing-stream error |
| Fixture.SynthesisedStreamReplaysGenerate | packages/python/src/ai_kit/testing.py:76-80 | a synthesised stream gives its consumer the canned output's text and tool calls |
| Backoff.Pow2 | packages/python-inference/src/ai_kit/clients/gemini_client.py:104 | `2 ** attempt` is at least 1 |
| Backoff.Pow2Monotone | packages/python-inference/src/ai_kit/clients/gemini_client.py:104 | powers of two grow with the exponent |
| Backoff.RawDelay | packages/python-inference/src/ai_kit/clients/gemini_client.py:104 | `min(max, base * 2**attempt)` never exceeds the maximum and, for `0 <= base <= max`, is never below the base |
| Backoff.RawDelayMonotone | packages/python-inference/src/ai_kit/clients/replicate_client.py:162 | later attempts never wait less before jitter |
| Backoff.Jittered | packages/python-inference/src/ai_kit/clients/replicate_client.py:163-164 | the jitter adds between 0 and `min(1, delay/10)` |
| Backoff.BackoffDelay | packages/python-inference/src/ai_kit/clients/gemini_client.py:103-106 | the delay lies in `[d, d + min(1, d/10)]` for the raw delay `d`, hence in `[base, max + 1]` |
| RetryHint.SearchFrom | packages/python-inference/src/ai_kit/clients/replicate_client.py:159 | `re.search` finds a match whose group is a digit run (intended) or starts with a backslash (as written) |
| RetryHint.ReadNumber | packages/python-inference/src/ai_kit/clients/replicate_client.py:161 | on the groups the two patterns can capture (ASCII digit runs, or a backslash followed by `d`s), `float(group)` succeeds exactly on a non-empty digit run, with its decimal value, and raises otherwise |
| RetryHint.ReadHintAsWritten | packages/python-inference/src/ai_kit/clients/replicate_client.py:159-161 | the pattern as written never yields a number of seconds |
| RetryHint.VendorHint | packages/python-inference/src/ai_kit/clients/replicate_client.py:159-161 | the corrected pattern's hint is the decimal value of a digit run of the message |
| RetryHint.VendorHintReadsSeconds | packages/python-inference/src/ai_kit/clients/replicate_client.py:159-161 | after any preamble holding no "reset" in any case, `"resets in ~" + N + "s"` yields N seconds, whatever follows |
| RetryHint.FirstSomeMeaning | packages/python-inference/src/ai_kit/clients/replicate_client.py:159 | the leftmost-first scan behind `re.search` finds nothing exactly when every position fails, and otherwise the result at the first position that succeeds |
| RetryHint.SearchFromMeaning | packages/python-inference/src/ai_kit/clients/replicate_client.py:159 | `re.search` finds nothing exactly when the pattern matches at no position; otherwise it returns the match at the leftmost position where there is one |
| RetryHint.SearchFindsFirst | packages/python-inference/src/ai_kit/clients/replicate_client.py:159 | a match at position j with none before it is what `re.search` returns |
| RetryHint.VendorHintMeaning | packages/python-inference/src/ai_kit/clients/replicate_client.py:159-161 | the corrected hint is absent exactly when the pattern matches nowhere, and otherwise is the value of the leftmost match's digit group |
| RetryHint.AsWrittenIgnoresPlainMessages | packages/python-inference/src/ai_kit/clients/replicate_client.py:159 | as written, a message without a backslash never matches |
| RetryHint.AsWrittenMissesCanonicalHint | packages/python-inference/src/ai_kit/clients/replicate_client.py:159 | on "resets in ~N s" the intended parser reads N and the written one reads nothing |
| RetryHint.AsWrittenRaisesOnBackslashGroup | packages/python-inference/src/ai_kit/clients/replicate_client.py:159-161 | the only text the written pattern matches makes `float()` raise |
| Replicate.NewReplicateClient | packages/python-inference/src/ai_kit/clients/replicate_client.py:37-48 | retries clamped to at least 0, base delay to at least 0.1, maximum delay to at least the base |
| Replicate.DefaultReplicateClient | packages/python-inference/src/ai_kit/clients/replicate_client.py:40-43 | defaults: file outputs, 3 retries, 2 s base, 30 s maximum |
| Replicate.ClampingIdempotent | packages/python-inference/src/ai_kit/clients/replicate_client.py:46-48 | rebuilding a client from its own settings changes nothing |
| Replicate.StatusOf | packages/python-inference/src/ai_kit/clients/replicate_client.py:151 | `status or status_code`: a missing or zero `status` falls through to `status_code` |
| Replicate.ShouldRetry | packages/python-inference/src/ai_kit/clients/replicate_client.py:148-155 | never at or past the ceiling; below it, exactly for status 429 or a message mentioning 429, throttling or rate limit in any case |
| Replicate.RetryVerdictFixedBelowCeiling | packages/python-inference/src/ai_kit/clients/replicate_client.py:148-155 | below the ceiling the verdict does not depend on the attempt; an error not retried once is never retried later |
| Replicate.StatusCodeFallback | packages/python-inference/src/ai_kit/clients/replicate_client.py:151-153 | a 429 carried only in `status_code` is retried |
| Replicate.RateLimitWordingIsRetried | packages/python-inference/src/ai_kit/clients/replicate_client.py:154-155 | "Rate Limit exceeded" is retried whatever its case |
| Replicate.RetryDelay | packages/python-inference/src/ai_kit/clients/replicate_client.py:157-164 | a hint of N seconds waits `min(max, N+1)`; otherwise jittered backoff; for a constructed client always within `[0.1, max+1]` |
| Replicate.RetryDelayAsWritten | packages/python-inference/src/ai_kit/clients/replicate_client.py:157-164 | as written: raises exactly when the written pattern matches (a backslash group), and otherwise waits the jittered backoff |
| Replicate.PlainMessageWaitsBackoff | packages/python-inference/src/ai_kit/clients/replicate_client.py:159-164 | as written, a message without a backslash always waits the plain backoff |
| Replicate.Run | packages/python-inference/src/ai_kit/clients/replicate_client.py:50-61 | as written: at most `max_retries + 1` calls; a success is returned and a non-retryable failure re-raised; a retryable failure whose hint group `float()` rejects ends the run with that ValueError; every earlier call failed retryably and was followed by its backoff wait |
| Replicate.RunIntended | packages/python-inference/src/ai_kit/clients/replicate_client.py:50-61 | with the corrected hint parser: at most `max_retries + 1` calls; the result is the last call's; every earlier call failed retryably and each wait is the retry delay of its attempt |
| Replicate.RunWithoutRetries | packages/python-inference/src/ai_kit/clients/replicate_client.py:52-58 | with zero retries the SDK is called exactly once; its value is returned or its exception re-raised |
| Replicate.Lookup | packages/python-inference/src/ai_kit/clients/replicate_client.py:144 | a dict key lookup finds a binding exactly when the key is present |
| Replicate.CoerceSingleFile | packages/python-inference/src/ai_kit/clients/replicate_client.py:134-146 | None raises RuntimeError; bytes pass through; readables are read; http strings and `{"url": ...}` are downloaded; everything else raises TypeError naming the type (a list and a tuple told apart) |
| Replicate.DictUrlActsAsUrl | packages/python-inference/src/ai_kit/clients/replicate_client.py:141-145 | a `{"url": u}` output is coerced exactly as the string `u` |
| Replicate.RelativePathIsRefused | packages/python-inference/src/ai_kit/clients/replicate_client.py:141-146 | a non-http string raises TypeError rather than being fetched |
| Replicate.CoerceAll | packages/python-inference/src/ai_kit/clients/replicate_client.py:109 | succeeds exactly when every item coerces, element-wise; otherwise fails with the first failure |
| Replicate.NormalizeMultiview | packages/python-inference/src/ai_kit/clients/replicate_client.py:107-110 | a list output gives one view per item; anything else gives the single coerced file |
| Replicate.DictSet | packages/python-inference/src/ai_kit/clients/replicate_client.py:131 | assignment keeps keys unique, adds the key, and appends only a new key |
| Replicate.CoerceEntries | packages/python-inference/src/ai_kit/clients/replicate_client.py:129-132 | on success the result has distinct keys, exactly the keys of the vendor dict |
| Replicate.CoerceEntriesOk | packages/python-inference/src/ai_kit/clients/replicate_client.py:129-132 | the loop succeeds exactly when every value coerces |
| Replicate.CoerceEntriesValues | packages/python-inference/src/ai_kit/clients/replicate_client.py:129-132 | with distinct keys, entry `i` of the result is key `i` of the vendor dict with its value coerced |
| Replicate.NormalizeDepth | packages/python-inference/src/ai_kit/clients/replicate_client.py:125-132 | a non-dict output becomes `{"grey_depth": ...}`; a dict output keeps its keys |
| Replicate.FloorDiv | packages/python-inference/src/ai_kit/clients/replicate_client.py:182-183 | Python `//`: the quotient is the floor of the exact division for either sign of divisor |
| Replicate.Cell | packages/python-inference/src/ai_kit/clients/replicate_client.py:187-189 | each crop box is `cell_w` wide and `cell_h` high |
| Replicate.GridBoxes | packages/python-inference/src/ai_kit/clients/replicate_client.py:180-193 | ZeroDivisionError exactly when rows or cols is 0; otherwise `rows*cols` boxes (none for negative counts) |
| Replicate.GridBoxAt | packages/python-inference/src/ai_kit/clients/replicate_client.py:185-189 | view `(r, c)` is at row-major index `r*cols+c`, with corner `(c*(cw+p), r*(ch+p))` |
| Replicate.SplitGridImage | packages/python-inference/src/ai_kit/clients/replicate_client.py:167-193 | the nested loop crops exactly the boxes of `GridBoxes`, in row-major order |
| Replicate.SixViewsOfDefaultGrid | packages/python-inference/src/ai_kit/clients/replicate_client.py:170-171 | the default 2 x 3 split of a 300 x 200 image gives six 100 x 100 views, row-major |
| Replicate.DefaultCellSizes | packages/python-inference/src/ai_kit/clients/replicate_client.py:182-183 | cells of a 300 x 200 image split 2 x 3 are 100 x 100 |
| Replicate.CellsInsideImage | packages/python-inference/src/ai_kit/clients/replicate_client.py:182-189 | with non-negative padding every box's right and bottom edges stay within the image, and consecutive columns do not overlap |
| Replicate.FitsAlongAxis | packages/python-inference/src/ai_kit/clients/replicate_client.py:182-189 | along one axis, cell `i` of `n` ends at or before the dimension |
| Replicate.CellsWithinImage | packages/python-inference/src/ai_kit/clients/replicate_client.py:182-189 | when the gaps fit in the image, every box lies wholly inside it: `0 <= left <= right <= w` and `0 <= top <= bottom <= h` |
| Replicate.WithinAlongAxis | packages/python-inference/src/ai_kit/clients/replicate_client.py:182-189 | along one axis, when the gaps fit, the cell size is non-negative and cell `i` starts at or after 0 |
| Replicate.UniqueCons | packages/python-inference/src/ai_kit/clients/replicate_client.py:131 | a key list with one more entry in front is duplicate-free exactly when the rest is and lacks the new key |
| Gemini.EnvApiKey | packages/python-inference/src/ai_kit/clients/gemini_client.py:27-33 | the first non-empty of AI_KIT_GOOGLE_API_KEY, GEMINI_API_KEY, GOOGLE_API_KEY, else "" |
| Gemini.ApiKeyPrecedence | packages/python-inference/src/ai_kit/clients/gemini_client.py:27-33 | a non-empty AI_KIT_GOOGLE_API_KEY wins whatever else is set |
| Gemini.NewGeminiClient | packages/python-inference/src/ai_kit/clients/gemini_client.py:126-128 | an explicit non-empty key wins over the environment; no SDK client is cached yet |
| Gemini.NewHandle | packages/python-inference/src/ai_kit/clients/gemini_client.py:177-180 | the SDK client gets the key only when it is non-empty |
| Gemini.GetClient | packages/python-inference/src/ai_kit/clients/gemini_client.py:175-181 | a cached client is returned as is; otherwise one is built and cached |
| Gemini.GetClientMemoises | packages/python-inference/src/ai_kit/clients/gemini_client.py:175-181 | a second `_get_client` builds nothing and returns the same client |
| Gemini.AnyHint | packages/python-inference/src/ai_kit/clients/gemini_client.py:113-122 | `any(hint in message ...)` is true exactly when some hint occurs |
| Gemini.IsRetryable | packages/python-inference/src/ai_kit/clients/gemini_client.py:109-122 | retryable exactly for an SSL error or a lower-cased message containing one of the five transport hints |
| Gemini.ConnectionResetIsRetryable | packages/python-inference/src/ai_kit/clients/gemini_client.py:112-120 | "Connection Reset by peer" is retryable |
| Gemini.SettingsFromEnv | packages/python-inference/src/ai_kit/clients/gemini_client.py:151-153 | an unset variable takes its default (5 retries, 1.0 s, 10.0 s); a set one is used as given |
| Gemini.PartToBytes | packages/python-inference/src/ai_kit/clients/gemini_client.py:65-83 | non-empty inline data first; else nothing when `as_image()` raises, the saved PNG bytes, or the exception a non-TypeError save raises |
| Gemini.Images | packages/python-inference/src/ai_kit/clients/gemini_client.py:85-89 | fails exactly when some part's rendering raises, with the first such exception; otherwise keeps only non-empty bytes, at most one per part, and is empty exactly when no part yields data |
| Gemini.ImagesSingleton | packages/python-inference/src/ai_kit/clients/gemini_client.py:86-89 | a single part yields its exception, or its bytes when they are non-empty, or nothing |
| Gemini.ImagesAppend | packages/python-inference/src/ai_kit/clients/gemini_client.py:86-89 | extraction distributes over concatenation: order is preserved and a failure in the first half hides the second |
| Gemini.CandidateImagesFlatten | packages/python-inference/src/ai_kit/clients/gemini_client.py:92-99 | candidate-by-candidate extraction equals extraction over the flattened parts |
| Gemini.ExtractImages | packages/python-inference/src/ai_kit/clients/gemini_client.py:48-100 | a top-level failure or top-level images when there are any; otherwise the candidates' outcome; never an empty image |
| Gemini.TopLevelShadowsCandidates | packages/python-inference/src/ai_kit/clients/gemini_client.py:90-91 | one top-level image hides every candidate, even one whose rendering would raise |
| Gemini.SaveFailureEscapes | packages/python-inference/src/ai_kit/clients/gemini_client.py:79-83 | a part whose PNG save raises makes the whole extraction raise |
| Gemini.ImagesOrError | packages/python-inference/src/ai_kit/clients/gemini_client.py:170-173 | a successful call yields the images, the extraction's exception, or RuntimeError when there are none |
| Gemini.ResponseModalities | packages/python-inference/src/ai_kit/clients/gemini_client.py:145-147 | an absent or empty list becomes `["Image"]`; never empty |
| Gemini.GenerateImages | packages/python-inference/src/ai_kit/clients/gemini_client.py:130-173 | an empty prompt fails with ValueError before any client; otherwise at most `max_retries + 1` attempts; every retry follows a retryable failure, waits the backoff delay and uses a fresh client; the last attempt decides, and an extraction exception escapes |
| Gemini.RetriesUseFreshClients | packages/python-inference/src/ai_kit/clients/gemini_client.py:168-169 | no two attempts share an SDK client |
| Transcriber.MatchSuffix | packages/python-local/src/ai_kit/local/transcriber.py:119-128 | the suffix of the first table entry whose marker occurs, or none when no marker occurs |
| Transcriber.SuffixForMedia | packages/python-local/src/ai_kit/local/transcriber.py:115-129 | no type gives ".audio"; otherwise the first of wav, mpeg, mp4, webm, ogg found in the lower-cased type, else ".audio" |
| Transcriber.SuffixExamples | packages/python-local/src/ai_kit/local/transcriber.py:115-129 | "audio/WAV" gives ".wav", "video/mp4" gives ".mp4", "" and None give ".audio" |
| Transcriber.SplitBase64 | packages/python-local/src/ai_kit/local/transcriber.py:96-104 | an explicit type wins; a `data:` payload is what follows the first comma; its type comes from a header holding `;`; the default is application/octet-stream |
| Transcriber.SplitBase64ReadsDataUrl | packages/python-local/src/ai_kit/local/transcriber.py:99-102 | `data:{type};base64,{data}` splits back into the data and the type |
| Transcriber.RemoveLeadingDataPrefix | packages/python-local/src/ai_kit/local/transcriber.py:102 | removing "data:" from "data:" + type gives the type when it holds no other "data:" |
| Transcriber.NewLocalWhisperAdapter | packages/python-local/src/ai_kit/local/transcriber.py:19-26 | the default model is the given one, else "base" |
| Transcriber.MaterializeAudio | packages/python-local/src/ai_kit/local/transcriber.py:76-93 | path, then base64, then URL; only the caller's path is kept; with none, a VALIDATION error for provider "local" |
| Transcriber.AudioSourcePrecedence | packages/python-local/src/ai_kit/local/transcriber.py:76-86 | a path is used whatever base64 and URL hold; base64 is used whatever the URL holds |
| Transcriber.ModelName | packages/python-local/src/ai_kit/local/transcriber.py:34 | `input.model or default_model` |
| Transcriber.OptionsFor | packages/python-local/src/ai_kit/local/transcriber.py:39-45 | language and prompt are passed only when non-empty, temperature whenever set |
| Transcriber.KeepSegments | packages/python-local/src/ai_kit/local/transcriber.py:51-59 | only dict segments are kept, at most one per raw segment, and none exactly when no raw segment is a dict |
| Transcriber.KeepSegmentsAppend | packages/python-local/src/ai_kit/local/transcriber.py:51-59 | filtering distributes over concatenation, so order is preserved |
| Transcriber.KeepSegmentsAllDicts | packages/python-local/src/ai_kit/local/transcriber.py:51-59 | all-dict segments are kept one for one |
| Transcriber.OutputSegments | packages/python-local/src/ai_kit/local/transcriber.py:51-64 | `segments or None`: the kept dict segments of Whisper's result when there are any, `None` exactly when there are none, never an empty list |
| Transcriber.Transcribe | packages/python-local/src/ai_kit/local/transcriber.py:33-66 | an audio failure is passed on before Whisper runs; otherwise the temp file is deleted exactly when it was created, the call succeeds exactly when Whisper does, a Whisper exception becomes `WhisperFailed`, and a success copies text, language, duration and the raw result and carries the kept segments |
| Transcriber.CallerPathIsKept | packages/python-local/src/ai_kit/local/transcriber.py:37-50 | a caller's own file is never deleted |
| DataUrl.MimeOr | packages/go/provider_utils.go:19-22 | the trimmed media type, or image/png when blank |
| DataUrl.ImageInputToDataURL | packages/go/provider_utils.go:12-24 | a non-blank URL wins; blank data gives ""; otherwise `data:{mime};base64,{data}` |
| DataUrl.ParseDataURL | packages/go/provider_utils.go:26-40 | accepted exactly with the `data:` prefix and a comma; data after the first comma; type before the first `;`, defaulting to image/png |
| DataUrl.DataUrlRoundTrip | packages/go/provider_utils.go:12-40 | parsing a built data URL gives back the (defaulted) type and the data |
| DataUrl.ParseBuiltDataUrl | packages/go/provider_utils.go:26-40 | `data:{m};base64,{d}` parses to `(m, d, true)` for a type without `,` or `;` |
| DataUrl.HttpUrlIsNotDataUrl | packages/go/provider_utils.go:26-29 | an http(s) URL is never parsed as a data URL |
| DataUrl.UrlTakesPrecedence | packages/go/provider_utils.go:13-15 | a non-blank URL is returned even when data is also given |
| KitCache.GetCachedKit | packages/python-inference/src/ai_kit/kit_cache.py:10-16 | a hit returns the stored kit and builds nothing; a miss builds once, stores and returns the kit |
| KitCache.LookupChangesOnlyItsKey | packages/python-inference/src/ai_kit/kit_cache.py:15 | after a lookup the key holds the returned kit and every other entry is unchanged |
| KitCache.SecondLookupHits | packages/python-inference/src/ai_kit/kit_cache.py:11-16 | a later lookup of the same key returns the same kit without building |
| ProviderModels.First | packages/python-inference/src/ai_kit/kit_cache.py:23-31 | the index of the first record carrying an id, or the length when none does |
| ProviderModels.DedupIdsMeaning | packages/python-inference/src/ai_kit/kit_cache.py:21-31 | the collected ids have no duplicates, are exactly the non-empty ids met, and are in order of first occurrence |
| ProviderModels.ListProviderModels | packages/python-inference/src/ai_kit/kit_cache.py:19-32 | no duplicates; exactly the non-empty ids that occur; in order of first occurrence; a missing list gives [] |
| Http.FallbackMessage | packages/python-inference/src/ai_kit/http.py:26 | "Upstream HTTP {status} for {url}" names both the status and the URL |
| Http.UpstreamError | packages/python-inference/src/ai_kit/http.py:24-33 | kind from the classifier, the status recorded, message the body stripped of Python's whitespace or the fallback when blank, never empty |
| Http.Checked | packages/python-inference/src/ai_kit/http.py:24-34 | error exactly for status of 400 or more, otherwise the success value |
| Http.RequestJson | packages/python-inference/src/ai_kit/http.py:10-34 | a non-streamed JSON request; the parsed body below 400, the classified error from 400 (packages/python/src/ai_kit/http.py has the same helper) |
| Http.RequestStream | packages/python-inference/src/ai_kit/http.py:37-62 | a streamed request; the response itself below 400, the classified error from 400 (likewise in packages/python/src/ai_kit/http.py) |
| Http.MultipartFiles | packages/python-inference/src/ai_kit/http.py:73-76 | no files without a file field, else a one-entry map from the field name to the file |
| Http.RequestMultipart | packages/python-inference/src/ai_kit/http.py:65-95 | sends the form data and files; the parsed body below 400, the classified error from 400 |
| Http.SameErrorRule | packages/python-inference/src/ai_kit/http.py:24-95 | the three helpers fail on the same responses with the same error |
| Http.BlankBodyIsNoBody | packages/python-inference/src/ai_kit/http.py:25-26 | a whitespace-only body gives the same error as a missing one |
| Http.SeparatorBodyIsBlank | packages/python-inference/src/ai_kit/http.py:25-26 | a body of ASCII separator characters (`\x1c`-`\x1f`), which `str.strip()` removes, also gives the fallback message |
| Text.Trim | packages/go/provider_utils.go:13 | Go's `TrimSpace` or Python's `strip()` by whitespace set: empty exactly for an all-whitespace string; otherwise no whitespace at either end; the infix of the input that starts after the leading whitespace, everything around it being whitespace |
| Text.Lower | packages/python-inference/src/ai_kit/clients/replicate_client.py:154 | the same length; no upper-case ASCII letter remains; every other character is kept; each upper-case letter moves to its lower-case partner |
| Text.LowerIdempotent | packages/python-inference/src/ai_kit/clients/replicate_client.py:154 | lower-casing twice is lower-casing once |
| Text.SkipSpace | packages/go/provider_utils.go:13 | the first non-whitespace index at or after `i`, everything before it whitespace |
| Text.SkipSpaceBack | packages/go/provider_utils.go:13 | the index just after the last non-whitespace character, everything after it whitespace |
| Text.NatToString | packages/python-inference/src/ai_kit/http.py:26 | the decimal rendering is non-empty, all digits, and reads back as the number |
| Text.IndexOf | packages/go/provider_utils.go:30 | the first index of a character, or none when it does not occur |
| Text.Before | packages/go/provider_utils.go:35 | the prefix before the first occurrence of a character |
| Text.RemoveAll | packages/python-local/src/ai_kit/local/transcriber.py:102 | `replace(pat, "")` changes nothing when the pattern is absent and shortens the string by at least one copy of the pattern when it is present |
| Text.RemoveAllChangesIffPresent | packages/python-local/src/ai_kit/local/transcriber.py:102 | the result equals the input exactly when the pattern does not occur |
| Text.RemoveAllLeading | packages/python-local/src/ai_kit/local/transcriber.py:102 | a leading copy of the pattern is removed and the rest is processed as if on its own |

## Left out

- Text.Trim: only ASCII whitespace is modelled. Go's `TrimSpace` set (space, `\t`-`\r`) and Python's `str.strip()` set (those plus the separators `\x1c`-`\x1f`) are both modelled. Unicode spaces such as `\x85` and `\xa0`, which both languages also strip, are left out.
- Text.Lower: only ASCII letters are lower-cased. `str.lower` is Unicode-aware; non-ASCII letters are left out.
- Hashing, JSON and decoding are parameters: the SHA-256 hex digest of `fixture_key`, the canonical JSON that feeds it, `base64.b64decode`, and Whisper's transcription. Their internals are not modelled.
- Replicate SDK calls, file reads and downloads (`_read_file_output`, `_download_url`, `requests.get`) are oracles, given as parameters.
- Image work is not modelled: PIL's decode, `crop` and PNG encoding in `split_grid_image`, and `_coerce_image` in the Gemini client. `SplitGridImage` hands each crop box to an oracle; PIL's handling of boxes outside the image is PIL's own.
- `remove_background`, `multiview_zero123plusplus` and `depth_anything_v2` are modelled only from the vendor output onwards. The assembly of the input dict around the opened file is left out.
- `time.sleep` is left out; each wait is returned as a value. `random.uniform` is a draw `u` in [0, 1] scaled to the jitter range. Reals are exact, so float rounding is not modelled.
- Backoff.Pow2: powers of two are unbounded integers, so float overflow of `2 ** attempt` for very large attempts is not modelled.
- Gemini.SettingsFromEnv: takes the three variables already parsed. A malformed variable (an `int()`/`float()` ValueError) is not modelled.
- Gemini.PartToBytes: the first save's `TypeError` and the retry with an explicit "PNG" format are folded into one outcome: the saved bytes, or the exception that escapes.
- Replicate.CellsInsideImage: when the padding alone exceeds the image, cell sizes go negative and left edges can pass the right border; only `CellsWithinImage`, under the gaps-fit condition, bounds every edge.
- `image_config` and the `GenerateContentConfig` object are left out. Only the response modalities are modelled.
- `_load_genai`'s import error is not modelled.
- The kit cache is a map threaded through calls. Module-global state and thread safety are not modelled.
- KitCache.GetCachedKit: a cached `None` kit counts as a miss in the source; kits in the model are never `None`.
- `list_models` of `FixtureAdapter` and `LocalWhisperAdapter` only return a stored list or `[]`, and are not modelled.
- Whisper model loading (`_load_whisper_model`, its `lru_cache`), `resolve_device` and the `fp16` flag are not modelled.
- Temp-file creation is an oracle that returns a fresh path. A failed `urlopen` is `FetchFailed(reason)` and propagates as an audio failure; the kinds of `urlopen` error (HTTP status, URL error, timeout) are not told apart.
- Go's `fetchURLAsBase64` does network I/O and is not modelled.
- `response.json()` parse failures are not modelled: the response's JSON body is a given value.
- Timeouts and headers are passed through to the transport unchanged; their effect is the transport's.
- ReplicateClient dict keys are strings already, so the model does not show `str(k)` conversion.
- Python's `\d` also matches non-ASCII decimal digits; the corrected hint parser reads ASCII digits only.
- RetryHint.SearchFrom: case is folded for ASCII letters only. Python's `IGNORECASE` on a `str` pattern also matches `ſ` (U+017F) for `s` and `ı`/`İ` for `i`, so a message such as "reſets in ~\\ds" matches in the source (and then raises) but gives no hint in the model.
- Transcriber.KeepSegments: a segment's `start` and `end` are modelled as numbers or absent, and its text as a string or absent. Three source behaviours are not modelled: a present `start`/`end` that `float()` rejects (`None`, a non-numeric string) raises after the `finally` and fails `transcribe`; a numeric string is read as its number; and a non-string text goes through `str()` (`str(None)` is "None").

## Findings

| source | as written | input that shows it | evidently intended | confidence | as-written member | corrected member |
|---|---|---|---|---|---|---|
| packages/python-inference/src/ai_kit/clients/replicate_client.py:159 | the raw string `r"reset(?:s)? in ~?(\\d+)s"` puts a literal backslash before `d+`, so the group matches a backslash followed by `d`s, never digits | "resets in ~30s" gives no hint, so backoff is used; "resets in ~\\ds" matches, and `float("\\d")` raises ValueError inside the retry path | a group of decimal digits (`(\d+)`): "resets in ~30s" waits `min(max_delay, 31)` | not executed | RetryHint.ReadHintAsWritten, used by Replicate.RetryDelayAsWritten and Replicate.Run (shown by RetryHint.AsWrittenMissesCanonicalHint and RetryHint.AsWrittenRaisesOnBackslashGroup) | RetryHint.VendorHint (proved by RetryHint.VendorHintReadsSeconds), used by Replicate.RunIntended |
