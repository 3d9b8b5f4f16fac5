# Multilanguage translation service, in Dafny

This project models the decision logic behind the Multilanguage_model
translation API and proves properties of it. It covers:

- **Admission control.**
  - `RateLimiter` (utils/rate_limiter.py) is a per-client sliding window of integer-second timestamps and fails open on error. Without Redis it keeps a list per client in memory; with Redis it keeps a sorted set of call seconds per client, which records rejected calls too.
  - `SimpleRateLimiter` is the per-minute bucket counter of codespaces_app.py. Its copy in codespace_app.py is the same code, so one model serves both.
- **Conversation history.** `ConversationManager` (utils/conversation_manager.py) appends each exchange to its session, trims to the newest `max_history`, and renders the last three exchanges as the translation context.
- **The model-backed engine** (translation_engine.py):
  - style prompts;
  - NLLB language tokens;
  - prompt assembly;
  - whitespace post-processing;
  - detector-label mapping;
  - the fail-soft error path of `translate`.
- **The pipeline engine** of main.py:
  - its cache key;
  - prompt composition;
  - cache and history side effects;
  - the error strings of `_translate_text_with_ai`;
  - the shaping of `batch_translate`.
- **The three Flask request pipelines**, each with its validation rules in order, cache-key shape, cache hit and insertion, context reads, history writes and order-preserving batch loop:
  - app.py: production, with an optional Redis cache and conversation context;
  - codespaces_app.py: dictionary, then model, then placeholder, with an unbounded cache;
  - codespace_app.py: model, then dictionary, then a Spanish retry, then placeholder, with a cache capped at 100 entries.

Collaborators the service does not own are parameters of the model:
- the wall clock (`now`);
- Python's process-randomised `hash` (a `string -> int` function);
- each Hugging Face model, tokenizer, generator and language detector (functions that return an output or a raised error);
- whether Redis was reachable (`hasRedis` / `hasStore`).

A Redis-backed cache is a `map`. An exception inside a store becomes a `fails` flag; the handlers pass `false`. Shared modules:
- `Text` holds the Python `str` operations the code relies on (`strip`, `split`, `join`, `replace`, `lower`, `upper`, `str(int)`).
- `Requests` holds the parsed JSON body, Python truthiness, `data.get`, the response-cache key and the reply records.

Objects whose fields the source updates in place are classes:
- the two limiters;
- the conversation manager;
- main.py's engine;
- the three `TranslationAPI`s.

Their methods state the whole new state in terms of a specification function, and lemmas prove what the source promises about that function.

## Model

| member | source | states |
|---|---|---|
| RateLimiting.RateLimiter.constructor | utils/rate_limiter.py:12-16 | The limiter starts with the given limit (default 100), window (default 60), with or without a Redis client, and with both stores empty. |
| RateLimiting.RateLimiter.IsAllowed | utils/rate_limiter.py:18-55 | An exception lets the call through and leaves both stores alone. Otherwise, with Redis, the decision and the new sorted sets are those of one Redis step, and the in-memory store is untouched. Without Redis, they are those of one in-memory sliding-window step, the Redis store is untouched, and no client ever holds more than `limit` timestamps. |
| RateLimiting.RateLimiter.AdmitInMemory | utils/rate_limiter.py:34-51 | The memory fallback's decision and new store are those of one in-memory sliding-window step; the Redis store is untouched and no client holds more than `limit` timestamps. |
| RateLimiting.FillStep | utils/rate_limiter.py:40-51 | With fewer than `limit` calls at `now` on record, one more at `now` is accepted and adds one to the record. |
| RateLimiting.Purge | utils/rate_limiter.py:40-44 | A timestamp survives the purge exactly when it was on record and is strictly newer than `now - window`. The purge never lengthens the list. |
| RateLimiting.AdmitSpec | utils/rate_limiter.py:35-51 | Only the caller's list changes, and it becomes the purged list, plus `now` when the call is accepted. A call is accepted exactly when fewer than `limit` timestamps survive the purge. A rejected call is not recorded, and an accepted list holds at most `limit` entries. |
| RateLimiting.FirstRequestAllowed | utils/rate_limiter.py:36-51 | A client the store has not seen is let through, and its list becomes exactly `[now]`. |
| RateLimiting.PurgeAppend | utils/rate_limiter.py:40-44 | Purging a concatenation purges each part. |
| RateLimiting.PurgeAllNewer | utils/rate_limiter.py:40-44 | Timestamps all newer than the cutoff all survive, in order. |
| RateLimiting.PurgeAllOlder | utils/rate_limiter.py:40-44 | Timestamps all at or before the cutoff are all dropped. |
| RateLimiting.RunAppend | utils/rate_limiter.py:18-55 | Running two call sequences one after the other gives the same decisions and final store as running their concatenation. |
| RateLimiting.Fill | utils/rate_limiter.py:40-51 | With `k` recent calls on record, `n` more calls at the same second are all accepted while `k + n <= limit`, and `k + n` are then on record. |
| RateLimiting.RejectThenRecover | utils/rate_limiter.py:40-51 | With `limit` recent calls on record, a call now is rejected, and a call `window` seconds later is accepted. |
| RateLimiting.AdmitRedisSpec | utils/rate_limiter.py:23-33 | In the Redis branch only the caller's set changes. It keeps the seconds strictly newer than `now - window` and gains `now` whether or not the call is accepted. The call is accepted exactly when fewer than `limit` seconds survive the purge. |
| RateLimiting.RedisSameSecond | utils/rate_limiter.py:28 | A set member is the second itself, so a second call in the same second leaves the set exactly as the first call left it. |
| RateLimiting.RedisNeverRejects | utils/rate_limiter.py:12-33 | If nothing on record is later than `now` and `window < limit`, at most `window` seconds survive the purge, so the Redis branch accepts the call. |
| RateLimiting.RedisBurstCollapses | utils/rate_limiter.py:12-33 | With the default 100/60 limiter and a clock that does not run backwards, a call and its repeat in the same second are both accepted, and the repeat leaves the set unchanged. |
| RateLimiting.SpanSpec | utils/rate_limiter.py:26 | The naturals in `(lo, hi]` are exactly those above `lo` and up to `hi`, and there are at most `hi - lo` of them. |
| RateLimiting.BurstThenRecover | utils/rate_limiter.py:12-15 | From a client with nothing recent on record, `limit` calls in one second pass. The next one that second is rejected, and one `window` seconds later passes. |
| Conversation.LastN | utils/conversation_manager.py:44 | Python's `xs[-n:]`: the last `n` items, or all of them when `n` is 0 or at least the length. |
| Conversation.Appended | utils/conversation_manager.py:39-44 | The new exchange comes last. The retained entries are the newest ones, in their original order. The history holds `max_history` entries at most, except that 0 keeps everything. |
| Conversation.BoundedUpdate | utils/conversation_manager.py:39-44 | Storing a non-empty history within the bound keeps every session within the bound. |
| Conversation.ConversationManager.constructor | utils/conversation_manager.py:13-16 | The manager starts with `max_history` (default 10) and no histories. |
| Conversation.ConversationManager.AddExchange | utils/conversation_manager.py:18-47 | A swallowed failure changes nothing. Otherwise only the session's history changes: it becomes the old history with the exchange appended and trimmed. Every history stays non-empty and within `max_history`. |
| Conversation.ConversationManager.GetHistory | utils/conversation_manager.py:67-77 | The result is the session's list, or `[]` for an unknown session or a failed lookup. |
| Conversation.ConversationManager.GetContext | utils/conversation_manager.py:49-65 | The context is `""` for an empty or failed history. Otherwise it ends with the latest exchange, rendered. |
| Conversation.Render | utils/conversation_manager.py:52-54 | An empty history renders as `""`. |
| Conversation.ContextPartsSpec | utils/conversation_manager.py:57-60 | The parts are the last three (or fewer) exchanges, oldest first, each as `Previous: <text> -> <translation>`. |
| Conversation.RenderEndsWithLatest | utils/conversation_manager.py:57-62 | The context of a non-empty history ends with its latest exchange. |
| Conversation.RenderRecentOnly | utils/conversation_manager.py:58-60 | The context depends only on the last three exchanges. |
| Conversation.RenderAfterAppend | utils/conversation_manager.py:57-62 | After one more exchange, the context is the previous two exchanges' context, then ` \| `, then the new exchange. |
| Codespaces.SimpleRateLimiter.constructor | codespaces_app.py:46-48 | The limiter starts with no counters. |
| Codespaces.SimpleRateLimiter.IsAllowed | codespaces_app.py:50-68 | The decision and new table are one per-minute step on the caller's counters, and no counter exceeds 100. |
| Codespaces.Prune | codespaces_app.py:57-61 | Only the counters from the previous minute on are kept, with their values. |
| Codespaces.AdmitBucketsSpec | codespaces_app.py:50-68 | Older counters are dropped. The call passes exactly when this minute's count is below 100, and then that count goes up by one. A rejected call leaves it unchanged. |
| Codespaces.AdmitMinute | codespaces_app.py:50-68 | Only the caller's counters change; every other client keeps its own. |
| Codespaces.FillMinute | codespaces_app.py:63-68 | With `k` calls counted this minute, `n` more in the same minute all pass while `k + n <= 100`, and `k + n` are then counted. |
| Codespaces.FullThenNextMinute | codespaces_app.py:63-68 | A full minute rejects, and a call one minute later passes. |
| Codespaces.HundredPerMinute | codespaces_app.py:44-68 | For a new client, 100 calls in one minute pass, the 101st is rejected, and a call a minute later passes. |
| Codespaces.RunMinutesAppend | codespaces_app.py:50-68 | Running two call sequences one after the other equals running their concatenation. |
| Codespaces.DictionaryLookup | codespaces_app.py:221-237 | There is a hit exactly when the target has a table holding the lower-cased, stripped text. The hit is that entry. |
| Codespaces.NormalizeIdempotent | codespaces_app.py:229 | Lower-casing and stripping a key a second time changes nothing. |
| Codespaces.LookupNormalized | codespaces_app.py:221-237 | Looking up an already normalised text finds the same entry as the raw text. |
| Codespaces.TranslateTiers | codespaces_app.py:160-219 | Each tier's condition and confidence: a dictionary hit gives 1.0 whatever models exist. Otherwise the model gives 0.95 when it exists for the target and the source is `auto` or `en`. A model exception gives `Translation Error: <text>` with 0.0. Otherwise the result is `[XX] text` with 0.0. |
| Codespaces.ValidateSpec | codespaces_app.py:419-437 | A body is accepted exactly when it is an object with a non-empty string `text` of at most 5000 characters whose non-empty target is `es`, `zh` or `ar`. |
| Codespaces.LengthBoundary | codespaces_app.py:430-431 | 5000 characters pass; 5001 get the too-long message. |
| Codespaces.CacheHit | codespaces_app.py:333-338 | A hit returns the stored record marked cached, whatever the engine, and leaves the cache unchanged. |
| Codespaces.MissThenHit | codespaces_app.py:340-366 | A miss answers the fresh translation, not cached, and stores it under the key. The same request then gets that record marked cached. |
| Codespaces.InvalidRejected | codespaces_app.py:317-325 | A non-JSON or invalid body gets its message with 400 and leaves the cache alone. |
| Codespaces.TranslationAPI.constructor | codespaces_app.py:249-254 | The API starts with the engine, a fresh limiter and an empty cache. |
| Codespaces.TranslationAPI.HandleTranslateRequest | codespaces_app.py:309-377 | The limiter step comes first, and a rejection answers 429 with the cache unchanged. Otherwise the reply and the new cache are those of the request pipeline. |
| Codespaces.TranslationAPI.HandleBatchTranslate | codespaces_app.py:379-417 | A falsy body, or a body without `texts`, gets 400. A body where `texts` cannot be read or measured gets 500: a list or string body mentioning `texts`, a non-zero number or `true` body, or a number, boolean or null as `texts`. A batch over 100 gets 400. Otherwise the reply carries one result per text, in order, with the count and both languages. A string `texts` is translated one character at a time. |
| Codespace.TranslateTiers | codespace_app.py:240-315 | The method tag is iff-characterised: `ai_model_faang` (0.95) whenever the model's first answer exists; `dictionary_fallback` (0.8) only when it did not and the table hits; `ai_model` (0.95) only for a Spanish retry that answered; otherwise `fallback` (0.1). |
| Codespace.RetryOnlyForSpanish | codespace_app.py:277-291 | An `ai_model` answer implies Spanish, a first call that raised, no dictionary hit, and a retry that answered. |
| Codespace.ModelShadowsDictionary | codespace_app.py:248-260 | When the model answers first, the result does not depend on the phrase tables at all. |
| Codespace.WithoutModels | codespace_app.py:264-304 | With no model loaded, the chain is the dictionary (0.8), then the placeholder (0.1). |
| Codespace.ValidateSpec | codespace_app.py:534-552 | A body is accepted exactly when it is an object with a non-empty string `text` of at most 1000 characters whose non-empty target is `en`, `es`, `ar` or `zh`. |
| Codespace.LengthBoundary | codespace_app.py:544-545 | 1000 characters pass; 1001 get the Codespaces too-long message. |
| Codespace.UnsupportedTargetMessage | codespace_app.py:548-550 | An unsupported target is named in the message, followed by the supported list. |
| Codespace.CacheStaysBounded | codespace_app.py:477-479 | A cache of at most 100 entries stays within 100 entries after any request. |
| Codespace.CacheHit | codespace_app.py:445-451 | A hit returns the stored record marked cached, whatever the engine, and leaves the cache unchanged. |
| Codespace.MissThenAgain | codespace_app.py:453-479 | A miss answers the fresh translation, not cached and tagged with its method. With room, it is stored and the same request then hits. With 100 entries the cache is unchanged. |
| Codespace.InvalidRejected | codespace_app.py:430-437 | A non-JSON or invalid body gets its message with 400 and leaves the cache alone. |
| Codespace.TranslationAPI.constructor | codespace_app.py:342-351 | The API starts with the engine, a fresh limiter and an empty cache. |
| Codespace.TranslationAPI.HandleTranslateRequest | codespace_app.py:422-490 | The limiter step comes first, and a rejection answers 429. Otherwise the reply and cache are those of the pipeline, and the cache stays within 100 entries. |
| Codespace.TranslationAPI.HandleBatchTranslate | codespace_app.py:492-532 | A falsy body, or a body without `texts`, gets 400. An unreadable or unmeasurable `texts` gets 500, and a batch over 20 gets 400. Otherwise there is one tagged result per text, in order, with the target defaulting to `es`. The reply says it is optimized for `codespaces`. |
| TranslationEngine.SupportedCodes | translation_engine.py:236-238 | The result is the keys of `SUPPORTED_LANGUAGES`, in declaration order. |
| TranslationEngine.SupportedCodesList | translation_engine.py:19-25 | Those keys are exactly the twenty codes listed. |
| TranslationEngine.SupportedCodeShape | translation_engine.py:19-25 | Every supported code is two lower-case ASCII letters. |
| TranslationEngine.ApplyStyleSpec | translation_engine.py:190-201 | A styled text ends with the original. It is unchanged exactly for styles other than formal, casual, technical and literary. |
| TranslationEngine.NllbCoverage | translation_engine.py:203-213 | Exactly `pl`, `nl`, `sv`, `da` and `no` of the supported codes lack an NLLB token. |
| TranslationEngine.LangTokenEnglish | translation_engine.py:203-213 | The token is `eng_Latn` exactly for `en` and for codes missing from the table. |
| TranslationEngine.PostProcessSpec | translation_engine.py:215-225 | The output is trimmed and has single spaces between words. Except for the formal style it keeps the input's words and is idempotent. Formal replaces ` i ` by ` I ` in the collapsed text. |
| TranslationEngine.BuildInputEndsWithText | translation_engine.py:110-124 | The model input ends with the raw text. |
| TranslationEngine.BuildInputSpec | translation_engine.py:113-124 | NLLB models get the source token in front and the target token forced; others get `>>target<<` in front. The context block appears exactly when a context is given. |
| TranslationEngine.MapLabel | translation_engine.py:65-76 | A mapped label is at most two characters long. |
| TranslationEngine.MapLabelOfCode | translation_engine.py:65-76 | A supported code reported as its own label maps to itself. |
| TranslationEngine.MapLabelExamples | translation_engine.py:68-76 | Language names map to their codes in any case, and unknown labels keep their first two letters. |
| TranslationEngine.MapLabelIgnoresCase | translation_engine.py:65 | The mapping does not depend on the label's case. |
| TranslationEngine.DetectLanguage | translation_engine.py:58-80 | The result is `en` for stripped text shorter than three characters, and at most two characters long in every case. |
| TranslationEngine.Confidence | translation_engine.py:227-234 | The confidence always lies between 0.7 and 0.9. |
| TranslationEngine.TranslateSpec | translation_engine.py:82-188 | An unsupported target or a raised error returns the original text with confidence 0 and an error. A success returns post-processed text with confidence in [0.7, 0.9]. The detected language is the given source, or at most two characters for `auto`. |
| TranslationEngine.UnsupportedIgnoresModel | translation_engine.py:106-107 | An unsupported target is rejected before any model is consulted. |
| MainEngine.Zip | main.py:162-170 | The pairing is as long as the shorter list and pairs texts with outputs position by position. |
| MainEngine.BatchTranslate | main.py:142-174 | No model, or a raised error, gives a one-element error list. Otherwise the results pair texts and outputs in order, as many as the shorter list. |
| MainEngine.AdvancedTranslationEngine.constructor | main.py:22-51 | The engine starts with the given pipeline, an empty cache and a fresh conversation manager with history 10. |
| MainEngine.AdvancedTranslationEngine.Translate | main.py:67-140 | The record, the new cache and the new histories are those of one translate step. |
| MainEngine.PromptSpec | main.py:104-115 | The prompt ends with the raw text. It is the raw text exactly when there is no context and no style. |
| MainEngine.EmptyOnlyFromModel | main.py:176-204 | The translation is empty only when the model itself returned `""`. Both error strings are non-empty. |
| MainEngine.CacheHitSkipsModel | main.py:93-101 | A hit returns the stored record marked cached, changes neither cache nor history, and does not depend on the pipeline. |
| MainEngine.MissRecord | main.py:120-129 | On a miss the record holds the raw text, the given source or `auto-detected`, confidence 0.95 and not cached. Without a model it holds the unavailability message. |
| MainEngine.MissCache | main.py:132-133 | On a miss the record is cached exactly when there is a store and the translation is non-empty, error strings included. |
| MainEngine.MissHistory | main.py:137-138 | Whenever a session is given, its history ends with the exchange, with or without context. No other session changes. |
| MainEngine.RecordedSpec | main.py:137-138 | Recording touches only the given session, whose history then ends with the exchange. |
| MainEngine.StyleIgnoredByCache | main.py:93 | After a cached translation in one style, the same text in any other style gets the first record, style included. |
| MainEngine.NoneSourceCollides | main.py:93 | A missing source and the string `None` share a cache key. |
| App.ValidateSpec | app.py:258-270 | A body is accepted exactly when it is an object whose `text` is truthy with length at most 5000 and whose non-empty target is supported. It raises exactly for a non-object or a truthy text without a length. |
| App.LengthBoundary | app.py:263-264 | 5000 characters pass; 5001 get the too-long message. |
| App.ListTextCrashes | app.py:139-216 | A non-empty list as `text` passes validation, then fails with 500 on the cache key, changing nothing. |
| App.RejectedChangesNothing | app.py:136-142 | A request not answered with a translation changes neither the cache nor any history. |
| App.CacheHit | app.py:152-161 | With Redis, a hit returns the stored record marked cached, whatever the engine, and records no exchange. |
| App.NoRedisNoCache | app.py:152-206 | Without Redis, nothing is cached, and every accepted request is translated afresh, not cached. |
| App.ExchangeRecorded | app.py:164-188 | A translated request with `use_context` ends its session's history with the exchange and leaves other sessions alone. Without it, no history changes and the engine sees no context. |
| App.RecordExchangeSpec | app.py:182-188 | Recording touches only the request's session, whose history then ends with the exchange. |
| App.ContextCarriesLastExchange | app.py:165-188 | The next context of a session ends with the exchange its previous translated request recorded. |
| App.MissThenHit | app.py:171-206 | With Redis, a translated request is stored under its key. Asking again returns that record marked cached, with no second exchange. |
| App.TranslationAPI.constructor | app.py:65-75 | The API starts with limit 100, window 60, history 10, empty stores and no cache entries. The limiter is given the Redis client exactly when the service has one. |
| App.TranslationAPI.HandleTranslateRequest | app.py:127-216 | The limiter runs first. With Redis it takes the Redis step, and without Redis the in-memory step. A rejection answers 429 with nothing else changed. Otherwise the reply, the cache and the histories are those of the request pipeline. |
| App.TranslationAPI.Serve | app.py:136-216 | From the content-type check on, the reply, cache and histories are those of the pipeline. Without Redis the cache stays empty. |
| App.TranslationAPI.TranslateInSession | app.py:164-188 | The engine sees the session's context, and the exchange is then recorded, both only with `use_context`. |
| Requests.TranslateEach | app.py:233-245 | The batch loop of all three services: there is one entry per text, in the order of the texts, each the service's item for that text (context-free in app.py; method-tagged in codespace_app.py). |
| App.TranslationAPI.HandleBatchTranslate | app.py:218-256 | A falsy body, or a body without `texts`, gets 400. An unreadable or unmeasurable `texts` gets 500, and a batch over 100 gets 400. Otherwise there is one result per text, in order, with the languages echoed. A string `texts` is translated one character at a time. |
| Requests.BatchTexts | app.py:221-226 | When the batch's texts are read, they come from an object with a `texts` field and string parameters, and there are as many as `len(texts)` counts. |
| Requests.BatchTextsSpec | app.py:221-226 | No texts (400) exactly when the body is falsy, or is an object, list or string with no `texts` in it. Texts are read exactly when a truthy object's `texts` is a string or a list. |
| Requests.ListBodies | app.py:222-225 | A non-empty list body has `texts` in it only as an element. If it has, indexing it by `'texts'` raises; otherwise it is a missing-texts body. |
| Requests.StringTextsByCharacter | app.py:225-234 | A string `texts` such as `hello` is iterated as its characters `h`, `e`, `l`, `l`, `o`. |
| Requests.ScalarTextsRaise | app.py:225-256 | A number, boolean or null as `texts` has no `len`, so the handler raises and answers 500. |
| Requests.Characters | app.py:234 | Iterating a string gives one single-character string per character, in order. |
| Text.ContainsSpec | app.py:222 | The substring test `sub in s` holds exactly when `sub` occurs in `s` at some offset. |
| Requests.CacheKeyInjective | app.py:152 | When no language or style contains a colon, equal keys mean equal languages, style and text hash. |
| Requests.CacheKeyCollision | codespaces_app.py:333 | Without escaping, source `en` with style `formal:es:casual` shares a key with source `en:es:formal` and style `casual`. |
| Text.Lower | codespaces_app.py:229 | Lower-casing keeps the length and lower-cases each character. |
| Text.Upper | codespaces_app.py:202 | Upper-casing keeps the length and upper-cases each character. |
| Text.LStrip | translation_engine.py:61 | Only leading whitespace is removed. |
| Text.RStrip | translation_engine.py:61 | Only trailing whitespace is removed. |
| Text.StripSpec | translation_engine.py:225 | The result has no whitespace at either end and is a piece of the original. It is unchanged for a string already trimmed. |
| Text.CaseKeepsShape | codespaces_app.py:229 | Case changes keep every character's whitespace class. |
| Text.LowerOfLowercase | translation_engine.py:65 | Lower-casing leaves capital-free text unchanged. |
| Text.LowerHasNoCapitals | translation_engine.py:65 | A lower-cased string holds no capitals. |
| Text.JoinSnoc | utils/conversation_manager.py:61 | Joining one more part adds the separator and that part. |
| Text.JoinEndsWithLast | utils/conversation_manager.py:61 | A join ends with its last part. |
| Text.JoinWordsNormalized | translation_engine.py:219 | Words joined by single spaces form a normalised string. |
| Text.SplitIgnoresLeadingSpace | translation_engine.py:219 | Splitting ignores leading whitespace. |
| Text.SplitWords | translation_engine.py:219 | Every piece of `split()` is a non-empty run without whitespace. |
| Text.SplitJoin | translation_engine.py:219 | Splitting words joined by single spaces gives the words back. |
| Text.CollapseSpacesSpec | translation_engine.py:219 | Collapsing whitespace gives a normalised string with the same words. |
| Text.CollapseSpacesIdempotent | translation_engine.py:219 | Collapsing whitespace twice equals collapsing it once. |
| Text.StripNormalized | translation_engine.py:225 | Stripping a normalised string changes nothing. |
| Text.ReplaceSelf | translation_engine.py:218 | Replacing a pattern by itself changes nothing. |
| Text.ReplaceKeepsShape | translation_engine.py:223 | A same-length, same-shape replacement keeps the length and every character's whitespace class. |
| Text.NormalizedByShape | translation_engine.py:223 | Being normalised depends only on each character's whitespace class. |
| Text.NatToString | app.py:152 | `str(n)` of a natural number is a non-empty string of digits. |
| Text.IntToString | app.py:152 | `str(n)` holds only digits and minus signs. |
| Text.ParseNatToString | app.py:152 | Reading the printed digits gives back the number. |
| Text.ParseIntToString | app.py:152 | Reading `str(n)` back gives `n` for every integer. |
| Text.IntToStringInjective | app.py:152 | Distinct integers print differently. |

## Left out

- Two Redis branches are not modelled as a separate store:
  - `ConversationManager` with a Redis client (utils/conversation_manager.py:27-36, 70-73);
  - app.py's cache `setex`/`get` with `str()`/`eval`.

  They are an external store. For app.py's cache, a map present only when Redis was reachable stands in for it.
- The Redis branch of `RateLimiter.is_allowed` (utils/rate_limiter.py:23-33) is modelled on sets, not on a Redis server, as `RateLimiting.AdmitRedis`. It differs from the in-memory branch in three ways, each proved:
  - a rejected call is recorded too (`AdmitRedisSpec`);
  - the member is `str(current_time)`, so calls in the same second collapse into one (`RedisSameSecond`);
  - at most `window` distinct seconds survive the purge, so with the defaults (60 < 100) the limiter never rejects (`RedisNeverRejects`).

  The `expire(key, window)` call is left out. It deletes the set only after `window` quiet seconds, and the next purge would have emptied it anyway.
- app.py's and main.py's histories are the in-memory store in both deployments (app.py:70 and main.py:32 hand the Redis client to `ConversationManager`). The Redis branch of `add_exchange` and `_get_history` (utils/conversation_manager.py:27-36, 70-73) reads the session's list (`[]` when absent), appends, trims to the newest `max_history` and writes it back. That is the same list `Conversation.Appended` computes, so the substitution loses only the time-to-live below. One fault path differs: with Redis, a failed read inside `add_exchange` yields `[]` and the write then replaces the history with the new exchange alone; the model's failure flag leaves the history unchanged.
- Redis time-to-live values (3600 seconds for cache entries and histories) are left out: entries in the maps never expire.
- App.MissThenHit treats the `str()`/`eval` round trip of a cached record as exact.
- `translation_time`, timestamps of replies, latency measurements, structlog logging, Prometheus metrics and psutil memory reports are wall-clock or I/O. Replies carry no time field.
- Flask routing, middleware, CORS and ProxyFix are left out, and so are the `/health`, `/metrics`, `/languages` and root endpoints. They are HTTP plumbing; replies are a status code with a body.
- Model loading and inference are functions supplied with each engine:
  - `transformers` pipelines;
  - tokenizers and `model.generate`;
  - the language detector;
  - `_load_faang_ai_models`.

  They are foreign code.
- The literal phrase tables of codespaces_app.py and codespace_app.py are a parameter (`translations`). They are data, not logic.
- TranslationEngine.Confidence: floating point is modelled as `real`. The token-count formula is kept, but rounding is not.
- Text.Lower and Text.Upper change ASCII letters only. Python's Unicode case mapping is left out.
- Non-string values of the string request parameters (`source_lang`, `target_lang`, `style`, `session_id`) are excluded by `StringParams`. Python would format them into keys or pass them on. One consequence is that codespace_app.py's outer `error` result (codespace_app.py:309-315) is left out: it is reachable only through such values, or through non-string entries of a batch `texts` list (`text.lower()` at codespace_app.py:322 raises), which `BatchShape` excludes.
- `BatchShape` excludes three kinds of batch body the handlers accept:
  - an object as `texts`: Python iterates its keys in insertion order, which a `map` does not keep;
  - a `texts` list with non-string entries;
  - non-string parameters next to a string or list `texts`.

  Every other body is modelled, including the ones that end in the 500 reply.
- The outer 500 replies of the two Codespaces `/translate` handlers are left out. Nothing inside them can raise once parameters are strings.
- A body that `request.get_json()` fails to parse is left out; the model starts from the parsed value.
- Thread pools and the threaded Flask server are left out. Every call is sequential.
- main.py's `get_supported_languages` (main.py:53-65) returns a fixed ten-code list and holds no logic to prove.
- config/settings.py and the `__init__.py` re-exports are configuration.
- utils/translation_engine.py is not part of this model. app.py's engine is modelled by translation_engine.py.
- Python's `hash` is randomised per process, so it is a parameter with no assumed properties.
