/**
 * The pipeline-backed engine of main.py: a response cache keyed by source,
 * target and text; a prompt built from the conversation context and the
 * style; the conversation history written after each fresh translation;
 * and the list shaping of `batch_translate`. The Hugging Face pipeline is a
 * pair of functions supplied with the engine, and the Redis cache is a map.
 */
module MainEngine {
  import opened Wrappers
  import opened Text
  import opened Conversation

  /** One call of the pipeline: `result[0]['translation_text']`, or the exception it raised. */
  datatype Reply = Output(text: string) | Raises(message: string)

  /** One batched call of the pipeline: the `translation_text` of each result, or the exception. */
  datatype BatchReply = Outputs(texts: seq<string>) | BatchRaises(message: string)

  /** The loaded pipeline, called as `pipeline(text, src_lang=…, tgt_lang=…)` on a text or a list. */
  datatype Pipeline = Pipeline(
    single: (string, Option<string>, string) -> Reply,
    batch: (seq<string>, Option<string>, string) -> BatchReply)

  /** The dictionary `translate` returns, without `translation_time`. */
  datatype Record = Record(
    originalText: string,
    translatedText: string,
    sourceLanguage: string,
    targetLanguage: string,
    style: Option<string>,
    confidence: real,
    cached: bool)

  /** One element of `batch_translate`'s list. */
  datatype BatchItem =
    | Item(originalText: string, translatedText: string, sourceLanguage: Option<string>, targetLanguage: string)
    | ItemError(error: string)

  const ModelUnavailable := "Error: Translation model not available."
  const AiFailed := "Error: AI translation failed."
  const NotLoaded := "Translation model not loaded"
  const BatchFailedPrefix := "Batch translation failed: "

  /** Python truthiness of an optional string. */
  predicate Given(o: Option<string>) {
    o.Some? && o.value != ""
  }

  /** How an optional string prints inside an f-string (`None` prints as `None`). */
  function Show(o: Option<string>): string {
    match o
    case None => "None"
    case Some(s) => s
  }

  /** `f"translation:{source_lang}:{target_lang}:{text}"`. */
  function CacheKey(source: Option<string>, target: string, text: string): string {
    "translation:" + Show(source) + ":" + target + ":" + text
  }

  /** `f"{context}{style_prompt}{text}"` with its two optional parts. */
  function Prompt(context: string, style: Option<string>, text: string): string {
    var contextPart := if context != "" then "Context: " + context + ". " else "";
    var stylePart := if Given(style) then "Translate in a " + style.value + " style. " else "";
    contextPart + stylePart + text
  }

  /** `_translate_text_with_ai`: the pipeline's text, or one of two fixed error strings. */
  function TranslateTextWithAi(pipeline: Option<Pipeline>, text: string, source: Option<string>, target: string): string {
    match pipeline
    case None => ModelUnavailable
    case Some(p) =>
      match p.single(text, source, target)
      case Output(t) => t
      case Raises(_) => AiFailed
  }

  /** The list comprehension over `zip(texts, results)`: as long as the shorter list, pairs in order. */
  function Zip(texts: seq<string>, outputs: seq<string>, source: Option<string>, target: string): (items: seq<BatchItem>)
    ensures |items| == if |texts| < |outputs| then |texts| else |outputs|
    ensures forall i :: 0 <= i < |items| ==> items[i] == Item(texts[i], outputs[i], source, target)
  {
    if texts == [] || outputs == [] then []
    else [Item(texts[0], outputs[0], source, target)] + Zip(texts[1..], outputs[1..], source, target)
  }

  /**
   * `batch_translate`: a one-element error list without a model or when the
   * pipeline raises; otherwise one item per paired text and output, in order.
   */
  function BatchTranslate(pipeline: Option<Pipeline>, texts: seq<string>, target: string, source: Option<string>): (items: seq<BatchItem>)
    ensures pipeline.None? ==> items == [ItemError(NotLoaded)]
    ensures pipeline.Some? && pipeline.value.batch(texts, source, target).BatchRaises? ==>
      items == [ItemError(BatchFailedPrefix + pipeline.value.batch(texts, source, target).message)]
    ensures pipeline.Some? && pipeline.value.batch(texts, source, target).Outputs? ==>
      var outputs := pipeline.value.batch(texts, source, target).texts;
      |items| <= |texts| && |items| <= |outputs| && (|items| == |texts| || |items| == |outputs|) &&
      forall i :: 0 <= i < |items| ==> items[i] == Item(texts[i], outputs[i], source, target)
  {
    match pipeline
    case None => [ItemError(NotLoaded)]
    case Some(p) =>
      match p.batch(texts, source, target)
      case BatchRaises(message) => [ItemError(BatchFailedPrefix + message)]
      case Outputs(outputs) => Zip(texts, outputs, source, target)
  }

  /** The record `translate` returns, with the cache and the histories it leaves behind. */
  datatype Step = Step(record: Record, cache: map<string, Record>, histories: map<string, seq<Exchange>>)

  /** The context a call uses: the session's rendered history with `use_context` and a session, `""` otherwise. */
  function ContextFor(histories: map<string, seq<Exchange>>, sessionId: Option<string>, useContext: bool): string {
    if useContext && Given(sessionId) then Render(HistoryOf(histories, sessionId.value)) else ""
  }

  /** The histories after a call: the exchange appended to the session's history when a session is given. */
  function Recorded(histories: map<string, seq<Exchange>>, sessionId: Option<string>, e: Exchange, maxHistory: nat): map<string, seq<Exchange>> {
    if Given(sessionId) then histories[sessionId.value := Appended(HistoryOf(histories, sessionId.value), e, maxHistory)]
    else histories
  }

  /**
   * One `translate` call: a cache hit returns the stored record marked as
   * cached; otherwise the context (only with `use_context` and a session),
   * the prompt, the model call, the record, the cache write (only with a
   * store and a non-empty translation) and the history write (whenever a
   * session is given).
   */
  function TranslateStep(pipeline: Option<Pipeline>, hasStore: bool, maxHistory: nat,
                         cache: map<string, Record>, histories: map<string, seq<Exchange>>,
                         text: string, target: string, source: Option<string>,
                         sessionId: Option<string>, useContext: bool, style: Option<string>, now: int): Step
  {
    var key := CacheKey(source, target, text);
    if hasStore && key in cache then Step(cache[key].(cached := true), cache, histories)
    else
      var context := ContextFor(histories, sessionId, useContext);
      var translated := TranslateTextWithAi(pipeline, Prompt(context, style, text), source, target);
      var record := Record(text, translated, if Given(source) then source.value else "auto-detected",
                           target, style, 0.95, false);
      var cache' := if hasStore && translated != "" then cache[key := record] else cache;
      Step(record, cache', Recorded(histories, sessionId, Exchange(text, translated, now), maxHistory))
  }

  class AdvancedTranslationEngine {
    const pipeline: Option<Pipeline>
    const hasStore: bool
    const conversation: ConversationManager
    var cache: map<string, Record>

    ghost predicate Valid()
      reads this, conversation
    {
      conversation.Valid()
    }

    /** `AdvancedTranslationEngine(config, redis_client)`; `pipeline` is `None` when loading failed. */
    constructor (pipeline: Option<Pipeline>, hasStore: bool)
      ensures Valid()
      ensures this.pipeline == pipeline && this.hasStore == hasStore && cache == map[]
      ensures fresh(conversation) && conversation.maxHistory == 10 && conversation.memoryStore == map[]
    {
      this.pipeline := pipeline;
      this.hasStore := hasStore;
      conversation := new ConversationManager();
      cache := map[];
    }

    /** `translate(text, target_lang, source_lang, session_id, use_context, style)` at time `now`. */
    method Translate(text: string, target: string, source: Option<string>, sessionId: Option<string>,
                     useContext: bool, style: Option<string>, now: int) returns (r: Record)
      requires Valid()
      modifies this, conversation
      ensures Valid()
      ensures var s := TranslateStep(pipeline, hasStore, conversation.maxHistory, old(cache), old(conversation.memoryStore),
                                     text, target, source, sessionId, useContext, style, now);
        r == s.record && cache == s.cache && conversation.memoryStore == s.histories
    {
      var key := CacheKey(source, target, text);
      if hasStore && key in cache {
        return cache[key].(cached := true);
      }
      var context := "";
      if useContext && Given(sessionId) {
        context := conversation.GetContext(sessionId.value, false);
      }
      assert context == ContextFor(old(conversation.memoryStore), sessionId, useContext);
      var translated := TranslateTextWithAi(pipeline, Prompt(context, style, text), source, target);
      r := Record(text, translated, if Given(source) then source.value else "auto-detected", target, style, 0.95, false);
      if hasStore && r.translatedText != "" {
        cache := cache[key := r];
      }
      ghost var written := cache;
      assert written == if hasStore && translated != "" then old(cache)[key := r] else old(cache);
      if Given(sessionId) {
        conversation.AddExchange(sessionId.value, text, translated, now, false);
      }
      assert cache == written;
      assert conversation.memoryStore == Recorded(old(conversation.memoryStore), sessionId, Exchange(text, translated, now), conversation.maxHistory);
    }
  }

  // ---------------------------------------------------------------------------
  // Lemmas
  // ---------------------------------------------------------------------------

  /** The prompt ends with the raw text, and is the raw text exactly when there is no context and no style. */
  lemma PromptSpec(context: string, style: Option<string>, text: string)
    ensures EndsWith(Prompt(context, style, text), text)
    ensures Prompt(context, style, text) == text <==> context == "" && !Given(style)
  {
    var p := Prompt(context, style, text);
    if context != "" || Given(style) {
      assert |p| > |text|;
    }
    var contextPart := if context != "" then "Context: " + context + ". " else "";
    var stylePart := if Given(style) then "Translate in a " + style.value + " style. " else "";
    EndsWithSelf(text);
    EndsWithPrefixed(contextPart + stylePart, text, text);
  }

  /** Only an empty pipeline output is empty: both error strings are non-empty, so they get cached. */
  lemma EmptyOnlyFromModel(pipeline: Option<Pipeline>, text: string, source: Option<string>, target: string)
    ensures TranslateTextWithAi(pipeline, text, source, target) == "" <==>
      pipeline.Some? && pipeline.value.single(text, source, target) == Output("")
  {
  }

  /**
   * A cache hit returns the stored record marked as cached, leaves cache and
   * histories alone and does not depend on the pipeline.
   */
  lemma CacheHitSkipsModel(pipeline: Option<Pipeline>, other: Option<Pipeline>, maxHistory: nat,
                           cache: map<string, Record>, histories: map<string, seq<Exchange>>,
                           text: string, target: string, source: Option<string>,
                           sessionId: Option<string>, useContext: bool, style: Option<string>, now: int)
    requires CacheKey(source, target, text) in cache
    ensures var s := TranslateStep(pipeline, true, maxHistory, cache, histories, text, target, source, sessionId, useContext, style, now);
      && s.record == cache[CacheKey(source, target, text)].(cached := true)
      && s.cache == cache && s.histories == histories
      && s == TranslateStep(other, true, maxHistory, cache, histories, text, target, source, sessionId, useContext, style, now)
  {
  }

  /**
   * On a miss the record holds the raw text, the given source (or
   * `auto-detected`), confidence 0.95 and `cached == false`; without a model
   * its translation is the fixed unavailability message.
   */
  lemma MissRecord(pipeline: Option<Pipeline>, hasStore: bool, maxHistory: nat,
                   cache: map<string, Record>, histories: map<string, seq<Exchange>>,
                   text: string, target: string, source: Option<string>,
                   sessionId: Option<string>, useContext: bool, style: Option<string>, now: int)
    requires !(hasStore && CacheKey(source, target, text) in cache)
    ensures var r := TranslateStep(pipeline, hasStore, maxHistory, cache, histories, text, target, source, sessionId, useContext, style, now).record;
      && r.originalText == text && r.targetLanguage == target && r.style == style
      && r.confidence == 0.95 && !r.cached
      && r.sourceLanguage == (if Given(source) then source.value else "auto-detected")
      && (pipeline.None? ==> r.translatedText == ModelUnavailable)
  {
  }

  /** On a miss the record is cached exactly when there is a store and the translation is non-empty (error strings included). */
  lemma MissCache(pipeline: Option<Pipeline>, hasStore: bool, maxHistory: nat,
                  cache: map<string, Record>, histories: map<string, seq<Exchange>>,
                  text: string, target: string, source: Option<string>,
                  sessionId: Option<string>, useContext: bool, style: Option<string>, now: int)
    requires !(hasStore && CacheKey(source, target, text) in cache)
    ensures var s := TranslateStep(pipeline, hasStore, maxHistory, cache, histories, text, target, source, sessionId, useContext, style, now);
      && (hasStore && s.record.translatedText != "" ==> s.cache == cache[CacheKey(source, target, text) := s.record])
      && (!hasStore || s.record.translatedText == "" ==> s.cache == cache)
  {
  }

  /**
   * On a miss the session's history gets the exchange last whenever a
   * session is given, whether or not context was used; no other session
   * changes.
   */
  lemma MissHistory(pipeline: Option<Pipeline>, hasStore: bool, maxHistory: nat,
                    cache: map<string, Record>, histories: map<string, seq<Exchange>>,
                    text: string, target: string, source: Option<string>,
                    sessionId: Option<string>, useContext: bool, style: Option<string>, now: int)
    requires !(hasStore && CacheKey(source, target, text) in cache)
    ensures var s := TranslateStep(pipeline, hasStore, maxHistory, cache, histories, text, target, source, sessionId, useContext, style, now);
      && (Given(sessionId) ==>
            var h := s.histories[sessionId.value];
            h != [] && h[|h| - 1] == Exchange(text, s.record.translatedText, now))
      && (!Given(sessionId) ==> s.histories == histories)
      && (forall other :: other in histories && (!Given(sessionId) || other != sessionId.value) ==>
            other in s.histories && s.histories[other] == histories[other])
  {
    var s := TranslateStep(pipeline, hasStore, maxHistory, cache, histories, text, target, source, sessionId, useContext, style, now);
    RecordedSpec(histories, sessionId, Exchange(text, s.record.translatedText, now), maxHistory);
  }

  /** Recording touches only the given session, whose history then ends with the exchange. */
  lemma RecordedSpec(histories: map<string, seq<Exchange>>, sessionId: Option<string>, e: Exchange, maxHistory: nat)
    ensures var r := Recorded(histories, sessionId, e, maxHistory);
      && (Given(sessionId) ==> sessionId.value in r && r[sessionId.value] != [] && r[sessionId.value][|r[sessionId.value]| - 1] == e)
      && (!Given(sessionId) ==> r == histories)
      && (forall other :: other in histories && (!Given(sessionId) || other != sessionId.value) ==>
            other in r && r[other] == histories[other])
  {
    if Given(sessionId) {
      var h := Appended(HistoryOf(histories, sessionId.value), e, maxHistory);
      assert h != [] && h[|h| - 1] == e;
      assert Recorded(histories, sessionId, e, maxHistory) == histories[sessionId.value := h];
    }
  }

  /**
   * The key leaves out the style: after a cached translation in one style, the
   * same text in any other style is served the first record, style included.
   */
  lemma StyleIgnoredByCache(pipeline: Option<Pipeline>, maxHistory: nat,
                            cache: map<string, Record>, histories: map<string, seq<Exchange>>,
                            text: string, target: string, source: Option<string>,
                            sessionId: Option<string>, useContext: bool, style: Option<string>, style': Option<string>, now: int, now': int)
    requires CacheKey(source, target, text) !in cache
    requires TranslateStep(pipeline, true, maxHistory, cache, histories, text, target, source, sessionId, useContext, style, now).record.translatedText != ""
    ensures var s := TranslateStep(pipeline, true, maxHistory, cache, histories, text, target, source, sessionId, useContext, style, now);
      var s' := TranslateStep(pipeline, true, maxHistory, s.cache, s.histories, text, target, source, sessionId, useContext, style', now');
      s'.record == s.record.(cached := true) && s'.record.style == style
  {
  }

  /** `None` and the string `"None"` as source language share a cache key. */
  lemma NoneSourceCollides(target: string, text: string)
    ensures CacheKey(None, target, text) == CacheKey(Some("None"), target, text)
  {
  }
}
