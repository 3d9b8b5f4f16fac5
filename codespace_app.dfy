/**
 * The lightweight Codespaces API (codespace_app.py): the same per-minute
 * limiter and phrase lookup as codespaces_app.py, but a translation chain
 * that asks the model first, then the dictionary, then (for Spanish only)
 * the model once more, then a `[XX] text` placeholder, every answer tagged
 * with the method that produced it; a response cache that stops growing at
 * 100 entries; and batches of at most 20 texts.
 */
module Codespace {
  import opened Wrappers
  import opened Text
  import opened Requests
  import Codespaces

  // ---------------------------------------------------------------------------
  // LightweightTranslationEngine
  // ---------------------------------------------------------------------------

  /** `["en", "es", "ar", "zh"]`. */
  const SupportedLanguages: seq<string> := ["en", "es", "ar", "zh"]

  /** The same list as Python prints it inside the validation message. */
  const SupportedListing: string := "['en', 'es', 'ar', 'zh']"

  /** The `method` tag of a translation. */
  datatype Method = AiModelFaang | DictionaryFallback | AiModel | Fallback {
    function Name(): string {
      match this
      case AiModelFaang => "ai_model_faang"
      case DictionaryFallback => "dictionary_fallback"
      case AiModel => "ai_model"
      case Fallback => "fallback"
    }
  }

  /**
   * The phrase tables per target language and the models that loaded, per
   * target language. A model is called at most twice per translation; the
   * second argument says which call it is (0, then 1 for the Spanish retry),
   * so that a model that fails once and then answers can be expressed.
   */
  datatype Engine = Engine(translations: map<string, map<string, string>>,
                           aiModels: map<string, (string, nat) -> Codespaces.Reply>)

  /** The dictionary `translate` returns, without `translation_time`. */
  datatype Result = Result(translatedText: string, detectedLanguage: string, confidence: real, translationMethod: Method)

  /** `target_lang in self.ai_models and source_lang in ["auto", "en"]`. */
  predicate ModelApplies(engine: Engine, source: string, target: string) {
    target in engine.aiModels && Codespaces.FromEnglish(source)
  }

  /** What the `attempt`-th call of the target's model answers, or `Raises` when there is no model to call. */
  function Ask(engine: Engine, text: string, source: string, target: string, attempt: nat): Codespaces.Reply {
    if ModelApplies(engine, source, target) then engine.aiModels[target](text, attempt) else Codespaces.Raises
  }

  /** `translate`: model (0.95), dictionary (0.8), Spanish model retry (0.95), placeholder (0.1). */
  function Translate(engine: Engine, text: string, source: string, target: string): Result {
    match Ask(engine, text, source, target, 0)
    case Output(t) => Result(t, "en", 0.95, AiModelFaang)
    case Raises =>
      match Codespaces.DictionaryLookup(engine.translations, text, target)
      case Some(t) => Result(t, "en", 0.8, DictionaryFallback)
      case None =>
        if target != "es" then Result(Codespaces.Placeholder(target, text), "en", 0.1, Fallback)
        else match Ask(engine, text, source, target, 1)
          case Output(t) => Result(t, "en", 0.95, AiModel)
          case Raises => Result(Codespaces.Placeholder(target, text), "en", 0.1, Fallback)
  }

  // ---------------------------------------------------------------------------
  // TranslationAPI
  // ---------------------------------------------------------------------------

  /** Entries beyond which the response cache stops taking new records. */
  const CacheCapacity: nat := 100

  /** Texts per batch. */
  const BatchLimit: nat := 20

  /** A `/translate` reply body, without `translation_time`. */
  datatype Record = TaggedRecord(
    originalText: string,
    translatedText: string,
    sourceLanguage: string,
    targetLanguage: string,
    style: string,
    confidence: real,
    cached: bool,
    translationMethod: Method,
    optimizedFor: string)

  /** The `optimized_for` tag of every reply. */
  const OptimizedFor: string := "codespaces"

  /** The reply of `/batch-translate`: the tagged results, their count, both languages and the `optimized_for` tag, or an error. */
  datatype BatchReply =
    | TaggedBatch(results: seq<BatchItem>, totalCount: nat, sourceLanguage: string, targetLanguage: string, optimizedFor: string)
    | BatchRefused(status: nat, error: string)

  /** One entry of a `/batch-translate` reply. */
  datatype BatchItem = TaggedItem(original: string, translated: string, confidence: real, translationMethod: Method)

  /** `_validate_translate_request`: the first rule the body breaks, in order, or none. */
  function Validate(data: Value): Option<string>
    requires StringParams(data)
  {
    if !Truthy(data) || !data.Obj? then Some("Invalid JSON data")
    else if "text" !in data.fields || !Truthy(data.fields["text"]) then Some("Missing required field: text")
    else if !data.fields["text"].Str? then Some("Text must be a string")
    else if |data.fields["text"].s| > 1000 then Some("Text too long (max 1000 characters for Codespaces)")
    else
      var target := GetStr(data, "target_lang", "");
      if target != "" && target !in SupportedLanguages then
        Some("Unsupported target language: " + target + ". Supported: " + SupportedListing)
      else None
  }

  /** The parameters of a validated request, with their defaults (the target defaults to `es`). */
  datatype Params = Params(text: string, source: string, target: string, style: string)

  function ParamsOf(data: Value): Params
    requires StringParams(data) && Validate(data).None?
  {
    Params(data.fields["text"].s, GetStr(data, "source_lang", "auto"),
           GetStr(data, "target_lang", "es"), GetStr(data, "style", "general"))
  }

  /** The reply to a request the limiter let through, and the cache after it. */
  datatype Served = Served(response: Response<Record>, cache: map<string, Record>)

  /** The record answered for a translated request. */
  function RecordOf(p: Params, t: Result): Record {
    TaggedRecord(p.text, t.translatedText, t.detectedLanguage, p.target, p.style, t.confidence, false,
           t.translationMethod, OptimizedFor)
  }

  /**
   * `_handle_translate_request` after the rate limiter: content type,
   * validation, cache lookup, translation, and a cache write only while the
   * cache holds fewer than 100 entries.
   */
  function Respond(engine: Engine, hash: string -> int, cache: map<string, Record>, isJson: bool, data: Value): Served
    requires StringParams(data)
  {
    if !isJson then Served(Rejected(400, "Content-Type must be JSON"), cache)
    else match Validate(data)
      case Some(error) => Served(Rejected(400, error), cache)
      case None =>
        var p := ParamsOf(data);
        var key := CacheKey(p.source, p.target, p.style, hash(p.text));
        if key in cache then Served(Ok(cache[key].(cached := true)), cache)
        else
          var record := RecordOf(p, Translate(engine, p.text, p.source, p.target));
          Served(Ok(record), if |cache| < CacheCapacity then cache[key := record] else cache)
  }

  /** The batch entry for one text. */
  function ItemFor(engine: Engine, text: string, source: string, target: string): BatchItem {
    var t := Translate(engine, text, source, target);
    TaggedItem(text, t.translatedText, t.confidence, t.translationMethod)
  }

  class TranslationAPI {
    const translator: Engine
    const hash: string -> int
    const rateLimiter: Codespaces.SimpleRateLimiter
    var cache: map<string, Record>

    /** The limiter's counters stay within their limit and the cache within 100 entries. */
    ghost predicate Valid()
      reads this, rateLimiter
    {
      rateLimiter.Valid() && |cache| <= CacheCapacity
    }

    /** `_setup_components`: engine, limiter and an empty cache. */
    constructor (translator: Engine, hash: string -> int)
      ensures Valid()
      ensures this.translator == translator && this.hash == hash && cache == map[]
      ensures fresh(rateLimiter) && rateLimiter.requests == map[]
    {
      this.translator := translator;
      this.hash := hash;
      rateLimiter := new Codespaces.SimpleRateLimiter();
      cache := map[];
    }

    /** `_handle_translate_request` for a client at second `now`. */
    method HandleTranslateRequest(clientIp: string, now: nat, isJson: bool, data: Value) returns (r: Response<Record>)
      requires Valid() && StringParams(data)
      modifies this, rateLimiter
      ensures Valid()
      ensures var d := Codespaces.AdmitMinute(old(rateLimiter.requests), clientIp, now);
        && rateLimiter.requests == d.requests
        && (d.allowed ==> Served(r, cache) == Respond(translator, hash, old(cache), isJson, data))
        && (!d.allowed ==> r == Rejected(429, RateLimited) && cache == old(cache))
    {
      var allowed := rateLimiter.IsAllowed(clientIp, now);
      if !allowed {
        return Rejected(429, RateLimited);
      }
      if !isJson {
        return Rejected(400, "Content-Type must be JSON");
      }
      var error := Validate(data);
      if error.Some? {
        return Rejected(400, error.value);
      }
      var p := ParamsOf(data);
      var key := CacheKey(p.source, p.target, p.style, hash(p.text));
      if key in cache {
        return Ok(cache[key].(cached := true));
      }
      var t := Translate(translator, p.text, p.source, p.target);
      var record := RecordOf(p, t);
      if |cache| < CacheCapacity {
        cache := cache[key := record];
      }
      return Ok(record);
    }

    /** `_handle_batch_translate`: no rate limiting, no cache, at most 20 texts. */
    method HandleBatchTranslate(data: Value) returns (r: BatchReply)
      requires BatchShape(data)
      ensures BatchTexts(data).NoTexts? ==> r == BatchRefused(400, MissingTexts)
      ensures BatchTexts(data).Unusable? ==> r == BatchRefused(500, InternalError)
      ensures BatchTexts(data).Items? && |BatchTexts(data).texts| > BatchLimit ==> r == BatchRefused(400, "Maximum 20 texts per batch for Codespaces")
      ensures BatchTexts(data).Items? && |BatchTexts(data).texts| <= BatchLimit ==>
        var texts := BatchTexts(data).texts;
        var source, target := GetStr(data, "source_lang", "auto"), GetStr(data, "target_lang", "es");
        && r.TaggedBatch? && |r.results| == |texts| && r.totalCount == |texts|
        && r.sourceLanguage == source && r.targetLanguage == target
        && r.optimizedFor == OptimizedFor
        && forall i :: 0 <= i < |texts| ==> r.results[i] == ItemFor(translator, texts[i], source, target)
    {
      var field := BatchTexts(data);
      if field.NoTexts? {
        return BatchRefused(400, MissingTexts);
      } else if field.Unusable? {
        return BatchRefused(500, InternalError);
      }
      var texts := field.texts;
      if |texts| > BatchLimit {
        return BatchRefused(400, "Maximum 20 texts per batch for Codespaces");
      }
      var source := GetStr(data, "source_lang", "auto");
      var target := GetStr(data, "target_lang", "es");
      var results := TranslateEach(texts, text => ItemFor(translator, text, source, target));
      return TaggedBatch(results, |results|, source, target, OptimizedFor);
    }
  }

  // ---------------------------------------------------------------------------
  // Lemmas
  // ---------------------------------------------------------------------------

  /**
   * The tiers of `translate`, by the method they report: the model's first
   * answer wins whenever there is one; the dictionary answers only when the
   * model did not; the Spanish retry answers only when both failed and the
   * retry produced output; everything else is the placeholder. Each method
   * comes with its confidence, and the detected language is always `en`.
   */
  lemma TranslateTiers(engine: Engine, text: string, source: string, target: string)
    ensures var r := Translate(engine, text, source, target);
      var first := Ask(engine, text, source, target, 0);
      var hit := Codespaces.DictionaryLookup(engine.translations, text, target);
      var retry := Ask(engine, text, source, target, 1);
      && r.detectedLanguage == "en"
      && (r.translationMethod == AiModelFaang <==> first.Output?)
      && (r.translationMethod == DictionaryFallback <==> first.Raises? && hit.Some?)
      && (r.translationMethod == AiModel <==> first.Raises? && hit.None? && target == "es" && retry.Output?)
      && (r.translationMethod == Fallback <==>
            first.Raises? && hit.None? && (target != "es" || retry.Raises?))
      && (r.confidence == 0.95 <==> r.translationMethod in {AiModelFaang, AiModel})
      && (r.translationMethod == DictionaryFallback ==> r.confidence == 0.8 && r.translatedText == hit.value)
      && (r.translationMethod == Fallback ==> r.confidence == 0.1 && r.translatedText == Codespaces.Placeholder(target, text))
  {
  }

  /** The second model call happens only for Spanish, after the first call raised and the phrase tables missed, and it answered. */
  lemma RetryOnlyForSpanish(engine: Engine, text: string, source: string, target: string)
    ensures Translate(engine, text, source, target).translationMethod == AiModel ==>
      && target == "es" && ModelApplies(engine, source, target)
      && engine.aiModels[target](text, 0).Raises?
      && Codespaces.DictionaryLookup(engine.translations, text, target).None?
      && Translate(engine, text, source, target).translatedText == engine.aiModels[target](text, 1).text
  {
  }

  /**
   * Unlike codespaces_app.py, a model that answers shadows the phrase
   * dictionary: the result then does not depend on the tables at all.
   */
  lemma ModelShadowsDictionary(engine: Engine, text: string, source: string, target: string,
                               tables: map<string, map<string, string>>)
    requires ModelApplies(engine, source, target) && engine.aiModels[target](text, 0).Output?
    ensures Translate(engine.(translations := tables), text, source, target) == Translate(engine, text, source, target)
    ensures Translate(engine, text, source, target).translatedText == engine.aiModels[target](text, 0).text
  {
  }

  /** Without any loaded model the chain is the dictionary, then the placeholder. */
  lemma WithoutModels(translations: map<string, map<string, string>>, text: string, source: string, target: string)
    ensures var r := Translate(Engine(translations, map[]), text, source, target);
      match Codespaces.DictionaryLookup(translations, text, target)
      case Some(t) => r == Result(t, "en", 0.8, DictionaryFallback)
      case None => r == Result(Codespaces.Placeholder(target, text), "en", 0.1, Fallback)
  {
  }

  /**
   * Validation accepts exactly an object with a non-empty string `text` of at
   * most 1000 characters whose `target_lang`, when given and non-empty, is
   * `en`, `es`, `ar` or `zh`.
   */
  lemma ValidateSpec(data: Value)
    requires StringParams(data)
    ensures Validate(data).None? <==>
      && data.Obj? && "text" in data.fields && data.fields["text"].Str?
      && 0 < |data.fields["text"].s| <= 1000
      && (GetStr(data, "target_lang", "") == "" || GetStr(data, "target_lang", "") in SupportedLanguages)
  {
  }

  /** 1000 characters pass the length rule and 1001 do not. */
  lemma LengthBoundary(text: string)
    requires |text| == 1000
    ensures Validate(Obj(map["text" := Str(text)])).None?
    ensures Validate(Obj(map["text" := Str(text + "x")])) == Some("Text too long (max 1000 characters for Codespaces)")
  {
  }

  /** An unsupported target is named in the message, followed by the supported list. */
  lemma UnsupportedTargetMessage(text: string, target: string)
    requires 0 < |text| <= 1000 && target != "" && target !in SupportedLanguages
    ensures Validate(Obj(map["text" := Str(text), "target_lang" := Str(target)]))
         == Some("Unsupported target language: " + target + ". Supported: " + SupportedListing)
  {
    var data := Obj(map["text" := Str(text), "target_lang" := Str(target)]);
    assert GetStr(data, "target_lang", "") == target;
  }

  /** A cache of at most 100 entries stays within 100 entries. */
  lemma CacheStaysBounded(engine: Engine, hash: string -> int, cache: map<string, Record>, isJson: bool, data: Value)
    requires StringParams(data) && |cache| <= CacheCapacity
    ensures |Respond(engine, hash, cache, isJson, data).cache| <= CacheCapacity
  {
  }

  /**
   * A cache hit returns the stored record marked as cached, without
   * translating and without changing the cache.
   */
  lemma CacheHit(engine: Engine, other: Engine, hash: string -> int, cache: map<string, Record>, data: Value)
    requires StringParams(data) && Validate(data).None?
    requires var p := ParamsOf(data); CacheKey(p.source, p.target, p.style, hash(p.text)) in cache
    ensures var p := ParamsOf(data);
      var s := Respond(engine, hash, cache, true, data);
      && s == Served(Ok(cache[CacheKey(p.source, p.target, p.style, hash(p.text))].(cached := true)), cache)
      && s == Respond(other, hash, cache, true, data)
  {
  }

  /**
   * A miss answers with the fresh translation, marked not cached and tagged
   * with its method. With room in the cache it is stored under the request's
   * key and the same request is then a hit; with 100 entries the cache is
   * left as it was and the same request is translated again.
   */
  lemma MissThenAgain(engine: Engine, hash: string -> int, cache: map<string, Record>, data: Value)
    requires StringParams(data) && Validate(data).None?
    requires var p := ParamsOf(data); CacheKey(p.source, p.target, p.style, hash(p.text)) !in cache
    ensures var p := ParamsOf(data);
      var key := CacheKey(p.source, p.target, p.style, hash(p.text));
      var s := Respond(engine, hash, cache, true, data);
      var t := Translate(engine, p.text, p.source, p.target);
      && s.response == Ok(TaggedRecord(p.text, t.translatedText, "en", p.target, p.style, t.confidence, false,
                                 t.translationMethod, OptimizedFor))
      && (|cache| < CacheCapacity ==>
            && s.cache == cache[key := s.response.body]
            && Respond(engine, hash, s.cache, true, data) == Served(Ok(s.response.body.(cached := true)), s.cache))
      && (|cache| >= CacheCapacity ==>
            && s.cache == cache
            && Respond(engine, hash, s.cache, true, data) == s)
  {
    var p := ParamsOf(data);
    TranslateTiers(engine, p.text, p.source, p.target);
  }

  /** A rejected request gets its validation message with status 400 and leaves the cache alone. */
  lemma InvalidRejected(engine: Engine, hash: string -> int, cache: map<string, Record>, isJson: bool, data: Value)
    requires StringParams(data)
    ensures var s := Respond(engine, hash, cache, isJson, data);
      && (!isJson ==> s.response == Rejected(400, "Content-Type must be JSON"))
      && (isJson && Validate(data).Some? ==> s.response == Rejected(400, Validate(data).value))
      && (s.response.Rejected? ==> s.cache == cache)
      && (s.response.Ok? ==> isJson && Validate(data).None?)
  {
  }
}
