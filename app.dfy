/**
 * The production API (app.py): the sliding-window limiter, request
 * validation, a response cache that exists only when Redis is reachable,
 * per-session conversation context read before and recorded after each
 * translation, the model-backed engine of translation_engine.py, and the
 * batch endpoint.
 */
module App {
  import opened Wrappers
  import opened Text
  import opened Requests
  import RateLimiting
  import Conversation
  import TranslationEngine

  /** What `_validate_translate_request` does with a body: returns nothing, returns a message, or raises. */
  datatype Verdict = Accept | Reject(message: string) | Crash

  /**
   * `_validate_translate_request`. A body that is not an object has no
   * `.get` and raises, as does `len` of a `text` that is a number or a
   * boolean; both surface as the handler's 500.
   */
  function Validate(data: Value): Verdict
    requires StringParams(data)
  {
    if !data.Obj? then Crash
    else if "text" !in data.fields || !Truthy(data.fields["text"]) then Reject("Missing required field: text")
    else match Len(data.fields["text"])
      case None => Crash
      case Some(n) =>
        if n > 5000 then Reject("Text too long (max 5000 characters)")
        else
          var target := GetStr(data, "target_lang", "");
          if target != "" && !TranslationEngine.IsSupported(target) then Reject("Unsupported target language: " + target)
          else Accept
  }

  /** `data.get('use_context', True)`, as a condition. */
  predicate UseContext(data: Value)
    requires data.Obj?
  {
    "use_context" !in data.fields || Truthy(data.fields["use_context"])
  }

  /** The parameters of an accepted request with a string `text`, with their defaults. */
  datatype Params = Params(text: string, source: string, target: string, style: string, useContext: bool, sessionId: string)

  function ParamsOf(data: Value, clientIp: string): Params
    requires StringParams(data) && data.Obj? && "text" in data.fields && data.fields["text"].Str?
  {
    Params(data.fields["text"].s, GetStr(data, "source_lang", "auto"), GetStr(data, "target_lang", "en"),
           GetStr(data, "style", "general"), UseContext(data), GetStr(data, "session_id", clientIp))
  }

  /** The reply to a request the limiter let through, with the cache and the histories after it. */
  datatype Served = Served(response: Response<Record>, cache: map<string, Record>, histories: map<string, seq<Conversation.Exchange>>)

  /** The context a request translates with: the session's rendered history with `use_context`, `""` otherwise. */
  function ContextOf(histories: map<string, seq<Conversation.Exchange>>, p: Params): string {
    if p.useContext then Conversation.Render(Conversation.HistoryOf(histories, p.sessionId)) else ""
  }

  /** The histories after a translated request: the exchange recorded in the session's history with `use_context`. */
  function RecordExchange(histories: map<string, seq<Conversation.Exchange>>, maxHistory: nat, p: Params,
                          translation: string, now: int): map<string, seq<Conversation.Exchange>>
  {
    if p.useContext then
      histories[p.sessionId := Conversation.Appended(Conversation.HistoryOf(histories, p.sessionId),
                                                    Conversation.Exchange(p.text, translation, now), maxHistory)]
    else histories
  }

  /**
   * `_handle_translate_request` after the rate limiter, for a client at time
   * `now`. With Redis (`hasRedis`) the cache is consulted first and written
   * last; without it there is no cache. A `text` that passes validation
   * without being a string (a list or an object) cannot be hashed for the
   * cache key and ends in the 500 reply.
   */
  function Respond(engine: TranslationEngine.Engine, hash: string -> int, hasRedis: bool, cache: map<string, Record>,
                   histories: map<string, seq<Conversation.Exchange>>, maxHistory: nat,
                   clientIp: string, now: int, isJson: bool, data: Value): Served
    requires StringParams(data)
  {
    if !isJson then Served(Rejected(400, "Content-Type must be application/json"), cache, histories)
    else match Validate(data)
      case Crash => Served(Rejected(500, InternalError), cache, histories)
      case Reject(message) => Served(Rejected(400, message), cache, histories)
      case Accept =>
        if !data.fields["text"].Str? then Served(Rejected(500, InternalError), cache, histories)
        else
          var p := ParamsOf(data, clientIp);
          var key := CacheKey(p.source, p.target, p.style, hash(p.text));
          if hasRedis && key in cache then Served(Ok(cache[key].(cached := true)), cache, histories)
          else
            var t := TranslationEngine.Translate(engine, p.text, p.source, p.target, p.style, ContextOf(histories, p));
            var record := Record(p.text, t.translatedText, t.detectedLanguage, p.target, p.style, t.confidence, false);
            Served(Ok(record), if hasRedis then cache[key := record] else cache,
                   RecordExchange(histories, maxHistory, p, t.translatedText, now))
  }

  /** The batch entry for one text, translated without context. */
  function ItemFor(engine: TranslationEngine.Engine, text: string, source: string, target: string, style: string): BatchItem {
    var t := TranslationEngine.Translate(engine, text, source, target, style, "");
    BatchItem(text, t.translatedText, t.confidence)
  }

  class TranslationAPI {
    const translator: TranslationEngine.Engine
    const hash: string -> int
    const hasRedis: bool
    const rateLimiter: RateLimiting.RateLimiter
    const conversationManager: Conversation.ConversationManager
    var cache: map<string, Record>

    /** The limiter and the conversation store keep their bounds; the limiter was handed the same Redis client; without Redis nothing is ever cached. */
    ghost predicate Valid()
      reads this, rateLimiter, conversationManager
    {
      && rateLimiter.Valid()
      && rateLimiter.hasRedis == hasRedis
      && conversationManager.Valid()
      && (!hasRedis ==> cache == map[])
    }

    /** `_setup_components`, with `hasRedis` saying whether `_setup_redis` reached the server. */
    constructor (translator: TranslationEngine.Engine, hash: string -> int, hasRedis: bool)
      ensures Valid()
      ensures this.translator == translator && this.hash == hash && this.hasRedis == hasRedis && cache == map[]
      ensures fresh(rateLimiter) && rateLimiter.limit == 100 && rateLimiter.window == 60
      ensures rateLimiter.memoryStore == map[] && rateLimiter.redisStore == map[]
      ensures fresh(conversationManager) && conversationManager.maxHistory == 10 && conversationManager.memoryStore == map[]
    {
      this.translator := translator;
      this.hash := hash;
      this.hasRedis := hasRedis;
      rateLimiter := new RateLimiting.RateLimiter(hasRedis);
      conversationManager := new Conversation.ConversationManager();
      cache := map[];
    }

    /** `_handle_translate_request` for a client at second `now`; the limiter uses the Redis branch exactly when the service does. */
    method HandleTranslateRequest(clientIp: string, now: nat, isJson: bool, data: Value) returns (r: Response<Record>)
      requires Valid() && StringParams(data)
      modifies this, rateLimiter, conversationManager
      ensures Valid()
      ensures var o := RateLimiting.Admit(old(rateLimiter.memoryStore), rateLimiter.limit, rateLimiter.window, clientIp, now);
        var ro := RateLimiting.AdmitRedis(old(rateLimiter.redisStore), rateLimiter.limit, rateLimiter.window, clientIp, now);
        var allowed := if hasRedis then ro.allowed else o.allowed;
        && (hasRedis ==> rateLimiter.redisStore == ro.store && rateLimiter.memoryStore == old(rateLimiter.memoryStore))
        && (!hasRedis ==> rateLimiter.memoryStore == o.store && rateLimiter.redisStore == old(rateLimiter.redisStore))
        && (allowed ==>
              Served(r, cache, conversationManager.memoryStore)
              == Respond(translator, hash, hasRedis, old(cache), old(conversationManager.memoryStore),
                         conversationManager.maxHistory, clientIp, now, isJson, data))
        && (!allowed ==>
              && r == Rejected(429, RateLimited)
              && cache == old(cache) && conversationManager.memoryStore == old(conversationManager.memoryStore))
    {
      var allowed := rateLimiter.IsAllowed(clientIp, now, false);
      if !allowed {
        return Rejected(429, RateLimited);
      }
      r := Serve(clientIp, now, isJson, data);
    }

    /** `_handle_translate_request` from the content-type check on, for a request the limiter let through. */
    method Serve(clientIp: string, now: nat, isJson: bool, data: Value) returns (r: Response<Record>)
      requires conversationManager.Valid() && (!hasRedis ==> cache == map[]) && StringParams(data)
      modifies this, conversationManager
      ensures conversationManager.Valid() && (!hasRedis ==> cache == map[])
      ensures Served(r, cache, conversationManager.memoryStore)
           == Respond(translator, hash, hasRedis, old(cache), old(conversationManager.memoryStore),
                      conversationManager.maxHistory, clientIp, now, isJson, data)
    {
      if !isJson {
        return Rejected(400, "Content-Type must be application/json");
      }
      var verdict := Validate(data);
      if verdict.Crash? {
        return Rejected(500, InternalError);
      } else if verdict.Reject? {
        return Rejected(400, verdict.message);
      }
      if !data.fields["text"].Str? {
        return Rejected(500, InternalError);
      }
      var p := ParamsOf(data, clientIp);
      var key := CacheKey(p.source, p.target, p.style, hash(p.text));
      if hasRedis && key in cache {
        return Ok(cache[key].(cached := true));
      }
      var t := TranslateInSession(p, now);
      var record := Record(p.text, t.translatedText, t.detectedLanguage, p.target, p.style, t.confidence, false);
      if hasRedis {
        cache := cache[key := record];
      }
      assert Respond(translator, hash, hasRedis, old(cache), old(conversationManager.memoryStore),
                     conversationManager.maxHistory, clientIp, now, isJson, data)
          == Served(Ok(record), cache, conversationManager.memoryStore);
      return Ok(record);
    }

    /**
     * The middle of `_handle_translate_request`: read the session's context
     * (with `use_context`), translate, and record the exchange (with
     * `use_context`).
     */
    method TranslateInSession(p: Params, now: nat) returns (t: TranslationEngine.Result)
      requires conversationManager.Valid()
      modifies conversationManager
      ensures conversationManager.Valid()
      ensures t == TranslationEngine.Translate(translator, p.text, p.source, p.target, p.style,
                                               ContextOf(old(conversationManager.memoryStore), p))
      ensures conversationManager.memoryStore
           == RecordExchange(old(conversationManager.memoryStore), conversationManager.maxHistory, p, t.translatedText, now)
    {
      var context := "";
      if p.useContext {
        context := conversationManager.GetContext(p.sessionId, false);
      }
      t := TranslationEngine.Translate(translator, p.text, p.source, p.target, p.style, context);
      if p.useContext {
        conversationManager.AddExchange(p.sessionId, p.text, t.translatedText, now, false);
      }
    }

    /** `_handle_batch_translate`: no rate limiting, no cache, no context, at most 100 texts. */
    method HandleBatchTranslate(data: Value) returns (r: BatchResponse<BatchItem>)
      requires BatchShape(data)
      ensures BatchTexts(data).NoTexts? ==> r == BatchRejected(400, MissingTexts)
      ensures BatchTexts(data).Unusable? ==> r == BatchRejected(500, InternalError)
      ensures BatchTexts(data).Items? && |BatchTexts(data).texts| > 100 ==> r == BatchRejected(400, "Maximum 100 texts per batch")
      ensures BatchTexts(data).Items? && |BatchTexts(data).texts| <= 100 ==>
        var texts := BatchTexts(data).texts;
        var source, target := GetStr(data, "source_lang", "auto"), GetStr(data, "target_lang", "en");
        var style := GetStr(data, "style", "general");
        && r.Batch? && |r.results| == |texts| && r.totalCount == |texts|
        && r.sourceLanguage == source && r.targetLanguage == target
        && forall i :: 0 <= i < |texts| ==> r.results[i] == ItemFor(translator, texts[i], source, target, style)
    {
      var field := BatchTexts(data);
      if field.NoTexts? {
        return BatchRejected(400, MissingTexts);
      } else if field.Unusable? {
        return BatchRejected(500, InternalError);
      }
      var texts := field.texts;
      if |texts| > 100 {
        return BatchRejected(400, "Maximum 100 texts per batch");
      }
      var source := GetStr(data, "source_lang", "auto");
      var target := GetStr(data, "target_lang", "en");
      var style := GetStr(data, "style", "general");
      var results := TranslateEach(texts, text => ItemFor(translator, text, source, target, style));
      return Batch(results, |results|, source, target);
    }
  }

  // ---------------------------------------------------------------------------
  // Lemmas
  // ---------------------------------------------------------------------------

  /**
   * Validation accepts exactly an object whose `text` is truthy, has a
   * length of at most 5000 and whose `target_lang`, when given and
   * non-empty, is one of the engine's languages; it raises exactly for a
   * body that is not an object or a truthy `text` without a length.
   */
  lemma ValidateSpec(data: Value)
    requires StringParams(data)
    ensures Validate(data) == Accept <==>
      && data.Obj? && "text" in data.fields && Truthy(data.fields["text"])
      && Len(data.fields["text"]).Some? && Len(data.fields["text"]).value <= 5000
      && (GetStr(data, "target_lang", "") == "" || TranslationEngine.IsSupported(GetStr(data, "target_lang", "")))
    ensures Validate(data) == Crash <==>
      || !data.Obj?
      || ("text" in data.fields && Truthy(data.fields["text"]) && Len(data.fields["text"]).None?)
  {
  }

  /** 5000 characters pass the length rule and 5001 do not. */
  lemma LengthBoundary(text: string)
    requires |text| == 5000
    ensures Validate(Obj(map["text" := Str(text)])) == Accept
    ensures Validate(Obj(map["text" := Str(text + "x")])) == Reject("Text too long (max 5000 characters)")
  {
  }

  /** A non-empty list as `text` passes validation and then fails on the cache key with a 500, changing nothing. */
  lemma ListTextCrashes(engine: TranslationEngine.Engine, hash: string -> int, hasRedis: bool, cache: map<string, Record>,
                        histories: map<string, seq<Conversation.Exchange>>, maxHistory: nat, clientIp: string, now: int,
                        items: seq<Value>)
    requires 0 < |items| <= 5000
    ensures var data := Obj(map["text" := Arr(items)]);
      && Validate(data) == Accept
      && Respond(engine, hash, hasRedis, cache, histories, maxHistory, clientIp, now, true, data)
         == Served(Rejected(500, InternalError), cache, histories)
  {
  }

  /** A request that is not answered with a translation changes neither the cache nor any history. */
  lemma RejectedChangesNothing(engine: TranslationEngine.Engine, hash: string -> int, hasRedis: bool, cache: map<string, Record>,
                               histories: map<string, seq<Conversation.Exchange>>, maxHistory: nat,
                               clientIp: string, now: int, isJson: bool, data: Value)
    requires StringParams(data)
    ensures var s := Respond(engine, hash, hasRedis, cache, histories, maxHistory, clientIp, now, isJson, data);
      && (s.response.Rejected? ==> s.cache == cache && s.histories == histories)
      && (!isJson ==> s.response == Rejected(400, "Content-Type must be application/json"))
      && (isJson && Validate(data).Reject? ==> s.response == Rejected(400, Validate(data).message))
      && (s.response.Ok? ==> isJson && Validate(data) == Accept && data.fields["text"].Str?)
  {
  }

  /**
   * With Redis, a cached request is answered from the cache, marked as
   * cached, whatever the engine; it neither translates nor records an
   * exchange in the conversation history.
   */
  lemma CacheHit(engine: TranslationEngine.Engine, other: TranslationEngine.Engine, hash: string -> int,
                 cache: map<string, Record>, histories: map<string, seq<Conversation.Exchange>>, maxHistory: nat,
                 clientIp: string, now: int, data: Value)
    requires StringParams(data) && Validate(data) == Accept && data.fields["text"].Str?
    requires var p := ParamsOf(data, clientIp); CacheKey(p.source, p.target, p.style, hash(p.text)) in cache
    ensures var p := ParamsOf(data, clientIp);
      var s := Respond(engine, hash, true, cache, histories, maxHistory, clientIp, now, true, data);
      && s == Served(Ok(cache[CacheKey(p.source, p.target, p.style, hash(p.text))].(cached := true)), cache, histories)
      && s == Respond(other, hash, true, cache, histories, maxHistory, clientIp, now, true, data)
  {
  }

  /** Without Redis nothing is cached: every accepted request is translated afresh and answered as not cached. */
  lemma NoRedisNoCache(engine: TranslationEngine.Engine, hash: string -> int,
                       histories: map<string, seq<Conversation.Exchange>>, maxHistory: nat,
                       clientIp: string, now: int, isJson: bool, data: Value)
    requires StringParams(data)
    ensures var s := Respond(engine, hash, false, map[], histories, maxHistory, clientIp, now, isJson, data);
      && s.cache == map[]
      && (s.response.Ok? ==>
            var p := ParamsOf(data, clientIp);
            var t := TranslationEngine.Translate(engine, p.text, p.source, p.target, p.style, ContextOf(histories, p));
            s.response.body == Record(p.text, t.translatedText, t.detectedLanguage, p.target, p.style, t.confidence, false))
  {
    var s := Respond(engine, hash, false, map[], histories, maxHistory, clientIp, now, isJson, data);
    if isJson && Validate(data) == Accept && data.fields["text"].Str? {
      var p := ParamsOf(data, clientIp);
      var t := TranslationEngine.Translate(engine, p.text, p.source, p.target, p.style, ContextOf(histories, p));
      var record := Record(p.text, t.translatedText, t.detectedLanguage, p.target, p.style, t.confidence, false);
      assert s == Served(Ok(record), map[], RecordExchange(histories, maxHistory, p, t.translatedText, now));
    } else {
      assert s.cache == map[] && !s.response.Ok?;
    }
  }

  /**
   * A translated request with `use_context` ends its session's history with
   * the new exchange and leaves every other session alone; without
   * `use_context` no history changes and the engine sees no context.
   */
  lemma ExchangeRecorded(engine: TranslationEngine.Engine, hash: string -> int, hasRedis: bool, cache: map<string, Record>,
                         histories: map<string, seq<Conversation.Exchange>>, maxHistory: nat,
                         clientIp: string, now: int, data: Value)
    requires StringParams(data) && Validate(data) == Accept && data.fields["text"].Str?
    requires var p := ParamsOf(data, clientIp); !(hasRedis && CacheKey(p.source, p.target, p.style, hash(p.text)) in cache)
    ensures var p := ParamsOf(data, clientIp);
      var s := Respond(engine, hash, hasRedis, cache, histories, maxHistory, clientIp, now, true, data);
      && s.response.Ok?
      && (p.useContext ==>
            && p.sessionId in s.histories
            && var h := s.histories[p.sessionId];
               h != [] && h[|h| - 1] == Conversation.Exchange(p.text, s.response.body.translatedText, now))
      && (!p.useContext ==> s.histories == histories && ContextOf(histories, p) == "")
      && (forall other :: other in histories && other != p.sessionId ==> other in s.histories && s.histories[other] == histories[other])
  {
    var p := ParamsOf(data, clientIp);
    var t := TranslationEngine.Translate(engine, p.text, p.source, p.target, p.style, ContextOf(histories, p));
    var s := Respond(engine, hash, hasRedis, cache, histories, maxHistory, clientIp, now, true, data);
    assert s.response == Ok(Record(p.text, t.translatedText, t.detectedLanguage, p.target, p.style, t.confidence, false));
    assert s.histories == RecordExchange(histories, maxHistory, p, t.translatedText, now);
    RecordExchangeSpec(histories, maxHistory, p, t.translatedText, now);
  }

  /** Recording touches only the request's session, whose history then ends with the exchange. */
  lemma RecordExchangeSpec(histories: map<string, seq<Conversation.Exchange>>, maxHistory: nat, p: Params,
                           translation: string, now: int)
    ensures var r := RecordExchange(histories, maxHistory, p, translation, now);
      && (p.useContext ==>
            && p.sessionId in r && r[p.sessionId] != []
            && r[p.sessionId][|r[p.sessionId]| - 1] == Conversation.Exchange(p.text, translation, now))
      && (!p.useContext ==> r == histories)
      && (forall other :: other in histories && other != p.sessionId ==> other in r && r[other] == histories[other])
  {
    if p.useContext {
      var e := Conversation.Exchange(p.text, translation, now);
      var h := Conversation.Appended(Conversation.HistoryOf(histories, p.sessionId), e, maxHistory);
      assert h != [] && h[|h| - 1] == e;
      assert RecordExchange(histories, maxHistory, p, translation, now) == histories[p.sessionId := h];
    }
  }

  /**
   * The context of a session's next request ends with the exchange its
   * previous translated request recorded: `Previous: <text> -> <translation>`.
   */
  lemma ContextCarriesLastExchange(histories: map<string, seq<Conversation.Exchange>>, maxHistory: nat, p: Params,
                                   translation: string, now: int)
    requires p.useContext
    ensures EndsWith(ContextOf(RecordExchange(histories, maxHistory, p, translation, now), p),
                     Conversation.Describe(Conversation.Exchange(p.text, translation, now)))
  {
    var e := Conversation.Exchange(p.text, translation, now);
    var h := Conversation.Appended(Conversation.HistoryOf(histories, p.sessionId), e, maxHistory);
    assert Conversation.HistoryOf(RecordExchange(histories, maxHistory, p, translation, now), p.sessionId) == h;
    Conversation.RenderEndsWithLatest(h);
  }

  /**
   * With Redis, a translated request is stored under its key, and asking
   * again returns the same record marked as cached without recording a
   * second exchange.
   */
  lemma MissThenHit(engine: TranslationEngine.Engine, hash: string -> int, cache: map<string, Record>,
                    histories: map<string, seq<Conversation.Exchange>>, maxHistory: nat,
                    clientIp: string, now: int, now': int, data: Value)
    requires StringParams(data) && Validate(data) == Accept && data.fields["text"].Str?
    requires var p := ParamsOf(data, clientIp); CacheKey(p.source, p.target, p.style, hash(p.text)) !in cache
    ensures var p := ParamsOf(data, clientIp);
      var s := Respond(engine, hash, true, cache, histories, maxHistory, clientIp, now, true, data);
      && s.response.Ok? && !s.response.body.cached
      && s.cache == cache[CacheKey(p.source, p.target, p.style, hash(p.text)) := s.response.body]
      && Respond(engine, hash, true, s.cache, s.histories, maxHistory, clientIp, now', true, data)
         == Served(Ok(s.response.body.(cached := true)), s.cache, s.histories)
  {
  }
}
