/**
 * The reduced Codespaces API (codespaces_app.py): a per-minute request
 * counter, a translation chain of phrase dictionary, then model, then a
 * `[XX] text` placeholder, request validation, an unbounded response cache
 * and the batch endpoint. The per-minute counter and the dictionary lookup
 * are shared with codespace_app.py, whose copies are the same code.
 */
module Codespaces {
  import opened Wrappers
  import opened Text
  import opened Requests
  import RateLimiting

  // ---------------------------------------------------------------------------
  // SimpleRateLimiter
  // ---------------------------------------------------------------------------

  /** Requests per client per clock minute. */
  const MinuteLimit: nat := 100

  /** A client's per-minute counters, or none for a client not seen yet. */
  function Buckets(requests: map<string, map<int, nat>>, ip: string): map<int, nat> {
    if ip in requests then requests[ip] else map[]
  }

  /** The counters of the current and the previous minute, and nothing older. */
  function Prune(buckets: map<int, nat>, minuteKey: int): (r: map<int, nat>)
    ensures forall k :: k in r <==> k in buckets && k >= minuteKey - 1
    ensures forall k :: k in r ==> r[k] == buckets[k]
  {
    map k | k in buckets && k >= minuteKey - 1 :: buckets[k]
  }

  /** `buckets.get(minute_key, 0)`. */
  function Count(buckets: map<int, nat>, minuteKey: int): nat {
    if minuteKey in buckets then buckets[minuteKey] else 0
  }

  /** The decision of one `is_allowed` call and the caller's counters after it. */
  datatype Tick = Tick(allowed: bool, buckets: map<int, nat>)

  /** One `is_allowed` call at second `now` on one client's counters. */
  function AdmitBuckets(buckets: map<int, nat>, now: nat): Tick {
    var minuteKey := now / 60;
    var kept := Prune(buckets, minuteKey);
    var current := Count(kept, minuteKey);
    if current >= MinuteLimit then Tick(false, kept)
    else Tick(true, kept[minuteKey := current + 1])
  }

  /**
   * What one call does to a client's counters: counters older than the
   * previous minute are dropped and the rest kept; the call is let through
   * exactly when this minute's count is below 100, and then that count goes
   * up by one; a rejected call leaves the count as it was.
   */
  lemma AdmitBucketsSpec(buckets: map<int, nat>, now: nat)
    ensures var t := AdmitBuckets(buckets, now);
      && (forall k :: k in t.buckets ==> now / 60 - 1 <= k && (k in buckets || k == now / 60))
      && (forall k :: k in buckets && now / 60 - 1 <= k && k != now / 60 ==> k in t.buckets && t.buckets[k] == buckets[k])
      && (t.allowed <==> Count(buckets, now / 60) < MinuteLimit)
      && Count(t.buckets, now / 60) == if t.allowed then Count(buckets, now / 60) + 1 else Count(buckets, now / 60)
  {
  }

  /** One `is_allowed` call on the whole table: only the caller's counters change. */
  datatype Decision = Decision(allowed: bool, requests: map<string, map<int, nat>>)

  function AdmitMinute(requests: map<string, map<int, nat>>, ip: string, now: nat): (d: Decision)
    ensures d.requests.Keys == requests.Keys + {ip}
    ensures forall c :: c in requests && c != ip ==> d.requests[c] == requests[c]
    ensures Tick(d.allowed, d.requests[ip]) == AdmitBuckets(Buckets(requests, ip), now)
  {
    var t := AdmitBuckets(Buckets(requests, ip), now);
    Decision(t.allowed, requests[ip := t.buckets])
  }

  /** The decisions of a sequence of calls from one client, and its counters afterwards. */
  datatype MinuteTrace = MinuteTrace(decisions: seq<bool>, buckets: map<int, nat>)

  function RunMinutes(buckets: map<int, nat>, times: seq<nat>): MinuteTrace
    decreases |times|
  {
    if times == [] then MinuteTrace([], buckets)
    else
      var t := AdmitBuckets(buckets, times[0]);
      var rest := RunMinutes(t.buckets, times[1..]);
      MinuteTrace([t.allowed] + rest.decisions, rest.buckets)
  }

  class SimpleRateLimiter {
    var requests: map<string, map<int, nat>>
    const limit: nat

    /** No counter exceeds the limit of 100. */
    ghost predicate Valid()
      reads this
    {
      && limit == MinuteLimit
      && forall ip, k :: ip in requests && k in requests[ip] ==> requests[ip][k] <= limit
    }

    constructor ()
      ensures Valid() && requests == map[]
    {
      requests := map[];
      limit := MinuteLimit;
    }

    /** `is_allowed(client_ip)` at second `now`. */
    method IsAllowed(clientIp: string, now: nat) returns (allowed: bool)
      requires Valid()
      modifies this
      ensures Valid()
      ensures Decision(allowed, requests) == AdmitMinute(old(requests), clientIp, now)
    {
      var minuteKey := now / 60;
      var buckets: map<int, nat> := if clientIp in requests then requests[clientIp] else map[];
      buckets := map k | k in buckets && k >= minuteKey - 1 :: buckets[k];
      var currentCount: nat := if minuteKey in buckets then buckets[minuteKey] else 0;
      if currentCount >= limit {
        requests := requests[clientIp := buckets];
        return false;
      }
      requests := requests[clientIp := buckets[minuteKey := currentCount + 1]];
      return true;
    }
  }

  // ---------------------------------------------------------------------------
  // EnhancedTranslationEngine
  // ---------------------------------------------------------------------------

  /** What calling a loaded model yields: `result[0]['translation_text']`, or an exception. */
  datatype Reply = Output(text: string) | Raises

  /** `["es", "zh", "ar"]`. */
  const SupportedLanguages: seq<string> := ["es", "zh", "ar"]

  /** The phrase tables per target language and the models that loaded, per target language. */
  datatype Engine = Engine(translations: map<string, map<string, string>>, aiModels: map<string, string -> Reply>)

  /** The dictionary `translate` returns, without `translation_time`. */
  datatype Result = Result(translatedText: string, detectedLanguage: string, confidence: real)

  /** `text.lower().strip()`, the dictionary key of a text. */
  function Normalize(text: string): string {
    Strip(Lower(text))
  }

  /** `_enhanced_translate` (and `_dictionary_translate` in codespace_app.py): exact phrase lookup. */
  function DictionaryLookup(translations: map<string, map<string, string>>, text: string, target: string): (r: Option<string>)
    ensures r.Some? <==> target in translations && Normalize(text) in translations[target]
    ensures r.Some? ==> r.value == translations[target][Normalize(text)]
  {
    if target !in translations then None
    else if Normalize(text) in translations[target] then Some(translations[target][Normalize(text)])
    else None
  }

  /** `f"[{target_lang.upper()}] {text}"`. */
  function Placeholder(target: string, text: string): string {
    "[" + Upper(target) + "] " + text
  }

  /** `source_lang in ["auto", "en"]`. */
  predicate FromEnglish(source: string) {
    source == "auto" || source == "en"
  }

  /** `translate`: dictionary first (1.0), then the model (0.95), then the placeholder (0.0). */
  function Translate(engine: Engine, text: string, source: string, target: string): Result {
    match DictionaryLookup(engine.translations, text, target)
    case Some(t) => Result(t, "en", 1.0)
    case None =>
      if target in engine.aiModels && FromEnglish(source) then
        match engine.aiModels[target](text)
        case Output(t) => Result(t, "en", 0.95)
        case Raises => Result("Translation Error: " + text, "en", 0.0)
      else Result(Placeholder(target, text), "en", 0.0)
  }

  // ---------------------------------------------------------------------------
  // TranslationAPI
  // ---------------------------------------------------------------------------

  /** `_validate_translate_request`: the first rule the body breaks, in order, or none. */
  function Validate(data: Value): Option<string>
    requires StringParams(data)
  {
    if !Truthy(data) || !data.Obj? then Some("Invalid JSON data")
    else if "text" !in data.fields || !Truthy(data.fields["text"]) then Some("Missing required field: text")
    else if !data.fields["text"].Str? then Some("Text must be a string")
    else if |data.fields["text"].s| > 5000 then Some("Text too long (max 5000 characters)")
    else
      var target := GetStr(data, "target_lang", "");
      if target != "" && target !in SupportedLanguages then Some("Unsupported target language: " + target)
      else None
  }

  /** The parameters of a validated request, with their defaults. */
  datatype Params = Params(text: string, source: string, target: string, style: string)

  function ParamsOf(data: Value): Params
    requires StringParams(data) && Validate(data).None?
  {
    Params(data.fields["text"].s, GetStr(data, "source_lang", "auto"),
           GetStr(data, "target_lang", "en"), GetStr(data, "style", "general"))
  }

  /** The reply to a request the limiter let through, and the cache after it. */
  datatype Served = Served(response: Response<Record>, cache: map<string, Record>)

  /**
   * `_handle_translate_request` after the rate limiter: content type,
   * validation, cache lookup, translation and the unconditional cache write.
   */
  function Respond(engine: Engine, hash: string -> int, cache: map<string, Record>, isJson: bool, data: Value): Served
    requires StringParams(data)
  {
    if !isJson then Served(Rejected(400, "Content-Type must be application/json"), cache)
    else match Validate(data)
      case Some(error) => Served(Rejected(400, error), cache)
      case None =>
        var p := ParamsOf(data);
        var key := CacheKey(p.source, p.target, p.style, hash(p.text));
        if key in cache then Served(Ok(cache[key].(cached := true)), cache)
        else
          var t := Translate(engine, p.text, p.source, p.target);
          var record := Record(p.text, t.translatedText, t.detectedLanguage, p.target, p.style, t.confidence, false);
          Served(Ok(record), cache[key := record])
  }

  /** The batch entry for one text. */
  function ItemFor(engine: Engine, text: string, source: string, target: string): BatchItem {
    var t := Translate(engine, text, source, target);
    BatchItem(text, t.translatedText, t.confidence)
  }

  class TranslationAPI {
    const translator: Engine
    const hash: string -> int
    const rateLimiter: SimpleRateLimiter
    var cache: map<string, Record>

    ghost predicate Valid()
      reads this, rateLimiter
    {
      rateLimiter.Valid()
    }

    /** `_setup_components`: engine, limiter and an empty cache. */
    constructor (translator: Engine, hash: string -> int)
      ensures Valid()
      ensures this.translator == translator && this.hash == hash && cache == map[]
      ensures fresh(rateLimiter) && rateLimiter.requests == map[]
    {
      this.translator := translator;
      this.hash := hash;
      rateLimiter := new SimpleRateLimiter();
      cache := map[];
    }

    /** `_handle_translate_request` for a client at second `now`. */
    method HandleTranslateRequest(clientIp: string, now: nat, isJson: bool, data: Value) returns (r: Response<Record>)
      requires Valid() && StringParams(data)
      modifies this, rateLimiter
      ensures Valid()
      ensures var d := AdmitMinute(old(rateLimiter.requests), clientIp, now);
        && rateLimiter.requests == d.requests
        && (d.allowed ==> Served(r, cache) == Respond(translator, hash, old(cache), isJson, data))
        && (!d.allowed ==> r == Rejected(429, RateLimited) && cache == old(cache))
    {
      var allowed := rateLimiter.IsAllowed(clientIp, now);
      if !allowed {
        return Rejected(429, RateLimited);
      }
      if !isJson {
        return Rejected(400, "Content-Type must be application/json");
      }
      var error := Validate(data);
      if error.Some? {
        return Rejected(400, error.value);
      }
      var p := ParamsOf(data);
      var key := CacheKey(p.source, p.target, p.style, hash(p.text));
      if key in cache {
        return Ok(cache[key].(cached := true));
      }
      var t := Translate(translator, p.text, p.source, p.target);
      var record := Record(p.text, t.translatedText, t.detectedLanguage, p.target, p.style, t.confidence, false);
      cache := cache[key := record];
      return Ok(record);
    }

    /** `_handle_batch_translate`: no rate limiting, no cache, at most 100 texts. */
    method HandleBatchTranslate(data: Value) returns (r: BatchResponse<BatchItem>)
      requires BatchShape(data)
      ensures BatchTexts(data).NoTexts? ==> r == BatchRejected(400, MissingTexts)
      ensures BatchTexts(data).Unusable? ==> r == BatchRejected(500, InternalError)
      ensures BatchTexts(data).Items? && |BatchTexts(data).texts| > 100 ==> r == BatchRejected(400, "Maximum 100 texts per batch")
      ensures BatchTexts(data).Items? && |BatchTexts(data).texts| <= 100 ==>
        var texts := BatchTexts(data).texts;
        var source, target := GetStr(data, "source_lang", "auto"), GetStr(data, "target_lang", "en");
        && r.Batch? && |r.results| == |texts| && r.totalCount == |texts|
        && r.sourceLanguage == source && r.targetLanguage == target
        && forall i :: 0 <= i < |texts| ==> r.results[i] == ItemFor(translator, texts[i], source, target)
    {
      var field := BatchTexts(data);
      if field.NoTexts? {
        return BatchRejected(400, MissingTexts);
      } else if field.Unusable? {
        return BatchRejected(500, InternalError);
      }
      var texts := field.texts;
      if |texts| > 100 {
        return BatchRejected(400, "Maximum 100 texts per batch");
      }
      var source := GetStr(data, "source_lang", "auto");
      var target := GetStr(data, "target_lang", "en");
      var results := TranslateEach(texts, text => ItemFor(translator, text, source, target));
      return Batch(results, |results|, source, target);
    }
  }

  // ---------------------------------------------------------------------------
  // Lemmas
  // ---------------------------------------------------------------------------

  /**
   * With `k` calls counted for the current minute and no later minute on
   * record, `n` more calls in that minute are all let through while
   * `k + n <= 100`, and leave `k + n` counted.
   */
  lemma {:induction false} FillMinute(buckets: map<int, nat>, now: nat, k: nat, n: nat)
    requires k + n <= MinuteLimit
    requires Count(buckets, now / 60) == k
    requires forall m :: m in buckets ==> m <= now / 60
    ensures RunMinutes(buckets, RateLimiting.Repeat(now, n)).decisions == RateLimiting.Repeat(true, n)
    ensures var b := RunMinutes(buckets, RateLimiting.Repeat(now, n)).buckets;
      Count(b, now / 60) == k + n && forall m :: m in b ==> m <= now / 60
    decreases n
  {
    var times := RateLimiting.Repeat(now, n);
    if n == 0 {
      assert times == [];
    } else {
      var t := AdmitBuckets(buckets, now);
      AdmitBucketsSpec(buckets, now);
      assert t.allowed;
      assert times[0] == now;
      assert times[1..] == RateLimiting.Repeat(now, n - 1);
      FillMinute(t.buckets, now, k + 1, n - 1);
      var rest := RunMinutes(t.buckets, times[1..]);
      assert RunMinutes(buckets, times) == MinuteTrace([true] + rest.decisions, rest.buckets);
      assert [true] + RateLimiting.Repeat(true, n - 1) == RateLimiting.Repeat(true, n);
    }
  }

  /** A full minute rejects, and a call one minute later starts a fresh count. */
  lemma FullThenNextMinute(buckets: map<int, nat>, now: nat)
    requires Count(buckets, now / 60) == MinuteLimit
    requires forall m :: m in buckets ==> m <= now / 60
    ensures RunMinutes(buckets, [now, now + 60]).decisions == [false, true]
  {
    var later := now + 60;
    assert later / 60 == now / 60 + 1;
    var t1 := AdmitBuckets(buckets, now);
    AdmitBucketsSpec(buckets, now);
    assert !t1.allowed;
    assert Count(t1.buckets, later / 60) == 0;
    var t2 := AdmitBuckets(t1.buckets, later);
    AdmitBucketsSpec(t1.buckets, later);
    assert t2.allowed;
    var times := [now, later];
    assert times[0] == now && times[1..] == [later];
    assert [later][0] == later && [later][1..] == [];
    var r2 := RunMinutes(t1.buckets, [later]);
    var r3 := RunMinutes(t2.buckets, []);
    assert r3.decisions == [];
    assert r2.decisions == [t2.allowed] + r3.decisions;
    assert RunMinutes(buckets, times).decisions == [false] + r2.decisions;
  }

  /**
   * For a client not seen before, 100 calls in one minute pass, the 101st
   * is rejected, and a call a minute later passes again.
   */
  lemma HundredPerMinute(now: nat)
    ensures RunMinutes(map[], RateLimiting.Repeat<nat>(now, MinuteLimit) + [now, now + 60]).decisions
         == RateLimiting.Repeat(true, MinuteLimit) + [false, true]
  {
    var burst := RateLimiting.Repeat<nat>(now, MinuteLimit);
    var tail := [now, now + 60];
    RunMinutesAppend(map[], burst, tail);
    FillMinute(map[], now, 0, MinuteLimit);
    FullThenNextMinute(RunMinutes(map[], burst).buckets, now);
  }

  /** One step of `RunMinutes`: the first call's decision, then the rest run on the counters it leaves. */
  lemma RunMinutesCons(buckets: map<int, nat>, times: seq<nat>)
    requires times != []
    ensures var t := AdmitBuckets(buckets, times[0]);
      var rest := RunMinutes(t.buckets, times[1..]);
      RunMinutes(buckets, times) == MinuteTrace([t.allowed] + rest.decisions, rest.buckets)
  {
  }

  /** Running `a` then `b` is running `a + b`. */
  lemma {:induction false} RunMinutesAppend(buckets: map<int, nat>, a: seq<nat>, b: seq<nat>)
    ensures RunMinutes(buckets, a + b).decisions ==
            RunMinutes(buckets, a).decisions + RunMinutes(RunMinutes(buckets, a).buckets, b).decisions
    ensures RunMinutes(buckets, a + b).buckets == RunMinutes(RunMinutes(buckets, a).buckets, b).buckets
    decreases |a|
  {
    if a == [] {
      assert a + b == b;
    } else {
      var t := AdmitBuckets(buckets, a[0]);
      assert (a + b)[0] == a[0];
      assert (a + b)[1..] == a[1..] + b;
      RunMinutesAppend(t.buckets, a[1..], b);
      RunMinutesCons(buckets, a);
      RunMinutesCons(buckets, a + b);
    }
  }

  /** A normalized text is its own dictionary key. */
  lemma NormalizeIdempotent(text: string)
    ensures Normalize(Normalize(text)) == Normalize(text)
  {
    var l := Lower(text);
    var n := Strip(l);
    LowerHasNoCapitals(text);
    assert forall j :: 0 <= j < |n| ==> n[j] in l;
    LowerOfLowercase(n);
    assert Lower(n) == n;
  }

  /** Looking up an already normalized text finds the same entry as the raw text. */
  lemma LookupNormalized(translations: map<string, map<string, string>>, text: string, target: string)
    ensures DictionaryLookup(translations, Normalize(text), target) == DictionaryLookup(translations, text, target)
  {
    NormalizeIdempotent(text);
  }

  /**
   * The tiers of `translate`: a dictionary hit wins with confidence 1.0
   * whatever models are loaded; otherwise the model answers with 0.95 when it
   * exists for the target and the source is `auto` or `en`, and its exception
   * gives `Translation Error: <text>` with 0.0; otherwise the placeholder
   * with 0.0. The detected language is always `en`.
   */
  lemma TranslateTiers(engine: Engine, text: string, source: string, target: string)
    ensures var r := Translate(engine, text, source, target);
      var hit := DictionaryLookup(engine.translations, text, target);
      && r.detectedLanguage == "en"
      && (r.confidence == 1.0 <==> hit.Some?)
      && (hit.Some? ==>
            && r.translatedText == hit.value
            && forall models :: Translate(engine.(aiModels := models), text, source, target) == r)
      && (hit.None? && target in engine.aiModels && FromEnglish(source) ==>
            match engine.aiModels[target](text)
            case Output(t) => r == Result(t, "en", 0.95)
            case Raises => r == Result("Translation Error: " + text, "en", 0.0))
      && (hit.None? && !(target in engine.aiModels && FromEnglish(source)) ==>
            r == Result(Placeholder(target, text), "en", 0.0))
  {
  }

  /**
   * Validation accepts exactly an object with a non-empty string `text` of at
   * most 5000 characters whose `target_lang`, when given and non-empty, is
   * `es`, `zh` or `ar`.
   */
  lemma ValidateSpec(data: Value)
    requires StringParams(data)
    ensures Validate(data).None? <==>
      && data.Obj? && "text" in data.fields && data.fields["text"].Str?
      && 0 < |data.fields["text"].s| <= 5000
      && (GetStr(data, "target_lang", "") == "" || GetStr(data, "target_lang", "") in SupportedLanguages)
  {
  }

  /** 5000 characters pass the length rule and 5001 do not. */
  lemma LengthBoundary(text: string)
    requires |text| == 5000
    ensures Validate(Obj(map["text" := Str(text)])).None?
    ensures Validate(Obj(map["text" := Str(text + "x")])) == Some("Text too long (max 5000 characters)")
  {
  }

  /**
   * A cache hit returns the stored record marked as cached, without
   * translating and without changing the cache.
   */
  lemma CacheHit(engine: Engine, other: Engine, hash: string -> int, cache: map<string, Record>, data: Value)
    requires StringParams(data) && Validate(data).None?
    requires var p := ParamsOf(data); CacheKey(p.source, p.target, p.style, hash(p.text)) in cache
    ensures var p := ParamsOf(data);
      var s := Respond(engine, hash, cache, true, data);
      && s == Served(Ok(cache[CacheKey(p.source, p.target, p.style, hash(p.text))].(cached := true)), cache)
      && s == Respond(other, hash, cache, true, data)
  {
  }

  /**
   * A miss answers with the fresh translation, marked not cached, and stores
   * it under the request's key; asking again returns the same record from
   * the cache, marked as cached.
   */
  lemma MissThenHit(engine: Engine, hash: string -> int, cache: map<string, Record>, data: Value)
    requires StringParams(data) && Validate(data).None?
    requires var p := ParamsOf(data); CacheKey(p.source, p.target, p.style, hash(p.text)) !in cache
    ensures var p := ParamsOf(data);
      var s := Respond(engine, hash, cache, true, data);
      var t := Translate(engine, p.text, p.source, p.target);
      && s.response == Ok(Record(p.text, t.translatedText, "en", p.target, p.style, t.confidence, false))
      && s.cache == cache[CacheKey(p.source, p.target, p.style, hash(p.text)) := s.response.body]
      && Respond(engine, hash, s.cache, true, data) == Served(Ok(s.response.body.(cached := true)), s.cache)
  {
    var p := ParamsOf(data);
    TranslateTiers(engine, p.text, p.source, p.target);
  }

  /** A rejected request gets its validation message with status 400 and leaves the cache alone. */
  lemma InvalidRejected(engine: Engine, hash: string -> int, cache: map<string, Record>, isJson: bool, data: Value)
    requires StringParams(data)
    ensures var s := Respond(engine, hash, cache, isJson, data);
      && (!isJson ==> s.response == Rejected(400, "Content-Type must be application/json"))
      && (isJson && Validate(data).Some? ==> s.response == Rejected(400, Validate(data).value))
      && (s.response.Rejected? ==> s.cache == cache)
      && (s.response.Ok? ==> isJson && Validate(data).None?)
  {
  }
}
