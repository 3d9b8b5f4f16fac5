/**
 * Request shapes shared by the three Flask variants (app.py,
 * codespaces_app.py, codespace_app.py): the parsed JSON body, Python
 * truthiness, `data.get`, the response-cache key and the response records.
 */
module Requests {
  import opened Wrappers
  import opened Text

  /** A parsed JSON body as `request.get_json()` returns it (numbers are integers here). */
  datatype Value =
    | Null
    | Bool(b: bool)
    | Num(n: int)
    | Str(s: string)
    | Arr(items: seq<Value>)
    | Obj(fields: map<string, Value>)

  /** Python truthiness of a JSON value (`if v:`). */
  predicate Truthy(v: Value) {
    match v
    case Null => false
    case Bool(b) => b
    case Num(n) => n != 0
    case Str(s) => s != ""
    case Arr(items) => items != []
    case Obj(fields) => fields != map[]
  }

  /** `len(v)`, or `None` where Python's `len` raises (`TypeError` on numbers, booleans and null). */
  function Len(v: Value): Option<nat> {
    match v
    case Str(s) => Some(|s|)
    case Arr(items) => Some(|items|)
    case Obj(fields) => Some(|fields|)
    case _ => None
  }

  /** `data.get(key)` on a dict. */
  function Get(data: Value, key: string): Option<Value>
    requires data.Obj?
  {
    if key in data.fields then Some(data.fields[key]) else None
  }

  /** The field, when the body is an object holding it, is a JSON string. */
  predicate StrOrAbsent(data: Value, key: string) {
    data.Obj? && key in data.fields ==> data.fields[key].Str?
  }

  /** The fields the handlers use as strings hold strings whenever they are present. */
  predicate StringParams(data: Value) {
    && StrOrAbsent(data, "source_lang")
    && StrOrAbsent(data, "target_lang")
    && StrOrAbsent(data, "style")
    && StrOrAbsent(data, "session_id")
  }

  /** `data.get(key, default)` for a field that holds a string when present. */
  function GetStr(data: Value, key: string, default: string): string
    requires data.Obj? && StrOrAbsent(data, key)
  {
    if key in data.fields then data.fields[key].s else default
  }

  /**
   * The batch bodies this model covers: every body, except that `texts`, in
   * an object, is not itself an object, and that when it is a string or an
   * array the string parameters are strings and the array holds strings.
   */
  predicate BatchShape(data: Value) {
    data.Obj? && "texts" in data.fields ==>
      match data.fields["texts"]
      case Obj(_) => false
      case Arr(items) => StringParams(data) && forall i :: 0 <= i < |items| ==> items[i].Str?
      case Str(_) => StringParams(data)
      case _ => true
  }

  /** What `data['texts']` gives the batch handlers: no texts (400), an exception (500), or the texts to translate. */
  datatype TextsField = NoTexts | Unusable | Items(texts: seq<string>)

  /** Iterating a Python string: its characters, each as a one-character string. */
  function Characters(s: string): (cs: seq<string>)
    ensures |cs| == |s|
    ensures forall i :: 0 <= i < |s| ==> cs[i] == [s[i]]
  {
    seq(|s|, i requires 0 <= i < |s| => [s[i]])
  }

  /**
   * The guard `if not data or 'texts' not in data`, then `data['texts']`,
   * `len(texts)` and `for text in texts`. On a list body `in` compares the
   * elements with `'texts'`, on a string body it looks for a substring, and on
   * a number or a boolean it raises; indexing a list or a string with
   * `'texts'` raises, as does `len` of a number, a boolean or null.
   */
  function BatchTexts(data: Value): (f: TextsField)
    requires BatchShape(data)
    ensures f.Items? ==> data.Obj? && "texts" in data.fields && StringParams(data)
    ensures f.Items? ==> Len(data.fields["texts"]) == Some(|f.texts|)
  {
    if !Truthy(data) then NoTexts
    else match data
      case Obj(fields) =>
        if "texts" !in fields then NoTexts
        else (match fields["texts"]
          case Str(s) => Items(Characters(s))
          case Arr(items) => Items(seq(|items|, i requires 0 <= i < |items| => items[i].s))
          case _ => Unusable)
      case Arr(items) => if Str("texts") in items then Unusable else NoTexts
      case Str(s) => if Contains(s, "texts") then Unusable else NoTexts
      case _ => Unusable
  }

  /** `f"translate:{source}:{target}:{style}:{hash(text)}"`, the response-cache key. */
  function CacheKey(source: string, target: string, style: string, textHash: int): string {
    "translate:" + source + ":" + target + ":" + style + ":" + IntToString(textHash)
  }

  /** A JSON reply: a success body, or an HTTP error status with its `error` message. */
  datatype Response<R> = Ok(body: R) | Rejected(status: nat, error: string)

  /**
   * The loop of `_handle_batch_translate`, shared by the three services: one
   * entry per text, in the order of the texts, each made by the service's
   * `item` (translate the text and build the result dictionary).
   */
  method TranslateEach<I>(texts: seq<string>, item: string -> I) returns (results: seq<I>)
    ensures |results| == |texts|
    ensures forall i :: 0 <= i < |texts| ==> results[i] == item(texts[i])
  {
    results := [];
    for i := 0 to |texts|
      invariant |results| == i
      invariant forall j :: 0 <= j < i ==> results[j] == item(texts[j])
    {
      results := results + [item(texts[i])];
    }
  }

  /** The reply of `/batch-translate`: `results`, `total_count` and the two languages, or an error. */
  datatype BatchResponse<I> =
    | Batch(results: seq<I>, totalCount: nat, sourceLanguage: string, targetLanguage: string)
    | BatchRejected(status: nat, error: string)

  /** A `/translate` reply body of app.py and codespaces_app.py, without `translation_time`. */
  datatype Record = Record(
    originalText: string,
    translatedText: string,
    sourceLanguage: string,
    targetLanguage: string,
    style: string,
    confidence: real,
    cached: bool)

  /** One entry of their `/batch-translate` replies. */
  datatype BatchItem = BatchItem(original: string, translated: string, confidence: real)

  const RateLimited := "Rate limit exceeded"
  const InternalError := "Internal server error"
  const MissingTexts := "Missing texts array"

  // ---------------------------------------------------------------------------
  // Lemmas
  // ---------------------------------------------------------------------------

  /** Two colon-free heads followed by a colon split a string the same way. */
  lemma ColonSplit(x: string, y: string, x': string, y': string)
    requires ':' !in x && ':' !in x'
    requires x + ":" + y == x' + ":" + y'
    ensures x == x' && y == y'
  {
    var s, s' := x + ":" + y, x' + ":" + y';
    assert s[|x|] == ':' && s'[|x'|] == ':';
    assert forall i :: 0 <= i < |x| ==> s[i] == x[i];
    assert forall i :: 0 <= i < |x'| ==> s'[i] == x'[i];
    assert |x| == |x'|;
    assert x == s[..|x|] && x' == s'[..|x'|];
    assert y == s[|x| + 1..] && y' == s'[|x'| + 1..];
  }

  /**
   * When no language or style contains a colon, equal cache keys mean equal
   * languages, equal styles and equal text hashes.
   */
  lemma CacheKeyInjective(source: string, target: string, style: string, h: int,
                          source': string, target': string, style': string, h': int)
    requires ':' !in source && ':' !in target && ':' !in style
    requires ':' !in source' && ':' !in target' && ':' !in style'
    requires CacheKey(source, target, style, h) == CacheKey(source', target', style', h')
    ensures source == source' && target == target' && style == style' && h == h'
  {
    var d, d' := IntToString(h), IntToString(h');
    KeyShape(source, target, style, h);
    KeyShape(source', target', style', h');
    PrefixCancel("translate:", source + ":" + (target + ":" + (style + ":" + d)),
                 source' + ":" + (target' + ":" + (style' + ":" + d')));
    ColonSplit(source, target + ":" + (style + ":" + d), source', target' + ":" + (style' + ":" + d'));
    ColonSplit(target, style + ":" + d, target', style' + ":" + d');
    ColonSplit(style, d, style', d');
    IntToStringInjective(h, h');
  }

  /** The key as a fixed prefix followed by the colon-separated fields, grouped from the right. */
  lemma KeyShape(source: string, target: string, style: string, h: int)
    ensures CacheKey(source, target, style, h) == "translate:" + (source + ":" + (target + ":" + (style + ":" + IntToString(h))))
  {
  }

  /** Equal strings with a common prefix agree after it. */
  lemma PrefixCancel(p: string, x: string, y: string)
    requires p + x == p + y
    ensures x == y
  {
    assert x == (p + x)[|p|..];
    assert y == (p + y)[|p|..];
  }

  /**
   * The key does not escape colons: a request with source `en` and style
   * `formal:es:casual` shares its key with one whose source is `en:es:formal`
   * and whose style is `casual`, so the second can be served the first's
   * cached record.
   */
  lemma CacheKeyCollision(h: int)
    ensures CacheKey("en", "es", "formal:es:casual", h) == CacheKey("en:es:formal", "es", "casual", h)
  {
  }

  /**
   * Which bodies reach which outcome: no texts exactly for a falsy body, an
   * object without `texts`, a list without the element `'texts'` or a string
   * without the substring `texts`; texts to translate exactly for an object
   * whose `texts` is a string or an array.
   */
  lemma BatchTextsSpec(data: Value)
    requires BatchShape(data)
    ensures BatchTexts(data).NoTexts? <==>
      || !Truthy(data)
      || (data.Obj? && "texts" !in data.fields)
      || (data.Arr? && Str("texts") !in data.items)
      || (data.Str? && !Contains(data.s, "texts"))
    ensures BatchTexts(data).Items? <==>
      Truthy(data) && data.Obj? && "texts" in data.fields && (data.fields["texts"].Str? || data.fields["texts"].Arr?)
  {
  }

  /** A list body gets the missing-texts reply unless it holds the string `texts`, whose lookup then raises. */
  lemma ListBodies(items: seq<Value>)
    requires items != []
    ensures BatchTexts(Arr(items)) == if Str("texts") in items then Unusable else NoTexts
  {
  }

  /** A string as `texts` is translated character by character. */
  lemma StringTextsByCharacter()
    ensures BatchTexts(Obj(map["texts" := Str("hello")])) == Items(["h", "e", "l", "l", "o"])
  {
    var data := Obj(map["texts" := Str("hello")]);
    assert data.fields["texts"] == Str("hello");
    assert BatchTexts(data) == Items(Characters("hello"));
    assert Characters("hello") == ["h", "e", "l", "l", "o"];
  }

  /** A number, a boolean or null as `texts` has no `len`: the handler raises. */
  lemma ScalarTextsRaise(v: Value)
    requires v.Num? || v.Bool? || v.Null?
    ensures BatchTexts(Obj(map["texts" := v])) == Unusable
  {
    var data := Obj(map["texts" := v]);
    assert "texts" in data.fields && data.fields["texts"] == v;
    assert Truthy(data);
  }
}
