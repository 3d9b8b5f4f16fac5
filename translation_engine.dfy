/**
 * The string logic of the model-backed translation engine
 * (translation_engine.py): style prompts, NLLB language tokens, prompt
 * assembly, post-processing of the decoded output, detector-label mapping,
 * and the error path of `translate`. The tokenizer, the model and the
 * language detector are functions supplied with the engine.
 */
module TranslationEngine {
  import opened Wrappers
  import opened Text

  /** `SUPPORTED_LANGUAGES`, in declaration order. */
  const SupportedLanguages: seq<(string, string)> := [
    ("en", "English"), ("es", "Spanish"), ("fr", "French"), ("de", "German"),
    ("it", "Italian"), ("pt", "Portuguese"), ("ru", "Russian"), ("ja", "Japanese"),
    ("ko", "Korean"), ("zh", "Chinese"), ("ar", "Arabic"), ("hi", "Hindi"),
    ("ur", "Urdu"), ("bn", "Bengali"), ("tr", "Turkish"), ("pl", "Polish"),
    ("nl", "Dutch"), ("sv", "Swedish"), ("da", "Danish"), ("no", "Norwegian")
  ]

  /** `get_supported_languages()`: the keys of `SUPPORTED_LANGUAGES`, in order. */
  function SupportedCodes(): (codes: seq<string>)
    ensures |codes| == |SupportedLanguages|
    ensures forall i :: 0 <= i < |codes| ==> codes[i] == SupportedLanguages[i].0
  {
    seq(|SupportedLanguages|, i requires 0 <= i < |SupportedLanguages| => SupportedLanguages[i].0)
  }

  /** `target_lang in SUPPORTED_LANGUAGES`. */
  predicate IsSupported(code: string) {
    code in SupportedCodes()
  }

  /** The `style_prompts` table of `_apply_style`. */
  function StylePrompt(style: string): Option<string> {
    match style
    case "formal" => Some("Translate this formally and professionally: ")
    case "casual" => Some("Translate this in a casual, friendly way: ")
    case "technical" => Some("Translate this technical content accurately: ")
    case "literary" => Some("Translate this with literary and poetic style: ")
    case _ => None
  }

  /** `_apply_style`: the style's prompt, when it has one, followed by the text. */
  function ApplyStyle(text: string, style: string): string {
    match StylePrompt(style)
    case Some(prompt) => prompt + text
    case None => text
  }

  /** The `nllb_codes` table of `_get_lang_token`. */
  const NllbCodes: map<string, string> := map[
    "en" := "eng_Latn", "es" := "spa_Latn", "fr" := "fra_Latn",
    "de" := "deu_Latn", "it" := "ita_Latn", "pt" := "por_Latn",
    "ru" := "rus_Cyrl", "ja" := "jpn_Jpan", "ko" := "kor_Hang",
    "zh" := "zho_Hans", "ar" := "arb_Arab", "hi" := "hin_Deva",
    "ur" := "urd_Arab", "bn" := "ben_Beng", "tr" := "tur_Latn"
  ]

  /** `_get_lang_token`: the NLLB token of a code, `eng_Latn` for codes the table lacks. */
  function LangToken(code: string): string {
    if code in NllbCodes then NllbCodes[code] else "eng_Latn"
  }

  /** `_post_process_translation`. */
  function PostProcess(text: string, style: string): string {
    // The sentencepiece clean-up replaces a plain space with a plain space.
    var t := Replace(text, " ", " ");
    var t := CollapseSpaces(t);
    var t := if style == "formal" then Replace(t, " i ", " I ") else t;
    Strip(t)
  }

  /** The text handed to the tokenizer, and the forced target token (NLLB models only). */
  datatype ModelInput = ModelInput(text: string, targetToken: Option<string>)

  /** Prompt assembly in `translate`: style prompt, optional context, then the language marker in front. */
  function BuildInput(modelName: string, text: string, style: string, context: string,
                      sourceLang: string, targetLang: string): ModelInput
  {
    var styled := ApplyStyle(text, style);
    var body := if context != "" then "Context: " + context + "\nTranslate: " + styled else styled;
    if StartsWith(modelName, "facebook/nllb") then
      ModelInput(LangToken(sourceLang) + " " + body, Some(LangToken(targetLang)))
    else
      ModelInput(">>" + targetLang + "<< " + body, None)
  }

  predicate StartsWith(s: string, prefix: string) {
    |prefix| <= |s| && s[..|prefix|] == prefix
  }

  /** The `lang_mapping` table of `detect_language`. */
  const LabelCodes: map<string, string> := map[
    "english" := "en", "spanish" := "es", "french" := "fr",
    "german" := "de", "italian" := "it", "portuguese" := "pt",
    "russian" := "ru", "japanese" := "ja", "korean" := "ko",
    "chinese" := "zh", "arabic" := "ar", "hindi" := "hi",
    "urdu" := "ur", "bengali" := "bn", "turkish" := "tr"
  ]

  /** A detector label, lower-cased, mapped through the table or cut to its first two characters. */
  function MapLabel(raw: string): (code: string)
    ensures |code| <= 2
  {
    var l := Lower(raw);
    if l in LabelCodes then LabelCodes[l] else l[..if |l| < 2 then |l| else 2]
  }

  /**
   * `detect_language`: `en` for text shorter than three characters once
   * stripped and when the detector raises (`None`), the mapped label
   * otherwise; never longer than two characters.
   */
  function DetectLanguage(detector: string -> Option<string>, text: string): (code: string)
    ensures |Strip(text)| < 3 ==> code == "en"
    ensures |code| <= 2
  {
    if |Strip(text)| < 3 then "en"
    else match detector(text)
      case None => "en"
      case Some(raw) => MapLabel(raw)
  }

  /** `_calculate_confidence` for an input of `tokens` tokens: always between 0.7 and 0.9. */
  function Confidence(tokens: nat): (c: real)
    ensures 0.7 <= c <= 0.9
  {
    var raw := 0.9 - (tokens as real) / 1000.0;
    var floor := if raw < 0.7 then 0.7 else raw;
    if floor < 0.95 then floor else 0.95
  }

  /** What tokenizing, generating and decoding produce: the decoded text, or the raised message. */
  datatype Generation = Decoded(text: string) | Raised(message: string)

  /** The loaded engine: its model name, detector, tokenizer length and generator. */
  datatype Engine = Engine(
    modelName: string,
    detector: string -> Option<string>,
    tokenCount: string -> nat,
    generate: ModelInput -> Generation)

  /** The dictionary `translate` returns, without `translation_time`. */
  datatype Result = Result(translatedText: string, detectedLanguage: string, confidence: real, error: Option<string>)

  /** `translate(text, source_lang, target_lang, style, context)`. */
  function Translate(engine: Engine, text: string, sourceLang: string, targetLang: string,
                     style: string, context: string): Result
  {
    var source := if sourceLang == "auto" then DetectLanguage(engine.detector, text) else sourceLang;
    if !IsSupported(targetLang) then
      Result(text, source, 0.0, Some("Unsupported target language: " + targetLang))
    else
      var input := BuildInput(engine.modelName, text, style, context, source, targetLang);
      match engine.generate(input)
      case Raised(message) => Result(text, source, 0.0, Some(message))
      case Decoded(out) => Result(PostProcess(Strip(out), style), source, Confidence(engine.tokenCount(input.text)), None)
  }

  // ---------------------------------------------------------------------------
  // Lemmas
  // ---------------------------------------------------------------------------

  /** The twenty supported codes, in order. */
  lemma SupportedCodesList()
    ensures SupportedCodes() == ["en", "es", "fr", "de", "it", "pt", "ru", "ja", "ko", "zh",
                                 "ar", "hi", "ur", "bn", "tr", "pl", "nl", "sv", "da", "no"]
  {
  }

  /** Every supported code is two lower-case ASCII letters. */
  lemma SupportedCodeShape(code: string)
    requires IsSupported(code)
    ensures |code| == 2 && forall j :: 0 <= j < 2 ==> 'a' <= code[j] <= 'z'
  {
    SupportedCodesList();
  }

  /** A styled text is the original preceded by the prompt, and unchanged exactly for styles without one. */
  lemma ApplyStyleSpec(text: string, style: string)
    ensures EndsWith(ApplyStyle(text, style), text)
    ensures ApplyStyle(text, style) == text <==> style !in {"formal", "casual", "technical", "literary"}
  {
    EndsWithSelf(text);
    match StylePrompt(style)
    case Some(prompt) =>
      EndsWithPrefixed(prompt, text, text);
      assert |prompt| > 0;
    case None =>
  }

  /** Of the twenty supported codes, exactly `pl`, `nl`, `sv`, `da` and `no` have no entry in the NLLB table. */
  lemma NllbCoverage(code: string)
    requires IsSupported(code)
    ensures code !in NllbCodes <==> code in {"pl", "nl", "sv", "da", "no"}
  {
    SupportedCodesList();
  }

  /** `eng_Latn` is the token of `en` and of every code missing from the table, and of no other code. */
  lemma LangTokenEnglish(code: string)
    ensures LangToken(code) == "eng_Latn" <==> code == "en" || code !in NllbCodes
  {
  }

  /**
   * The post-processed output is trimmed, with single spaces between words;
   * except for the formal style it keeps the words of the input, and
   * post-processing it again changes nothing. For the formal style the
   * result is the collapsed text with ` i ` replaced by ` I `.
   */
  lemma PostProcessSpec(text: string, style: string)
    ensures Normalized(PostProcess(text, style))
    ensures style != "formal" ==> Split(PostProcess(text, style)) == Split(text)
    ensures style != "formal" ==> PostProcess(PostProcess(text, style), style) == PostProcess(text, style)
    ensures style == "formal" ==> PostProcess(text, style) == Replace(CollapseSpaces(text), " i ", " I ")
  {
    ReplaceSelf(text, " ");
    var t := CollapseSpaces(text);
    CollapseSpacesSpec(text);
    if style == "formal" {
      var u := Replace(t, " i ", " I ");
      ReplaceKeepsShape(t, " i ", " I ");
      NormalizedByShape(t, u);
      StripNormalized(u);
    } else {
      StripNormalized(t);
      ReplaceSelf(t, " ");
      CollapseSpacesIdempotent(text);
      StripNormalized(t);
    }
  }

  /** The model sees the raw text last, after the style prompt, the context block and the language marker. */
  lemma BuildInputEndsWithText(modelName: string, text: string, style: string, context: string,
                               sourceLang: string, targetLang: string)
    ensures EndsWith(BuildInput(modelName, text, style, context, sourceLang, targetLang).text, text)
  {
    var styled := ApplyStyle(text, style);
    ApplyStyleSpec(text, style);
    var body := if context != "" then "Context: " + context + "\nTranslate: " + styled else styled;
    if context != "" {
      EndsWithPrefixed("Context: " + context + "\nTranslate: ", styled, text);
    }
    var marker := if StartsWith(modelName, "facebook/nllb") then LangToken(sourceLang) + " " else ">>" + targetLang + "<< ";
    EndsWithPrefixed(marker, body, text);
  }

  /**
   * NLLB models get the source token in front and the target token forced;
   * other models get `>>target<<` in front and no forced token. The context
   * block appears exactly when a context is given.
   */
  lemma BuildInputSpec(modelName: string, text: string, style: string, context: string,
                       sourceLang: string, targetLang: string)
    ensures var m := BuildInput(modelName, text, style, context, sourceLang, targetLang);
      var body := if context != "" then "Context: " + context + "\nTranslate: " + ApplyStyle(text, style) else ApplyStyle(text, style);
      && (m.targetToken.Some? <==> StartsWith(modelName, "facebook/nllb"))
      && (m.targetToken.Some? ==> m.targetToken.value == LangToken(targetLang) && m.text == LangToken(sourceLang) + " " + body)
      && (m.targetToken.None? ==> m.text == ">>" + targetLang + "<< " + body)
  {
  }

  /** Each supported code, reported by the detector as its own label, is detected as itself. */
  lemma MapLabelOfCode(code: string)
    requires IsSupported(code)
    ensures MapLabel(code) == code
  {
    SupportedCodeShape(code);
    LowerOfLowercase(code);
    assert code !in LabelCodes;
  }

  /** Language names map to their codes whatever their case; an unknown label keeps its first two letters. */
  lemma MapLabelExamples()
    ensures MapLabel("English") == "en"
    ensures MapLabel("CHINESE") == "zh"
    ensures MapLabel("Klingon") == "kl"
  {
    assert Lower("English") == "english";
    assert Lower("CHINESE") == "chinese";
    assert Lower("Klingon") == "klingon";
  }

  /** The mapping ignores the case of the label. */
  lemma MapLabelIgnoresCase(raw: string)
    ensures MapLabel(raw) == MapLabel(Lower(raw))
  {
    LowerOfLowercase(Lower(raw));
  }

  /**
   * `translate` fails soft: an unsupported target or a raised error returns
   * the original text with confidence 0 and an error; a success returns
   * post-processed text with confidence between 0.7 and 0.9. The detected
   * language is the given source, or a code of at most two characters for
   * `auto`.
   */
  lemma TranslateSpec(engine: Engine, text: string, sourceLang: string, targetLang: string,
                      style: string, context: string)
    ensures var r := Translate(engine, text, sourceLang, targetLang, style, context);
      && (r.error.Some? ==> r.translatedText == text && r.confidence == 0.0)
      && (r.error.None? ==> Normalized(r.translatedText) && 0.7 <= r.confidence <= 0.9)
      && (!IsSupported(targetLang) ==> r.error == Some("Unsupported target language: " + targetLang))
      && (sourceLang != "auto" ==> r.detectedLanguage == sourceLang)
      && (sourceLang == "auto" ==> |r.detectedLanguage| <= 2)
  {
    var r := Translate(engine, text, sourceLang, targetLang, style, context);
    if r.error.None? {
      var source := if sourceLang == "auto" then DetectLanguage(engine.detector, text) else sourceLang;
      var input := BuildInput(engine.modelName, text, style, context, source, targetLang);
      PostProcessSpec(Strip(engine.generate(input).text), style);
    }
  }

  /** An unsupported target is rejected before the model is consulted. */
  lemma UnsupportedIgnoresModel(engine: Engine, generate: ModelInput -> Generation, text: string,
                                sourceLang: string, targetLang: string, style: string, context: string)
    requires !IsSupported(targetLang)
    ensures Translate(engine, text, sourceLang, targetLang, style, context)
         == Translate(engine.(generate := generate), text, sourceLang, targetLang, style, context)
  {
  }
}
