/**
 * Deterministic voice and language resolution: which synthesis voice speaks a
 * reply, and which recognition languages the speech-to-text request asks for.
 */
module Voice {
  import opened Wrappers
  import opened Text
  import opened Profile

  /** Language name (as stored in the settings) to a two-letter code, for voice choice. */
  const LangCodeMap: map<string, string> := map[
    "Inglés" := "en", "Español" := "es", "Francés" := "fr", "Alemán" := "de",
    "Italiano" := "it", "Portugués" := "pt", "Japonés" := "ja",
    "Chino" := "zh", "Ruso" := "ru"]

  /** Fallback voice for a reply in a language that is neither the user's native nor target one. */
  const FallbackVoices: map<string, string> := map[
    "en" := "en-US-Studio-O", "es" := "es-ES-Studio-C", "fr" := "fr-FR-Studio-A",
    "de" := "de-DE-Studio-C", "it" := "it-IT-Neural2-A", "pt" := "pt-BR-Neural2-A",
    "ja" := "ja-JP-Neural2-B", "zh" := "zh-CN-Wavenet-A", "ru" := "ru-RU-Wavenet-A"]

  /** Language name to the recognition code the speech-to-text service expects. */
  const SttLangMap: map<string, string> := map[
    "Español" := "es-ES", "Inglés" := "en-US", "Francés" := "fr-FR",
    "Alemán" := "de-DE", "Italiano" := "it-IT", "Portugués" := "pt-BR",
    "Japonés" := "ja-JP", "Chino" := "zh-CN", "Ruso" := "ru-RU"]

  /** Python `dict.get(k, d)`. */
  function Get(m: map<string, string>, k: string, d: string): (r: string)
    ensures k in m ==> r == m[k]
    ensures k !in m ==> r == d
  {
    if k in m then m[k] else d
  }

  /** The language of a tag such as "en-US": its part before the first '-', lower-cased. */
  function PrimaryLanguage(tag: string): (r: string)
    ensures '-' !in r && |r| <= |tag|
    ensures r == Lower(tag[..|r|]) && (|r| < |tag| ==> tag[|r|] == '-')
  {
    Lower(BeforeFirst(tag, '-'))
  }

  function TargetVoice(config: Option<ConfigVoz>): string
  {
    if config.Some? then config.value.voiceCodeTts else "en-US-Studio-O"
  }

  function NativeVoice(config: Option<ConfigVoz>): string
  {
    if config.Some? then config.value.voiceCodeNativeTts else "es-ES-Neural2-B"
  }

  /** The two-letter code of the user's native language ("es" by default and for unknown names). */
  function NativeCode(config: Option<ConfigVoz>): (c: string)
    ensures c == "es" || c in LangCodeMap.Values
    ensures config.None? || config.value.idiomaNativo !in LangCodeMap ==> c == "es"
    ensures config.Some? && config.value.idiomaNativo in LangCodeMap ==> c == LangCodeMap[config.value.idiomaNativo]
  {
    if config.Some? then Get(LangCodeMap, config.value.idiomaNativo, "es") else "es"
  }

  /** The two-letter code of the language being learnt ("en" by default and for unknown names). */
  function TargetCode(config: Option<ConfigVoz>): (c: string)
    ensures c == "en" || c in LangCodeMap.Values
    ensures config.None? || config.value.idiomaObjetivo !in LangCodeMap ==> c == "en"
    ensures config.Some? && config.value.idiomaObjetivo in LangCodeMap ==> c == LangCodeMap[config.value.idiomaObjetivo]
  {
    if config.Some? then Get(LangCodeMap, config.value.idiomaObjetivo, "en") else "en"
  }

  /** A freshly created settings row resolves to the same language codes as no settings at all. */
  lemma DefaultSettingsLikeNone()
    ensures NativeCode(Some(Defaults())) == NativeCode(None) == "es"
    ensures TargetCode(Some(Defaults())) == TargetCode(None) == "en"
  {
  }

  /**
   * The voice that speaks a reply declared to be in language `idiomaRespuesta`:
   * the native voice, else the target voice, else the fixed fallback table,
   * else the target voice again.
   */
  function PickVoice(idiomaRespuesta: string, config: Option<ConfigVoz>): (v: string)
    ensures var lang := PrimaryLanguage(idiomaRespuesta);
      && (lang == NativeCode(config) ==> v == NativeVoice(config))
      && (lang != NativeCode(config) && lang == TargetCode(config) ==> v == TargetVoice(config))
      && (lang != NativeCode(config) && lang != TargetCode(config) && lang in FallbackVoices ==>
            v == FallbackVoices[lang])
      && (lang != NativeCode(config) && lang != TargetCode(config) && lang !in FallbackVoices ==>
            v == TargetVoice(config))
  {
    var lang := PrimaryLanguage(idiomaRespuesta);
    if lang == NativeCode(config) then NativeVoice(config)
    else if lang == TargetCode(config) then TargetVoice(config)
    else if lang in FallbackVoices then FallbackVoices[lang]
    else TargetVoice(config)
  }

  /** Every voice the resolver can pick is one of the user's two voices or a table voice. */
  lemma PickVoiceRange(idiomaRespuesta: string, config: Option<ConfigVoz>)
    ensures PickVoice(idiomaRespuesta, config) in {NativeVoice(config), TargetVoice(config)} + FallbackVoices.Values
  {
    var lang := PrimaryLanguage(idiomaRespuesta);
    if lang != NativeCode(config) && lang != TargetCode(config) && lang in FallbackVoices {
      assert FallbackVoices[lang] in FallbackVoices.Values;
    }
  }

  /** The language of a code shaped "xy-..." with two lower-case letters is "xy". */
  lemma PrimaryOfCode(code: string)
    requires |code| >= 3 && code[2] == '-'
    requires 'a' <= code[0] <= 'z' && 'a' <= code[1] <= 'z'
    ensures PrimaryLanguage(code) == code[..2]
  {
    assert BeforeFirst(code[2..], '-') == [];
    assert BeforeFirst(code[1..], '-') == [code[1]];
    assert BeforeFirst(code, '-') == code[..2];
  }

  /** A fallback voice always speaks the language it was chosen for. */
  lemma FallbackVoiceSpeaksLanguage(lang: string)
    requires lang in FallbackVoices
    ensures PrimaryLanguage(FallbackVoices[lang]) == lang
  {
    PrimaryOfCode(FallbackVoices[lang]);
  }

  /** The two name tables agree: the recognition code of a language begins with its voice code. */
  lemma LanguageTablesAgree(name: string)
    ensures name in LangCodeMap <==> name in SttLangMap
    ensures name in LangCodeMap ==> PrimaryLanguage(SttLangMap[name]) == LangCodeMap[name]
  {
    if name in LangCodeMap {
      PrimaryOfCode(SttLangMap[name]);
    }
  }

  /** Speech-to-text language hints: a primary recognition code and a set of alternatives. */
  datatype SttHints = SttHints(primary: string, alternatives: set<string>)

  function NativeSttCode(config: ConfigVoz): string
  {
    Get(SttLangMap, config.idiomaNativo, "es-ES")
  }

  /**
   * The hints sent with a recognition request. Without settings (or without a
   * signed-in user) the defaults "es-ES" and ["en-US"] are used.
   */
  function SttHintsFor(authenticated: bool, config: Option<ConfigVoz>): (h: SttHints)
    ensures !(authenticated && config.Some?) ==> h == SttHints("es-ES", {"en-US"})
    ensures authenticated && config.Some? ==>
              h.primary == Get(SttLangMap, config.value.idiomaObjetivo, "es-ES")
    ensures h.primary !in h.alternatives
    ensures |h.alternatives| <= 3
    ensures authenticated && config.Some? ==>
              h.alternatives <= {NativeSttCode(config.value), "en-US", "es-ES"}
              && forall x :: x in {NativeSttCode(config.value), "en-US", "es-ES"} && x != h.primary ==> x in h.alternatives
  {
    if authenticated && config.Some? then
      var primary := Get(SttLangMap, config.value.idiomaObjetivo, "es-ES");
      var all := {NativeSttCode(config.value), "en-US", "es-ES"};
      var alts := all - {primary};
      AtMostThree(NativeSttCode(config.value), "en-US", "es-ES", alts);
      SttHints(primary, alts)
    else
      SttHints("es-ES", {"en-US"})
  }

  lemma AtMostThree(a: string, b: string, c: string, s: set<string>)
    requires s <= {a, b, c}
    ensures |s| <= 3
  {
    var t := {a, b, c};
    assert |t| <= 3;
    SubsetCard(s, t);
  }

  lemma {:induction false} SubsetCard(s: set<string>, t: set<string>)
    requires s <= t
    ensures |s| <= |t|
    decreases t
  {
    if s != {} {
      var x :| x in s;
      SubsetCard(s - {x}, t - {x});
    }
  }
}
