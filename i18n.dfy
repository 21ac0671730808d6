/** app/i18n.py: the Slack locale table and the translation of UI text, with
    its early returns and its process-wide cache keyed `"<lang>:<text>"`. */
module I18n {
  import opened Wrappers
  import opened Chars

  /** `_locale_to_lang`: every locale the Slack app supported in March 2023. */
  const LocaleToLang: map<string, string> := map[
    "en-US" := "English",
    "en-GB" := "English",
    "de-DE" := "German",
    "es-ES" := "Spanish",
    "es-LA" := "Spanish",
    "fr-FR" := "French",
    "it-IT" := "Italian",
    "pt-BR" := "Portuguese",
    "ru-RU" := "Russian",
    "ja-JP" := "Japanese",
    "zh-CN" := "Simplified Chinese",
    "zh-TW" := "Traditional Chinese",
    "ko-KR" := "Korean"
  ]

  /** `from_locale_to_lang`: no locale, or one missing from the table, has no language. */
  function FromLocaleToLang(locale: Option<string>): (r: Option<string>)
    ensures r.None? <==> locale.None? || locale.value !in LocaleToLang
    ensures r.Some? ==> r.value == LocaleToLang[locale.value]
  {
    if locale.None? then None
    else if locale.value in LocaleToLang then Some(LocaleToLang[locale.value])
    else None
  }

  /** Only the two English locales give English. */
  lemma EnglishLocales(locale: Option<string>)
    ensures FromLocaleToLang(locale) == Some("English") <==> locale == Some("en-US") || locale == Some("en-GB")
  {
    if locale.Some? && locale.value in LocaleToLang && LocaleToLang[locale.value] == "English" {
      var l := locale.value;
      assert l in LocaleToLang.Keys;
      assert l == "en-US" || l == "en-GB" || l == "de-DE" || l == "es-ES" || l == "es-LA"
          || l == "fr-FR" || l == "it-IT" || l == "pt-BR" || l == "ru-RU" || l == "ja-JP"
          || l == "zh-CN" || l == "zh-TW" || l == "ko-KR";
    }
  }

  /** `f"{lang}:{text}"`. */
  function CacheKey(lang: string, text: string): string {
    lang + ":" + text
  }

  /** Keys of languages without a colon name their language and text apart. */
  lemma CacheKeyInjective(lang1: string, text1: string, lang2: string, text2: string)
    requires NoneOf(lang1, {':'}) && NoneOf(lang2, {':'})
    requires CacheKey(lang1, text1) == CacheKey(lang2, text2)
    ensures lang1 == lang2 && text1 == text2
  {
    var k := CacheKey(lang1, text1);
    if |lang1| < |lang2| {
      ColonAfterLang(lang1, text1, lang2);
      assert false;
    } else if |lang2| < |lang1| {
      ColonAfterLang(lang2, text2, lang1);
      assert false;
    }
    assert lang1 == k[..|lang1|] == lang2;
    assert text1 == k[|lang1| + 1..] == text2;
  }

  /** The colon of a key sits where a longer colon-free language still has a letter. */
  lemma ColonAfterLang(lang: string, text: string, longer: string)
    requires |lang| < |longer| && NoneOf(longer, {':'})
    ensures CacheKey(lang, text)[|lang|] == ':' != longer[|lang|]
  {
    assert longer[|lang|] in longer;
  }

  /** No language of the table holds a colon. */
  lemma LanguagesHaveNoColon(locale: string)
    requires locale in LocaleToLang
    ensures NoneOf(LocaleToLang[locale], {':'})
  {
    var lang := LocaleToLang[locale];
    assert lang in LocaleToLang.Values;
    assert forall k :: 0 <= k < |lang| ==> lang[k] in lang;
  }

  /** `len(openai_api_key.strip()) == 0`. */
  predicate Blank(s: string) {
    forall k :: 0 <= k < |s| ==> IsSpace(s[k])
  }

  /** The model call of `translate`: the language and the text in, the
      message content (possibly `None`) out. */
  type Completion = (string, string) -> Option<string>

  /** What `translate` returns, the cache it leaves, and the model request it
      makes, if any. */
  datatype Translation = Translation(result: Option<string>, cache: map<string, Option<string>>, request: Option<(string, string)>)

  function TranslateWith(apiKey: Option<string>, locale: Option<string>, text: string,
                         cache: map<string, Option<string>>, complete: Completion): Translation
  {
    if apiKey.None? || Blank(apiKey.value) then Translation(Some(text), cache, None)
    else
      var lang := FromLocaleToLang(locale);
      if lang.None? || lang.value == "English" then Translation(Some(text), cache, None)
      else
        var key := CacheKey(lang.value, text);
        if key in cache && cache[key].Some? then Translation(cache[key], cache, None)
        else
          var translated := complete(lang.value, text);
          Translation(translated, cache[key := translated], Some((lang.value, text)))
  }

  /** Without an API key, or with a blank one, the text comes back as it is. */
  lemma NoKeyKeepsText(apiKey: Option<string>, locale: Option<string>, text: string,
                       cache: map<string, Option<string>>, complete: Completion)
    requires apiKey.None? || Blank(apiKey.value)
    ensures TranslateWith(apiKey, locale, text, cache, complete) == Translation(Some(text), cache, None)
  {
  }

  /** A locale without a language, or an English one, keeps the text and asks nothing. */
  lemma UntranslatedLocales(apiKey: Option<string>, locale: Option<string>, text: string,
                            cache: map<string, Option<string>>, complete: Completion)
    requires locale.None? || locale.value !in LocaleToLang || locale == Some("en-US") || locale == Some("en-GB")
    ensures TranslateWith(apiKey, locale, text, cache, complete) == Translation(Some(text), cache, None)
  {
    EnglishLocales(locale);
  }

  /** A request is made exactly when the key is usable, the language is a
      non-English one, and the cache holds no translation for the key; the
      answer is stored even when it is `None`. */
  lemma RequestOnMiss(apiKey: Option<string>, locale: Option<string>, text: string,
                      cache: map<string, Option<string>>, complete: Completion)
    ensures var t := TranslateWith(apiKey, locale, text, cache, complete);
      var lang := FromLocaleToLang(locale);
      t.request.Some? <==>
        && apiKey.Some? && !Blank(apiKey.value)
        && lang.Some? && lang.value != "English"
        && !(CacheKey(lang.value, text) in cache && cache[CacheKey(lang.value, text)].Some?)
    ensures var t := TranslateWith(apiKey, locale, text, cache, complete);
      t.request.Some? ==>
        && t.request.value == (FromLocaleToLang(locale).value, text)
        && t.result == complete(t.request.value.0, text)
        && t.cache == cache[CacheKey(t.request.value.0, text) := t.result]
    ensures var t := TranslateWith(apiKey, locale, text, cache, complete);
      t.request.None? ==> t.cache == cache
  {
  }

  /** A second translation of the same text for the same locale is served
      from the cache when the first one produced text, and returns it again. */
  lemma TranslateTwice(apiKey: Option<string>, locale: Option<string>, text: string,
                       cache: map<string, Option<string>>, complete: Completion, later: Completion)
    requires TranslateWith(apiKey, locale, text, cache, complete).result.Some?
    ensures var first := TranslateWith(apiKey, locale, text, cache, complete);
      var second := TranslateWith(apiKey, locale, text, first.cache, later);
      second.result == first.result && second.cache == first.cache && second.request.None?
  {
  }

  /** `_translation_result_cache`, with a log of the model requests `translate` makes. */
  class TranslationCache {
    var entries: map<string, Option<string>>
    var requests: seq<(string, string)>

    constructor ()
      ensures entries == map[] && requests == []
    {
      entries := map[];
      requests := [];
    }

    /** `translate(openai_api_key=..., context=..., text=...)`. */
    method Translate(apiKey: Option<string>, locale: Option<string>, text: string, complete: Completion)
      returns (r: Option<string>)
      modifies this
      ensures var t := TranslateWith(apiKey, locale, text, old(entries), complete);
        && r == t.result && entries == t.cache
        && requests == old(requests) + (if t.request.Some? then [t.request.value] else [])
    {
      if apiKey.None? || Blank(apiKey.value) {
        return Some(text);
      }
      var lang := FromLocaleToLang(locale);
      if lang.None? || lang.value == "English" {
        return Some(text);
      }
      var key := CacheKey(lang.value, text);
      if key in entries && entries[key].Some? {
        return entries[key];
      }
      var translated := complete(lang.value, text);
      requests := requests + [(lang.value, text)];
      entries := entries[key := translated];
      return translated;
    }
  }
}
