/**
 * The `StaticLoader` of the `templates/` tree: chains are the stored
 * fallback map (no negotiation at lookup time), a language without a chain
 * goes straight to the fallback language, and the single-language lookup is
 * strict and value-only.
 */
module TemplatesStatic {
  import opened Base
  import opened LangId
  import opened Fluent
  import opened Resolution
  import Shared
  import TemplatesLoader

  /** The loader's fields, with the iteration order of the fallback map's keys. */
  datatype StaticLoader = StaticLoader(
    bundles: map<Tag, Bundle>,
    fallbacks: map<Tag, seq<Tag>>,
    fallbackOrder: seq<Tag>,
    fallback: Tag)

  /**
   * `StaticLoader::lookup_single_language`: a language without a bundle
   * panics; only message values are looked up; absent arguments reach the
   * formatter as an empty map.
   */
  function LookupSingleLanguage(s: StaticLoader, lang: Tag, textId: string, args: Option<Args>, fmt: Formatter): Outcome<Option<string>>
  {
    StrictValueLookup(s.bundles, lang, textId, TemplatesLoader.MapToStrMap(args), fmt)
  }

  /** The stored chain of a language; none for a language without one. */
  function StoredChain(s: StaticLoader, lang: Tag): seq<Tag>
  {
    if lang in s.fallbacks then s.fallbacks[lang] else []
  }

  /** `lookup_no_default_fallback`: the stored chain only; a language without one is a miss. */
  function LookupNoDefaultFallback(s: StaticLoader, lang: Tag, textId: string, args: Option<Args>, fmt: Formatter): (r: Outcome<Option<string>>)
    ensures lang !in s.fallbacks ==> r == Done(None)
    ensures lang in s.fallbacks ==> IsFirstHit(s.fallbacks[lang], l => LookupSingleLanguage(s, l, textId, args, fmt), r)
  {
    ChainLookup(s.fallbacks, lang, l => LookupSingleLanguage(s, l, textId, args, fmt))
  }

  /** `lookup_complete`: the stored chain if there is one, then the fallback language, then the sentinel. */
  function LookupComplete(s: StaticLoader, lang: Tag, textId: string, args: Option<Args>, fmt: Formatter): Outcome<string>
  {
    WalkWithFallback(StoredChain(s, lang), lang, s.fallback, l => LookupSingleLanguage(s, l, textId, args, fmt), textId)
  }

  /** `locales`: the keys of the fallback map. */
  function Locales(s: StaticLoader): (r: seq<Tag>)
    ensures Enumerates(s.fallbackOrder, s.fallbacks.Keys) ==> forall t :: t in r <==> t in s.fallbacks
    ensures Enumerates(s.fallbackOrder, s.fallbacks.Keys) ==> Distinct(r)
  {
    s.fallbackOrder
  }

  /** The loader behind a `dyn Loader` of this tree. */
  function AsLoader(s: StaticLoader, fmt: Formatter): TemplatesLoader.LoaderView
  {
    TemplatesLoader.LoaderView((lang, textId, args) => LookupComplete(s, lang, textId, args, fmt))
  }

  /** A lookup is the first non-miss over the stored chain and the fallback language, with the sentinel for a miss. */
  lemma LookupWalksCandidates(s: StaticLoader, lang: Tag, textId: string, args: Option<Args>, fmt: Formatter)
    ensures LookupComplete(s, lang, textId, args, fmt)
         == Present(FirstHit(Candidates(StoredChain(s, lang), lang, s.fallback), l => LookupSingleLanguage(s, l, textId, args, fmt)), textId)
  {
    WalkWithFallbackIsFirstHit(StoredChain(s, lang), lang, s.fallback, l => LookupSingleLanguage(s, l, textId, args, fmt), textId);
  }

  /** A language without a chain is answered by the fallback language alone (or the sentinel). */
  lemma UnchainedLanguageUsesFallback(s: StaticLoader, lang: Tag, textId: string, args: Option<Args>, fmt: Formatter)
    requires lang !in s.fallbacks
    ensures lang != s.fallback ==> LookupComplete(s, lang, textId, args, fmt) == Present(LookupSingleLanguage(s, s.fallback, textId, args, fmt), textId)
    ensures lang == s.fallback ==> LookupComplete(s, lang, textId, args, fmt) == Done(Sentinel(textId))
  {
  }

  /** The loader exposed through the interface answers as `lookup_complete`. */
  lemma AsLoaderAnswers(s: StaticLoader, fmt: Formatter, lang: Tag, textId: string, args: Option<Args>)
    ensures AsLoader(s, fmt).lookup(lang, textId, args) == LookupComplete(s, lang, textId, args, fmt)
    ensures TemplatesLoader.Delegate(AsLoader(s, fmt)).lookup(lang, textId, args) == LookupComplete(s, lang, textId, args, fmt)
  {
  }
}

/**
 * A dotted id in the `templates/` static loader names a message literally:
 * the attribute the crate's loaders reach through `greeting.placeholder`
 * is invisible to it.
 */
module TemplatesStaticScenario {
  import opened Base
  import opened LangId
  import opened Fluent
  import opened Resolution
  import opened LanguagesFacts
  import opened StaticScenario
  import opened TemplatesStatic
  import Shared

  lemma DottedIdIsLiteral()
    ensures var s := StaticLoader(map[EnUs := EnglishBundle()], map[EnUs := [EnUs]], [EnUs], EnUs);
      LookupSingleLanguage(s, EnUs, "greeting.placeholder", None, Verbatim()) == Done(None)
    ensures Shared.LookupSingleLanguage(map[EnUs := EnglishBundle()], EnUs, "greeting.placeholder", None, Verbatim()) == Done(Some("Your name"))
  {
    var id := "greeting.placeholder";
    assert id == "greeting" + "." + "placeholder";
    assert id !in EnglishBundle().messages;
    Shared.DottedIdAddressesAttribute(EnglishBundle(), "greeting", "placeholder");
    assert Shared.ResolvePattern(EnglishBundle(), id) == Some(Pattern("Your name"));
  }
}
