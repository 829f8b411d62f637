/**
 * `StaticLoader`: bundles and fallback chains fixed at build time, with
 * lookups that negotiate a chain over the bundle keys at every call and
 * treat an unknown language as a miss (the lenient policy).
 */
module Static {
  import opened Base
  import opened LangId
  import opened Fluent
  import opened Resolution
  import opened Languages
  import opened LanguagesFacts
  import Shared
  import Loader

  /**
   * The loader's three fields. The hash maps' iteration orders, which decide
   * the order in which negotiation sees the bundle keys and in which
   * `locales` yields the fallback keys, are recorded beside them.
   */
  datatype StaticLoader = StaticLoader(
    bundles: map<Tag, Bundle>,
    bundleOrder: seq<Tag>,
    fallbacks: map<Tag, seq<Tag>>,
    fallbackOrder: seq<Tag>,
    fallback: Tag)

  /** The recorded orders enumerate the maps' keys. */
  ghost predicate Valid(s: StaticLoader)
  {
    Enumerates(s.bundleOrder, s.bundles.Keys) && Enumerates(s.fallbackOrder, s.fallbacks.Keys)
  }

  /** `StaticLoader::lookup_single_language`. */
  function LookupSingleLanguage(s: StaticLoader, lang: Tag, textId: string, args: Option<Args>, fmt: Formatter): Outcome<Option<string>>
  {
    Shared.LookupSingleLanguage(s.bundles, lang, textId, args, fmt)
  }

  /** `StaticLoader::lookup_no_default_fallback`: the stored chain only, never the fallback language. */
  function LookupNoDefaultFallback(s: StaticLoader, lang: Tag, textId: string, args: Option<Args>, fmt: Formatter): (r: Outcome<Option<string>>)
    ensures lang !in s.fallbacks ==> r == Done(None)
    ensures lang in s.fallbacks ==> IsFirstHit(s.fallbacks[lang], l => LookupSingleLanguage(s, l, textId, args, fmt), r)
  {
    Shared.LookupNoDefaultFallback(s.bundles, s.fallbacks, lang, textId, args, fmt)
  }

  /** The chain a lookup walks: the language negotiated against the bundle keys, without a default. */
  function Chain(s: StaticLoader, lang: Tag): seq<Tag>
  {
    NegotiateLanguages([lang], s.bundleOrder, None)
  }

  /** `try_lookup_complete`: the first chain language that answers, else the fallback language's answer. */
  function TryLookupComplete(s: StaticLoader, lang: Tag, textId: string, args: Option<Args>, fmt: Formatter): Outcome<Option<string>>
  {
    var single := l => LookupSingleLanguage(s, l, textId, args, fmt);
    match FirstHit(Chain(s, lang), single)
    case Done(None) => if lang != s.fallback then single(s.fallback) else Done(None)
    case other => other
  }

  /** `lookup_complete`: the same walk, ending in the sentinel text instead of a miss. */
  function LookupComplete(s: StaticLoader, lang: Tag, textId: string, args: Option<Args>, fmt: Formatter): Outcome<string>
  {
    WalkWithFallback(Chain(s, lang), lang, s.fallback, l => LookupSingleLanguage(s, l, textId, args, fmt), textId)
  }

  /** `locales`: the keys of the fallback map. */
  function Locales(s: StaticLoader): (r: seq<Tag>)
    ensures Valid(s) ==> forall t :: t in r <==> t in s.fallbacks
    ensures Valid(s) ==> Distinct(r)
  {
    s.fallbackOrder
  }

  /**
   * A lookup is the first non-miss over the chain followed by the fallback
   * language (when that was not the language asked for).
   */
  lemma TryLookupWalksCandidates(s: StaticLoader, lang: Tag, textId: string, args: Option<Args>, fmt: Formatter)
    ensures var single := l => LookupSingleLanguage(s, l, textId, args, fmt);
      TryLookupComplete(s, lang, textId, args, fmt) == FirstHit(Candidates(Chain(s, lang), lang, s.fallback), single)
    ensures IsFirstHit(Candidates(Chain(s, lang), lang, s.fallback), l => LookupSingleLanguage(s, l, textId, args, fmt), TryLookupComplete(s, lang, textId, args, fmt))
  {
    var single := l => LookupSingleLanguage(s, l, textId, args, fmt);
    var extra := if lang != s.fallback then [s.fallback] else [];
    FirstHitAppend(Chain(s, lang), extra, single);
    if lang != s.fallback {
      assert extra[1..] == [];
    }
    FirstHitIsFirst(Candidates(Chain(s, lang), lang, s.fallback), single);
  }

  /** `lookup_complete` answers what `try_lookup_complete` answers, with the sentinel for a miss. */
  lemma LookupCompleteAgrees(s: StaticLoader, lang: Tag, textId: string, args: Option<Args>, fmt: Formatter)
    ensures LookupComplete(s, lang, textId, args, fmt) == Present(TryLookupComplete(s, lang, textId, args, fmt), textId)
  {
    WalkWithFallbackIsFirstHit(Chain(s, lang), lang, s.fallback, l => LookupSingleLanguage(s, l, textId, args, fmt), textId);
    TryLookupWalksCandidates(s, lang, textId, args, fmt);
  }

  /**
   * The lenient policy: no language, known or not, makes a lookup panic; the
   * only panic left is a pattern that fails to format.
   */
  lemma LookupOnlyPanicsOnFormatting(s: StaticLoader, lang: Tag, textId: string, args: Option<Args>, fmt: Formatter)
    ensures TryLookupComplete(s, lang, textId, args, fmt).Panic? ==> TryLookupComplete(s, lang, textId, args, fmt).reason.FormatFailed?
    ensures LookupComplete(s, lang, textId, args, fmt).Panic? ==> LookupComplete(s, lang, textId, args, fmt).reason.FormatFailed?
  {
    var single := l => LookupSingleLanguage(s, l, textId, args, fmt);
    TryLookupWalksCandidates(s, lang, textId, args, fmt);
    LookupCompleteAgrees(s, lang, textId, args, fmt);
    var r := TryLookupComplete(s, lang, textId, args, fmt);
    if r.Panic? {
      var candidates := Candidates(Chain(s, lang), lang, s.fallback);
      var i :| 0 <= i < |candidates| && r == single(candidates[i]);
    }
  }

  /** Every language a chain names has a bundle. */
  lemma ChainNamesBundles(s: StaticLoader, lang: Tag)
    requires Valid(s)
    ensures forall t :: t in Chain(s, lang) ==> t in s.bundles
  {
    forall t | t in Chain(s, lang) ensures t in s.bundles {
      FilterMatchesMembership([lang], s.bundleOrder, t);
    }
  }

  /** A language with a bundle heads its own chain. */
  lemma ChainStartsWithLanguage(s: StaticLoader, lang: Tag)
    requires Valid(s) && lang in s.bundles
    ensures |Chain(s, lang)| > 0 && Chain(s, lang)[0] == lang
  {
    RequestedTagComesFirst(lang, s.bundleOrder);
  }

  /** When the requested language's own bundle answers, no other language is consulted. */
  lemma OwnAnswerWins(s: StaticLoader, lang: Tag, textId: string, args: Option<Args>, fmt: Formatter)
    requires Valid(s) && lang in s.bundles
    requires LookupSingleLanguage(s, lang, textId, args, fmt) != Done(None)
    ensures TryLookupComplete(s, lang, textId, args, fmt) == LookupSingleLanguage(s, lang, textId, args, fmt)
  {
    ChainStartsWithLanguage(s, lang);
  }

  /** When every chain language misses, the fallback language answers. */
  lemma FallbackAnswersWhenChainMisses(s: StaticLoader, lang: Tag, textId: string, args: Option<Args>, fmt: Formatter)
    requires lang != s.fallback
    requires forall t :: t in Chain(s, lang) ==> LookupSingleLanguage(s, t, textId, args, fmt) == Done(None)
    ensures TryLookupComplete(s, lang, textId, args, fmt) == LookupSingleLanguage(s, s.fallback, textId, args, fmt)
  {
    var single := l => LookupSingleLanguage(s, l, textId, args, fmt);
    FirstHitIsFirst(Chain(s, lang), single);
  }

  /** The loader behind a `dyn Loader`, with the formatter bound in. */
  function AsLoader(s: StaticLoader, fmt: Formatter): (r: Loader.LoaderView)
    ensures Loader.Coherent(r)
    ensures Valid(s) ==> forall t :: t in r.locales <==> t in s.fallbacks
  {
    forall lang, textId, args ensures LookupComplete(s, lang, textId, args, fmt) == Present(TryLookupComplete(s, lang, textId, args, fmt), textId) {
      LookupCompleteAgrees(s, lang, textId, args, fmt);
    }
    Loader.LoaderView(
      (lang, textId, args) => LookupComplete(s, lang, textId, args, fmt),
      (lang, textId, args) => TryLookupComplete(s, lang, textId, args, fmt),
      Locales(s))
  }
}

/**
 * A two-language static loader (English and French, English as the
 * fallback) and the answers it gives.
 */
module StaticScenario {
  import opened Base
  import opened LangId
  import opened Fluent
  import opened Resolution
  import opened Languages
  import opened LanguagesFacts
  import opened Static
  import Shared

  const Fr := Tag("fr", None, None, [])

  const Greeting := Message("greeting", Some(Pattern("Hello")), [Attribute("placeholder", Pattern("Your name"))])

  function EnglishBundle(): Bundle
  {
    Bundle([EnUs], map["hello-world" := Message("hello-world", Some(Pattern("Hello World!")), []), "greeting" := Greeting], true)
  }

  function FrenchBundle(): Bundle
  {
    Bundle([Fr], map["hello-world" := Message("hello-world", Some(Pattern("Bonjour le monde!")), [])], true)
  }

  function Sample(): (s: StaticLoader)
    ensures Valid(s)
  {
    var s := StaticLoader(map[EnUs := EnglishBundle(), Fr := FrenchBundle()], [EnUs, Fr], map[EnUs := [EnUs], Fr := [Fr]], [EnUs, Fr], EnUs);
    assert EnUs != Fr;
    s
  }

  /** A formatter for patterns without placeables: the pattern's text, no errors. */
  function Verbatim(): Formatter
  {
    (b: Bundle, p: Pattern, args: Option<Args>) => Formatted(p.source, [])
  }

  /** French is asked for and answers itself. */
  lemma RequestedLanguageAnswers()
    ensures TryLookupComplete(Sample(), Fr, "hello-world", None, Verbatim()) == Done(Some("Bonjour le monde!"))
  {
    Shared.PlainIdAddressesValue(FrenchBundle(), "hello-world");
    OwnAnswerWins(Sample(), Fr, "hello-world", None, Verbatim());
  }

  /** Nothing the sample loader holds negotiates to German. */
  lemma GermanChain()
    ensures Chain(Sample(), De) == []
  {
    assert !AcceptedByAny([De], EnUs) && !AcceptedByAny([De], Fr);
    NothingAcceptedGivesEmpty([De], [EnUs, Fr]);
  }

  /** English answers `hello-world` with its own text. */
  lemma EnglishGreets()
    ensures LookupSingleLanguage(Sample(), EnUs, "hello-world", None, Verbatim()) == Done(Some("Hello World!"))
  {
    var s := Sample();
    Shared.PlainIdAddressesValue(s.bundles[EnUs], "hello-world");
    Shared.CleanFormatAnswers(s.bundles, EnUs, "hello-world", None, Verbatim(), "Hello World!");
  }

  /** German has no bundle and nothing negotiates to it, so the English fallback answers. */
  lemma MissingLanguageFallsBack()
    ensures TryLookupComplete(Sample(), De, "hello-world", None, Verbatim()) == Done(Some("Hello World!"))
    ensures LookupComplete(Sample(), De, "hello-world", None, Verbatim()) == Done("Hello World!")
  {
    GermanChain();
    EnglishGreets();
    FallbackAnswersWhenChainMisses(Sample(), De, "hello-world", None, Verbatim());
    LookupCompleteAgrees(Sample(), De, "hello-world", None, Verbatim());
  }

  /** English negotiates to itself alone: French is no match for it. */
  lemma EnglishChain()
    ensures Chain(Sample(), EnUs) == [EnUs]
  {
    var s := Sample();
    var r := Chain(s, EnUs);
    ChainStartsWithLanguage(s, EnUs);
    assert !AcceptedByAny([EnUs], Fr);
    assert multiset(r)[EnUs] == 1 by {
      assert AcceptedByAny([EnUs], EnUs) by {
        assert Matches(EnUs, EnUs, false, false);
      }
      assert multiset(s.bundleOrder)[EnUs] == 1;
    }
  }

  /** `greeting.placeholder` reaches the attribute. */
  lemma AttributeAddressing()
    ensures TryLookupComplete(Sample(), EnUs, "greeting.placeholder", None, Verbatim()) == Done(Some("Your name"))
  {
    var id := "greeting.placeholder";
    assert id == "greeting" + "." + "placeholder";
    var s := Sample();
    Shared.DottedIdAddressesAttribute(EnglishBundle(), "greeting", "placeholder");
    assert Shared.ResolvePattern(s.bundles[EnUs], id) == Some(Pattern("Your name"));
    Shared.CleanFormatAnswers(s.bundles, EnUs, id, None, Verbatim(), "Your name");
    OwnAnswerWins(s, EnUs, id, None, Verbatim());
  }

  /** A nonexistent attribute is a miss, not a panic, and the non-`try` lookup turns it into the sentinel. */
  lemma MissingAttributeMisses()
    ensures TryLookupComplete(Sample(), EnUs, "greeting.nope", None, Verbatim()) == Done(None)
    ensures LookupComplete(Sample(), EnUs, "greeting.nope", None, Verbatim()) == Done(Sentinel("greeting.nope"))
  {
    var s := Sample();
    var id := "greeting.nope";
    NopeMisses();
    EnglishChain();
    TryLookupWalksCandidates(s, EnUs, id, None, Verbatim());
    assert Candidates(Chain(s, EnUs), EnUs, s.fallback) == [EnUs];
    LookupCompleteAgrees(s, EnUs, id, None, Verbatim());
  }

  /** English has no `nope` attribute on `greeting`. */
  lemma NopeMisses()
    ensures LookupSingleLanguage(Sample(), EnUs, "greeting.nope", None, Verbatim()) == Done(None)
  {
    var s := Sample();
    var id := "greeting.nope";
    assert id == "greeting" + "." + "nope";
    Shared.DottedIdAddressesAttribute(s.bundles[EnUs], "greeting", "nope");
  }
}
