/**
 * The `ArcLoader` of the crate's `src/loader/arc_loader.rs`: built at run
 * time from per-language resources, an optional core resource and an
 * optional customiser, and strict at lookup time: a language without a
 * fallback chain, or a chain language without a bundle, panics.
 */
module LegacyArc {
  import opened Base
  import opened LangId
  import opened Fluent
  import opened Catalog
  import opened Resolution
  import Shared
  import Loader

  /** `ArcLoaderBuilder`, without the directory it reads from. */
  datatype Builder = Builder(fallback: Tag, core: Option<Resource>, customize: Option<Customizer>)

  /** `ArcLoader::new`: a builder with no core resource and no customiser. */
  function New(fallback: Tag): (b: Builder)
    ensures b.fallback == fallback && b.core.None? && b.customize.None?
  {
    Builder(fallback, None, None)
  }

  /** `ArcLoaderBuilder::core`: sets the core resource and keeps the rest. */
  function WithCore(b: Builder, core: Resource): (r: Builder)
    ensures r.core == Some(core)
    ensures r.fallback == b.fallback && r.customize == b.customize
  {
    b.(core := Some(core))
  }

  /** `ArcLoaderBuilder::customize`: sets the customiser and keeps the rest. */
  function WithCustomize(b: Builder, customize: Customizer): (r: Builder)
    ensures r.customize == Some(customize)
    ensures r.fallback == b.fallback && r.core == b.core
  {
    b.(customize := Some(customize))
  }

  /**
   * The loader's four maps and the fallback language. `localeOrder` is the
   * iteration order of the resource map's keys, which is the order
   * `build_fallbacks` negotiates over and the order `locales` returns.
   */
  datatype ArcLoader = ArcLoader(
    bundles: map<Tag, Bundle>,
    fallback: Tag,
    fallbacks: map<Tag, seq<Tag>>,
    resources: map<Tag, seq<Resource>>,
    localeOrder: seq<Tag>)

  /**
   * One language's bundle as the build loop makes it: the core resource,
   * the language's resources, then the customiser if one is set. A clash
   * panics.
   */
  function BundleFor(b: Builder, lang: Tag, resources: seq<Resource>): (r: Outcome<Bundle>)
    ensures r.Done? <==> Distinct(Ids(Flatten(Loader.CoreList(b.core)) + Flatten(resources)))
    ensures r.Panic? ==> (r.reason == CoreResourceRejected <==> !Distinct(Ids(Flatten(Loader.CoreList(b.core)))))
    ensures r.Panic? ==> r.reason == CoreResourceRejected || r.reason == ResourceRejected
    ensures r.Done? ==> r.value == Customized(b.customize, Bundle([lang], MessagesOf(Flatten(Loader.CoreList(b.core)) + Flatten(resources)), true))
  {
    AssembleMerges(lang, Loader.CoreList(b.core), resources, b.customize);
    match Assemble(lang, Loader.CoreList(b.core), resources, b.customize)
    case Ok(bundle) => Done(bundle)
    case Err(SharedRejected(_)) => Panic(CoreResourceRejected)
    case Err(OwnRejected(_)) => Panic(ResourceRejected)
  }

  /** What a successful build promises about the loader it returns. */
  ghost predicate Built(a: ArcLoader, b: Builder, resources: map<Tag, seq<Resource>>, negotiate: Loader.Negotiator)
  {
    && a.resources == resources
    && a.fallback == b.fallback
    && a.bundles.Keys == resources.Keys
    && (forall lang :: lang in resources ==> BundleFor(b, lang, resources[lang]) == Done(a.bundles[lang]))
    && Enumerates(a.localeOrder, resources.Keys)
    && a.fallbacks == Loader.BuildFallbacks(a.localeOrder, negotiate)
  }

  /**
   * `ArcLoaderBuilder::build` after the directory has been read: a bundle
   * per language, in the map's iteration order, then the fallback chains
   * over the same keys. The first bundle that cannot be made panics.
   */
  method Build(b: Builder, resources: map<Tag, seq<Resource>>, negotiate: Loader.Negotiator) returns (r: Outcome<ArcLoader>)
    ensures r.Done? <==> forall lang :: lang in resources ==> BundleFor(b, lang, resources[lang]).Done?
    ensures r.Done? ==> Built(r.value, b, resources, negotiate)
    ensures r.Panic? ==> exists lang :: lang in resources && BundleFor(b, lang, resources[lang]) == Panic(r.reason)
  {
    var made := BundlesInOrder(resources, (lang, res) => BundleFor(b, lang, res));
    if made.Panic? {
      return Panic(made.reason);
    }
    var (bundles, order) := made.value;
    LoopResultBuilt(bundles, order, b, resources, negotiate);
    return Done(ArcLoader(bundles, b.fallback, Loader.BuildFallbacks(order, negotiate), resources, order));
  }

  /**
   * The bundle loop of the build: `make` applied to each language and its
   * resources, in the order the map yields its keys, which is recorded; the
   * first failure ends it.
   */
  method BundlesInOrder(resources: map<Tag, seq<Resource>>, make: (Tag, seq<Resource>) -> Outcome<Bundle>) returns (r: Outcome<(map<Tag, Bundle>, seq<Tag>)>)
    ensures r.Done? <==> forall lang :: lang in resources ==> make(lang, resources[lang]).Done?
    ensures r.Done? ==> r.value.0.Keys == resources.Keys
    ensures r.Done? ==> Distinct(r.value.1) && forall t :: t in r.value.1 <==> t in r.value.0
    ensures r.Done? ==> forall lang :: lang in r.value.0 ==> make(lang, resources[lang]) == Done(r.value.0[lang])
    ensures r.Panic? ==> exists lang :: lang in resources && make(lang, resources[lang]) == Panic(r.reason)
  {
    var bundles: map<Tag, Bundle> := map[];
    var order: seq<Tag> := [];
    var todo := resources.Keys;
    while todo != {}
      invariant todo <= resources.Keys
      invariant bundles.Keys == resources.Keys - todo
      invariant Distinct(order)
      invariant forall t :: t in order <==> t in bundles
      invariant forall lang :: lang in bundles ==> make(lang, resources[lang]) == Done(bundles[lang])
      decreases |todo|
    {
      var lang :| lang in todo;
      var bundle := make(lang, resources[lang]);
      if bundle.Panic? {
        return Panic(bundle.reason);
      }
      DistinctAppend(order, lang);
      bundles := bundles[lang := bundle.value];
      order := order + [lang];
      todo := todo - {lang};
    }
    return Done((bundles, order));
  }

  /** The maps the build loop leaves behind make a built loader. */
  lemma LoopResultBuilt(bundles: map<Tag, Bundle>, order: seq<Tag>, b: Builder, resources: map<Tag, seq<Resource>>, negotiate: Loader.Negotiator)
    requires bundles.Keys == resources.Keys
    requires Distinct(order) && forall t :: t in order <==> t in bundles
    requires forall lang :: lang in bundles ==> BundleFor(b, lang, resources[lang]) == Done(bundles[lang])
    ensures Built(ArcLoader(bundles, b.fallback, Loader.BuildFallbacks(order, negotiate), resources, order), b, resources, negotiate)
  {
  }

  /**
   * `ArcLoader::lookup_single_language`: strict and value-only, with the
   * caller's arguments passed to the formatter as they are.
   */
  function LookupSingleLanguage(a: ArcLoader, lang: Tag, textId: string, args: Option<Args>, fmt: Formatter): Outcome<Option<string>>
  {
    StrictValueLookup(a.bundles, lang, textId, args, fmt)
  }

  /**
   * `lookup`: the stored chain of the language (a language without one
   * panics), then the fallback language unless it was requested, then the
   * sentinel.
   */
  function Lookup(a: ArcLoader, lang: Tag, textId: string, args: Option<Args>, fmt: Formatter): Outcome<string>
  {
    if lang !in a.fallbacks then Panic(LanguageNotFound)
    else WalkWithFallback(a.fallbacks[lang], lang, a.fallback, l => LookupSingleLanguage(a, l, textId, args, fmt), textId)
  }

  /** `locales`: the languages resources were found for. */
  function Locales(a: ArcLoader): (r: seq<Tag>)
    ensures Enumerates(a.localeOrder, a.resources.Keys) ==> forall t :: t in r <==> t in a.resources
    ensures Enumerates(a.localeOrder, a.resources.Keys) ==> Distinct(r)
  {
    a.localeOrder
  }

  /** A language without a chain aborts the call. */
  lemma UnknownLanguagePanics(a: ArcLoader, lang: Tag, textId: string, args: Option<Args>, fmt: Formatter)
    requires lang !in a.fallbacks
    ensures Lookup(a, lang, textId, args, fmt) == Panic(LanguageNotFound)
  {
  }

  /**
   * For a language with a chain, `lookup` is the first non-miss over the
   * chain followed by the fallback language (unless requested), with the
   * sentinel for a miss.
   */
  lemma LookupWalksCandidates(a: ArcLoader, lang: Tag, textId: string, args: Option<Args>, fmt: Formatter)
    requires lang in a.fallbacks
    ensures Lookup(a, lang, textId, args, fmt)
         == Present(FirstHit(Candidates(a.fallbacks[lang], lang, a.fallback), l => LookupSingleLanguage(a, l, textId, args, fmt)), textId)
  {
    WalkWithFallbackIsFirstHit(a.fallbacks[lang], lang, a.fallback, l => LookupSingleLanguage(a, l, textId, args, fmt), textId);
  }

  /**
   * In a built loader whose negotiation stays within the locales, the
   * languages with chains are exactly the languages with bundles, and every
   * chain names only languages with bundles.
   */
  lemma BuiltChainsHaveBundles(a: ArcLoader, b: Builder, resources: map<Tag, seq<Resource>>, negotiate: Loader.Negotiator)
    requires Built(a, b, resources, negotiate) && Loader.SelectsFromAvailable(negotiate)
    ensures a.fallbacks.Keys == a.bundles.Keys == resources.Keys
    ensures ChainsHaveBundles(a.bundles, a.fallbacks)
  {
    forall lang, t | lang in a.fallbacks && t in a.fallbacks[lang] ensures t in a.bundles {
      assert t in a.localeOrder;
    }
  }

  /**
   * When every chain language has a bundle, the only language a lookup can
   * find without a bundle is the fallback language.
   */
  lemma PanicsOnlyForFallbackBundle(a: ArcLoader, lang: Tag, textId: string, args: Option<Args>, fmt: Formatter)
    requires ChainsHaveBundles(a.bundles, a.fallbacks) && lang in a.fallbacks
    ensures Lookup(a, lang, textId, args, fmt).Panic? && Lookup(a, lang, textId, args, fmt).reason.UnknownLanguage? ==>
      Lookup(a, lang, textId, args, fmt).reason.lang == a.fallback && a.fallback !in a.bundles
  {
    StrictWalkBlamesOnlyFallback(a.bundles, a.fallbacks, lang, a.fallback, textId, args, fmt, l => LookupSingleLanguage(a, l, textId, args, fmt));
  }

  /** A built loader whose fallback language has no bundle panics once the chain misses. */
  lemma MissingFallbackBundlePanics(a: ArcLoader, lang: Tag, textId: string, args: Option<Args>, fmt: Formatter)
    requires lang in a.fallbacks && lang != a.fallback && a.fallback !in a.bundles
    requires forall t :: t in a.fallbacks[lang] ==> LookupSingleLanguage(a, t, textId, args, fmt) == Done(None)
    ensures Lookup(a, lang, textId, args, fmt) == Panic(UnknownLanguage(a.fallback))
  {
    FallbackDecidesAfterChainMisses(a.fallbacks[lang], lang, a.fallback, l => LookupSingleLanguage(a, l, textId, args, fmt), textId);
  }
}
