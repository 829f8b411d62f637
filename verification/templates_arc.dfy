/**
 * The `ArcLoader` of the `templates/` tree: built at run time from
 * per-language resources, optional shared resources and an optional
 * customiser. A clash while building is returned as an error rather than a
 * panic; lookups are strict like the crate's run-time loader.
 */
module TemplatesArc {
  import opened Base
  import opened LangId
  import opened Fluent
  import opened Catalog
  import opened Resolution
  import Loader
  import TemplatesLoader

  /** `ArcLoaderBuilder`, without the directory it reads from; shared resources are already parsed. */
  datatype Builder = Builder(fallback: Tag, shared: Option<seq<Resource>>, customize: Option<Customizer>)

  /** `ArcLoader::builder`: no shared resources and no customiser. */
  function NewBuilder(fallback: Tag): (b: Builder)
    ensures b.fallback == fallback && b.shared.None? && b.customize.None?
  {
    Builder(fallback, None, None)
  }

  /** `ArcLoaderBuilder::shared_resources`: replaces the shared resources and keeps the rest. */
  function SharedResources(b: Builder, shared: Option<seq<Resource>>): (r: Builder)
    ensures r.shared == shared
    ensures r.fallback == b.fallback && r.customize == b.customize
  {
    b.(shared := shared)
  }

  /** `ArcLoaderBuilder::customize`: sets the customiser and keeps the rest. */
  function WithCustomize(b: Builder, customize: Customizer): (r: Builder)
    ensures r.customize == Some(customize)
    ensures r.fallback == b.fallback && r.shared == b.shared
  {
    b.(customize := Some(customize))
  }

  /** `LoaderError::FluentBundle`: the errors of the resource a bundle refused. */
  datatype LoaderError = FluentBundle(errors: seq<BundleError>)

  /** The loader's maps, the fallback language, and the iteration order of the resource map's keys. */
  datatype ArcLoader = ArcLoader(
    bundles: map<Tag, Bundle>,
    fallback: Tag,
    fallbacks: map<Tag, seq<Tag>>,
    resources: map<Tag, seq<Resource>>,
    localeOrder: seq<Tag>)

  /** The shared resources, none when unset: `self.shared.as_deref().unwrap_or(&[])`. */
  function SharedList(b: Builder): seq<Resource>
  {
    if b.shared.Some? then b.shared.value else []
  }

  /**
   * One language's bundle as the build loop makes it: the shared resources,
   * the language's resources, then the customiser if one is set. The first
   * resource the bundle refuses ends the build with its errors.
   */
  function BundleFor(b: Builder, lang: Tag, resources: seq<Resource>): (r: Result<Bundle, LoaderError>)
    ensures r.Ok? <==> Distinct(Ids(Flatten(SharedList(b)) + Flatten(resources)))
    ensures r.Ok? ==> r.value == Customized(b.customize, Bundle([lang], MessagesOf(Flatten(SharedList(b)) + Flatten(resources)), true))
  {
    AssembleMerges(lang, SharedList(b), resources, b.customize);
    match Assemble(lang, SharedList(b), resources, b.customize)
    case Ok(bundle) => Ok(bundle)
    case Err(SharedRejected(errors)) => Err(FluentBundle(errors))
    case Err(OwnRejected(errors)) => Err(FluentBundle(errors))
  }

  /** What a successful build promises about the loader it returns. */
  ghost predicate Built(a: ArcLoader, b: Builder, resources: map<Tag, seq<Resource>>, negotiate: Loader.Negotiator)
  {
    && a.resources == resources
    && a.fallback == b.fallback
    && a.bundles.Keys == resources.Keys
    && (forall lang :: lang in resources ==> BundleFor(b, lang, resources[lang]) == Ok(a.bundles[lang]))
    && Enumerates(a.localeOrder, resources.Keys)
    && a.fallbacks == TemplatesLoader.BuildFallbacks(a.localeOrder, negotiate)
  }

  /**
   * `ArcLoaderBuilder::build` after the directory has been read: a bundle
   * per language in the map's iteration order, then the fallback chains;
   * the first bundle that refuses a resource ends the build with an error.
   */
  method Build(b: Builder, resources: map<Tag, seq<Resource>>, negotiate: Loader.Negotiator) returns (r: Result<ArcLoader, LoaderError>)
    ensures r.Ok? <==> forall lang :: lang in resources ==> BundleFor(b, lang, resources[lang]).Ok?
    ensures r.Ok? ==> Built(r.value, b, resources, negotiate)
    ensures r.Err? ==> exists lang :: lang in resources && BundleFor(b, lang, resources[lang]) == Err(r.error)
  {
    var made := BundlesInOrder(resources, (lang, res) => BundleFor(b, lang, res));
    if made.Err? {
      return Err(made.error);
    }
    var (bundles, order) := made.value;
    LoopResultBuilt(bundles, order, b, resources, negotiate);
    return Ok(ArcLoader(bundles, b.fallback, TemplatesLoader.BuildFallbacks(order, negotiate), resources, order));
  }

  /**
   * The bundle loop of the build: `make` applied to each language and its
   * resources, in the order the map yields its keys, which is recorded; the
   * first failure ends it.
   */
  method BundlesInOrder(resources: map<Tag, seq<Resource>>, make: (Tag, seq<Resource>) -> Result<Bundle, LoaderError>) returns (r: Result<(map<Tag, Bundle>, seq<Tag>), LoaderError>)
    ensures r.Ok? <==> forall lang :: lang in resources ==> make(lang, resources[lang]).Ok?
    ensures r.Ok? ==> r.value.0.Keys == resources.Keys
    ensures r.Ok? ==> Distinct(r.value.1) && forall t :: t in r.value.1 <==> t in r.value.0
    ensures r.Ok? ==> forall lang :: lang in r.value.0 ==> make(lang, resources[lang]) == Ok(r.value.0[lang])
    ensures r.Err? ==> exists lang :: lang in resources && make(lang, resources[lang]) == Err(r.error)
  {
    var bundles: map<Tag, Bundle> := map[];
    var order: seq<Tag> := [];
    var todo := resources.Keys;
    while todo != {}
      invariant todo <= resources.Keys
      invariant bundles.Keys == resources.Keys - todo
      invariant Distinct(order)
      invariant forall t :: t in order <==> t in bundles
      invariant forall lang :: lang in bundles ==> make(lang, resources[lang]) == Ok(bundles[lang])
      decreases |todo|
    {
      var lang :| lang in todo;
      var bundle := make(lang, resources[lang]);
      if bundle.Err? {
        return Err(bundle.error);
      }
      DistinctAppend(order, lang);
      bundles := bundles[lang := bundle.value];
      order := order + [lang];
      todo := todo - {lang};
    }
    return Ok((bundles, order));
  }

  /** The maps the build loop leaves behind make a built loader. */
  lemma LoopResultBuilt(bundles: map<Tag, Bundle>, order: seq<Tag>, b: Builder, resources: map<Tag, seq<Resource>>, negotiate: Loader.Negotiator)
    requires bundles.Keys == resources.Keys
    requires Distinct(order) && forall t :: t in order <==> t in bundles
    requires forall lang :: lang in bundles ==> BundleFor(b, lang, resources[lang]) == Ok(bundles[lang])
    ensures Built(ArcLoader(bundles, b.fallback, TemplatesLoader.BuildFallbacks(order, negotiate), resources, order), b, resources, negotiate)
  {
  }

  /**
   * `ArcLoader::lookup_single_language`: strict and value-only; absent
   * arguments reach the formatter as an empty map.
   */
  function LookupSingleLanguage(a: ArcLoader, lang: Tag, textId: string, args: Option<Args>, fmt: Formatter): Outcome<Option<string>>
  {
    StrictValueLookup(a.bundles, lang, textId, TemplatesLoader.MapToStrMap(args), fmt)
  }

  /**
   * `lookup_complete`: the stored chain of the language (a language without
   * one panics), then the fallback language unless requested, then the
   * sentinel.
   */
  function LookupComplete(a: ArcLoader, lang: Tag, textId: string, args: Option<Args>, fmt: Formatter): Outcome<string>
  {
    if lang !in a.fallbacks then Panic(LanguageNotFound)
    else WalkWithFallback(a.fallbacks[lang], lang, a.fallback, l => LookupSingleLanguage(a, l, textId, args, fmt), textId)
  }

  /** `locales`: the languages resources were found for. */
  function Locales(a: ArcLoader): (r: seq<Tag>)
    ensures Enumerates(a.localeOrder, a.resources.Keys) ==> forall t :: t in r <==> t in a.resources
    ensures Enumerates(a.localeOrder, a.resources.Keys) ==> Distinct(r)
  {
    a.localeOrder
  }

  /** The loader behind a `dyn Loader` of this tree. */
  function AsLoader(a: ArcLoader, fmt: Formatter): TemplatesLoader.LoaderView
  {
    TemplatesLoader.LoaderView((lang, textId, args) => LookupComplete(a, lang, textId, args, fmt))
  }

  /** The loader exposed through the interface, and its `Arc`, answer as `lookup_complete`. */
  lemma AsLoaderAnswers(a: ArcLoader, fmt: Formatter, lang: Tag, textId: string, args: Option<Args>)
    ensures AsLoader(a, fmt).lookup(lang, textId, args) == LookupComplete(a, lang, textId, args, fmt)
    ensures TemplatesLoader.Delegate(AsLoader(a, fmt)).lookup(lang, textId, args) == LookupComplete(a, lang, textId, args, fmt)
  {
  }

  /** A language without a chain aborts the call. */
  lemma UnknownLanguagePanics(a: ArcLoader, lang: Tag, textId: string, args: Option<Args>, fmt: Formatter)
    requires lang !in a.fallbacks
    ensures LookupComplete(a, lang, textId, args, fmt) == Panic(LanguageNotFound)
  {
  }

  /** For a language with a chain, a lookup is the first non-miss over the chain and the fallback language. */
  lemma LookupWalksCandidates(a: ArcLoader, lang: Tag, textId: string, args: Option<Args>, fmt: Formatter)
    requires lang in a.fallbacks
    ensures LookupComplete(a, lang, textId, args, fmt)
         == Present(FirstHit(Candidates(a.fallbacks[lang], lang, a.fallback), l => LookupSingleLanguage(a, l, textId, args, fmt)), textId)
  {
    WalkWithFallbackIsFirstHit(a.fallbacks[lang], lang, a.fallback, l => LookupSingleLanguage(a, l, textId, args, fmt), textId);
  }

  /**
   * In a built loader whose negotiation stays within the locales, the
   * languages with chains are exactly the languages with bundles, and every
   * chain names only languages with bundles.
   */
  lemma BuiltChainsHaveBundles(a: ArcLoader, b: Builder, resources: map<Tag, seq<Resource>>, negotiate: Loader.Negotiator)
    requires Built(a, b, resources, negotiate) && Loader.SelectsFromAvailable(negotiate)
    ensures a.fallbacks.Keys == a.bundles.Keys == resources.Keys
    ensures ChainsHaveBundles(a.bundles, a.fallbacks)
  {
    forall lang, t | lang in a.fallbacks && t in a.fallbacks[lang] ensures t in a.bundles {
      assert t in a.localeOrder;
    }
  }

  /** When every chain language has a bundle, only a missing fallback bundle can make a lookup panic for its language. */
  lemma PanicsOnlyForFallbackBundle(a: ArcLoader, lang: Tag, textId: string, args: Option<Args>, fmt: Formatter)
    requires ChainsHaveBundles(a.bundles, a.fallbacks) && lang in a.fallbacks
    ensures LookupComplete(a, lang, textId, args, fmt).Panic? && LookupComplete(a, lang, textId, args, fmt).reason.UnknownLanguage? ==>
      LookupComplete(a, lang, textId, args, fmt).reason.lang == a.fallback && a.fallback !in a.bundles
  {
    StrictWalkBlamesOnlyFallback(a.bundles, a.fallbacks, lang, a.fallback, textId, TemplatesLoader.MapToStrMap(args), fmt,
                                 l => LookupSingleLanguage(a, l, textId, args, fmt));
  }
}
