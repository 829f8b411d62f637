/**
 * The loader-agnostic layer of the `fluent-templates` crate: the `Loader`
 * interface and its forwarding methods, delegation through shared
 * references, the `FluentLoader` container, and the construction helpers
 * every loader is built from (fallback chains, bundles, arguments).
 */
module Loader {
  import opened Base
  import opened LangId
  import opened Fluent
  import opened Catalog
  import opened Resolution
  import opened Languages
  import opened LanguagesFacts

  /**
   * A `dyn Loader` as its callers see it: the two required lookups and the
   * locales it reports. The per-call formatter is already bound inside.
   */
  datatype LoaderView = LoaderView(
    lookupComplete: (Tag, string, Option<Args>) -> Outcome<string>,
    tryLookupComplete: (Tag, string, Option<Args>) -> Outcome<Option<string>>,
    locales: seq<Tag>)

  /** `lookup`: `lookup_complete` without arguments. */
  function Lookup(l: LoaderView, lang: Tag, textId: string): Outcome<string>
  {
    l.lookupComplete(lang, textId, None)
  }

  /** `lookup_with_args`: `lookup_complete` with the arguments present. */
  function LookupWithArgs(l: LoaderView, lang: Tag, textId: string, args: Args): Outcome<string>
  {
    l.lookupComplete(lang, textId, Some(args))
  }

  /** `try_lookup`: `try_lookup_complete` without arguments. */
  function TryLookup(l: LoaderView, lang: Tag, textId: string): Outcome<Option<string>>
  {
    l.tryLookupComplete(lang, textId, None)
  }

  /** `try_lookup_with_args`: `try_lookup_complete` with the arguments present. */
  function TryLookupWithArgs(l: LoaderView, lang: Tag, textId: string, args: Args): Outcome<Option<string>>
  {
    l.tryLookupComplete(lang, textId, Some(args))
  }

  /** Every loader of the crate answers `lookup_complete` as the sentinel-filled form of `try_lookup_complete`. */
  ghost predicate Coherent(l: LoaderView)
  {
    forall lang, textId, args :: l.lookupComplete(lang, textId, args) == Present(l.tryLookupComplete(lang, textId, args), textId)
  }

  /**
   * The provided methods agree with the required ones: for a coherent
   * loader, each non-`try` lookup is its `try` partner with the sentinel
   * filled in for a miss.
   */
  lemma ForwardedLookupsAgree(l: LoaderView, lang: Tag, textId: string, args: Args)
    requires Coherent(l)
    ensures Lookup(l, lang, textId) == Present(TryLookup(l, lang, textId), textId)
    ensures LookupWithArgs(l, lang, textId, args) == Present(TryLookupWithArgs(l, lang, textId, args), textId)
  {
  }

  /** `impl Loader for Arc<L>` and `impl Loader for &L`: every call forwards to the wrapped loader. */
  function Delegate(l: LoaderView): (r: LoaderView)
    ensures r.locales == l.locales
    ensures forall lang, textId, args :: r.lookupComplete(lang, textId, args) == l.lookupComplete(lang, textId, args)
    ensures forall lang, textId, args :: r.tryLookupComplete(lang, textId, args) == l.tryLookupComplete(lang, textId, args)
  {
    LoaderView(
      (lang, textId, args) => l.lookupComplete(lang, textId, args),
      (lang, textId, args) => l.tryLookupComplete(lang, textId, args),
      l.locales)
  }

  /** Wrapping a coherent loader keeps it coherent. */
  lemma DelegateKeepsCoherence(l: LoaderView)
    requires Coherent(l)
    ensures Coherent(Delegate(l))
  {
  }

  /** `FluentLoader<L>`: a loader and the default language template engines may use. */
  datatype FluentLoader<L> = FluentLoader(loader: L, defaultLang: Option<Tag>)

  /** `FluentLoader::new`: no default language. */
  function NewFluentLoader<L>(loader: L): (r: FluentLoader<L>)
    ensures r.loader == loader
    ensures r.defaultLang == None
  {
    FluentLoader(loader, None)
  }

  /** `with_default_lang`: sets the default language and keeps the loader. */
  function WithDefaultLang<L>(f: FluentLoader<L>, lang: Tag): (r: FluentLoader<L>)
    ensures r.loader == f.loader
    ensures r.defaultLang == Some(lang)
  {
    FluentLoader(f.loader, Some(lang))
  }

  /** `(requested, available) -> chain`: the negotiation `build_fallbacks` delegates to. */
  type Negotiator = (seq<Tag>, seq<Tag>) -> seq<Tag>

  /** A negotiator that only ever returns available locales. */
  ghost predicate SelectsFromAvailable(negotiate: Negotiator)
  {
    forall requested, available, t :: t in negotiate(requested, available) ==> t in available
  }

  /** The crate's own filtering negotiation without a default. */
  function OwnNegotiator(): Negotiator
  {
    (requested, available) => NegotiateLanguages(requested, available, None)
  }

  /**
   * The insertion loop of `build_fallbacks` over the first `n` locales: each
   * locale is mapped to the negotiation of itself against all of them.
   */
  function FallbacksUpTo(locales: seq<Tag>, n: nat, negotiate: Negotiator): (r: map<Tag, seq<Tag>>)
    requires n <= |locales|
    ensures forall t :: t in r <==> t in locales[..n]
    ensures forall t :: t in r ==> r[t] == negotiate([t], locales)
  {
    if n == 0 then map[]
    else
      assert locales[..n] == locales[..n - 1] + [locales[n - 1]];
      FallbacksUpTo(locales, n - 1, negotiate)[locales[n - 1] := negotiate([locales[n - 1]], locales)]
  }

  /** `build_fallbacks`: one chain per locale, negotiated against the whole list. */
  function BuildFallbacks(locales: seq<Tag>, negotiate: Negotiator): (r: map<Tag, seq<Tag>>)
    ensures forall t :: t in r <==> t in locales
    ensures forall t :: t in r ==> r[t] == negotiate([t], locales)
  {
    assert locales[..|locales|] == locales;
    FallbacksUpTo(locales, |locales|, negotiate)
  }

  /** With a negotiator that stays within the locales, every chain names only keys of the map. */
  lemma FallbackChainsStayWithinKeys(locales: seq<Tag>, negotiate: Negotiator, lang: Tag)
    requires SelectsFromAvailable(negotiate)
    requires lang in BuildFallbacks(locales, negotiate)
    ensures forall t :: t in BuildFallbacks(locales, negotiate)[lang] ==> t in BuildFallbacks(locales, negotiate)
  {
  }

  /** The crate's own negotiation only ever returns available locales. */
  lemma OwnNegotiatorSelectsFromAvailable()
    ensures SelectsFromAvailable(OwnNegotiator())
  {
    forall requested, available, t | t in OwnNegotiator()(requested, available)
      ensures t in available
    {
      assert OwnNegotiator()(requested, available) == FilterMatches(requested, available);
      FilterMatchesMembership(requested, available, t);
    }
  }

  /** With the crate's own negotiation, every chain starts with its own language. */
  lemma OwnFallbackChainStartsWithKey(locales: seq<Tag>, lang: Tag)
    requires lang in locales
    ensures lang in BuildFallbacks(locales, OwnNegotiator())
    ensures |BuildFallbacks(locales, OwnNegotiator())[lang]| > 0
    ensures BuildFallbacks(locales, OwnNegotiator())[lang][0] == lang
  {
    assert BuildFallbacks(locales, OwnNegotiator())[lang] == FilterMatches([lang], locales);
    RequestedTagComesFirst(lang, locales);
  }

  /** The optional core resource as the list of resources merged first. */
  function CoreList(core: Option<Resource>): seq<Resource>
  {
    if core.Some? then [core.value] else []
  }

  /**
   * `create_bundle`: the core resource, then the language's resources, then
   * the customiser. A clash in the core resource panics with its own message;
   * a clash anywhere later panics with the resources' message.
   */
  function CreateBundle(lang: Tag, resources: seq<Resource>, core: Option<Resource>, customizer: Customizer): (r: Outcome<Bundle>)
    ensures r.Done? <==> Distinct(Ids(Flatten(CoreList(core)) + Flatten(resources)))
    ensures r.Panic? ==> r.reason == CoreResourceRejected || r.reason == ResourceRejected
    ensures r.Panic? ==> (r.reason == CoreResourceRejected <==> !Distinct(Ids(Flatten(CoreList(core)))))
    ensures r.Done? ==> r.value == customizer(Bundle([lang], MessagesOf(Flatten(CoreList(core)) + Flatten(resources)), true))
  {
    AssembleMerges(lang, CoreList(core), resources, Some(customizer));
    match Assemble(lang, CoreList(core), resources, Some(customizer))
    case Ok(b) => Done(b)
    case Err(SharedRejected(_)) => Panic(CoreResourceRejected)
    case Err(OwnRejected(_)) => Panic(ResourceRejected)
  }

  /**
   * `build_bundles`: one bundle per language of the resource map, in
   * whatever order the map yields its entries; the first bundle that cannot
   * be created panics.
   */
  method BuildBundles(resources: map<Tag, seq<Resource>>, core: Option<Resource>, customizer: Customizer)
    returns (r: Outcome<map<Tag, Bundle>>)
    ensures r.Done? <==> forall lang :: lang in resources ==> CreateBundle(lang, resources[lang], core, customizer).Done?
    ensures r.Done? ==> r.value.Keys == resources.Keys
    ensures r.Done? ==> forall lang :: lang in resources ==> CreateBundle(lang, resources[lang], core, customizer) == Done(r.value[lang])
    ensures r.Panic? ==> exists lang :: lang in resources && CreateBundle(lang, resources[lang], core, customizer) == Panic(r.reason)
  {
    var bundles: map<Tag, Bundle> := map[];
    var todo := resources.Keys;
    while todo != {}
      invariant todo <= resources.Keys
      invariant bundles.Keys == resources.Keys - todo
      invariant forall lang :: lang in bundles ==> CreateBundle(lang, resources[lang], core, customizer) == Done(bundles[lang])
      decreases |todo|
    {
      var lang :| lang in todo;
      var b := CreateBundle(lang, resources[lang], core, customizer);
      if b.Panic? {
        return Panic(b.reason);
      }
      bundles := bundles[lang := b.value];
      todo := todo - {lang};
    }
    return Done(bundles);
  }

  /**
   * `map_to_fluent_args`: copies the caller's arguments entry by entry;
   * absent arguments become an empty argument list, never `None`.
   */
  function MapToFluentArgs(args: Option<Args>): (r: Option<Args>)
    ensures r.Some?
    ensures args.Some? ==> r.value == args.value
    ensures args.None? ==> r.value == map[]
  {
    if args.Some? then Some(map key | key in args.value :: args.value[key]) else Some(map[])
  }
}
