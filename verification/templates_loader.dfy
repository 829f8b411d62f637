/**
 * The loader layer of the `fluent-templates` crate (the `templates/`
 * tree): a `Loader` interface with a single `lookup`, its delegation
 * through `Arc`, and construction helpers that behave like the crate's
 * own (`Loader` module) apart from the argument map they build.
 */
module TemplatesLoader {
  import opened Base
  import opened LangId
  import opened Fluent
  import opened Catalog
  import opened Resolution
  import Loader

  /** A `dyn Loader` of this tree: one lookup with optional arguments. */
  datatype LoaderView = LoaderView(lookup: (Tag, string, Option<Args>) -> Outcome<string>)

  /** `impl Loader for Arc<L>`: every lookup forwards to the wrapped loader. */
  function Delegate(l: LoaderView): (r: LoaderView)
    ensures forall lang, textId, args :: r.lookup(lang, textId, args) == l.lookup(lang, textId, args)
  {
    LoaderView((lang, textId, args) => l.lookup(lang, textId, args))
  }

  /** `build_fallbacks`: one chain per locale, negotiated against the whole list. */
  function BuildFallbacks(locales: seq<Tag>, negotiate: Loader.Negotiator): (r: map<Tag, seq<Tag>>)
    ensures forall t :: t in r <==> t in locales
    ensures forall t :: t in r ==> r[t] == negotiate([t], locales)
  {
    Loader.BuildFallbacks(locales, negotiate)
  }

  /** `create_bundle`: the core resource, the language's resources, then the customiser; a clash panics. */
  function CreateBundle(lang: Tag, resources: seq<Resource>, core: Option<Resource>, customizer: Customizer): (r: Outcome<Bundle>)
    ensures r.Done? <==> Distinct(Ids(Flatten(Loader.CoreList(core)) + Flatten(resources)))
    ensures r.Panic? ==> r.reason == CoreResourceRejected || r.reason == ResourceRejected
    ensures r.Panic? ==> (r.reason == CoreResourceRejected <==> !Distinct(Ids(Flatten(Loader.CoreList(core)))))
    ensures r.Done? ==> r.value == customizer(Bundle([lang], MessagesOf(Flatten(Loader.CoreList(core)) + Flatten(resources)), true))
  {
    Loader.CreateBundle(lang, resources, core, customizer)
  }

  /** `build_bundles`: one bundle per language of the resource map; the first that cannot be created panics. */
  method BuildBundles(resources: map<Tag, seq<Resource>>, core: Option<Resource>, customizer: Customizer)
    returns (r: Outcome<map<Tag, Bundle>>)
    ensures r.Done? <==> forall lang :: lang in resources ==> CreateBundle(lang, resources[lang], core, customizer).Done?
    ensures r.Done? ==> r.value.Keys == resources.Keys
    ensures r.Done? ==> forall lang :: lang in resources ==> CreateBundle(lang, resources[lang], core, customizer) == Done(r.value[lang])
    ensures r.Panic? ==> exists lang :: lang in resources && CreateBundle(lang, resources[lang], core, customizer) == Panic(r.reason)
  {
    r := Loader.BuildBundles(resources, core, customizer);
  }

  /**
   * `map_to_str_map`: the caller's arguments re-keyed entry by entry;
   * absent arguments become an empty map, never `None`.
   */
  function MapToStrMap(args: Option<Args>): (r: Option<Args>)
    ensures r.Some?
    ensures args.Some? ==> r.value == args.value
    ensures args.None? ==> r.value == map[]
  {
    Loader.MapToFluentArgs(args)
  }
}
