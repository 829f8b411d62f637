# fluent-templates: negotiation, fallback chains and lookup, in Dafny

This project models the language-negotiation and lookup engine of the
`fluent-templates` crate:

- how a requested BCP 47 language (section 2.1 of RFC 5646) is matched
  against the available ones and ordered by specificity (`filter_matches`,
  `negotiate_languages`);
- how the loaders build their per-language bundles and fallback chains
  (`build_fallbacks`, `create_bundle`, `build_bundles`, the `build` step of
  both `ArcLoaderBuilder`s);
- how a message id is resolved: in one language, along a chain, with one
  last try in the fallback language, and with the `"Unknown localization <id>"`
  sentinel on the non-`try` path;
- how `MultiLoader` combines loaders.

Both trees of the repository are modelled. The crate's own `src/` tree has
a lenient `StaticLoader`, a legacy strict `ArcLoader` and `MultiLoader`. The
`templates/` tree has a strict `StaticLoader` and an `ArcLoader` whose build
reports errors instead of panicking. Each loader keeps its own policy.

Modelling conventions:

- A panic is a value: `Resolution.Outcome` is `Done(value)` or
  `Panic(reason)`, and `PanicReason` names each `panic!`/`expect` of the
  loaders.
- Fluent formatting (`format_pattern`) is a function parameter `fmt` of type
  `Fluent.Formatter`. A bundle customiser is a function `Bundle -> Bundle`.
- `LanguageIdentifier::matches` of `unic_langid` is `LangId.Matches`. Every
  subtag must be equal, except that a side used as a range matches any
  subtag it leaves out.
- `build_fallbacks` calls `fluent_langneg`'s Filtering negotiation, which is
  outside the crate. Its negotiator is therefore a parameter
  (`Loader.Negotiator`). The crate's own `negotiate_languages` serves as the
  concrete instance in `Loader.OwnNegotiator`.
- Hash-map iteration order is unspecified. Loader records carry the order as
  a sequence beside the map, with `Base.Enumerates` relating the two. The
  build loops pick the next key with `:|`, so they hold for every order.
- A `dyn Loader` is `Loader.LoaderView`: a record of its lookups and locales.
  `Loader.Coherent` says that its non-`try` lookup is the `try` lookup with
  the sentinel filled in.

Files: `base.dfy` (options, results, distinctness), `langid.dfy` (tags),
`languages.dfy` (negotiation and its test vectors), `fluent.dfy` (the bundle
surface), `catalog.dfy` (bundle assembly), `resolution.dfy` (outcomes, chain
walks, strict lookup), `loader.dfy`, `shared.dfy`, `static.dfy`, `multi.dfy`,
`legacy_arc.dfy`, and the `templates_*.dfy` files for the `templates/` tree.

## Model

| member | source | states |
|---|---|---|
| LangId.Specificity | src/languages.rs:53-69 | specificity counts script, region and variants: it lies between the variant count and the variant count plus two, and equals the variant count exactly when script and region are absent |
| LangId.ExactMatchIsEquality | src/languages.rs:31-32 | the exact strategy (neither side a range) accepts exactly the equal tag |
| LangId.ExactMatchIsRangeMatch | src/languages.rs:31-35 | whatever the exact pass accepts, the range pass would also accept |
| LangId.RangeMatchIsNoMoreSpecific | src/languages.rs:34-35 | an available tag that matches a request as a range is no more specific than the request |
| Languages.RetainCounts | src/languages.rs:17-27 | one `retain` pass moves every matching entry, as often as it occurs, to the result, and keeps every non-matching entry in the working list |
| Languages.DiscoverCounts | src/languages.rs:10-42 | the discovery loop returns each available entry some request accepts exactly as often as it is listed, and nothing else |
| Languages.InsertBySpecificity | src/languages.rs:44-48 | one insertion step of the sort keeps the contents (plus the inserted tag) and keeps a non-increasing sequence non-increasing |
| Languages.InsertKeepsClasses | src/languages.rs:44-48 | insertion puts the new tag in front of its own specificity class and leaves every class's order alone (stability) |
| Languages.SortBySpecificity | src/languages.rs:44-48 | the sort is a permutation, is ordered by non-increasing specificity, and keeps the order within each specificity class |
| Languages.FilterMatches | src/languages.rs:4-51 | `filter_matches`: an entry occurs as often as it is available when some request accepts it and never otherwise; the result is sorted by non-increasing specificity; ties keep discovery order |
| Languages.NegotiateLanguages | src/languages.rs:71-88 | `negotiate_languages` is the filtered list, followed by the default exactly when one is given and not already in it |
| LanguagesFacts.FilterMatchesWithinAvailable | src/languages.rs:10-27 | no available entry is returned more often than it is listed, so the result is never longer than the available list |
| LanguagesFacts.FilterMatchesMembership | src/languages.rs:12-35 | a tag is returned exactly when it is available and some request accepts it |
| LanguagesFacts.ExactRequestIsReturned | src/languages.rs:31-32 | a requested tag that is available is always returned |
| LanguagesFacts.NothingAcceptedGivesEmpty | src/languages.rs:8-50 | requests that accept nothing, including no requests, give an empty result and no error |
| LanguagesFacts.RequestedTagComesFirst | src/languages.rs:12-48 | a single available request heads its own result: nothing it accepts is more specific, and the exact pass found it first among its equals |
| LanguagesFacts.VectorDe | src/languages.rs:111 | `de` against the five test locales gives `de` |
| LanguagesFacts.VectorDeDe | src/languages.rs:113 | `de-DE` gives `de-DE, de` |
| LanguagesFacts.VectorDeCh | src/languages.rs:115 | `de-CH` gives `de-CH, de` |
| LanguagesFacts.VectorDeDe1996 | src/languages.rs:117 | `de-DE-1996` gives `de-DE-1996, de-DE, de` |
| LanguagesFacts.NegotiateVector | src/languages.rs:121-133 | negotiating `de-DE` against `de-DE, de, en-US, de-CH` without a default gives `de-DE, de` |
| LanguagesFacts.DefaultOnlyVector | src/languages.rs:80-87 | a request that matches nothing yields just the default, once |
| Catalog.AssembleMerges | src/loader.rs:188-209 | assembling a bundle succeeds exactly when no message id repeats across the shared and own resources; the shared step fails exactly when the shared resources clash among themselves; success is the customiser applied once to a bundle holding every merged message |
| Catalog.AddAllMerges | src/loader.rs:201-205 | adding resources one by one succeeds exactly when adding all their messages in order does, with the same store |
| Catalog.MessagesOfHoldsEveryMessage | src/loader.rs:188-209 | with distinct ids, nothing merged is dropped: each message is stored under its own id |
| Resolution.FormatOrPanic | src/loader/shared.rs:27-34 | formatting answers exactly when the formatter reports no error, with the formatted text; otherwise it panics for that language and id with the formatter's errors |
| Resolution.FirstHitIsFirst | src/loader/shared.rs:44-51 | walking a chain gives the first non-miss in chain order, all earlier entries having missed, or a miss when every entry misses |
| Resolution.FirstHitAppend | src/loader/static_loader.rs:87-97 | walking a concatenation walks the second part only when the first part misses entirely |
| Resolution.ChainLookup | src/loader/shared.rs:37-52 | the chain walk both trees share: a language without a stored chain misses; otherwise the first non-miss of the given single lookup along its chain, all earlier entries having missed, and never the fallback language |
| Resolution.WalkWithFallbackIsFirstHit | src/loader/static_loader.rs:60-78 | the `lookup_complete` loop is the first non-miss over the chain plus the fallback language (unless it was requested), with the sentinel for a miss |
| Resolution.FallbackDecidesAfterChainMisses | src/loader/arc_loader.rs:106-116 | once every chain language misses and the fallback language was not requested, the fallback language's answer decides |
| Resolution.WalkPanicComesFromCandidate | src/loader/arc_loader.rs:106-116 | a panicking walk passes on the panic of one of its candidates |
| Resolution.StrictValueLookup | templates/src/loader/static_loader.rs:36-63 | strict single lookup: no bundle panics "Unknown language"; a miss exactly when the id names no message with a value; a value the formatter renders without errors is the answer; any other panic is a formatting failure for that language and id carrying exactly the formatter's (non-empty) errors |
| Resolution.StrictWalkBlamesOnlyFallback | src/loader/arc_loader.rs:106-116 | when every chain language has a bundle, a strict walk can only panic for a missing bundle of the fallback language |
| Loader.ForwardedLookupsAgree | src/loader.rs:28-77 | for a coherent loader, `lookup` and `lookup_with_args` are `try_lookup` and `try_lookup_with_args` with the sentinel for a miss; the provided methods pass `None` or `Some(args)` |
| Loader.Delegate | src/loader.rs:79-131 | the `Arc<L>` and `&L` impls answer both lookups and `locales` exactly as the wrapped loader |
| Loader.DelegateKeepsCoherence | src/loader.rs:79-131 | wrapping a coherent loader keeps it coherent |
| Loader.NewFluentLoader | src/loader.rs:143-148 | a new `FluentLoader` wraps the given loader and has no default language |
| Loader.WithDefaultLang | src/loader.rs:153-158 | `with_default_lang` keeps the wrapped loader and sets the default language |
| Loader.FallbacksUpTo | src/loader.rs:167-180 | after the first n insertions, the keys are the first n locales, each mapped to its negotiation against the full list |
| Loader.BuildFallbacks | src/loader.rs:162-183 | `build_fallbacks` has exactly the input locales as keys, each mapped to the negotiation of itself against all of them |
| Loader.FallbackChainsStayWithinKeys | src/loader.rs:162-183 | with a negotiator that only returns available locales, every chain names only keys of the map |
| Loader.OwnNegotiatorSelectsFromAvailable | src/languages.rs:71-88 | the crate's own negotiation only returns available locales |
| Loader.OwnFallbackChainStartsWithKey | src/loader.rs:162-183 | with the crate's own negotiation, every chain starts with its own language |
| Loader.CreateBundle | src/loader.rs:188-209 | `create_bundle` succeeds exactly when no id repeats across core and own resources; a core clash panics with the core message, any other clash with the resources message; success is the customiser applied once to the merged messages |
| Loader.BuildBundles | src/loader.rs:213-226 | `build_bundles` succeeds exactly when every language's bundle can be created; its keys are the resource map's keys; each value is that language's `create_bundle`; a panic is one language's panic |
| Loader.MapToFluentArgs | src/loader.rs:228-240 | `map_to_fluent_args` always returns `Some`: a copy of the given arguments, or an empty list for `None` |
| Shared.IndexOf | src/loader/shared.rs:17 | the position of the first separator, and none exactly when there is no separator |
| Shared.SplitOnce | src/loader/shared.rs:17 | `split_once` fails exactly when there is no separator; otherwise the id is `before + "." + after` with no separator in `before` |
| Shared.SplitOnceOfJoin | src/loader/shared.rs:17 | splitting `before + "." + after` recovers both parts when `before` has no dot |
| Shared.FindAttribute | src/loader/shared.rs:18-22 | `find` returns the first attribute with the id, and nothing exactly when no attribute has it |
| Shared.PlainIdAddressesValue | src/loader/shared.rs:23-25 | an id without a dot addresses the message's value |
| Shared.DottedIdAddressesAttribute | src/loader/shared.rs:17-22 | `message.attribute` addresses that attribute of that message; later dots belong to the attribute id |
| Shared.FormatterArgs | src/loader/shared.rs:27 | absent arguments reach the formatter as absent, present ones unchanged |
| Shared.LookupSingleLanguage | src/loader/shared.rs:9-35 | no bundle is a miss, not a panic; a miss exactly when the id addresses no pattern; a panic is a formatting failure for that language and id carrying exactly the formatter's (non-empty) errors on the addressed pattern; an answer is the formatter's error-free text |
| Shared.CleanFormatAnswers | src/loader/shared.rs:27-31 | a pattern the formatter renders without errors is the language's answer |
| Shared.LookupNoDefaultFallback | src/loader/shared.rs:37-52 | a language without a chain misses; otherwise the first non-miss along the stored chain, never the fallback language |
| Static.LookupNoDefaultFallback | src/loader/static_loader.rs:48-55 | the stored chain only, first non-miss in chain order |
| Static.Locales | src/loader/static_loader.rs:101-103 | `locales` enumerates exactly the fallback map's keys, each once |
| Static.TryLookupWalksCandidates | src/loader/static_loader.rs:81-99 | `try_lookup_complete` is the first non-miss over the negotiated chain followed by the fallback language when it was not requested |
| Static.LookupCompleteAgrees | src/loader/static_loader.rs:60-78 | `lookup_complete` is `try_lookup_complete` with the sentinel for a miss |
| Static.LookupOnlyPanicsOnFormatting | src/loader/static_loader.rs:60-99 | the lenient policy: no language makes a lookup panic; the only panic is a formatting failure |
| Static.ChainNamesBundles | src/loader/static_loader.rs:66 | the chain is negotiated over the bundle keys, so it names only languages with bundles |
| Static.ChainStartsWithLanguage | src/loader/static_loader.rs:87 | a language with a bundle heads its own chain |
| Static.OwnAnswerWins | src/loader/static_loader.rs:87-91 | when the requested language's own bundle answers, no other language is asked |
| Static.FallbackAnswersWhenChainMisses | src/loader/static_loader.rs:93-97 | when every chain language misses, the fallback language answers |
| Static.AsLoader | src/loader/static_loader.rs:58-104 | the static loader behind a `dyn Loader` is coherent and reports the fallback keys |
| StaticScenario.Sample | src/loader/static_loader.rs:12-16 | the two-language sample loader records its key orders consistently |
| StaticScenario.RequestedLanguageAnswers | src/loader/static_loader.rs:87-91 | French asked for French answers in French |
| StaticScenario.GermanChain | src/loader/static_loader.rs:87 | German negotiates to nothing the sample loader holds |
| StaticScenario.EnglishGreets | src/loader/shared.rs:23-31 | English answers `hello-world` with its value |
| StaticScenario.MissingLanguageFallsBack | src/loader/static_loader.rs:60-99 | German, which has no bundle, is answered by the English fallback on both paths |
| StaticScenario.EnglishChain | src/loader/static_loader.rs:87 | English negotiates to itself alone |
| StaticScenario.AttributeAddressing | src/loader/shared.rs:17-22 | `greeting.placeholder` reaches the attribute's text |
| StaticScenario.NopeMisses | src/loader/shared.rs:17-22 | a missing attribute is a miss |
| StaticScenario.MissingAttributeMisses | src/loader/static_loader.rs:60-99 | a missing attribute is a miss on the `try` path and the sentinel on the other |
| Multi.Default | src/loader/multi_loader.rs:30-36 | the default loader has no loaders |
| Multi.New | src/loader/multi_loader.rs:17-20 | `new` has no loaders |
| Multi.FromIter | src/loader/multi_loader.rs:23-27 | `from_iter` keeps the loaders in iteration order |
| Multi.TryLookupComplete | src/loader/multi_loader.rs:53-65 | the first loader, front to back, that answers wins, all earlier ones having missed; a miss when all miss |
| Multi.LocalesFrom | src/loader/multi_loader.rs:67-69 | a tag is reported exactly when some loader reports it |
| Multi.Locales | src/loader/multi_loader.rs:67-69 | `locales` reports exactly the tags some loader reports |
| Multi.LocalesOfOne | src/loader/multi_loader.rs:67-69 | a single loader contributes its own list of locales unchanged |
| Multi.LocalesAround | src/loader/multi_loader.rs:67-69 | the locales are those of the loaders before loader i, then loader i's own list unchanged, then those after it: the in-order flattening |
| Multi.LocalesConcatenate | src/loader/multi_loader.rs:67-69 | the locales of concatenated loader lists are the concatenated locales: nothing merged or dropped |
| Multi.AnswerFromAgrees | src/loader/multi_loader.rs:39-51 | `lookup_complete` is `try_lookup_complete` with the sentinel for a miss |
| Multi.EmptyMisses | src/loader/multi_loader.rs:17-20 | an empty loader misses, and gives the sentinel on the non-`try` path |
| Multi.AppendedLoadersAskedLast | src/loader/multi_loader.rs:45-49 | appended loaders are asked only when every earlier loader misses |
| Multi.EarlierLoaderWins | src/loader/multi_loader.rs:45-49 | of two answering loaders, the earlier one's text is returned |
| Multi.AsLoader | src/loader/multi_loader.rs:38-70 | the composite behind a `dyn Loader` is coherent and reports the concatenated locales |
| LegacyArc.New | src/loader/arc_loader.rs:122-124 | a new builder has the fallback language, no core resource and no customiser |
| LegacyArc.WithCore | src/loader/arc_loader.rs:20-23 | `core` sets the core resource and keeps the rest |
| LegacyArc.WithCustomize | src/loader/arc_loader.rs:25-28 | `customize` sets the customiser and keeps the rest |
| LegacyArc.BundleFor | src/loader/arc_loader.rs:46-64 | one language's bundle succeeds exactly when no id repeats across core and own resources; a core clash panics with the core message, any other clash with the resources message; success is the optional customiser applied once to the merged messages |
| LegacyArc.BundlesInOrder | src/loader/arc_loader.rs:45-65 | the bundle loop succeeds exactly when every language's bundle can be made, covers exactly the resource keys, records each key once, and a panic is one language's panic |
| LegacyArc.Build | src/loader/arc_loader.rs:45-74 | `build` succeeds exactly when every bundle can be made; the loader then has bundles, resources and chains over the same keys, each bundle made from its language's resources |
| LegacyArc.LoopResultBuilt | src/loader/arc_loader.rs:66-73 | the loop's maps with the chains built over its key order form a built loader |
| LegacyArc.Locales | src/loader/arc_loader.rs:127-129 | `locales` reports exactly the resource keys, each once |
| LegacyArc.UnknownLanguagePanics | src/loader/arc_loader.rs:106 | a language without a chain panics "language not found" |
| LegacyArc.LookupWalksCandidates | src/loader/arc_loader.rs:106-116 | otherwise `lookup` is the first non-miss over the chain and the fallback language (unless requested), with the sentinel for a miss |
| LegacyArc.BuiltChainsHaveBundles | src/loader/arc_loader.rs:45-73 | in a built loader, chains and bundles share the resource keys, and every chain names only languages with bundles |
| LegacyArc.PanicsOnlyForFallbackBundle | src/loader/arc_loader.rs:100-158 | in such a loader, an "Unknown language" panic can only be for a fallback language without a bundle |
| LegacyArc.MissingFallbackBundlePanics | src/loader/arc_loader.rs:111-115 | and it happens: a fallback language without a bundle panics once the chain misses |
| TemplatesLoader.Delegate | templates/src/loader.rs:30-42 | `Arc<L>` answers `lookup` exactly as the wrapped loader |
| TemplatesLoader.BuildFallbacks | templates/src/loader.rs:45-66 | exactly the input locales as keys, each mapped to its own negotiation against the full list |
| TemplatesLoader.CreateBundle | templates/src/loader.rs:71-91 | succeeds exactly when no id repeats across core and own resources; a core clash panics with the core message, any other clash with the resources message; success is the customiser applied once to the merged messages |
| TemplatesLoader.BuildBundles | templates/src/loader.rs:95-108 | succeeds exactly when every bundle can be created; keys are the resource keys; each value is that language's bundle; a panic is one language's panic |
| TemplatesLoader.MapToStrMap | templates/src/loader.rs:110-122 | always `Some`: the same entries, or an empty map for `None` |
| TemplatesShared.SplitN | templates/src/loader/shared.rs:19 | `splitn` gives between one and n pieces that join back to the id; only the last piece may hold a separator, and only when the limit was reached |
| TemplatesShared.SplitTwoIsSplitOnce | templates/src/loader/shared.rs:17-19 | splitting into two pieces is splitting once at the first separator |
| TemplatesShared.ResolvesLikeCrate | templates/src/loader/shared.rs:17-28 | this tree addresses ids exactly as the crate's `split_once` version does |
| TemplatesShared.LookupSingleLanguage | templates/src/loader/shared.rs:9-41 | no bundle is a miss; a panic is a formatting failure for that language |
| TemplatesShared.SingleLikeCrateWithEmptyArgs | templates/src/loader/shared.rs:30 | the lookup is the crate's, with absent arguments made an empty map |
| TemplatesShared.LookupNoDefaultFallback | templates/src/loader/shared.rs:43-58 | a language without a chain misses; otherwise the first non-miss along the chain |
| TemplatesStatic.LookupNoDefaultFallback | templates/src/loader/static_loader.rs:66-81 | a language without a chain misses; otherwise the first non-miss of the strict lookup along the chain |
| TemplatesStatic.Locales | templates/src/loader/static_loader.rs:107-109 | `locales` reports exactly the fallback keys, each once |
| TemplatesStatic.LookupWalksCandidates | templates/src/loader/static_loader.rs:86-105 | `lookup_complete` is the first non-miss over the stored chain (none for an unknown language) and the fallback language, with the sentinel for a miss |
| TemplatesStatic.UnchainedLanguageUsesFallback | templates/src/loader/static_loader.rs:92-104 | a language without a chain is answered by the fallback language alone, or gets the sentinel when it is the fallback |
| TemplatesStatic.AsLoaderAnswers | templates/src/loader/static_loader.rs:84-105 | the loader behind a `dyn Loader`, and its `Arc`, answer as `lookup_complete` |
| TemplatesStaticScenario.DottedIdIsLiteral | templates/src/loader/static_loader.rs:43 | `greeting.placeholder` is a literal id here and misses, while the crate's lookup reaches the attribute |
| TemplatesArc.NewBuilder | templates/src/loader/arc_loader.rs:128-138 | a new builder has no shared resources and no customiser |
| TemplatesArc.SharedResources | templates/src/loader/arc_loader.rs:23-26 | `shared_resources` replaces the shared resources and keeps the rest |
| TemplatesArc.WithCustomize | templates/src/loader/arc_loader.rs:29-32 | `customize` sets the customiser and keeps the rest |
| TemplatesArc.BundleFor | templates/src/loader/arc_loader.rs:52-71 | one language's bundle succeeds exactly when no id repeats across shared and own resources; success is the optional customiser applied once to the merged messages |
| TemplatesArc.BundlesInOrder | templates/src/loader/arc_loader.rs:51-72 | the bundle loop succeeds exactly when every bundle can be made, covers exactly the resource keys, records each once, and an error is one language's error |
| TemplatesArc.Build | templates/src/loader/arc_loader.rs:35-82 | `build` returns a loader exactly when every bundle can be made, with bundles, resources and chains over the same keys; otherwise a `FluentBundle` error of one language and no loader |
| TemplatesArc.LoopResultBuilt | templates/src/loader/arc_loader.rs:74-81 | the loop's maps with the chains built over its key order form a built loader |
| TemplatesArc.Locales | templates/src/loader/arc_loader.rs:141-143 | `locales` reports exactly the resource keys, each once |
| TemplatesArc.AsLoaderAnswers | templates/src/loader/arc_loader.rs:104-124 | the loader behind a `dyn Loader` of this tree, and its `Arc`, answer as `lookup_complete` |
| TemplatesArc.UnknownLanguagePanics | templates/src/loader/arc_loader.rs:112 | a language without a chain panics "language not found" |
| TemplatesArc.LookupWalksCandidates | templates/src/loader/arc_loader.rs:106-123 | otherwise the first non-miss over the chain and the fallback language, with the sentinel for a miss |
| TemplatesArc.BuiltChainsHaveBundles | templates/src/loader/arc_loader.rs:51-81 | in a built loader, chains and bundles share the resource keys, and every chain names only languages with bundles |
| TemplatesArc.PanicsOnlyForFallbackBundle | templates/src/loader/arc_loader.rs:106-173 | in such a loader, an "Unknown language" panic can only be for a fallback language without a bundle |

## Left out

- Reading locales from disk is not modelled: `read_dir`, `read_from_dir`, `read_from_file`, the `Fs` and `Fluent` errors, and the `?` returns they cause in both `build` methods. The builders take the already-parsed resources.
- The `static_loader!` macro is not modelled, and neither are the template-engine adapters (handlebars, tera, minijinja) or the helpers.
- Fluent parsing, `FluentBundle` internals and `format_pattern` are external. A resource is a list of messages; `add_resource` refuses a resource with a repeated id; formatting is the parameter `fmt`.
- `unic_langid` parsing and case normalisation are not modelled; tags are compared structurally. `fluent_langneg`'s Filtering negotiation is the `negotiate` parameter of `build_fallbacks`.
- The empty-language `continue` at the end of the `filter_matches` loop changes nothing and has no counterpart.
- Concurrency, `Arc` sharing, `Send`/`Sync`, and the `dbg!` output in the legacy `ArcLoader` are not modelled.
- Tie order among equally specific matches follows hash-map order. The model proves stability relative to the given order, never a particular order.
- Loader.Lookup, Loader.TryLookup and their `_with_args` forms carry no contract of their own. Loader.ForwardedLookupsAgree states what they promise.
- TemplatesShared.LookupSingleLanguage states only the no-bundle and panic cases itself. The full behaviour is TemplatesShared.SingleLikeCrateWithEmptyArgs, which equates it with Shared.LookupSingleLanguage.
- TemplatesArc.BundleFor does not say which resource's errors an `Err` carries.
- `MultiLoader::push_back`/`push_front` appear only in a test of a later revision; the `multi_loader.rs` modelled here has no such methods.

## Notes on the source

- `src/loader/shared.rs:27` passes `args.map(map_to_fluent_args)`. This does not match the signature of `map_to_fluent_args` in `src/loader.rs:228`, which takes the whole option. The model keeps what line 27 evidently means: absent arguments stay absent, and present ones are copied.
- `templates/src/loader/shared.rs:30` calls `super::map_to_fluent_args`, but `templates/src/loader.rs` defines only `map_to_str_map`. The model uses `map_to_str_map`, so absent arguments become an empty map.
- The `templates/` `Loader` trait declares only `lookup`, while its loaders implement `lookup_complete` and `locales`. The model takes `lookup_complete` as the trait's `lookup`.
- `MultiLoader` passes a panic of one of its loaders on instead of trying the next loader, because it calls `try_lookup_complete` directly.
- Both `ArcLoader`s iterate the resource map twice: once for the bundles and once, via `keys()`, for the chains. The model uses the same key order both times, as for an unmodified map.
