/**
 * `MultiLoader`: a list of loaders asked in order. The first loader that
 * answers wins; no negotiation happens across loaders, and a panic in a
 * loader ends the call.
 */
module Multi {
  import opened Base
  import opened LangId
  import opened Fluent
  import opened Resolution
  import Loader

  datatype MultiLoader = MultiLoader(loaders: seq<Loader.LoaderView>)

  /** `MultiLoader::default`: no loaders. */
  function Default(): (m: MultiLoader)
    ensures |m.loaders| == 0
  {
    MultiLoader([])
  }

  /** `MultiLoader::new`: the default, empty loader. */
  function New(): (m: MultiLoader)
    ensures |m.loaders| == 0
  {
    Default()
  }

  /** `MultiLoader::from_iter`: the loaders in the order the iterator yields them. */
  function FromIter(loaders: seq<Loader.LoaderView>): (m: MultiLoader)
    ensures |m.loaders| == |loaders|
    ensures forall i :: 0 <= i < |loaders| ==> m.loaders[i] == loaders[i]
  {
    MultiLoader(loaders)
  }

  /** Asking one loader its `try_lookup_complete`. */
  function Ask(lang: Tag, textId: string, args: Option<Args>): Loader.LoaderView -> Outcome<Option<string>>
  {
    (l: Loader.LoaderView) => l.tryLookupComplete(lang, textId, args)
  }

  /** `try_lookup_complete`: the first loader's answer, in list order. */
  function TryLookupComplete(m: MultiLoader, lang: Tag, textId: string, args: Option<Args>): (r: Outcome<Option<string>>)
    ensures IsFirstHit(m.loaders, Ask(lang, textId, args), r)
  {
    FirstHitIsFirst(m.loaders, Ask(lang, textId, args));
    FirstHit(m.loaders, Ask(lang, textId, args))
  }

  /** The loop of `lookup_complete` over the loaders still to ask. */
  function AnswerFrom(loaders: seq<Loader.LoaderView>, lang: Tag, textId: string, args: Option<Args>): Outcome<string>
  {
    if |loaders| == 0 then Done(Sentinel(textId))
    else
      match loaders[0].tryLookupComplete(lang, textId, args)
      case Done(Some(text)) => Done(text)
      case Panic(reason) => Panic(reason)
      case Done(None) => AnswerFrom(loaders[1..], lang, textId, args)
  }

  /** `lookup_complete`: the first loader's answer, or the sentinel when none answers. */
  function LookupComplete(m: MultiLoader, lang: Tag, textId: string, args: Option<Args>): Outcome<string>
  {
    AnswerFrom(m.loaders, lang, textId, args)
  }

  /** The loop of `locales` over the loaders still to visit. */
  function LocalesFrom(loaders: seq<Loader.LoaderView>): (r: seq<Tag>)
    ensures forall t :: t in r <==> exists i :: 0 <= i < |loaders| && t in loaders[i].locales
  {
    if |loaders| == 0 then []
    else
      var rest := LocalesFrom(loaders[1..]);
      assert forall i :: 1 <= i < |loaders| ==> loaders[i] == loaders[1..][i - 1];
      forall t, i | 0 <= i < |loaders[1..]| && t in loaders[1..][i].locales
        ensures exists j :: 0 <= j < |loaders| && t in loaders[j].locales
      {
        assert loaders[i + 1] == loaders[1..][i];
      }
      loaders[0].locales + rest
  }

  /** `locales`: every loader's locales, concatenated in loader order and not deduplicated. */
  function Locales(m: MultiLoader): (r: seq<Tag>)
    ensures forall t :: t in r <==> exists i :: 0 <= i < |m.loaders| && t in m.loaders[i].locales
  {
    LocalesFrom(m.loaders)
  }

  /** Locales of a concatenation are the concatenation of the locales: nothing is merged or dropped. */
  lemma {:induction false} LocalesConcatenate(a: seq<Loader.LoaderView>, b: seq<Loader.LoaderView>)
    ensures LocalesFrom(a + b) == LocalesFrom(a) + LocalesFrom(b)
  {
    if |a| == 0 {
      assert a + b == b;
    } else {
      assert (a + b)[0] == a[0];
      assert (a + b)[1..] == a[1..] + b;
      LocalesConcatenate(a[1..], b);
    }
  }

  /** A single loader contributes its own list of locales, unchanged. */
  lemma LocalesOfOne(l: Loader.LoaderView)
    ensures LocalesFrom([l]) == l.locales
  {
    assert [l][1..] == [];
  }

  /**
   * The flattening in place: the locales are those of the loaders before
   * loader `i`, then loader `i`'s own list unchanged, then those after it.
   */
  lemma {:induction false} LocalesAround(loaders: seq<Loader.LoaderView>, i: nat)
    requires i < |loaders|
    ensures LocalesFrom(loaders) == LocalesFrom(loaders[..i]) + loaders[i].locales + LocalesFrom(loaders[i + 1..])
  {
    assert loaders == loaders[..i] + ([loaders[i]] + loaders[i + 1..]);
    LocalesConcatenate(loaders[..i], [loaders[i]] + loaders[i + 1..]);
    LocalesConcatenate([loaders[i]], loaders[i + 1..]);
    LocalesOfOne(loaders[i]);
  }

  /** `lookup_complete` answers what `try_lookup_complete` answers, with the sentinel for a miss. */
  lemma {:induction false} AnswerFromAgrees(loaders: seq<Loader.LoaderView>, lang: Tag, textId: string, args: Option<Args>)
    ensures AnswerFrom(loaders, lang, textId, args) == Present(FirstHit(loaders, Ask(lang, textId, args)), textId)
  {
    if |loaders| > 0 {
      AnswerFromAgrees(loaders[1..], lang, textId, args);
    }
  }

  /** No loaders: every lookup misses, and the non-`try` lookup gives the sentinel. */
  lemma EmptyMisses(lang: Tag, textId: string, args: Option<Args>)
    ensures TryLookupComplete(New(), lang, textId, args) == Done(None)
    ensures LookupComplete(New(), lang, textId, args) == Done(Sentinel(textId))
  {
  }

  /**
   * Appending loaders never changes an answer the earlier loaders give; the
   * later loaders are asked only when all earlier ones miss.
   */
  lemma AppendedLoadersAskedLast(a: seq<Loader.LoaderView>, b: seq<Loader.LoaderView>, lang: Tag, textId: string, args: Option<Args>)
    ensures var first := TryLookupComplete(FromIter(a), lang, textId, args);
      TryLookupComplete(FromIter(a + b), lang, textId, args) == if first == Done(None) then TryLookupComplete(FromIter(b), lang, textId, args) else first
  {
    FirstHitAppend(a, b, Ask(lang, textId, args));
  }

  /** Two loaders that both answer: the one placed first wins, whatever the second says. */
  lemma EarlierLoaderWins(first: Loader.LoaderView, second: Loader.LoaderView, lang: Tag, textId: string, args: Option<Args>, text: string)
    requires first.tryLookupComplete(lang, textId, args) == Done(Some(text))
    ensures TryLookupComplete(FromIter([first, second]), lang, textId, args) == Done(Some(text))
    ensures LookupComplete(FromIter([first, second]), lang, textId, args) == Done(text)
  {
  }

  /** The composite behind a `dyn Loader`. */
  function AsLoader(m: MultiLoader): (r: Loader.LoaderView)
    ensures Loader.Coherent(r)
    ensures r.locales == Locales(m)
  {
    forall lang, textId, args ensures LookupComplete(m, lang, textId, args) == Present(TryLookupComplete(m, lang, textId, args), textId) {
      AnswerFromAgrees(m.loaders, lang, textId, args);
    }
    Loader.LoaderView(
      (lang, textId, args) => LookupComplete(m, lang, textId, args),
      (lang, textId, args) => TryLookupComplete(m, lang, textId, args),
      Locales(m))
  }
}
