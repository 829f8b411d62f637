/**
 * Per-call resolution shared by the loaders: the outcome of a lookup (an
 * answer or a panic), formatting with the panic-on-error policy, the
 * walk over a fallback chain, and the sentinel the non-`try` path returns.
 */
module Resolution {
  import opened Base
  import opened LangId
  import opened Fluent

  /** Why a call panicked: each `panic!`/`expect` of the loaders. */
  datatype PanicReason =
    | FormatFailed(lang: Tag, textId: string, errors: seq<FormatError>)  // "Failed to format a message for locale ..."
    | UnknownLanguage(lang: Tag)                                        // "Unknown language {lang}"
    | LanguageNotFound                                                  // expect("language not found")
    | CoreResourceRejected                                              // expect("Failed to add core ... resource(s) to ... bundle")
    | ResourceRejected                                                  // expect("Failed to add FTL resources to the bundle.")

  /** A call either returns a value or panics. */
  datatype Outcome<+T> = Done(value: T) | Panic(reason: PanicReason)

  /** `format!("Unknown localization {text_id}")`. */
  function Sentinel(textId: string): string
  {
    "Unknown localization " + textId
  }

  /** The non-`try` form of an answer: the text, or the sentinel for a miss; panics pass through. */
  function Present(r: Outcome<Option<string>>, textId: string): Outcome<string>
  {
    match r
    case Done(Some(text)) => Done(text)
    case Done(None) => Done(Sentinel(textId))
    case Panic(reason) => Panic(reason)
  }

  /** Formats a resolved pattern; any formatting error is a panic, never a miss. */
  function FormatOrPanic(fmt: Formatter, b: Bundle, p: Pattern, args: Option<Args>, lang: Tag, textId: string): (r: Outcome<Option<string>>)
    ensures r.Done? <==> fmt(b, p, args).errors == []
    ensures r.Done? ==> r.value == Some(fmt(b, p, args).text)
    ensures r.Panic? ==> r.reason == FormatFailed(lang, textId, fmt(b, p, args).errors)
  {
    var out := fmt(b, p, args);
    if |out.errors| == 0 then Done(Some(out.text)) else Panic(FormatFailed(lang, textId, out.errors))
  }

  /** Tries each candidate in order and stops at the first that answers or panics. */
  function FirstHit<X>(xs: seq<X>, f: X -> Outcome<Option<string>>): Outcome<Option<string>>
  {
    if |xs| == 0 then Done(None)
    else
      match f(xs[0])
      case Done(None) => FirstHit(xs[1..], f)
      case other => other
  }

  /**
   * `r` is the first non-miss of `f` over `xs`: a miss exactly when every
   * candidate misses, otherwise the outcome of the first candidate that does
   * not miss, all earlier ones having missed.
   */
  ghost predicate IsFirstHit<X>(xs: seq<X>, f: X -> Outcome<Option<string>>, r: Outcome<Option<string>>)
  {
    && (r == Done(None) <==> forall i :: 0 <= i < |xs| ==> f(xs[i]) == Done(None))
    && (r != Done(None) ==>
          exists i :: 0 <= i < |xs| && r == f(xs[i]) && forall j :: 0 <= j < i ==> f(xs[j]) == Done(None))
  }

  /** Walking a chain yields the first non-miss in chain order, or a miss when every candidate misses. */
  lemma {:induction false} FirstHitIsFirst<X>(xs: seq<X>, f: X -> Outcome<Option<string>>)
    ensures IsFirstHit(xs, f, FirstHit(xs, f))
  {
    if |xs| > 0 {
      FirstHitIsFirst(xs[1..], f);
      var rest := FirstHit(xs[1..], f);
      if f(xs[0]) == Done(None) {
        if rest != Done(None) {
          var i :| 0 <= i < |xs[1..]| && rest == f(xs[1..][i]) && forall j :: 0 <= j < i ==> f(xs[1..][j]) == Done(None);
          assert xs[i + 1] == xs[1..][i];
          forall j | 0 <= j < i + 1 ensures f(xs[j]) == Done(None) {
            if j > 0 { assert xs[j] == xs[1..][j - 1]; }
          }
        } else {
          forall i | 0 <= i < |xs| ensures f(xs[i]) == Done(None) {
            if i > 0 { assert xs[i] == xs[1..][i - 1]; }
          }
        }
      }
    }
  }

  /** Walking a concatenation walks the second part only when the first part misses entirely. */
  lemma {:induction false} FirstHitAppend<X>(a: seq<X>, b: seq<X>, f: X -> Outcome<Option<string>>)
    ensures FirstHit(a + b, f) == if FirstHit(a, f) == Done(None) then FirstHit(b, f) else FirstHit(a, f)
  {
    if |a| == 0 {
      assert a + b == b;
    } else {
      assert (a + b)[0] == a[0];
      assert (a + b)[1..] == a[1..] + b;
      FirstHitAppend(a[1..], b, f);
    }
  }

  /**
   * `lookup_no_default_fallback` of both trees: a language without a stored
   * chain misses; otherwise the first non-miss along its chain, never the
   * fallback language.
   */
  function ChainLookup(fallbacks: map<Tag, seq<Tag>>, lang: Tag, single: Tag -> Outcome<Option<string>>): (r: Outcome<Option<string>>)
    ensures lang !in fallbacks ==> r == Done(None)
    ensures lang in fallbacks ==> IsFirstHit(fallbacks[lang], single, r)
  {
    if lang !in fallbacks then Done(None)
    else
      FirstHitIsFirst(fallbacks[lang], single);
      FirstHit(fallbacks[lang], single)
  }

  /** What a lookup may consult, in order: the chain, then the fallback language unless it was the one requested. */
  function Candidates(chain: seq<Tag>, lang: Tag, fallback: Tag): seq<Tag>
  {
    chain + if lang != fallback then [fallback] else []
  }

  /**
   * The loop of a `lookup_complete`: the first chain language that answers,
   * else the fallback language's answer when it was not the one requested,
   * else the sentinel; a panic ends the walk.
   */
  function WalkWithFallback(chain: seq<Tag>, lang: Tag, fallback: Tag, single: Tag -> Outcome<Option<string>>, textId: string): Outcome<string>
  {
    match FirstHit(chain, single)
    case Done(Some(text)) => Done(text)
    case Panic(reason) => Panic(reason)
    case Done(None) =>
      if lang != fallback then
        match single(fallback)
        case Done(Some(text)) => Done(text)
        case Panic(reason) => Panic(reason)
        case Done(None) => Done(Sentinel(textId))
      else Done(Sentinel(textId))
  }

  /** The walk answers the first non-miss over the candidates, with the sentinel for a miss. */
  lemma WalkWithFallbackIsFirstHit(chain: seq<Tag>, lang: Tag, fallback: Tag, single: Tag -> Outcome<Option<string>>, textId: string)
    ensures WalkWithFallback(chain, lang, fallback, single, textId) == Present(FirstHit(Candidates(chain, lang, fallback), single), textId)
  {
    var extra := if lang != fallback then [fallback] else [];
    FirstHitAppend(chain, extra, single);
    if lang != fallback {
      assert extra[1..] == [];
    }
  }

  /** Once every chain language misses and the fallback language was not requested, the fallback language decides. */
  lemma FallbackDecidesAfterChainMisses(chain: seq<Tag>, lang: Tag, fallback: Tag, single: Tag -> Outcome<Option<string>>, textId: string)
    requires lang != fallback
    requires forall t :: t in chain ==> single(t) == Done(None)
    ensures WalkWithFallback(chain, lang, fallback, single, textId) == Present(single(fallback), textId)
  {
    FirstHitIsFirst(chain, single);
  }

  /** A panicking walk passes on the panic of one of its candidates. */
  lemma WalkPanicComesFromCandidate(chain: seq<Tag>, lang: Tag, fallback: Tag, single: Tag -> Outcome<Option<string>>, textId: string)
    ensures var r := WalkWithFallback(chain, lang, fallback, single, textId);
      r.Panic? ==> exists t :: t in Candidates(chain, lang, fallback) && single(t) == Panic(r.reason)
  {
    var candidates := Candidates(chain, lang, fallback);
    WalkWithFallbackIsFirstHit(chain, lang, fallback, single, textId);
    FirstHitIsFirst(candidates, single);
    var r := FirstHit(candidates, single);
    if r.Panic? {
      var i :| 0 <= i < |candidates| && r == single(candidates[i]);
      assert candidates[i] in candidates;
    }
  }

  /** The value pattern a bundle holds for a message id, if it has one. */
  function ValuePattern(b: Bundle, msgId: string): Option<Pattern>
  {
    if msgId in b.messages then b.messages[msgId].value else None
  }

  /**
   * The strict single-language lookup of the run-time loaders: a language
   * without a bundle panics; the id names a message whose value is
   * formatted (a dot is part of the id, not an attribute separator); the
   * given arguments reach the formatter.
   */
  function StrictValueLookup(bundles: map<Tag, Bundle>, lang: Tag, textId: string, args: Option<Args>, fmt: Formatter): (r: Outcome<Option<string>>)
    ensures lang !in bundles ==> r == Panic(UnknownLanguage(lang))
    ensures lang in bundles ==> (r == Done(None) <==> ValuePattern(bundles[lang], textId).None?)
    ensures lang in bundles && r.Panic? ==> r.reason.FormatFailed? && r.reason.lang == lang && r.reason.textId == textId && r.reason.errors != []
    ensures lang in bundles && r.Panic? ==>
      ValuePattern(bundles[lang], textId).Some?
      && r.reason.errors == fmt(bundles[lang], ValuePattern(bundles[lang], textId).value, args).errors
    ensures (lang in bundles && ValuePattern(bundles[lang], textId).Some?
             && fmt(bundles[lang], ValuePattern(bundles[lang], textId).value, args).errors == []) ==>
      r == Done(Some(fmt(bundles[lang], ValuePattern(bundles[lang], textId).value, args).text))
    ensures r.Done? && r.value.Some? ==>
      lang in bundles && ValuePattern(bundles[lang], textId).Some?
      && fmt(bundles[lang], ValuePattern(bundles[lang], textId).value, args) == Formatted(r.value.value, [])
  {
    if lang in bundles then
      var bundle := bundles[lang];
      match GetMessage(bundle, textId)
      case Some(Message(_, Some(pattern), _)) => FormatOrPanic(fmt, bundle, pattern, args, lang, textId)
      case _ => Done(None)
    else Panic(UnknownLanguage(lang))
  }

  /** Every language a stored chain names has a bundle. */
  ghost predicate ChainsHaveBundles(bundles: map<Tag, Bundle>, fallbacks: map<Tag, seq<Tag>>)
  {
    forall lang, t :: lang in fallbacks && t in fallbacks[lang] ==> t in bundles
  }

  /**
   * When every chain language has a bundle, the only language a strict walk
   * can find without a bundle is the fallback language.
   */
  lemma StrictWalkBlamesOnlyFallback(bundles: map<Tag, Bundle>, fallbacks: map<Tag, seq<Tag>>, lang: Tag, fallback: Tag,
                                     textId: string, args: Option<Args>, fmt: Formatter, single: Tag -> Outcome<Option<string>>)
    requires ChainsHaveBundles(bundles, fallbacks) && lang in fallbacks
    requires forall l :: single(l) == StrictValueLookup(bundles, l, textId, args, fmt)
    ensures var r := WalkWithFallback(fallbacks[lang], lang, fallback, single, textId);
      r.Panic? && r.reason.UnknownLanguage? ==> r.reason.lang == fallback && fallback !in bundles
  {
    WalkPanicComesFromCandidate(fallbacks[lang], lang, fallback, single, textId);
  }
}
