/**
 * The lookup helpers of the `templates/` tree. They address attributes with
 * `splitn(2, '.')` instead of `split_once`, and always hand the formatter an
 * argument map (empty when the caller gave none).
 */
module TemplatesShared {
  import opened Base
  import opened LangId
  import opened Fluent
  import opened Resolution
  import Shared
  import Loader
  import TemplatesLoader

  /** Pieces joined back together with the separator between them. */
  function Join(pieces: seq<string>, c: char): string
  {
    if |pieces| == 0 then []
    else if |pieces| == 1 then pieces[0]
    else pieces[0] + [c] + Join(pieces[1..], c)
  }

  /**
   * `str::splitn(n, c)`: at most `n` pieces; every separator but those
   * inside the last piece splits. Joining the pieces gives the string back.
   */
  function SplitN(s: string, c: char, n: nat): (r: seq<string>)
    ensures n == 0 ==> r == []
    ensures n >= 1 ==> 1 <= |r| <= n && Join(r, c) == s
    ensures forall i :: 0 <= i < |r| - 1 ==> c !in r[i]
    ensures 1 <= |r| < n ==> c !in r[|r| - 1]
    decreases |s|
  {
    if n == 0 then []
    else if n == 1 then [s]
    else if |s| == 0 then [""]
    else if s[0] == c then
      var rest := SplitN(s[1..], c, n - 1);
      assert s == [c] + s[1..];
      [""] + rest
    else
      var rest := SplitN(s[1..], c, n);
      var r := [[s[0]] + rest[0]] + rest[1..];
      assert Join(r, c) == [s[0]] + Join(rest, c) by {
        if |rest| > 1 {
          assert r[1..] == rest[1..];
        }
      }
      assert s == [s[0]] + s[1..];
      r
  }

  /** Two-piece splitting agrees with splitting once at the first separator. */
  lemma SplitTwoIsSplitOnce(s: string, c: char)
    ensures c !in s ==> SplitN(s, c, 2) == [s]
    ensures c in s ==> |SplitN(s, c, 2)| == 2 && Shared.SplitOnce(s, c) == Some((SplitN(s, c, 2)[0], SplitN(s, c, 2)[1]))
  {
    var r := SplitN(s, c, 2);
    if |r| == 2 {
      assert Join(r, c) == r[0] + [c] + r[1];
      assert s[|r[0]|] == c;
      Shared.SplitOnceOfJoin(r[0], c, r[1]);
    }
  }

  /** The pattern an id addresses: `message.attribute` when the id has a dot, otherwise the message's value. */
  function ResolvePattern(b: Bundle, textId: string): Option<Pattern>
  {
    if '.' in textId then
      SplitTwoIsSplitOnce(textId, '.');
      var ids := SplitN(textId, '.', 2);
      match GetMessage(b, ids[0])
      case None => None
      case Some(m) => Shared.FindAttribute(m.attributes, ids[1])
    else
      match GetMessage(b, textId)
      case None => None
      case Some(m) => m.value
  }

  /** Both trees address an id the same way. */
  lemma ResolvesLikeCrate(b: Bundle, textId: string)
    ensures ResolvePattern(b, textId) == Shared.ResolvePattern(b, textId)
  {
    SplitTwoIsSplitOnce(textId, '.');
  }

  /**
   * `lookup_single_language`: a missing bundle, message, attribute or value
   * is a miss; a formatting error panics; the formatter always receives an
   * argument map.
   */
  function LookupSingleLanguage(bundles: map<Tag, Bundle>, lang: Tag, textId: string, args: Option<Args>, fmt: Formatter): (r: Outcome<Option<string>>)
    ensures lang !in bundles ==> r == Done(None)
    ensures r.Panic? ==> lang in bundles && r.reason.FormatFailed? && r.reason.lang == lang && r.reason.errors != []
  {
    if lang !in bundles then Done(None)
    else
      var bundle := bundles[lang];
      match ResolvePattern(bundle, textId)
      case None => Done(None)
      case Some(pattern) => FormatOrPanic(fmt, bundle, pattern, TemplatesLoader.MapToStrMap(args), lang, textId)
  }

  /** The single lookup of this tree is the crate's, called with absent arguments made empty. */
  lemma SingleLikeCrateWithEmptyArgs(bundles: map<Tag, Bundle>, lang: Tag, textId: string, args: Option<Args>, fmt: Formatter)
    ensures LookupSingleLanguage(bundles, lang, textId, args, fmt)
         == Shared.LookupSingleLanguage(bundles, lang, textId, Some(if args.Some? then args.value else map[]), fmt)
  {
    if lang in bundles {
      ResolvesLikeCrate(bundles[lang], textId);
    }
  }

  /** `lookup_no_default_fallback`: the stored chain only; a language without one is a miss. */
  function LookupNoDefaultFallback(bundles: map<Tag, Bundle>, fallbacks: map<Tag, seq<Tag>>, lang: Tag, textId: string, args: Option<Args>, fmt: Formatter): (r: Outcome<Option<string>>)
    ensures lang !in fallbacks ==> r == Done(None)
    ensures lang in fallbacks ==> IsFirstHit(fallbacks[lang], l => LookupSingleLanguage(bundles, l, textId, args, fmt), r)
  {
    ChainLookup(fallbacks, lang, l => LookupSingleLanguage(bundles, l, textId, args, fmt))
  }
}
