/**
 * The lookup helpers the crate's loaders share: resolving an id (a message
 * value, or `message.attribute`) in one language's bundle, formatting it,
 * and walking a stored fallback chain.
 */
module Shared {
  import opened Base
  import opened LangId
  import opened Fluent
  import opened Resolution
  import Loader

  /** The position of the first `c` in `s`, if any. */
  function IndexOf(s: string, c: char): (r: Option<nat>)
    ensures r.None? <==> c !in s
    ensures r.Some? ==> r.value < |s| && s[r.value] == c && c !in s[..r.value]
  {
    if |s| == 0 then None
    else if s[0] == c then Some(0)
    else
      match IndexOf(s[1..], c)
      case None => None
      case Some(i) =>
        assert s[..i + 1] == [s[0]] + s[1..][..i];
        Some(i + 1)
  }

  /** `str::split_once(c)`: the parts before and after the first `c`. */
  function SplitOnce(s: string, c: char): (r: Option<(string, string)>)
    ensures r.None? <==> c !in s
    ensures r.Some? ==> s == r.value.0 + [c] + r.value.1 && c !in r.value.0
  {
    match IndexOf(s, c)
    case None => None
    case Some(i) =>
      assert s == s[..i] + [c] + s[i + 1..];
      Some((s[..i], s[i + 1..]))
  }

  /** Splitting a joined id recovers its parts when the first part has no separator. */
  lemma SplitOnceOfJoin(before: string, c: char, after: string)
    requires c !in before
    ensures SplitOnce(before + [c] + after, c) == Some((before, after))
  {
    var s := before + [c] + after;
    assert s[|before|] == c;
    assert s[..|before|] == before;
    var i := IndexOf(s, c).value;
    assert i == |before|;
    assert s[|before| + 1..] == after;
  }

  /** The first attribute with the given id: `attributes().find(...)`. */
  function FindAttribute(attributes: seq<Attribute>, id: string): (r: Option<Pattern>)
    ensures r.None? <==> forall i :: 0 <= i < |attributes| ==> attributes[i].id != id
    ensures r.Some? ==>
      exists i :: 0 <= i < |attributes| && attributes[i].id == id && attributes[i].value == r.value
                  && forall j :: 0 <= j < i ==> attributes[j].id != id
  {
    if |attributes| == 0 then None
    else if attributes[0].id == id then Some(attributes[0].value)
    else
      var r := FindAttribute(attributes[1..], id);
      assert forall i :: 1 <= i < |attributes| ==> attributes[i] == attributes[1..][i - 1];
      if r.Some? then
        var i :| 0 <= i < |attributes[1..]| && attributes[1..][i].id == id && attributes[1..][i].value == r.value
                 && forall j :: 0 <= j < i ==> attributes[1..][j].id != id;
        assert attributes[i + 1] == attributes[1..][i];
        r
      else r
  }

  /** The pattern a bundle holds for an attribute of a message, if it has one. */
  function AttributePattern(b: Bundle, msgId: string, attrId: string): Option<Pattern>
  {
    if msgId in b.messages then FindAttribute(b.messages[msgId].attributes, attrId) else None
  }

  /** The pattern an id addresses: `message.attribute` at the first dot, otherwise the message's value. */
  function ResolvePattern(b: Bundle, textId: string): Option<Pattern>
  {
    match SplitOnce(textId, '.')
    case Some((msg, attr)) =>
      (match GetMessage(b, msg)
       case None => None
       case Some(m) => FindAttribute(m.attributes, attr))
    case None =>
      match GetMessage(b, textId)
      case None => None
      case Some(m) => m.value
  }

  /** An id without a dot addresses the message's value. */
  lemma PlainIdAddressesValue(b: Bundle, textId: string)
    requires '.' !in textId
    ensures ResolvePattern(b, textId) == ValuePattern(b, textId)
  {
  }

  /** `message.attribute` addresses that attribute of that message; later dots belong to the attribute id. */
  lemma DottedIdAddressesAttribute(b: Bundle, msgId: string, attrId: string)
    requires '.' !in msgId
    ensures ResolvePattern(b, msgId + "." + attrId) == AttributePattern(b, msgId, attrId)
  {
    SplitOnceOfJoin(msgId, '.', attrId);
  }

  /** `args.map(map_to_fluent_args)`: absent arguments stay absent, present ones are copied. */
  function FormatterArgs(args: Option<Args>): (r: Option<Args>)
    ensures r == args
  {
    if args.None? then None else Loader.MapToFluentArgs(args)
  }

  /**
   * `lookup_single_language`: a missing bundle, message, attribute or value is
   * a miss; a pattern that formats with errors panics.
   */
  function LookupSingleLanguage(bundles: map<Tag, Bundle>, lang: Tag, textId: string, args: Option<Args>, fmt: Formatter): (r: Outcome<Option<string>>)
    ensures lang !in bundles ==> r == Done(None)
    ensures lang in bundles ==> (r == Done(None) <==> ResolvePattern(bundles[lang], textId).None?)
    ensures r.Panic? ==> lang in bundles && r.reason.FormatFailed? && r.reason.lang == lang && r.reason.textId == textId && r.reason.errors != []
    ensures r.Panic? ==>
      lang in bundles && ResolvePattern(bundles[lang], textId).Some?
      && r.reason.errors == fmt(bundles[lang], ResolvePattern(bundles[lang], textId).value, args).errors
    ensures r.Done? && r.value.Some? ==>
      lang in bundles && ResolvePattern(bundles[lang], textId).Some?
      && fmt(bundles[lang], ResolvePattern(bundles[lang], textId).value, args) == Formatted(r.value.value, [])
  {
    if lang !in bundles then Done(None)
    else
      var bundle := bundles[lang];
      match ResolvePattern(bundle, textId)
      case None => Done(None)
      case Some(pattern) => FormatOrPanic(fmt, bundle, pattern, FormatterArgs(args), lang, textId)
  }

  /** A pattern the formatter renders without errors is the language's answer. */
  lemma CleanFormatAnswers(bundles: map<Tag, Bundle>, lang: Tag, textId: string, args: Option<Args>, fmt: Formatter, text: string)
    requires lang in bundles && ResolvePattern(bundles[lang], textId).Some?
    requires fmt(bundles[lang], ResolvePattern(bundles[lang], textId).value, args) == Formatted(text, [])
    ensures LookupSingleLanguage(bundles, lang, textId, args, fmt) == Done(Some(text))
  {
  }

  /**
   * `lookup_no_default_fallback`: a language without a stored chain is a
   * miss; otherwise the first language of its chain that answers, or panics.
   */
  function LookupNoDefaultFallback(bundles: map<Tag, Bundle>, fallbacks: map<Tag, seq<Tag>>, lang: Tag, textId: string, args: Option<Args>, fmt: Formatter): (r: Outcome<Option<string>>)
    ensures lang !in fallbacks ==> r == Done(None)
    ensures lang in fallbacks ==> IsFirstHit(fallbacks[lang], l => LookupSingleLanguage(bundles, l, textId, args, fmt), r)
  {
    ChainLookup(fallbacks, lang, l => LookupSingleLanguage(bundles, l, textId, args, fmt))
  }
}
