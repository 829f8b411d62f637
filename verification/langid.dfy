/**
 * BCP 47 language identifiers (section 2.1 of RFC 5646) as the `unic_langid`
 * crate represents them once parsed and case-normalised: a language subtag, an
 * optional script, an optional region and an ordered list of variants.
 * Parsing and case normalisation are outside the model, so tags are compared
 * structurally.
 */
module LangId {
  import opened Base

  /** A language identifier; the empty language subtag stands for `und`. */
  datatype Tag = Tag(language: string, script: Option<string>, region: Option<string>, variants: seq<string>)

  /** One optional subtag of `LanguageIdentifier::matches`: an absent subtag on a side used as a range is a wildcard. */
  predicate SubtagMatches(mine: Option<string>, theirs: Option<string>, selfAsRange: bool, otherAsRange: bool)
  {
    (selfAsRange && mine.None?) || (otherAsRange && theirs.None?) || mine == theirs
  }

  /**
   * `self.matches(other, self_as_range, other_as_range)` of `unic_langid`:
   * every subtag must be equal, except that a side used as a range matches
   * anything where it leaves the subtag out (`und`, no script, no region, no variants).
   */
  predicate Matches(self: Tag, other: Tag, selfAsRange: bool, otherAsRange: bool)
  {
    && ((selfAsRange && self.language == "") || (otherAsRange && other.language == "") || self.language == other.language)
    && SubtagMatches(self.script, other.script, selfAsRange, otherAsRange)
    && SubtagMatches(self.region, other.region, selfAsRange, otherAsRange)
    && ((selfAsRange && |self.variants| == 0) || (otherAsRange && |other.variants| == 0) || self.variants == other.variants)
  }

  /** How many optional subtags a tag carries: script, region, and one per variant. */
  function Specificity(t: Tag): (r: nat)
    ensures |t.variants| <= r <= |t.variants| + 2
    ensures r == |t.variants| <==> t.script.None? && t.region.None?
  {
    (if t.script.Some? then 1 else 0) + (if t.region.Some? then 1 else 0) + |t.variants|
  }

  /** The exact strategy (neither side a range) is plain equality of tags. */
  lemma ExactMatchIsEquality(a: Tag, b: Tag)
    ensures Matches(a, b, false, false) <==> a == b
  {
  }

  /** An exact match is also a match with the available tag used as a range. */
  lemma ExactMatchIsRangeMatch(a: Tag, b: Tag)
    requires Matches(a, b, false, false)
    ensures Matches(a, b, true, false)
  {
  }

  /** A tag that matches a request when used as a range carries no subtag the request lacks. */
  lemma RangeMatchIsNoMoreSpecific(available: Tag, requested: Tag)
    requires Matches(available, requested, true, false)
    ensures Specificity(available) <= Specificity(requested)
  {
  }
}
