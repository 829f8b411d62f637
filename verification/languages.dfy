/**
 * The crate's own language negotiator (src/languages.rs): `filter_matches`
 * collects the available tags that match the requested ones in two passes per
 * request, removing each match from the working list, then stable-sorts the
 * collection by descending specificity; `negotiate_languages` appends an
 * optional default.
 */
module Languages {
  import opened Base
  import opened LangId

  /** A request accepts an available tag under one of the two strategies: exact, or the available tag used as a range. */
  predicate Accepts(requested: Tag, available: Tag)
  {
    Matches(available, requested, false, false) || Matches(available, requested, true, false)
  }

  /** Some request of the list accepts `available`. */
  predicate AcceptedByAny(requested: seq<Tag>, available: Tag)
  {
    exists i :: 0 <= i < |requested| && Accepts(requested[i], available)
  }

  /** What one `retain` pass leaves behind: the removed (matching) entries in order, and the kept ones. */
  datatype Split = Split(matched: seq<Tag>, kept: seq<Tag>)

  /**
   * One `test_strategy!` pass: `retain` over the working list, pushing every
   * entry that matches `req` to the result and dropping it from the list.
   */
  function Retain(working: seq<Tag>, req: Tag, selfAsRange: bool, otherAsRange: bool): Split
  {
    if |working| == 0 then Split([], [])
    else
      var rest := Retain(working[1..], req, selfAsRange, otherAsRange);
      if Matches(working[0], req, selfAsRange, otherAsRange) then Split([working[0]] + rest.matched, rest.kept)
      else Split(rest.matched, [working[0]] + rest.kept)
  }

  /** A `retain` pass moves every matching entry, as often as it occurs, to the result and keeps every other one. */
  lemma {:induction false} RetainCounts(working: seq<Tag>, req: Tag, selfAsRange: bool, otherAsRange: bool)
    ensures var r := Retain(working, req, selfAsRange, otherAsRange);
      forall t :: multiset(r.matched)[t] == if Matches(t, req, selfAsRange, otherAsRange) then multiset(working)[t] else 0
    ensures var r := Retain(working, req, selfAsRange, otherAsRange);
      forall t :: multiset(r.kept)[t] == if Matches(t, req, selfAsRange, otherAsRange) then 0 else multiset(working)[t]
  {
    if |working| > 0 {
      RetainCounts(working[1..], req, selfAsRange, otherAsRange);
      var rest := Retain(working[1..], req, selfAsRange, otherAsRange);
      var r := Retain(working, req, selfAsRange, otherAsRange);
      var head := working[0];
      var hit := Matches(head, req, selfAsRange, otherAsRange);
      assert multiset(working) == multiset{head} + multiset(working[1..]) by {
        assert working == [head] + working[1..];
      }
      assert hit ==> multiset(r.matched) == multiset{head} + multiset(rest.matched) && r.kept == rest.kept;
      assert !hit ==> multiset(r.kept) == multiset{head} + multiset(rest.kept) && r.matched == rest.matched;
    }
  }

  /**
   * The loop of `filter_matches` before sorting: for each request in order,
   * the exact pass and then the range pass over what is still available.
   * The closing `if req.language.is_empty() { continue; }` is the last
   * statement of the loop body and changes nothing, so it has no counterpart.
   */
  function Discover(requested: seq<Tag>, working: seq<Tag>): (r: seq<Tag>)
  {
    if |requested| == 0 then []
    else
      var exact := Retain(working, requested[0], false, false);
      var ranged := Retain(exact.kept, requested[0], true, false);
      exact.matched + ranged.matched + Discover(requested[1..], ranged.kept)
  }

  /** Non-increasing specificity from front to back. */
  predicate NonIncreasing(s: seq<Tag>)
  {
    forall i, j :: 0 <= i < j < |s| ==> Specificity(s[i]) >= Specificity(s[j])
  }

  /** The entries of `s` whose specificity is `k`, in their order in `s`. */
  function WithSpecificity(s: seq<Tag>, k: nat): (r: seq<Tag>)
  {
    if |s| == 0 then []
    else if Specificity(s[0]) == k then [s[0]] + WithSpecificity(s[1..], k)
    else WithSpecificity(s[1..], k)
  }

  /** Places `x` in front of the first entry that is not more specific than it. */
  function InsertBySpecificity(x: Tag, s: seq<Tag>): (r: seq<Tag>)
    ensures multiset(r) == multiset(s) + multiset{x}
    ensures NonIncreasing(s) ==> NonIncreasing(r)
  {
    if |s| == 0 || Specificity(s[0]) <= Specificity(x) then
      [x] + s
    else
      var rest := InsertBySpecificity(x, s[1..]);
      assert s == [s[0]] + s[1..];
      var r := [s[0]] + rest;
      assert NonIncreasing(s) ==> NonIncreasing(r) by {
        if NonIncreasing(s) {
          assert NonIncreasing(s[1..]);
          ConsKeepsOrder(s[0], x, s[1..], rest);
        }
      }
      r
  }

  /** Putting `h` in front of a reordering of `t` plus a less specific `x` keeps the order `[h] + t` had. */
  lemma ConsKeepsOrder(h: Tag, x: Tag, t: seq<Tag>, rest: seq<Tag>)
    requires NonIncreasing([h] + t) && NonIncreasing(rest)
    requires Specificity(h) > Specificity(x)
    requires multiset(rest) == multiset(t) + multiset{x}
    ensures NonIncreasing([h] + rest)
  {
    var r := [h] + rest;
    forall i, j | 0 <= i < j < |r| ensures Specificity(r[i]) >= Specificity(r[j]) {
      var y := rest[j - 1];
      assert r[j] == y;
      if i > 0 {
        assert r[i] == rest[i - 1];
      } else if y != x {
        assert y in multiset(rest);
        assert y in t;
        var m :| 0 <= m < |t| && t[m] == y;
        assert ([h] + t)[m + 1] == y;
        assert Specificity(([h] + t)[0]) >= Specificity(([h] + t)[m + 1]);
      }
    }
  }

  /** Inserting `x` adds it in front of the entries of its own specificity and leaves every other specificity class alone. */
  lemma {:induction false} InsertKeepsClasses(x: Tag, s: seq<Tag>, k: nat)
    ensures WithSpecificity(InsertBySpecificity(x, s), k) == if Specificity(x) == k then [x] + WithSpecificity(s, k) else WithSpecificity(s, k)
  {
    if |s| == 0 || Specificity(s[0]) <= Specificity(x) {
      assert ([x] + s)[1..] == s;
    } else {
      var rest := InsertBySpecificity(x, s[1..]);
      InsertKeepsClasses(x, s[1..], k);
      assert ([s[0]] + rest)[1..] == rest;
    }
  }

  /**
   * `sort_by(|x, y| specificity(x).cmp(&specificity(y)).reverse())`: Rust's
   * `sort_by` is stable, so the result is ordered by descending specificity
   * and entries of equal specificity keep their relative order.
   */
  function SortBySpecificity(s: seq<Tag>): (r: seq<Tag>)
    ensures multiset(r) == multiset(s)
    ensures NonIncreasing(r)
    ensures forall k :: WithSpecificity(r, k) == WithSpecificity(s, k)
  {
    if |s| == 0 then []
    else
      assert s == [s[0]] + s[1..];
      var r := InsertBySpecificity(s[0], SortBySpecificity(s[1..]));
      assert forall k :: WithSpecificity(r, k) == WithSpecificity(s, k) by {
        forall k ensures WithSpecificity(r, k) == WithSpecificity(s, k) {
          InsertKeepsClasses(s[0], SortBySpecificity(s[1..]), k);
        }
      }
      r
  }

  /** `filter_matches`: every available entry some request accepts, most specific first. */
  function FilterMatches(requested: seq<Tag>, available: seq<Tag>): (r: seq<Tag>)
    ensures forall t :: multiset(r)[t] == if AcceptedByAny(requested, t) then multiset(available)[t] else 0
    ensures NonIncreasing(r)
    ensures forall k :: WithSpecificity(r, k) == WithSpecificity(Discover(requested, available), k)
  {
    DiscoverCounts(requested, available);
    SortBySpecificity(Discover(requested, available))
  }

  /**
   * `negotiate_languages`: the filtered matches, followed by `default` exactly
   * when it was given and is not already among them.
   */
  function NegotiateLanguages(requested: seq<Tag>, available: seq<Tag>, default: Option<Tag>): (r: seq<Tag>)
    ensures var supported := FilterMatches(requested, available);
      && |supported| <= |r| <= |supported| + 1
      && r[..|supported|] == supported
      && (|r| > |supported| <==> default.Some? && default.value !in supported)
      && (|r| > |supported| ==> r[|supported|] == default.value)
    ensures default.Some? ==> default.value in r
  {
    var supported := FilterMatches(requested, available);
    if default.Some? && default.value !in supported then
      var r := supported + [default.value];
      assert r[|supported|] == default.value;
      r
    else supported
  }

  /** The discovery loop collects each accepted available entry exactly as often as it occurs, and nothing else. */
  lemma {:induction false} DiscoverCounts(requested: seq<Tag>, working: seq<Tag>)
    ensures forall t :: multiset(Discover(requested, working))[t] == if AcceptedByAny(requested, t) then multiset(working)[t] else 0
    decreases |requested|
  {
    if |requested| > 0 {
      var req := requested[0];
      var exact := Retain(working, req, false, false);
      var ranged := Retain(exact.kept, req, true, false);
      RetainCounts(working, req, false, false);
      RetainCounts(exact.kept, req, true, false);
      DiscoverCounts(requested[1..], ranged.kept);
      forall t ensures multiset(Discover(requested, working))[t] == if AcceptedByAny(requested, t) then multiset(working)[t] else 0 {
        AcceptedByAnyCons(requested, t);
      }
    }
  }

  /** Splits the existential of `AcceptedByAny` into the first request and the rest. */
  lemma AcceptedByAnyCons(requested: seq<Tag>, t: Tag)
    requires |requested| > 0
    ensures AcceptedByAny(requested, t) <==> Accepts(requested[0], t) || AcceptedByAny(requested[1..], t)
  {
    if AcceptedByAny(requested, t) && !Accepts(requested[0], t) {
      var i :| 0 <= i < |requested| && Accepts(requested[i], t);
      assert requested[1..][i - 1] == requested[i];
    }
    if AcceptedByAny(requested[1..], t) {
      var i :| 0 <= i < |requested[1..]| && Accepts(requested[1..][i], t);
      assert requested[i + 1] == requested[1..][i];
    }
  }
}

module LanguagesFacts {
  import opened Base
  import opened LangId
  import opened Languages

  /** No available entry is returned more often than it is listed, so the result is never longer than `available`. */
  lemma FilterMatchesWithinAvailable(requested: seq<Tag>, available: seq<Tag>)
    ensures multiset(FilterMatches(requested, available)) <= multiset(available)
    ensures |FilterMatches(requested, available)| <= |available|
  {
    var r := FilterMatches(requested, available);
    assert multiset(r) <= multiset(available);
    assert |multiset(r)| <= |multiset(available)| by {
      SubMultisetSize(multiset(r), multiset(available));
    }
  }

  lemma SubMultisetSize(a: multiset<Tag>, b: multiset<Tag>)
    requires a <= b
    ensures |a| <= |b|
  {
    assert b == a + (b - a);
  }

  /** An entry is in the result exactly when it is available and some request accepts it. */
  lemma FilterMatchesMembership(requested: seq<Tag>, available: seq<Tag>, t: Tag)
    ensures t in FilterMatches(requested, available) <==> t in available && AcceptedByAny(requested, t)
  {
    assert multiset(FilterMatches(requested, available))[t] == if AcceptedByAny(requested, t) then multiset(available)[t] else 0;
  }

  /** The exact pass: a requested tag that is itself available is always returned. */
  lemma ExactRequestIsReturned(requested: seq<Tag>, available: seq<Tag>, i: nat)
    requires i < |requested| && requested[i] in available
    ensures requested[i] in FilterMatches(requested, available)
  {
    assert Accepts(requested[i], requested[i]);
    FilterMatchesMembership(requested, available, requested[i]);
  }

  /** A request list that accepts nothing available, in particular an empty one, yields an empty result. */
  lemma NothingAcceptedGivesEmpty(requested: seq<Tag>, available: seq<Tag>)
    requires forall t :: t in available ==> !AcceptedByAny(requested, t)
    ensures FilterMatches(requested, available) == []
  {
    var r := FilterMatches(requested, available);
    if |r| > 0 {
      FilterMatchesMembership(requested, available, r[0]);
    }
  }

  /** With a single request, discovery is the exact pass followed by the range pass, and starts with the request when it is available. */
  lemma SingleRequestDiscovery(lang: Tag, available: seq<Tag>)
    requires lang in available
    ensures |Discover([lang], available)| > 0 && Discover([lang], available)[0] == lang
  {
    var exact := Retain(available, lang, false, false);
    var ranged := Retain(exact.kept, lang, true, false);
    assert Discover([lang], available) == exact.matched + ranged.matched + Discover([], ranged.kept);
    assert Matches(lang, lang, false, false);
    RetainCounts(available, lang, false, false);
    assert multiset(exact.matched)[lang] > 0;
    var e := exact.matched[0];
    assert e in multiset(exact.matched);
    ExactMatchIsEquality(e, lang);
  }

  /** Everything a single request accepts is at most as specific as the request. */
  lemma SingleRequestBound(lang: Tag, available: seq<Tag>, t: Tag)
    requires t in FilterMatches([lang], available)
    ensures Specificity(t) <= Specificity(lang)
  {
    FilterMatchesMembership([lang], available, t);
    var i :| 0 <= i < 1 && Accepts([lang][i], t);
    if Matches(t, lang, false, false) {
      ExactMatchIsRangeMatch(t, lang);
    }
    RangeMatchIsNoMoreSpecific(t, lang);
  }

  /** In a non-increasing sequence whose entries are bounded by the specificity of a member, the head has that specificity and heads its class. */
  lemma HeadOfTopClass(r: seq<Tag>, x: Tag)
    requires NonIncreasing(r) && x in r
    requires forall t :: t in r ==> Specificity(t) <= Specificity(x)
    ensures Specificity(r[0]) == Specificity(x)
    ensures |WithSpecificity(r, Specificity(x))| > 0 && WithSpecificity(r, Specificity(x))[0] == r[0]
  {
    assert r[0] in r;
    assert r == [r[0]] + r[1..];
  }

  /**
   * Asking for an available tag alone puts that very tag first: nothing it
   * accepts is more specific, and among equally specific matches the exact
   * pass discovered it first.  This is why every fallback chain the crate's
   * negotiator builds starts with its own language.
   */
  lemma RequestedTagComesFirst(lang: Tag, available: seq<Tag>)
    requires lang in available
    ensures |FilterMatches([lang], available)| > 0
    ensures FilterMatches([lang], available)[0] == lang
  {
    var r := FilterMatches([lang], available);
    var k := Specificity(lang);
    SingleRequestTopClass(lang, available);
    SingleRequestDiscovery(lang, available);
    var found := Discover([lang], available);
    assert WithSpecificity(found, k)[0] == lang by {
      assert found == [lang] + found[1..];
    }
    assert WithSpecificity(r, k) == WithSpecificity(found, k);
  }

  /** The result for a single available request is headed by an entry of the request's specificity, which heads that class. */
  lemma SingleRequestTopClass(lang: Tag, available: seq<Tag>)
    requires lang in available
    ensures var r := FilterMatches([lang], available);
      |r| > 0 && |WithSpecificity(r, Specificity(lang))| > 0 && WithSpecificity(r, Specificity(lang))[0] == r[0]
  {
    var r := FilterMatches([lang], available);
    assert lang in r by {
      FilterMatchesMembership([lang], available, lang);
      assert Accepts([lang][0], lang);
    }
    forall t | t in r ensures Specificity(t) <= Specificity(lang) {
      SingleRequestBound(lang, available, t);
    }
    HeadOfTopClass(r, lang);
  }

  const De := Tag("de", None, None, [])
  const DeDe := Tag("de", None, Some("DE"), [])
  const DeDe1996 := Tag("de", None, Some("DE"), ["1996"])
  const DeCh := Tag("de", None, Some("CH"), [])
  const EnUs := Tag("en", None, Some("US"), [])

  /** The five locales of the hierarchy test. */
  function HierarchyLocales(): (r: seq<Tag>)
    ensures |r| == 5
  {
    [De, DeDe1996, EnUs, DeDe, DeCh]
  }

  /** `test_hirarchy`: requesting De against the five hierarchy locales. */
  lemma {:induction false} VectorDe()
    ensures FilterMatches([De], HierarchyLocales()) == [De]
  {
    assert Retain([], De, false, false) == Split([], []);
    assert [DeCh][1..] == [];
    assert !Matches(DeCh, De, false, false);
    assert Retain([DeCh], De, false, false) == Split([], [DeCh]);
    assert [DeDe, DeCh][1..] == [DeCh];
    assert !Matches(DeDe, De, false, false);
    assert Retain([DeDe, DeCh], De, false, false) == Split([], [DeDe, DeCh]);
    assert [EnUs, DeDe, DeCh][1..] == [DeDe, DeCh];
    assert !Matches(EnUs, De, false, false);
    assert Retain([EnUs, DeDe, DeCh], De, false, false) == Split([], [EnUs, DeDe, DeCh]);
    assert [DeDe1996, EnUs, DeDe, DeCh][1..] == [EnUs, DeDe, DeCh];
    assert !Matches(DeDe1996, De, false, false);
    assert Retain([DeDe1996, EnUs, DeDe, DeCh], De, false, false) == Split([], [DeDe1996, EnUs, DeDe, DeCh]);
    assert [De, DeDe1996, EnUs, DeDe, DeCh][1..] == [DeDe1996, EnUs, DeDe, DeCh];
    assert Matches(De, De, false, false);
    assert Retain([De, DeDe1996, EnUs, DeDe, DeCh], De, false, false) == Split([De], [DeDe1996, EnUs, DeDe, DeCh]);
    assert Retain([], De, true, false) == Split([], []);
    assert [DeCh][1..] == [];
    assert !Matches(DeCh, De, true, false);
    assert Retain([DeCh], De, true, false) == Split([], [DeCh]);
    assert [DeDe, DeCh][1..] == [DeCh];
    assert !Matches(DeDe, De, true, false);
    assert Retain([DeDe, DeCh], De, true, false) == Split([], [DeDe, DeCh]);
    assert [EnUs, DeDe, DeCh][1..] == [DeDe, DeCh];
    assert !Matches(EnUs, De, true, false);
    assert Retain([EnUs, DeDe, DeCh], De, true, false) == Split([], [EnUs, DeDe, DeCh]);
    assert [DeDe1996, EnUs, DeDe, DeCh][1..] == [EnUs, DeDe, DeCh];
    assert !Matches(DeDe1996, De, true, false);
    assert Retain([DeDe1996, EnUs, DeDe, DeCh], De, true, false) == Split([], [DeDe1996, EnUs, DeDe, DeCh]);
    assert [De][1..] == [];
    assert Discover([De], HierarchyLocales()) == [De] + [] + Discover([], [DeDe1996, EnUs, DeDe, DeCh]);
    assert Discover([De], HierarchyLocales()) == [De];
    assert SortBySpecificity([]) == [];
    assert [De][1..] == [];
    assert InsertBySpecificity(De, []) == [De];
    assert SortBySpecificity([De]) == [De];
  }

  /** `test_hirarchy`: requesting DeDe against the five hierarchy locales. */
  lemma {:induction false} VectorDeDe()
    ensures FilterMatches([DeDe], HierarchyLocales()) == [DeDe, De]
  {
    assert Retain([], DeDe, false, false) == Split([], []);
    assert [DeCh][1..] == [];
    assert !Matches(DeCh, DeDe, false, false);
    assert Retain([DeCh], DeDe, false, false) == Split([], [DeCh]);
    assert [DeDe, DeCh][1..] == [DeCh];
    assert Matches(DeDe, DeDe, false, false);
    assert Retain([DeDe, DeCh], DeDe, false, false) == Split([DeDe], [DeCh]);
    assert [EnUs, DeDe, DeCh][1..] == [DeDe, DeCh];
    assert !Matches(EnUs, DeDe, false, false);
    assert Retain([EnUs, DeDe, DeCh], DeDe, false, false) == Split([DeDe], [EnUs, DeCh]);
    assert [DeDe1996, EnUs, DeDe, DeCh][1..] == [EnUs, DeDe, DeCh];
    assert !Matches(DeDe1996, DeDe, false, false);
    assert Retain([DeDe1996, EnUs, DeDe, DeCh], DeDe, false, false) == Split([DeDe], [DeDe1996, EnUs, DeCh]);
    assert [De, DeDe1996, EnUs, DeDe, DeCh][1..] == [DeDe1996, EnUs, DeDe, DeCh];
    assert !Matches(De, DeDe, false, false);
    assert Retain([De, DeDe1996, EnUs, DeDe, DeCh], DeDe, false, false) == Split([DeDe], [De, DeDe1996, EnUs, DeCh]);
    assert Retain([], DeDe, true, false) == Split([], []);
    assert [DeCh][1..] == [];
    assert !Matches(DeCh, DeDe, true, false);
    assert Retain([DeCh], DeDe, true, false) == Split([], [DeCh]);
    assert [EnUs, DeCh][1..] == [DeCh];
    assert !Matches(EnUs, DeDe, true, false);
    assert Retain([EnUs, DeCh], DeDe, true, false) == Split([], [EnUs, DeCh]);
    assert [DeDe1996, EnUs, DeCh][1..] == [EnUs, DeCh];
    assert !Matches(DeDe1996, DeDe, true, false);
    assert Retain([DeDe1996, EnUs, DeCh], DeDe, true, false) == Split([], [DeDe1996, EnUs, DeCh]);
    assert [De, DeDe1996, EnUs, DeCh][1..] == [DeDe1996, EnUs, DeCh];
    assert Matches(De, DeDe, true, false);
    assert Retain([De, DeDe1996, EnUs, DeCh], DeDe, true, false) == Split([De], [DeDe1996, EnUs, DeCh]);
    assert [DeDe][1..] == [];
    assert Discover([DeDe], HierarchyLocales()) == [DeDe] + [De] + Discover([], [DeDe1996, EnUs, DeCh]);
    assert Discover([DeDe], HierarchyLocales()) == [DeDe, De];
    assert SortBySpecificity([]) == [];
    assert [De][1..] == [];
    assert InsertBySpecificity(De, []) == [De];
    assert SortBySpecificity([De]) == [De];
    assert [DeDe, De][1..] == [De];
    assert [De][1..] == [];
    assert InsertBySpecificity(DeDe, [De]) == [DeDe, De];
    assert SortBySpecificity([DeDe, De]) == [DeDe, De];
  }

  /** `test_hirarchy`: requesting DeCh against the five hierarchy locales. */
  lemma {:induction false} VectorDeCh()
    ensures FilterMatches([DeCh], HierarchyLocales()) == [DeCh, De]
  {
    assert Retain([], DeCh, false, false) == Split([], []);
    assert [DeCh][1..] == [];
    assert Matches(DeCh, DeCh, false, false);
    assert Retain([DeCh], DeCh, false, false) == Split([DeCh], []);
    assert [DeDe, DeCh][1..] == [DeCh];
    assert !Matches(DeDe, DeCh, false, false);
    assert Retain([DeDe, DeCh], DeCh, false, false) == Split([DeCh], [DeDe]);
    assert [EnUs, DeDe, DeCh][1..] == [DeDe, DeCh];
    assert !Matches(EnUs, DeCh, false, false);
    assert Retain([EnUs, DeDe, DeCh], DeCh, false, false) == Split([DeCh], [EnUs, DeDe]);
    assert [DeDe1996, EnUs, DeDe, DeCh][1..] == [EnUs, DeDe, DeCh];
    assert !Matches(DeDe1996, DeCh, false, false);
    assert Retain([DeDe1996, EnUs, DeDe, DeCh], DeCh, false, false) == Split([DeCh], [DeDe1996, EnUs, DeDe]);
    assert [De, DeDe1996, EnUs, DeDe, DeCh][1..] == [DeDe1996, EnUs, DeDe, DeCh];
    assert !Matches(De, DeCh, false, false);
    assert Retain([De, DeDe1996, EnUs, DeDe, DeCh], DeCh, false, false) == Split([DeCh], [De, DeDe1996, EnUs, DeDe]);
    assert Retain([], DeCh, true, false) == Split([], []);
    assert [DeDe][1..] == [];
    assert !Matches(DeDe, DeCh, true, false);
    assert Retain([DeDe], DeCh, true, false) == Split([], [DeDe]);
    assert [EnUs, DeDe][1..] == [DeDe];
    assert !Matches(EnUs, DeCh, true, false);
    assert Retain([EnUs, DeDe], DeCh, true, false) == Split([], [EnUs, DeDe]);
    assert [DeDe1996, EnUs, DeDe][1..] == [EnUs, DeDe];
    assert !Matches(DeDe1996, DeCh, true, false);
    assert Retain([DeDe1996, EnUs, DeDe], DeCh, true, false) == Split([], [DeDe1996, EnUs, DeDe]);
    assert [De, DeDe1996, EnUs, DeDe][1..] == [DeDe1996, EnUs, DeDe];
    assert Matches(De, DeCh, true, false);
    assert Retain([De, DeDe1996, EnUs, DeDe], DeCh, true, false) == Split([De], [DeDe1996, EnUs, DeDe]);
    assert [DeCh][1..] == [];
    assert Discover([DeCh], HierarchyLocales()) == [DeCh] + [De] + Discover([], [DeDe1996, EnUs, DeDe]);
    assert Discover([DeCh], HierarchyLocales()) == [DeCh, De];
    assert SortBySpecificity([]) == [];
    assert [De][1..] == [];
    assert InsertBySpecificity(De, []) == [De];
    assert SortBySpecificity([De]) == [De];
    assert [DeCh, De][1..] == [De];
    assert [De][1..] == [];
    assert InsertBySpecificity(DeCh, [De]) == [DeCh, De];
    assert SortBySpecificity([DeCh, De]) == [DeCh, De];
  }

  /** `test_hirarchy`: requesting DeDe1996 against the five hierarchy locales. */
  lemma {:induction false} VectorDeDe1996()
    ensures FilterMatches([DeDe1996], HierarchyLocales()) == [DeDe1996, DeDe, De]
  {
    assert Retain([], DeDe1996, false, false) == Split([], []);
    assert [DeCh][1..] == [];
    assert !Matches(DeCh, DeDe1996, false, false);
    assert Retain([DeCh], DeDe1996, false, false) == Split([], [DeCh]);
    assert [DeDe, DeCh][1..] == [DeCh];
    assert !Matches(DeDe, DeDe1996, false, false);
    assert Retain([DeDe, DeCh], DeDe1996, false, false) == Split([], [DeDe, DeCh]);
    assert [EnUs, DeDe, DeCh][1..] == [DeDe, DeCh];
    assert !Matches(EnUs, DeDe1996, false, false);
    assert Retain([EnUs, DeDe, DeCh], DeDe1996, false, false) == Split([], [EnUs, DeDe, DeCh]);
    assert [DeDe1996, EnUs, DeDe, DeCh][1..] == [EnUs, DeDe, DeCh];
    assert Matches(DeDe1996, DeDe1996, false, false);
    assert Retain([DeDe1996, EnUs, DeDe, DeCh], DeDe1996, false, false) == Split([DeDe1996], [EnUs, DeDe, DeCh]);
    assert [De, DeDe1996, EnUs, DeDe, DeCh][1..] == [DeDe1996, EnUs, DeDe, DeCh];
    assert !Matches(De, DeDe1996, false, false);
    assert Retain([De, DeDe1996, EnUs, DeDe, DeCh], DeDe1996, false, false) == Split([DeDe1996], [De, EnUs, DeDe, DeCh]);
    assert Retain([], DeDe1996, true, false) == Split([], []);
    assert [DeCh][1..] == [];
    assert !Matches(DeCh, DeDe1996, true, false);
    assert Retain([DeCh], DeDe1996, true, false) == Split([], [DeCh]);
    assert [DeDe, DeCh][1..] == [DeCh];
    assert Matches(DeDe, DeDe1996, true, false);
    assert Retain([DeDe, DeCh], DeDe1996, true, false) == Split([DeDe], [DeCh]);
    assert [EnUs, DeDe, DeCh][1..] == [DeDe, DeCh];
    assert !Matches(EnUs, DeDe1996, true, false);
    assert Retain([EnUs, DeDe, DeCh], DeDe1996, true, false) == Split([DeDe], [EnUs, DeCh]);
    assert [De, EnUs, DeDe, DeCh][1..] == [EnUs, DeDe, DeCh];
    assert Matches(De, DeDe1996, true, false);
    assert Retain([De, EnUs, DeDe, DeCh], DeDe1996, true, false) == Split([De, DeDe], [EnUs, DeCh]);
    assert [DeDe1996][1..] == [];
    assert Discover([DeDe1996], HierarchyLocales()) == [DeDe1996] + [De, DeDe] + Discover([], [EnUs, DeCh]);
    assert Discover([DeDe1996], HierarchyLocales()) == [DeDe1996, De, DeDe];
    assert SortBySpecificity([]) == [];
    assert [DeDe][1..] == [];
    assert InsertBySpecificity(DeDe, []) == [DeDe];
    assert SortBySpecificity([DeDe]) == [DeDe];
    assert [De, DeDe][1..] == [DeDe];
    assert [DeDe][1..] == [];
    assert InsertBySpecificity(De, []) == [De];
    assert InsertBySpecificity(De, [DeDe]) == [DeDe, De];
    assert SortBySpecificity([De, DeDe]) == [DeDe, De];
    assert [DeDe1996, De, DeDe][1..] == [De, DeDe];
    assert [DeDe, De][1..] == [De];
    assert InsertBySpecificity(DeDe1996, [DeDe, De]) == [DeDe1996, DeDe, De];
    assert SortBySpecificity([DeDe1996, De, DeDe]) == [DeDe1996, DeDe, De];
  }

  /** `test_negotiate_languages`: `de-DE` against `de-DE, de, en-US, de-CH`. */
  lemma {:induction false} NegotiateFilterVector()
    ensures FilterMatches([DeDe], [DeDe, De, EnUs, DeCh]) == [DeDe, De]
  {
    assert Retain([], DeDe, false, false) == Split([], []);
    assert [DeCh][1..] == [];
    assert !Matches(DeCh, DeDe, false, false);
    assert Retain([DeCh], DeDe, false, false) == Split([], [DeCh]);
    assert [EnUs, DeCh][1..] == [DeCh];
    assert !Matches(EnUs, DeDe, false, false);
    assert Retain([EnUs, DeCh], DeDe, false, false) == Split([], [EnUs, DeCh]);
    assert [De, EnUs, DeCh][1..] == [EnUs, DeCh];
    assert !Matches(De, DeDe, false, false);
    assert Retain([De, EnUs, DeCh], DeDe, false, false) == Split([], [De, EnUs, DeCh]);
    assert [DeDe, De, EnUs, DeCh][1..] == [De, EnUs, DeCh];
    assert Matches(DeDe, DeDe, false, false);
    assert Retain([DeDe, De, EnUs, DeCh], DeDe, false, false) == Split([DeDe], [De, EnUs, DeCh]);
    assert Retain([], DeDe, true, false) == Split([], []);
    assert [DeCh][1..] == [];
    assert !Matches(DeCh, DeDe, true, false);
    assert Retain([DeCh], DeDe, true, false) == Split([], [DeCh]);
    assert [EnUs, DeCh][1..] == [DeCh];
    assert !Matches(EnUs, DeDe, true, false);
    assert Retain([EnUs, DeCh], DeDe, true, false) == Split([], [EnUs, DeCh]);
    assert [De, EnUs, DeCh][1..] == [EnUs, DeCh];
    assert Matches(De, DeDe, true, false);
    assert Retain([De, EnUs, DeCh], DeDe, true, false) == Split([De], [EnUs, DeCh]);
    assert [DeDe][1..] == [];
    assert Discover([DeDe], [DeDe, De, EnUs, DeCh]) == [DeDe] + [De] + Discover([], [EnUs, DeCh]);
    assert Discover([DeDe], [DeDe, De, EnUs, DeCh]) == [DeDe, De];
    assert SortBySpecificity([]) == [];
    assert [De][1..] == [];
    assert InsertBySpecificity(De, []) == [De];
    assert SortBySpecificity([De]) == [De];
    assert [DeDe, De][1..] == [De];
    assert [De][1..] == [];
    assert InsertBySpecificity(DeDe, [De]) == [DeDe, De];
    assert SortBySpecificity([DeDe, De]) == [DeDe, De];
  }

  /** `test_negotiate_languages`: with no default the negotiation is the filtered list itself. */
  lemma NegotiateVector()
    ensures NegotiateLanguages([DeDe], [DeDe, De, EnUs, DeCh], None) == [DeDe, De]
  {
    NegotiateFilterVector();
  }

  /** A request that matches nothing yields just the default, appended once. */
  lemma DefaultOnlyVector()
    ensures NegotiateLanguages([Tag("xx", None, None, [])], [De, EnUs], Some(EnUs)) == [EnUs]
  {
    var xx := Tag("xx", None, None, []);
    NothingAcceptedGivesEmpty([xx], [De, EnUs]);
  }
}
