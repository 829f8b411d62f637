/**
 * Catalog construction shared by every loader variant: a fresh bundle for
 * the language, the shared (core) resources merged first, then the
 * language's own resources in order, then the customiser applied once.
 * Any overriding error aborts the construction.
 */
module Catalog {
  import opened Base
  import opened LangId
  import opened Fluent

  /** The messages of a list of resources, resource by resource, in merge order. */
  function Flatten(rs: seq<Resource>): seq<Message>
  {
    if |rs| == 0 then [] else rs[0].body + Flatten(rs[1..])
  }

  /** Reference store for a message list: every id mapped to its first message. */
  function MessagesOf(ms: seq<Message>): (r: map<string, Message>)
    ensures forall id :: id in r <==> id in Ids(ms)
  {
    if |ms| == 0 then map[]
    else
      assert Ids(ms) == [ms[0].id] + Ids(ms[1..]);
      MessagesOf(ms[1..])[ms[0].id := ms[0]]
  }

  /** No id in `ms` is already in `entries`. */
  predicate FreshIn(entries: map<string, Message>, ms: seq<Message>)
  {
    forall i :: 0 <= i < |ms| ==> ms[i].id !in entries
  }

  /** Adds resources in order; the first refused resource aborts with its errors. */
  function AddAll(b: Bundle, rs: seq<Resource>): Result<Bundle, seq<BundleError>>
    decreases |rs|
  {
    if |rs| == 0 then Ok(b)
    else
      match AddResource(b, rs[0])
      case Err(e) => Err(e)
      case Ok(next) => AddAll(next, rs[1..])
  }

  /** The customiser, if one is configured, applied once. */
  function Customized(customize: Option<Customizer>, b: Bundle): Bundle
  {
    if customize.Some? then customize.value(b) else b
  }

  /** Which merge step refused a resource. */
  datatype AssemblyError = SharedRejected(errors: seq<BundleError>) | OwnRejected(errors: seq<BundleError>)

  /** A language's bundle: shared resources, then its own resources, then the customiser. */
  function Assemble(lang: Tag, shared: seq<Resource>, own: seq<Resource>, customize: Option<Customizer>): Result<Bundle, AssemblyError>
  {
    match AddAll(NewBundle(lang), shared)
    case Err(e) => Err(SharedRejected(e))
    case Ok(withShared) =>
      match AddAll(withShared, own)
      case Err(e) => Err(OwnRejected(e))
      case Ok(withOwn) => Ok(Customized(customize, withOwn))
  }

  /**
   * Assembly succeeds exactly when no message id occurs twice across
   * everything merged; the shared step is the one that fails exactly when
   * the shared resources clash among themselves; and a successful bundle is
   * the customiser applied once to a bundle holding every merged message.
   */
  lemma AssembleMerges(lang: Tag, shared: seq<Resource>, own: seq<Resource>, customize: Option<Customizer>)
    ensures var r := Assemble(lang, shared, own, customize);
      && (r.Ok? <==> Distinct(Ids(Flatten(shared) + Flatten(own))))
      && (r.Err? ==> (r.error.SharedRejected? <==> !Distinct(Ids(Flatten(shared)))))
      && (r.Ok? ==> r.value == Customized(customize, Bundle([lang], MessagesOf(Flatten(shared) + Flatten(own)), true)))
  {
    var fs, fo := Flatten(shared), Flatten(own);
    var empty := NewBundle(lang);
    var first := AddMessages(map[], fs);
    var second := AddMessages(first.0, fo);
    AddAllMerges(empty, shared);
    AddMessagesConcat(map[], fs, fo);
    assert AddMessages(map[], fs + fo) == (second.0, first.1 + second.1);
    AddMessagesMerges(map[], fs);
    AddMessagesMerges(map[], fs + fo);
    assert FreshIn(map[], fs) && FreshIn(map[], fs + fo);
    assert Ids(fs + fo)[..|fs|] == Ids(fs);
    DistinctPrefix(Ids(fs + fo), |fs|);
    if first.1 == [] {
      var withShared := empty.(messages := first.0);
      assert AddAll(empty, shared) == Ok(withShared);
      AddAllMerges(withShared, own);
      if second.1 == [] {
        var withOwn := withShared.(messages := second.0);
        assert AddAll(withShared, own) == Ok(withOwn);
        assert Assemble(lang, shared, own, customize) == Ok(Customized(customize, withOwn));
        assert second.0 == map[] + MessagesOf(fs + fo);
        assert map[] + MessagesOf(fs + fo) == MessagesOf(fs + fo);
        assert withOwn == Bundle([lang], MessagesOf(fs + fo), true);
      }
    }
  }

  lemma DistinctPrefix(s: seq<string>, n: nat)
    requires n <= |s|
    ensures Distinct(s) ==> Distinct(s[..n])
  {
  }

  /** Adding two message lists one after the other is adding their concatenation, with the errors concatenated. */
  lemma {:induction false} AddMessagesConcat(entries: map<string, Message>, a: seq<Message>, b: seq<Message>)
    ensures var (mid, e1) := AddMessages(entries, a);
      var (after, e2) := AddMessages(mid, b);
      AddMessages(entries, a + b) == (after, e1 + e2)
    decreases |a|
  {
    if |a| > 0 {
      assert (a + b)[0] == a[0];
      assert (a + b)[1..] == a[1..] + b;
      if a[0].id in entries {
        AddMessagesConcat(entries, a[1..], b);
        var (mid, e1) := AddMessages(entries, a[1..]);
        var (after, e2) := AddMessages(mid, b);
        assert [Overriding(a[0].id)] + e1 + e2 == [Overriding(a[0].id)] + (e1 + e2);
      } else {
        AddMessagesConcat(entries[a[0].id := a[0]], a[1..], b);
      }
    } else {
      assert a + b == b;
      assert AddMessages(entries, a) == (entries, []);
      var (after, e2) := AddMessages(entries, b);
      assert [] + e2 == e2;
    }
  }

  /**
   * Adding messages raises no error exactly when their ids are distinct and
   * new to the store, and then the store gains exactly the reference map.
   */
  lemma {:induction false} AddMessagesMerges(entries: map<string, Message>, ms: seq<Message>)
    ensures AddMessages(entries, ms).1 == [] <==> Distinct(Ids(ms)) && FreshIn(entries, ms)
    ensures AddMessages(entries, ms).1 == [] ==> AddMessages(entries, ms).0 == entries + MessagesOf(ms)
    decreases |ms|
  {
    if |ms| > 0 {
      var m := ms[0];
      var rest := ms[1..];
      assert Ids(ms) == [m.id] + Ids(rest);
      DistinctCons(m.id, Ids(rest));
      FreshCons(entries, ms);
      if m.id in entries {
        AddMessagesMerges(entries, rest);
        var (after, errors) := AddMessages(entries, rest);
        assert AddMessages(entries, ms).1 == [Overriding(m.id)] + errors;
      } else {
        AddMessagesGrow(entries, ms);
      }
    }
  }

  /** The step of `AddMessagesMerges` for a first message whose id is new. */
  lemma {:induction false} AddMessagesGrow(entries: map<string, Message>, ms: seq<Message>)
    requires |ms| > 0 && ms[0].id !in entries
    requires Distinct(Ids(ms)) <==> ms[0].id !in Ids(ms[1..]) && Distinct(Ids(ms[1..]))
    requires FreshIn(entries, ms) <==> FreshIn(entries, ms[1..])
    ensures AddMessages(entries, ms).1 == [] <==> Distinct(Ids(ms)) && FreshIn(entries, ms)
    ensures AddMessages(entries, ms).1 == [] ==> AddMessages(entries, ms).0 == entries + MessagesOf(ms)
    decreases |ms|, 0
  {
    var m := ms[0];
    var rest := ms[1..];
    var grown := entries[m.id := m];
    assert AddMessages(entries, ms) == AddMessages(grown, rest);
    AddMessagesMerges(grown, rest);
    FreshGrown(entries, m, rest);
    if AddMessages(entries, ms).1 == [] {
      assert m.id !in Ids(rest);
      assert m.id !in MessagesOf(rest);
      assert MessagesOf(ms) == MessagesOf(rest)[m.id := m];
      MapShift(entries, m.id, m, MessagesOf(rest));
    }
  }

  lemma MapShift(a: map<string, Message>, k: string, v: Message, b: map<string, Message>)
    requires k !in b
    ensures a[k := v] + b == a + b[k := v]
  {
  }

  lemma FreshCons(entries: map<string, Message>, ms: seq<Message>)
    requires |ms| > 0
    ensures FreshIn(entries, ms) <==> ms[0].id !in entries && FreshIn(entries, ms[1..])
  {
    if ms[0].id !in entries && FreshIn(entries, ms[1..]) {
      forall i | 0 <= i < |ms| ensures ms[i].id !in entries {
        if i > 0 { assert ms[i] == ms[1..][i - 1]; }
      }
    }
    if FreshIn(entries, ms) {
      forall i | 0 <= i < |ms[1..]| ensures ms[1..][i].id !in entries {
        assert ms[1..][i] == ms[i + 1];
      }
    }
  }

  lemma FreshGrown(entries: map<string, Message>, m: Message, rest: seq<Message>)
    ensures FreshIn(entries[m.id := m], rest) <==> FreshIn(entries, rest) && m.id !in Ids(rest)
  {
    var grown := entries[m.id := m];
    if FreshIn(entries, rest) && m.id !in Ids(rest) {
      forall i | 0 <= i < |rest| ensures rest[i].id !in grown {
        assert Ids(rest)[i] == rest[i].id;
      }
    }
    if FreshIn(grown, rest) {
      forall j | 0 <= j < |Ids(rest)| ensures Ids(rest)[j] != m.id {
        assert rest[j].id !in grown;
      }
    }
  }

  lemma DistinctCons(x: string, s: seq<string>)
    ensures Distinct([x] + s) <==> x !in s && Distinct(s)
  {
    var xs := [x] + s;
    assert forall i :: 0 <= i < |s| ==> xs[i + 1] == s[i];
    if x in s {
      var j :| 0 <= j < |s| && s[j] == x;
      assert xs[0] == xs[j + 1];
    }
    if x !in s && Distinct(s) {
      forall i, j | 0 <= i < j < |xs| ensures xs[i] != xs[j] {
        if i > 0 {
          assert xs[i] == s[i - 1] && xs[j] == s[j - 1];
        } else {
          assert xs[j] == s[j - 1];
        }
      }
    }
  }

  /** Folding resources one by one succeeds exactly when adding all their messages at once does, with the same store. */
  lemma {:induction false} AddAllMerges(b: Bundle, rs: seq<Resource>)
    ensures AddAll(b, rs).Ok? <==> AddMessages(b.messages, Flatten(rs)).1 == []
    ensures AddAll(b, rs).Ok? ==> AddAll(b, rs).value == b.(messages := AddMessages(b.messages, Flatten(rs)).0)
    decreases |rs|
  {
    if |rs| > 0 {
      AddMessagesConcat(b.messages, rs[0].body, Flatten(rs[1..]));
      var (mid, e1) := AddMessages(b.messages, rs[0].body);
      if |e1| == 0 {
        AddAllMerges(b.(messages := mid), rs[1..]);
      }
    }
  }

  /** Nothing merged is dropped: with distinct ids, the reference store holds every message under its own id. */
  lemma {:induction false} MessagesOfHoldsEveryMessage(ms: seq<Message>, i: nat)
    requires Distinct(Ids(ms)) && i < |ms|
    ensures ms[i].id in MessagesOf(ms) && MessagesOf(ms)[ms[i].id] == ms[i]
  {
    if i > 0 {
      assert Ids(ms) == [ms[0].id] + Ids(ms[1..]);
      DistinctCons(ms[0].id, Ids(ms[1..]));
      assert Ids(ms[1..])[i - 1] == ms[i].id;
      MessagesOfHoldsEveryMessage(ms[1..], i - 1);
    }
  }
}
