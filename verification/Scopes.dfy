/** Scope documents, their keys and the order bundles are kept in. */
module Scopes {
  import opened Wrappers
  import Lexical

  datatype Key = Key(provider: string, profile: string, source: string)

  predicate KeyLess(a: Key, b: Key) {
    || Lexical.Less(a.provider, b.provider)
    || (a.provider == b.provider
        && (Lexical.Less(a.profile, b.profile) || (a.profile == b.profile && Lexical.Less(a.source, b.source))))
  }

  /** The first difference decides: provider, then profile, then source. */
  lemma KeyLessMeans(a: Key, b: Key)
    ensures a.provider != b.provider ==> (KeyLess(a, b) <==> Lexical.Less(a.provider, b.provider))
    ensures a.provider == b.provider && a.profile != b.profile ==>
      (KeyLess(a, b) <==> Lexical.Less(a.profile, b.profile))
    ensures a.provider == b.provider && a.profile == b.profile ==>
      (KeyLess(a, b) <==> Lexical.Less(a.source, b.source))
  {
    Lexical.Irreflexive(a.provider);
    Lexical.Irreflexive(a.profile);
  }

  lemma KeyLessTransitive(a: Key, b: Key, c: Key)
    requires KeyLess(a, b) && KeyLess(b, c)
    ensures KeyLess(a, c)
  {
    if Lexical.Less(a.provider, b.provider) && Lexical.Less(b.provider, c.provider) {
      Lexical.Transitive(a.provider, b.provider, c.provider);
    }
    if Lexical.Less(a.profile, b.profile) && Lexical.Less(b.profile, c.profile) {
      Lexical.Transitive(a.profile, b.profile, c.profile);
    }
    if Lexical.Less(a.source, b.source) && Lexical.Less(b.source, c.source) {
      Lexical.Transitive(a.source, b.source, c.source);
    }
  }

  lemma KeyLessTotal(a: Key, b: Key)
    ensures KeyLess(a, b) || a == b || KeyLess(b, a)
    ensures !KeyLess(a, a)
  {
    Lexical.Total(a.provider, b.provider);
    Lexical.Total(a.profile, b.profile);
    Lexical.Total(a.source, b.source);
    Lexical.Irreflexive(a.provider);
    Lexical.Irreflexive(a.profile);
    Lexical.Irreflexive(a.source);
  }

  // A located locator is its canonical text; an unresolved reference may carry a legacy id.
  datatype Reference =
    | Located(locator: string, title: Option<string>)
    | Unresolved(reason: string, origin: string, legacyId: Option<nat>, title: Option<string>)

  datatype ListRow = ListRow(name: string, entries: seq<Reference>, shuffleBefore: Option<seq<Reference>>)

  // `rest` is everything else a scope document holds: schema, coverage, order, active, default.
  datatype Scope = Scope(key: Key, lists: seq<ListRow>, media: seq<Reference>, rest: string)

  type Bundle = seq<Scope>

  ghost predicate DistinctKeys(bundle: Bundle) {
    forall i, j :: 0 <= i < j < |bundle| ==> bundle[i].key != bundle[j].key
  }

  /** Key-sorted and free of duplicate scopes. */
  ghost predicate Ordered(bundle: Bundle) {
    forall i, j :: 0 <= i < j < |bundle| ==> KeyLess(bundle[i].key, bundle[j].key)
  }

  ghost function Content(bundle: Bundle): set<Scope> { set scope | scope in bundle }

  function Insert(scope: Scope, bundle: Bundle): (r: Bundle)
    ensures |r| == |bundle| + 1
    ensures forall x :: x in r <==> x == scope || x in bundle
  {
    if bundle == [] then [scope]
    else if KeyLess(scope.key, bundle[0].key) then [scope] + bundle
    else [bundle[0]] + Insert(scope, bundle[1..])
  }

  function Sorted(bundle: Bundle): (r: Bundle)
    ensures |r| == |bundle|
    ensures forall x :: x in r <==> x in bundle
  {
    if bundle == [] then [] else Insert(bundle[|bundle| - 1], Sorted(bundle[..|bundle| - 1]))
  }

  lemma {:induction false} InsertOrders(scope: Scope, bundle: Bundle)
    requires Ordered(bundle) && forall x :: x in bundle ==> x.key != scope.key
    ensures Ordered(Insert(scope, bundle))
  {
    if bundle == [] {
    } else if KeyLess(scope.key, bundle[0].key) {
      forall i | 0 < i < |bundle| ensures KeyLess(scope.key, bundle[i].key) {
        KeyLessTransitive(scope.key, bundle[0].key, bundle[i].key);
      }
    } else {
      KeyLessTotal(scope.key, bundle[0].key);
      InsertOrders(scope, bundle[1..]);
      var rest := Insert(scope, bundle[1..]);
      forall x | x in rest ensures KeyLess(bundle[0].key, x.key) {}
    }
  }

  lemma {:induction false} SortedIsOrdered(bundle: Bundle)
    requires DistinctKeys(bundle)
    ensures Ordered(Sorted(bundle)) && Content(Sorted(bundle)) == Content(bundle)
  {
    if bundle != [] {
      SortedIsOrdered(bundle[..|bundle| - 1]);
      InsertOrders(bundle[|bundle| - 1], Sorted(bundle[..|bundle| - 1]));
    }
  }

  lemma OrderedIsDistinct(bundle: Bundle)
    requires Ordered(bundle)
    ensures DistinctKeys(bundle)
  {
    forall i, j | 0 <= i < j < |bundle| ensures bundle[i].key != bundle[j].key {
      KeyLessTotal(bundle[i].key, bundle[j].key);
    }
  }

  /** An ordered bundle is determined by the scopes it holds. */
  lemma {:induction false} OrderedIsUnique(a: Bundle, b: Bundle)
    requires Ordered(a) && Ordered(b) && Content(a) == Content(b)
    ensures a == b
  {
    assert b != [] ==> b[0] in Content(b);
    assert a == [] ==> Content(a) == {};
    if a != [] {
      assert a[0] in Content(b);
      assert b[0] in Content(a);
      FirstIsLeast(a, b);
      assert a == [a[0]] + a[1..] && b == [b[0]] + b[1..];
      TailContent(a);
      TailContent(b);
      OrderedIsUnique(a[1..], b[1..]);
    }
  }

  lemma FirstIsLeast(a: Bundle, b: Bundle)
    requires a != [] && b != [] && Ordered(a) && Ordered(b) && a[0] in b && b[0] in a
    ensures a[0] == b[0]
  {
    var i :| 0 <= i < |b| && b[i] == a[0];
    var j :| 0 <= j < |a| && a[j] == b[0];
    if i > 0 && j > 0 {
      KeyLessTransitive(a[0].key, b[0].key, a[0].key);
      KeyLessTotal(a[0].key, a[0].key);
    }
  }

  lemma TailContent(bundle: Bundle)
    requires bundle != [] && Ordered(bundle)
    ensures Content(bundle[1..]) == Content(bundle) - {bundle[0]}
  {
    KeyLessTotal(bundle[0].key, bundle[0].key);
    forall x ensures x in Content(bundle[1..]) <==> x in Content(bundle) - {bundle[0]} {
      if x in bundle[1..] {
        var i :| 0 <= i < |bundle| - 1 && bundle[1..][i] == x;
        assert KeyLess(bundle[0].key, bundle[i + 1].key);
      }
    }
  }
}
