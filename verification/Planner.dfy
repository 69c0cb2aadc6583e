/** Whole-scope merge and replacement: what is kept, what conflicts, what is skipped. */
module Planner {
  import opened Wrappers
  import opened Scopes
  import opened Inventory

  datatype Mode = Merge | Replace

  datatype Error = InvalidDocument | DuplicateScope | TooLarge

  // Per-scope syntax and the byte limit of a document holding exactly these scopes.
  datatype Checks = Checks(valid: Scope -> bool, fits: set<Scope> -> bool)

  datatype Summary = Summary(conflicts: set<Key>, skipped: nat, items: Counts, memberships: Counts)

  datatype Planned = Planned(document: Bundle, summary: Summary)

  // ---------------------------------------------------------------- selection

  // What has been selected so far, in the order it was first met.
  datatype Selection = Selection(chosen: seq<Scope>, conflicts: set<Key>, skipped: nat)

  predicate Has(chosen: seq<Scope>, key: Key) { exists i :: 0 <= i < |chosen| && chosen[i].key == key }

  function Chosen(chosen: seq<Scope>, key: Key): (scope: Scope)
    requires Has(chosen, key)
    ensures scope in chosen && scope.key == key
  {
    if chosen[0].key == key then chosen[0] else Chosen(chosen[1..], key)
  }

  /** The first scope met for a key stands; an equal one is skipped, a different one conflicts. */
  function Meet(s: Selection, scope: Scope): Selection {
    if !Has(s.chosen, scope.key) then s.(chosen := s.chosen + [scope])
    else if Chosen(s.chosen, scope.key) == scope then s.(skipped := s.skipped + |ItemsOf(scope)|)
    else s.(conflicts := s.conflicts + {scope.key})
  }

  function MeetAll(s: Selection, scopes: seq<Scope>): Selection {
    if scopes == [] then s else Meet(MeetAll(s, scopes[..|scopes| - 1]), scopes[|scopes| - 1])
  }

  function Flatten(documents: seq<Bundle>): seq<Scope> {
    if documents == [] then [] else Flatten(documents[..|documents| - 1]) + documents[|documents| - 1]
  }

  function Initial(saved: Bundle, mode: Mode): Selection {
    Selection(if mode == Merge then saved else [], {}, 0)
  }

  // ---------------------------------------------------------------- what selection means

  /** The value of a key in a sequence of scopes that holds it at most once. */
  lemma ChosenIs(chosen: seq<Scope>, scope: Scope)
    requires DistinctKeys(chosen) && scope in chosen
    ensures Has(chosen, scope.key) && Chosen(chosen, scope.key) == scope
  {
    var i :| 0 <= i < |chosen| && chosen[i] == scope;
    var other := Chosen(chosen, scope.key);
    var j :| 0 <= j < |chosen| && chosen[j] == other;
  }

  /** All values a key has: the saved one when merging, and every one that came in. */
  ghost predicate HasValue(start: seq<Scope>, scopes: seq<Scope>, scope: Scope) {
    scope in start || scope in scopes
  }

  ghost predicate Disputed(start: seq<Scope>, scopes: seq<Scope>, key: Key) {
    exists a, b :: HasValue(start, scopes, a) && HasValue(start, scopes, b) && a.key == key && b.key == key && a != b
  }

  ghost predicate Explains(start: seq<Scope>, scopes: seq<Scope>, s: Selection) {
    && start <= s.chosen && DistinctKeys(s.chosen)
    && (forall x :: x in s.chosen ==> HasValue(start, scopes, x))
    && (forall x :: HasValue(start, scopes, x) ==> Has(s.chosen, x.key))
    && (forall x :: HasValue(start, scopes, x) && Chosen(s.chosen, x.key) != x ==> x.key in s.conflicts)
    && (forall key :: key in s.conflicts ==> Disputed(start, scopes, key))
  }

  lemma {:induction false} MeetAllExplains(start: seq<Scope>, scopes: seq<Scope>)
    requires DistinctKeys(start)
    ensures Explains(start, scopes, MeetAll(Selection(start, {}, 0), scopes))
  {
    if scopes == [] {
      forall x | x in start ensures Has(start, x.key) && Chosen(start, x.key) == x { ChosenIs(start, x); }
    } else {
      var front, last := scopes[..|scopes| - 1], scopes[|scopes| - 1];
      SplitLast(scopes);
      MeetAllExplains(start, front);
      MeetExplains(start, front, MeetAll(Selection(start, {}, 0), front), last);
    }
  }

  lemma MeetExplains(start: seq<Scope>, front: seq<Scope>, s: Selection, last: Scope)
    requires Explains(start, front, s)
    ensures Explains(start, front + [last], Meet(s, last))
  {
    var now, scopes := Meet(s, last), front + [last];
    assert forall x :: HasValue(start, scopes, x) <==> HasValue(start, front, x) || x == last;
    if !Has(s.chosen, last.key) { MeetNew(s, last); }
    forall key | key in now.conflicts ensures Disputed(start, scopes, key) {
      MeetDisputes(start, front, s, last, key);
    }
  }

  lemma MeetDisputes(start: seq<Scope>, front: seq<Scope>, s: Selection, last: Scope, key: Key)
    requires Explains(start, front, s) && key in Meet(s, last).conflicts
    ensures Disputed(start, front + [last], key)
  {
    if key in s.conflicts {
      DisputeLasts(start, front, last, key);
    } else {
      var scopes := front + [last];
      assert HasValue(start, scopes, Chosen(s.chosen, key)) && HasValue(start, scopes, last);
    }
  }

  lemma DisputeLasts(start: seq<Scope>, front: seq<Scope>, last: Scope, key: Key)
    requires Disputed(start, front, key)
    ensures Disputed(start, front + [last], key)
  {
    var a, b :| HasValue(start, front, a) && HasValue(start, front, b) && a.key == key && b.key == key && a != b;
    assert HasValue(start, front + [last], a) && HasValue(start, front + [last], b);
  }

  /** A new key is chosen as it is, and every earlier choice stands. */
  lemma MeetNew(s: Selection, last: Scope)
    requires DistinctKeys(s.chosen) && !Has(s.chosen, last.key)
    ensures DistinctKeys(s.chosen + [last])
    ensures Has(s.chosen + [last], last.key) && Chosen(s.chosen + [last], last.key) == last
    ensures forall key :: Has(s.chosen, key) ==>
      Has(s.chosen + [last], key) && Chosen(s.chosen + [last], key) == Chosen(s.chosen, key)
  {
    var now := s.chosen + [last];
    assert now[|s.chosen|] == last;
    ChosenIs(now, last);
    forall key | Has(s.chosen, key) ensures Has(now, key) && Chosen(now, key) == Chosen(s.chosen, key) {
      assert Chosen(s.chosen, key) in now;
      ChosenIs(now, Chosen(s.chosen, key));
    }
  }

  /** A key conflicts exactly when its values, the saved one included, are not all equal. */
  lemma ConflictsAreDisputes(start: seq<Scope>, scopes: seq<Scope>, key: Key)
    requires DistinctKeys(start)
    ensures key in MeetAll(Selection(start, {}, 0), scopes).conflicts <==> Disputed(start, scopes, key)
  {
    var s := MeetAll(Selection(start, {}, 0), scopes);
    MeetAllExplains(start, scopes);
    if Disputed(start, scopes, key) {
      var a, b :| HasValue(start, scopes, a) && HasValue(start, scopes, b) && a.key == key && b.key == key && a != b;
      assert Chosen(s.chosen, key) != a || Chosen(s.chosen, key) != b;
    }
  }

  /** The value that stands for a key: the saved one, or else the first that came in. */
  ghost predicate Stands(start: seq<Scope>, scopes: seq<Scope>, scope: Scope) {
    scope in start || (NoneHas(start, scope.key) && exists i :: FirstAt(scopes, i, scope))
  }

  ghost predicate NoneHas(scopes: seq<Scope>, key: Key) {
    forall i :: 0 <= i < |scopes| ==> scopes[i].key != key
  }

  ghost predicate FirstAt(scopes: seq<Scope>, i: int, scope: Scope) {
    0 <= i < |scopes| && scopes[i] == scope && NoneHas(scopes[..i], scope.key)
  }

  /** Exactly the values that stand are chosen. */
  lemma {:induction false} ChosenStand(start: seq<Scope>, scopes: seq<Scope>, scope: Scope)
    requires DistinctKeys(start)
    ensures scope in MeetAll(Selection(start, {}, 0), scopes).chosen <==> Stands(start, scopes, scope)
  {
    if scopes != [] {
      var front, last := scopes[..|scopes| - 1], scopes[|scopes| - 1];
      SplitLast(scopes);
      ChosenStand(start, front, scope);
      MeetAllExplains(start, front);
      LastStands(start, front, MeetAll(Selection(start, {}, 0), front), last, scope);
    }
  }

  lemma LastStands(start: seq<Scope>, front: seq<Scope>, s: Selection, last: Scope, scope: Scope)
    requires Explains(start, front, s) && (scope in s.chosen <==> Stands(start, front, scope))
    ensures scope in Meet(s, last).chosen <==> Stands(start, front + [last], scope)
  {
    var scopes := front + [last];
    assert forall i :: 0 <= i < |front| ==> scopes[..i] == front[..i];
    assert scopes[..|front|] == front;
    KeyIsMet(start, front, s, last.key);
    forall i | FirstAt(front, i, scope) ensures FirstAt(scopes, i, scope) {}
    forall i | FirstAt(scopes, i, scope) && i < |front| ensures FirstAt(front, i, scope) {}
    if scope == last && NoneHas(start, last.key) && NoneHas(front, last.key) {
      assert FirstAt(scopes, |front|, scope);
    }
  }

  /** A key has been chosen for exactly when some value of it has been met. */
  lemma KeyIsMet(start: seq<Scope>, front: seq<Scope>, s: Selection, key: Key)
    requires Explains(start, front, s)
    ensures Has(s.chosen, key) <==> !(NoneHas(start, key) && NoneHas(front, key))
  {
    if i :| 0 <= i < |start| && start[i].key == key { assert HasValue(start, front, start[i]); }
    if i :| 0 <= i < |front| && front[i].key == key { assert HasValue(start, front, front[i]); }
    if i :| 0 <= i < |s.chosen| && s.chosen[i].key == key {
      assert HasValue(start, front, s.chosen[i]);
    }
  }

  /** How many items the inputs repeat: those of every scope that equals the value standing for its key. */
  ghost function Repeated(start: seq<Scope>, scopes: seq<Scope>): nat {
    if scopes == [] then 0
    else
      var front, last := scopes[..|scopes| - 1], scopes[|scopes| - 1];
      Repeated(start, front) + if Stands(start, front, last) then |Held(last)| else 0
  }

  /** What is reported as skipped is exactly what the inputs repeat. */
  lemma {:induction false} SkippedAreRepeated(start: seq<Scope>, scopes: seq<Scope>)
    requires DistinctKeys(start)
    ensures MeetAll(Selection(start, {}, 0), scopes).skipped == Repeated(start, scopes)
  {
    if scopes != [] {
      var front, last := scopes[..|scopes| - 1], scopes[|scopes| - 1];
      var s := MeetAll(Selection(start, {}, 0), front);
      SkippedAreRepeated(start, front);
      MeetAllExplains(start, front);
      ChosenStand(start, front, last);
      HeldIsItems(last);
      if last in s.chosen { ChosenIs(s.chosen, last); }
    }
  }

  /** The order of the inputs decides no conflict, and without conflicts nothing at all. */
  lemma InputOrderIsIrrelevant(start: seq<Scope>, one: seq<Scope>, two: seq<Scope>)
    requires DistinctKeys(start) && multiset(one) == multiset(two)
    ensures var a, b := MeetAll(Selection(start, {}, 0), one), MeetAll(Selection(start, {}, 0), two);
      && a.conflicts == b.conflicts
      && (a.conflicts == {} ==> Sorted(a.chosen) == Sorted(b.chosen))
  {
    var a, b := MeetAll(Selection(start, {}, 0), one), MeetAll(Selection(start, {}, 0), two);
    SameValues(start, one, two);
    forall key ensures key in a.conflicts <==> key in b.conflicts {
      ConflictsAreDisputes(start, one, key);
      ConflictsAreDisputes(start, two, key);
      assert Disputed(start, one, key) <==> Disputed(start, two, key);
    }
    if a.conflicts == {} {
      MeetAllExplains(start, one);
      MeetAllExplains(start, two);
      UndisputedContent(start, one, a);
      UndisputedContent(start, two, b);
      SameOrdered(a.chosen, b.chosen);
    }
  }

  lemma SameValues(start: seq<Scope>, one: seq<Scope>, two: seq<Scope>)
    requires multiset(one) == multiset(two)
    ensures forall x :: HasValue(start, one, x) <==> HasValue(start, two, x)
  {
    forall x ensures x in one <==> x in two {
      assert x in one <==> x in multiset(one);
      assert x in two <==> x in multiset(two);
    }
  }

  lemma UndisputedContent(start: seq<Scope>, scopes: seq<Scope>, s: Selection)
    requires Explains(start, scopes, s) && s.conflicts == {}
    ensures forall x :: x in s.chosen <==> HasValue(start, scopes, x)
  {
  }

  lemma SameOrdered(a: seq<Scope>, b: seq<Scope>)
    requires DistinctKeys(a) && DistinctKeys(b) && forall x :: x in a <==> x in b
    ensures Sorted(a) == Sorted(b)
  {
    SortedIsOrdered(a);
    SortedIsOrdered(b);
    assert Content(a) == Content(b);
    OrderedIsUnique(Sorted(a), Sorted(b));
  }

  lemma SameContentOrdered(a: seq<Scope>, b: seq<Scope>)
    requires DistinctKeys(a) && DistinctKeys(b) && Content(a) == Content(b)
    ensures Sorted(a) == Sorted(b)
  {
    assert forall x :: x in a <==> x in Content(a);
    assert forall x :: x in b <==> x in Content(b);
    SameOrdered(a, b);
  }

  // ---------------------------------------------------------------- planning in steps

  lemma {:induction false} MeetAllJoin(s: Selection, a: seq<Scope>, b: seq<Scope>)
    ensures MeetAll(s, a + b) == MeetAll(MeetAll(s, a), b)
  {
    if b == [] {
      assert a + b == a;
    } else {
      MeetAllJoin(s, a, b[..|b| - 1]);
      assert (a + b)[..|a + b| - 1] == a + b[..|b| - 1];
    }
  }

  /** Selections with the same content and distinct keys meet later scopes alike. */
  lemma {:induction false} MeetAllByContent(a: Selection, b: Selection, scopes: seq<Scope>)
    requires DistinctKeys(a.chosen) && DistinctKeys(b.chosen) && Content(a.chosen) == Content(b.chosen)
    ensures var x, y := MeetAll(a, scopes), MeetAll(b, scopes);
      && DistinctKeys(x.chosen) && DistinctKeys(y.chosen) && Content(x.chosen) == Content(y.chosen)
      && a.conflicts <= x.conflicts && b.conflicts <= y.conflicts
      && (a.conflicts == b.conflicts ==> x.conflicts == y.conflicts)
      && (forall key :: key in x.conflicts ==> key in a.conflicts || key in y.conflicts)
      && (forall key :: key in y.conflicts ==> key in b.conflicts || key in x.conflicts)
      && x.skipped - a.skipped == y.skipped - b.skipped
  {
    if scopes != [] {
      var last := scopes[|scopes| - 1];
      MeetAllByContent(a, b, scopes[..|scopes| - 1]);
      MeetByContent(MeetAll(a, scopes[..|scopes| - 1]), MeetAll(b, scopes[..|scopes| - 1]), last);
    }
  }

  lemma MeetByContent(a: Selection, b: Selection, last: Scope)
    requires DistinctKeys(a.chosen) && DistinctKeys(b.chosen) && Content(a.chosen) == Content(b.chosen)
    ensures var x, y := Meet(a, last), Meet(b, last);
      && DistinctKeys(x.chosen) && DistinctKeys(y.chosen) && Content(x.chosen) == Content(y.chosen)
      && x.conflicts == a.conflicts + (if Clashes(a.chosen, last) then {last.key} else {})
      && y.conflicts == b.conflicts + (if Clashes(a.chosen, last) then {last.key} else {})
      && x.skipped - a.skipped == y.skipped - b.skipped
  {
    SameChosen(a.chosen, b.chosen, last.key);
    assert Content(a.chosen + [last]) == Content(a.chosen) + {last};
    assert Content(b.chosen + [last]) == Content(b.chosen) + {last};
  }

  lemma SameChosen(a: seq<Scope>, b: seq<Scope>, key: Key)
    requires DistinctKeys(a) && DistinctKeys(b) && Content(a) == Content(b)
    ensures Has(a, key) == Has(b, key)
    ensures Has(a, key) ==> Chosen(a, key) == Chosen(b, key)
  {
    if Has(a, key) {
      assert Chosen(a, key) in Content(b);
      ChosenIs(b, Chosen(a, key));
    } else {
      assert Has(b, key) ==> Chosen(b, key) in Content(a);
      assert forall x :: x in Content(a) ==> x.key != key;
    }
  }

  ghost predicate Clashes(chosen: seq<Scope>, scope: Scope) {
    Has(chosen, scope.key) && Chosen(chosen, scope.key) != scope
  }

  /**
   Merging d1 ++ d2 into a saved bundle is merging d1 and then d2 into the result: the same
   document, and the conflicts of the two steps together.
   */
  lemma MergeInSteps(saved: Bundle, d1: seq<Scope>, d2: seq<Scope>)
    requires Ordered(saved)
    ensures var once := MeetAll(Initial(saved, Merge), d1 + d2);
      var first := MeetAll(Initial(saved, Merge), d1);
      var second := MeetAll(Initial(Sorted(first.chosen), Merge), d2);
      && Sorted(once.chosen) == Sorted(second.chosen)
      && once.conflicts == first.conflicts + second.conflicts
      && once.skipped == first.skipped + second.skipped
  {
    var once := MeetAll(Initial(saved, Merge), d1 + d2);
    var first := MeetAll(Initial(saved, Merge), d1);
    var again := Initial(Sorted(first.chosen), Merge);
    var second := MeetAll(again, d2);
    OrderedIsDistinct(saved);
    MeetAllJoin(Initial(saved, Merge), d1, d2);
    MeetAllExplains(saved, d1);
    SortedIsOrdered(first.chosen);
    OrderedIsDistinct(Sorted(first.chosen));
    MeetAllByContent(first, again, d2);
    assert once == MeetAll(first, d2);
    SameContentOrdered(once.chosen, second.chosen);
  }

  /** Nothing is chosen anew where every key is already held. */
  lemma {:induction false} HeldStays(start: seq<Scope>, scopes: seq<Scope>)
    requires forall x :: x in scopes ==> Has(start, x.key)
    ensures MeetAll(Selection(start, {}, 0), scopes).chosen == start
  {
    if scopes != [] { HeldStays(start, scopes[..|scopes| - 1]); }
  }

  /**
   Merging the same inputs a second time, conflicting or not, changes nothing: the document
   stands and the same keys conflict.
   */
  lemma MergeIsIdempotent(saved: Bundle, scopes: seq<Scope>)
    requires Ordered(saved)
    ensures var first := MeetAll(Initial(saved, Merge), scopes);
      var again := MeetAll(Initial(Sorted(first.chosen), Merge), scopes);
      && again.chosen == Sorted(first.chosen) && Sorted(again.chosen) == again.chosen
      && again.conflicts == first.conflicts
  {
    var first := MeetAll(Initial(saved, Merge), scopes);
    var held := Sorted(first.chosen);
    OrderedIsDistinct(saved);
    MeetAllExplains(saved, scopes);
    SortedIsOrdered(first.chosen);
    OrderedIsDistinct(held);
    forall x | x in scopes ensures Has(held, x.key) {
      assert HasValue(saved, scopes, x);
      ChosenIs(held, Chosen(first.chosen, x.key));
    }
    HeldStays(held, scopes);
    forall key ensures key in MeetAll(Initial(held, Merge), scopes).conflicts <==> key in first.conflicts {
      SameDisputes(saved, scopes, first, held, key);
      ConflictsAreDisputes(saved, scopes, key);
      ConflictsAreDisputes(held, scopes, key);
    }
    SortedIsOrdered(held);
    OrderedIsUnique(Sorted(held), held);
  }

  /** A key is disputed from the result of a merge exactly when it was disputed before. */
  lemma SameDisputes(saved: Bundle, scopes: seq<Scope>, s: Selection, held: Bundle, key: Key)
    requires Explains(saved, scopes, s) && forall x :: x in held <==> x in s.chosen
    ensures Disputed(held, scopes, key) <==> Disputed(saved, scopes, key)
  {
    forall x | x in saved ensures x in held { assert x in s.chosen; }
    forall x ensures HasValue(held, scopes, x) <==> HasValue(saved, scopes, x) {
      assert x in held ==> HasValue(saved, scopes, x);
    }
  }

  // ---------------------------------------------------------------- the planner

  ghost predicate ValidBundle(checks: Checks, bundle: Bundle) {
    && checks.fits(Content(bundle))
    && (forall i :: 0 <= i < |bundle| ==> checks.valid(bundle[i]))
    && DistinctKeys(bundle)
  }

  /** Checks every scope and refuses repeated keys, then sorts. */
  method ValidateDocument(checks: Checks, bundle: Bundle) returns (r: Result<Bundle, Error>)
    ensures r.Ok? <==> ValidBundle(checks, bundle)
    ensures r.Ok? ==> r.value == Sorted(bundle) && Ordered(r.value) && Content(r.value) == Content(bundle)
    ensures r == Err(DuplicateScope) ==> !DistinctKeys(bundle)
  {
    if !checks.fits(set scope | scope in bundle) { return Err(TooLarge); }
    var seen: set<Key> := {};
    for i := 0 to |bundle|
      invariant forall j :: 0 <= j < i ==> checks.valid(bundle[j])
      invariant forall key :: key in seen <==> exists j :: 0 <= j < i && bundle[j].key == key
      invariant forall j, k :: 0 <= j < k < i ==> bundle[j].key != bundle[k].key
    {
      if !checks.valid(bundle[i]) { return Err(InvalidDocument); }
      if bundle[i].key in seen { return Err(DuplicateScope); }
      seen := seen + {bundle[i].key};
    }
    SortedIsOrdered(bundle);
    r := Ok(Sorted(bundle));
  }

  /** The plan as a function of the validated inputs. */
  ghost predicate IsPlan(saved: Bundle, incoming: seq<Bundle>, mode: Mode, r: Planned) {
    var s := MeetAll(Initial(saved, mode), Flatten(incoming));
    && r.document == Sorted(s.chosen)
    && r.summary.conflicts == s.conflicts && r.summary.skipped == s.skipped
    && r.summary.items == Difference(multiset(BundleItems(saved)), multiset(BundleItems(r.document)))
    && r.summary.memberships == Difference(BundleMemberships(saved), BundleMemberships(r.document))
  }

  ghost predicate AllValid(checks: Checks, bundles: seq<Bundle>) {
    forall i :: 0 <= i < |bundles| ==> ValidBundle(checks, bundles[i])
  }

  function SortAll(bundles: seq<Bundle>): (r: seq<Bundle>)
    ensures |r| == |bundles|
  {
    if bundles == [] then [] else SortAll(bundles[..|bundles| - 1]) + [Sorted(bundles[|bundles| - 1])]
  }

  method ValidateAll(checks: Checks, incoming: seq<Bundle>) returns (r: Result<seq<Bundle>, Error>)
    ensures r.Ok? <==> AllValid(checks, incoming)
    ensures r.Ok? ==> r.value == SortAll(incoming)
  {
    var documents: seq<Bundle> := [];
    for i := 0 to |incoming|
      invariant documents == SortAll(incoming[..i])
      invariant AllValid(checks, incoming[..i])
    {
      PrefixOfPrefix(incoming, i, i + 1);
      var document := ValidateDocument(checks, incoming[i]);
      if document.Err? { return Err(document.error); }
      assert incoming[..i + 1] == incoming[..i] + [incoming[i]];
      documents := documents + [document.value];
    }
    WholePrefix(incoming);
    r := Ok(documents);
  }

  /** Meets every incoming scope in order. */
  method Select(start: Selection, documents: seq<Bundle>) returns (s: Selection)
    ensures s == MeetAll(start, Flatten(documents))
  {
    s := start;
    for i := 0 to |documents|
      invariant s == MeetAll(start, Flatten(documents[..i]))
    {
      var document := documents[i];
      ghost var done := Flatten(documents[..i]);
      PrefixOfPrefix(documents, i, i + 1);
      assert done + document[..0] == done;
      for j := 0 to |document|
        invariant s == MeetAll(start, done + document[..j])
      {
        assert done + document[..j + 1] == done + document[..j] + [document[j]];
        MeetAllJoin(start, done + document[..j], [document[j]]);
        assert [document[j]][..0] == [];
        s := Meet(s, document[j]);
      }
      WholePrefix(document);
    }
    WholePrefix(documents);
  }

  /** For each key the value that stands, the keys with unequal values, and the items that were repeated. */
  ghost predicate Selects(start: seq<Scope>, scopes: seq<Scope>, r: Planned) {
    && (forall scope :: scope in r.document <==> Stands(start, scopes, scope))
    && (forall key :: key in r.summary.conflicts <==> Disputed(start, scopes, key))
    && r.summary.skipped == Repeated(start, scopes)
  }

  lemma SortedStands(start: seq<Scope>, scopes: seq<Scope>, scope: Scope)
    requires DistinctKeys(start)
    ensures scope in Sorted(MeetAll(Selection(start, {}, 0), scopes).chosen) <==> Stands(start, scopes, scope)
  {
    MeetAllExplains(start, scopes);
    var chosen := MeetAll(Selection(start, {}, 0), scopes).chosen;
    SortedIsOrdered(chosen);
    ChosenStand(start, scopes, scope);
    assert scope in Content(Sorted(chosen)) <==> scope in Content(chosen);
  }

  lemma PlanSelects(saved: Bundle, incoming: seq<Bundle>, mode: Mode, r: Planned)
    requires Ordered(saved) && IsPlan(saved, incoming, mode, r)
    ensures Selects(if mode == Merge then saved else [], Flatten(incoming), r)
  {
    OrderedIsDistinct(saved);
    SelectionSelects(if mode == Merge then saved else [], Flatten(incoming), r);
  }

  lemma SelectionSelects(start: seq<Scope>, scopes: seq<Scope>, r: Planned)
    requires DistinctKeys(start)
    requires
      var s := MeetAll(Selection(start, {}, 0), scopes);
      r.document == Sorted(s.chosen) && r.summary.conflicts == s.conflicts && r.summary.skipped == s.skipped
    ensures Selects(start, scopes, r)
  {
    forall scope ensures scope in r.document <==> Stands(start, scopes, scope) {
      SortedStands(start, scopes, scope);
    }
    forall key ensures key in r.summary.conflicts <==> Disputed(start, scopes, key) {
      ConflictsAreDisputes(start, scopes, key);
    }
    SkippedAreRepeated(start, scopes);
  }

  lemma {:induction false} FlattenIsValid(checks: Checks, incoming: seq<Bundle>, scope: Scope)
    requires AllValid(checks, incoming) && scope in Flatten(SortAll(incoming))
    ensures checks.valid(scope)
  {
    var front, last := incoming[..|incoming| - 1], incoming[|incoming| - 1];
    var all := SortAll(incoming);
    assert ValidBundle(checks, last) && all[..|all| - 1] == SortAll(front);
    if scope in Sorted(last) {
      SortedIsOrdered(last);
      assert scope in Content(last);
    } else {
      assert AllValid(checks, front);
      FlattenIsValid(checks, front, scope);
    }
  }

  /** What is selected from valid documents is valid scope by scope, each key once: only its size is left to check. */
  lemma SelectedAreValid(checks: Checks, saved: Bundle, current: Bundle, incoming: seq<Bundle>, mode: Mode)
    requires saved == Sorted(current) && ValidBundle(checks, current) && AllValid(checks, incoming)
    ensures
      var chosen := MeetAll(Initial(saved, mode), Flatten(SortAll(incoming))).chosen;
      ValidBundle(checks, chosen) <==> checks.fits(Content(chosen))
  {
    var start, scopes := Initial(saved, mode).chosen, Flatten(SortAll(incoming));
    SortedIsOrdered(current);
    OrderedIsDistinct(saved);
    MeetAllExplains(start, scopes);
    var chosen := MeetAll(Initial(saved, mode), scopes).chosen;
    forall i | 0 <= i < |chosen| ensures checks.valid(chosen[i]) {
      assert HasValue(start, scopes, chosen[i]);
      if chosen[i] in start {
        assert chosen[i] in Content(current);
      } else {
        FlattenIsValid(checks, incoming, chosen[i]);
      }
    }
  }

  /** Succeeds exactly for few enough valid inputs whose selection, together, still fits. */
  method PlanDocuments(checks: Checks, current: Option<Bundle>, incoming: seq<Bundle>, mode: Mode)
    returns (r: Result<Planned, Error>)
    ensures r.Ok? <==>
      && 1 <= |incoming| <= 64 && AllValid(checks, incoming)
      && ValidBundle(checks, if current.Some? then current.value else [])
      && var saved := if current.Some? then Sorted(current.value) else [];
         checks.fits(Content(MeetAll(Initial(saved, mode), Flatten(SortAll(incoming))).chosen))
    ensures r.Ok? ==> IsPlan(if current.Some? then Sorted(current.value) else [], SortAll(incoming), mode, r.value)
    ensures r.Ok? ==> Ordered(r.value.document) && ValidBundle(checks, r.value.document)
    // What the plan means, without the selection that computes it.
    ensures r.Ok? ==>
      Selects(if current.Some? && mode == Merge then Sorted(current.value) else [], Flatten(SortAll(incoming)), r.value)
  {
    if !(1 <= |incoming| <= 64) { return Err(InvalidDocument); }
    var original := ValidateDocument(checks, if current.Some? then current.value else []);
    if original.Err? { return Err(original.error); }
    var documents := ValidateAll(checks, incoming);
    if documents.Err? { return Err(documents.error); }
    var saved := original.value;
    var s := Select(Initial(saved, mode), documents.value);
    SelectedAreValid(checks, saved, if current.Some? then current.value else [], incoming, mode);
    var document := ValidateDocument(checks, s.chosen);
    if document.Err? { return Err(document.error); }
    var oldItems, oldMemberships := TakeInventory(saved);
    var newItems, newMemberships := TakeInventory(document.value);
    ChosenAreValid(checks, s.chosen, document.value);
    r := Ok(Planned(document.value,
                    Summary(s.conflicts, s.skipped, Difference(multiset(oldItems), multiset(newItems)),
                            Difference(oldMemberships, newMemberships))));
    SortedIsOrdered(if current.Some? then current.value else []);
    PlanSelects(saved, documents.value, mode, r.value);
  }

  lemma ChosenAreValid(checks: Checks, chosen: seq<Scope>, document: Bundle)
    requires ValidBundle(checks, chosen) && document == Sorted(chosen)
    ensures ValidBundle(checks, document)
  {
    SortedIsOrdered(chosen);
    OrderedIsDistinct(document);
    forall i | 0 <= i < |document| ensures checks.valid(document[i]) {
      assert document[i] in chosen;
    }
  }

  // ---------------------------------------------------------------- clearing a scope

  /** Empties every list in place and the media favorites of a valid scope; everything else stays. */
  method ClearScope(checks: Checks, scope: Scope) returns (r: Result<Scope, Error>)
    ensures r.Ok? <==> ValidBundle(checks, [scope])
    ensures r.Ok? ==>
      r.value == scope.(lists := Emptied(scope.lists), media := []) && MembershipsOf(r.value) == multiset{}
    ensures r.Ok? ==> forall i :: 0 <= i < |scope.lists| ==> r.value.lists[i] == scope.lists[i].(entries := [])
    ensures r.Err? ==> r.error != DuplicateScope
  {
    var document := ValidateDocument(checks, [scope]);
    if document.Err? { return Err(document.error); }
    assert document.value == [scope] by { assert Sorted([scope][..0]) == []; }
    var cleared := document.value[0];
    var rows := EmptyLists(cleared.lists);
    EmptiedRows(cleared.lists);
    EmptiedHoldNothing(cleared.key, cleared.lists);
    r := Ok(cleared.(lists := rows, media := []));
  }

  // ---------------------------------------------------------------- lists of documents

  lemma WithoutOne<T>(s: seq<T>, i: nat)
    requires i < |s|
    ensures multiset(s) == multiset(Without(s, i)) + multiset{s[i]}
  {
    assert s == s[..i] + [s[i]] + s[i + 1..];
  }

  lemma SameRest<T>(a: multiset<T>, b: multiset<T>, x: T)
    requires a + multiset{x} == b + multiset{x}
    ensures a == b
  {
    assert a + multiset{x} - multiset{x} == a;
    assert b + multiset{x} - multiset{x} == b;
  }

  lemma Regroup<T>(a: seq<T>, b: seq<T>, c: seq<T>)
    ensures a + (b + c) == a + b + c
  {
  }

  lemma FlattenAppend(documents: seq<Bundle>, last: Bundle)
    ensures Flatten(SortAll(documents + [last])) == Flatten(SortAll(documents)) + Sorted(last)
  {
    assert (documents + [last])[..|documents|] == documents;
    var all := SortAll(documents) + [Sorted(last)];
    assert all[..|all| - 1] == SortAll(documents);
  }

  lemma {:induction false} FlattenWithout(documents: seq<Bundle>, i: nat)
    requires i < |documents|
    ensures multiset(Flatten(SortAll(documents)))
         == multiset(Flatten(SortAll(Without(documents, i)))) + multiset(Sorted(documents[i]))
  {
    var front, last := documents[..|documents| - 1], documents[|documents| - 1];
    SplitLast(documents);
    FlattenAppend(front, last);
    if i == |documents| - 1 {
      assert Without(documents, i) == front;
    } else {
      FlattenWithout(front, i);
      WithoutEarlier(documents, i);
      FlattenAppend(Without(front, i), last);
    }
  }

  /** The scopes of a list of documents, with repetitions, do not depend on the order of the list. */
  lemma {:induction false} FlattenPermutes(one: seq<Bundle>, two: seq<Bundle>)
    requires multiset(one) == multiset(two)
    ensures multiset(Flatten(SortAll(one))) == multiset(Flatten(SortAll(two)))
  {
    if one == [] {
      assert |multiset(two)| == 0;
      assert two == [];
    } else {
      var front, last := one[..|one| - 1], one[|one| - 1];
      SplitLast(one);
      assert last in multiset(two);
      var i :| 0 <= i < |two| && two[i] == last;
      WithoutOne(two, i);
      SameRest(multiset(front), multiset(Without(two, i)), last);
      FlattenPermutes(front, Without(two, i));
      FlattenAppend(front, last);
      FlattenWithout(two, i);
    }
  }

  lemma {:induction false} FlattenJoin(one: seq<Bundle>, two: seq<Bundle>)
    ensures Flatten(SortAll(one + two)) == Flatten(SortAll(one)) + Flatten(SortAll(two))
  {
    if two == [] {
      assert one + two == one;
    } else {
      var front, last := two[..|two| - 1], two[|two| - 1];
      SplitLast(two);
      Regroup(one, front, [last]);
      FlattenJoin(one, front);
      FlattenAppend(one + front, last);
      FlattenAppend(front, last);
      Regroup(Flatten(SortAll(one)), Flatten(SortAll(front)), Sorted(last));
    }
  }

  // ---------------------------------------------------------------- what a plan promises

  /** A merge never drops or alters a saved scope, so nothing counts as removed. */
  lemma MergeKeepsSaved(saved: Bundle, incoming: seq<Bundle>, r: Planned)
    requires Ordered(saved) && IsPlan(saved, incoming, Merge, r)
    ensures forall x :: x in saved ==> x in r.document
    ensures r.summary.items.removed == 0 && r.summary.memberships.removed == 0
    ensures r.summary.items.retained == r.summary.items.before
    ensures r.summary.memberships.retained == r.summary.memberships.before
  {
    OrderedIsDistinct(saved);
    MeetAllExplains(saved, Flatten(incoming));
    var s := MeetAll(Initial(saved, Merge), Flatten(incoming));
    SortedIsOrdered(s.chosen);
    OrderedIsDistinct(r.document);
    InventoryGrows(saved, r.document);
    SubsetDifference(multiset(BundleItems(saved)), multiset(BundleItems(r.document)));
    SubsetDifference(BundleMemberships(saved), BundleMemberships(r.document));
  }

  /** Two plans of the same documents in another order: the same conflicts, and without any the same plan. */
  lemma PlanOrderIsIrrelevant(saved: Bundle, one: seq<Bundle>, two: seq<Bundle>, mode: Mode, a: Planned, b: Planned)
    requires Ordered(saved) && multiset(one) == multiset(two)
    requires IsPlan(saved, SortAll(one), mode, a) && IsPlan(saved, SortAll(two), mode, b)
    ensures a.summary.conflicts == b.summary.conflicts
    ensures a.summary.conflicts == {} ==>
      a.document == b.document && a.summary.items == b.summary.items && a.summary.memberships == b.summary.memberships
  {
    OrderedIsDistinct(saved);
    FlattenPermutes(one, two);
    InputOrderIsIrrelevant(Initial(saved, mode).chosen, Flatten(SortAll(one)), Flatten(SortAll(two)));
  }

  /** Planning two lists of documents at once is planning the first and then the second on top. */
  lemma PlanInSteps(saved: Bundle, one: seq<Bundle>, two: seq<Bundle>, once: Planned, first: Planned, second: Planned)
    requires Ordered(saved) && IsPlan(saved, SortAll(one + two), Merge, once)
    requires IsPlan(saved, SortAll(one), Merge, first) && IsPlan(first.document, SortAll(two), Merge, second)
    ensures once.document == second.document
    ensures once.summary.conflicts == first.summary.conflicts + second.summary.conflicts
    ensures once.summary.skipped == first.summary.skipped + second.summary.skipped
  {
    FlattenJoin(one, two);
    MergeInSteps(saved, Flatten(SortAll(one)), Flatten(SortAll(two)));
  }

  /**
   Planning the same documents again on top of the result: the same document and conflicts, nothing
   added or removed.
   */
  lemma PlanTwice(saved: Bundle, incoming: seq<Bundle>, first: Planned, again: Planned)
    requires Ordered(saved) && IsPlan(saved, incoming, Merge, first) && IsPlan(first.document, incoming, Merge, again)
    ensures again.document == first.document && again.summary.conflicts == first.summary.conflicts
    ensures again.summary.items.added == 0 && again.summary.items.removed == 0
    ensures again.summary.memberships.added == 0 && again.summary.memberships.removed == 0
  {
    MergeIsIdempotent(saved, Flatten(incoming));
    SubsetDifference(multiset(BundleItems(first.document)), multiset(BundleItems(again.document)));
    SubsetDifference(BundleMemberships(first.document), BundleMemberships(again.document));
  }

  /** A replacement holds only what came in. */
  lemma ReplaceHoldsOnlyIncoming(saved: Bundle, incoming: seq<Bundle>, r: Planned, scope: Scope)
    requires IsPlan(saved, incoming, Replace, r) && scope in r.document
    ensures scope in Flatten(incoming)
  {
    MeetAllExplains([], Flatten(incoming));
  }
}
