/** Items and memberships of a bundle, and the counts that compare two of them. */
module Inventory {
  import opened Wrappers
  import opened Scopes

  datatype Domain = Channels | Media

  // Opaque references are identified only by their full record at their position.
  datatype Identity =
    | Place(locator: string)
    | Legacy(domain: Domain, reason: string, origin: string, legacyId: nat)
    | Occurrence(domain: Domain, name: string, index: nat, reference: Reference)

  datatype Item = Item(key: Key, identity: Identity)

  datatype Membership = Membership(domain: Domain, name: string, item: Item)

  function IdentityOf(domain: Domain, name: string, index: nat, reference: Reference): Identity {
    match reference
    case Located(locator, _) => Place(locator)
    case Unresolved(reason, origin, legacyId, _) =>
      if legacyId.Some? then Legacy(domain, reason, origin, legacyId.value)
      else Occurrence(domain, name, index, reference)
  }

  /**
   When two entries are the same item: the same locator, in whichever list; the same numbered legacy
   entry of one domain; or, for entries that cannot be identified, the same full record at the same
   position of the same list.
   */
  lemma SameIdentity(domain: Domain, name: string, index: nat, reference: Reference,
                     domain': Domain, name': string, index': nat, reference': Reference)
    ensures IdentityOf(domain, name, index, reference) == IdentityOf(domain', name', index', reference') <==>
      || (reference.Located? && reference'.Located? && reference.locator == reference'.locator)
      || (&& reference.Unresolved? && reference'.Unresolved? && domain == domain'
          && reference.legacyId.Some? && reference'.legacyId == reference.legacyId
          && reference.reason == reference'.reason && reference.origin == reference'.origin)
      || (&& reference.Unresolved? && reference == reference' && reference.legacyId.None?
          && domain == domain' && name == name' && index == index')
  {
  }

  function RowMemberships(key: Key, domain: Domain, name: string, rows: seq<Reference>): multiset<Membership> {
    if rows == [] then multiset{}
    else
      var last := |rows| - 1;
      RowMemberships(key, domain, name, rows[..last])
      + multiset{Membership(domain, name, Item(key, IdentityOf(domain, name, last, rows[last])))}
  }

  function ListMemberships(key: Key, lists: seq<ListRow>): multiset<Membership> {
    if lists == [] then multiset{}
    else
      var last := lists[|lists| - 1];
      ListMemberships(key, lists[..|lists| - 1]) + RowMemberships(key, Channels, last.name, last.entries)
  }

  function MembershipsOf(scope: Scope): multiset<Membership> {
    ListMemberships(scope.key, scope.lists) + RowMemberships(scope.key, Media, "favorites", scope.media)
  }

  function BundleMemberships(bundle: Bundle): multiset<Membership> {
    if bundle == [] then multiset{}
    else BundleMemberships(bundle[..|bundle| - 1]) + MembershipsOf(bundle[|bundle| - 1])
  }

  /** The distinct items some memberships belong to. */
  function ItemsIn(memberships: multiset<Membership>): set<Item> {
    set m | m in memberships :: m.item
  }

  function ItemsOf(scope: Scope): set<Item> { ItemsIn(MembershipsOf(scope)) }

  function BundleItems(bundle: Bundle): set<Item> { ItemsIn(BundleMemberships(bundle)) }

  // ---------------------------------------------------------------- counting

  datatype Counts = Counts(before: nat, after: nat, added: nat, removed: nat, retained: nat)

  function Difference<T>(before: multiset<T>, after: multiset<T>): Counts {
    Common(before, after);
    var retained := |before * after|;
    Counts(|before|, |after|, |after| - retained, |before| - retained, retained)
  }

  lemma Common<T>(before: multiset<T>, after: multiset<T>)
    ensures |before * after| <= |before| && |before * after| <= |after|
  {
    assert before * after + (before - after) == before;
    assert before * after + (after - before) == after;
  }

  /** Counts balance: what was there leaves or stays, what is there stayed or came. */
  lemma CountsBalance<T>(before: multiset<T>, after: multiset<T>)
    ensures var c := Difference(before, after);
      && c.before == c.retained + c.removed && c.after == c.retained + c.added
      && c.removed == |before - after| && c.added == |after - before|
  {
    assert before * after + (before - after) == before;
    assert before * after + (after - before) == after;
  }

  lemma SubsetDifference<T>(before: multiset<T>, after: multiset<T>)
    requires before <= after
    ensures Difference(before, after).removed == 0
    ensures Difference(before, after).retained == Difference(before, after).before
  {
    assert before * after == before;
  }

  // ---------------------------------------------------------------- growth

  function Without<T>(s: seq<T>, i: nat): seq<T>
    requires i < |s|
  {
    s[..i] + s[i + 1..]
  }

  lemma WithoutEarlier<T>(s: seq<T>, i: nat)
    requires i < |s| - 1
    ensures Without(s, i) == Without(s[..|s| - 1], i) + [s[|s| - 1]]
  {
  }

  lemma {:induction false} MembershipsOfWithout(bundle: Bundle, i: nat)
    requires i < |bundle|
    ensures BundleMemberships(bundle) == BundleMemberships(Without(bundle, i)) + MembershipsOf(bundle[i])
  {
    var front, last := bundle[..|bundle| - 1], bundle[|bundle| - 1];
    if i == |bundle| - 1 {
      assert Without(bundle, i) == front;
    } else {
      WithoutEarlier(bundle, i);
      MembershipsOfWithout(front, i);
      MembershipsAppend(Without(front, i), last);
    }
  }

  lemma MembershipsAppend(bundle: Bundle, scope: Scope)
    ensures BundleMemberships(bundle + [scope]) == BundleMemberships(bundle) + MembershipsOf(scope)
  {
    assert (bundle + [scope])[..|bundle|] == bundle;
  }

  ghost predicate Inside(fewer: Bundle, more: Bundle) {
    forall x :: x in fewer ==> x in more
  }

  /** More scopes, more memberships: none is lost when a bundle grows. */
  lemma {:induction false} MembershipsGrow(fewer: Bundle, more: Bundle)
    requires DistinctKeys(fewer) && DistinctKeys(more) && Inside(fewer, more)
    ensures BundleMemberships(fewer) <= BundleMemberships(more)
  {
    if fewer != [] {
      var last := fewer[|fewer| - 1];
      assert last in fewer;
      var i :| 0 <= i < |more| && more[i] == last;
      MembershipsOfWithout(more, i);
      WithoutKeepsOthers(fewer, more, i);
      MembershipsGrow(fewer[..|fewer| - 1], Without(more, i));
    }
  }

  lemma WithoutKeepsOthers(fewer: Bundle, more: Bundle, i: nat)
    requires fewer != [] && i < |more| && more[i] == fewer[|fewer| - 1]
    requires DistinctKeys(fewer) && DistinctKeys(more) && Inside(fewer, more)
    ensures DistinctKeys(fewer[..|fewer| - 1]) && DistinctKeys(Without(more, i))
    ensures Inside(fewer[..|fewer| - 1], Without(more, i))
  {
    var front, rest := fewer[..|fewer| - 1], Without(more, i);
    forall x | x in front ensures x in rest {
      var k :| 0 <= k < |front| && front[k] == x;
      assert fewer[k] in fewer && x.key != more[i].key;
      var j :| 0 <= j < |more| && more[j] == x;
      assert rest[if j < i then j else j - 1] == x;
    }
  }

  lemma InventoryGrows(fewer: Bundle, more: Bundle)
    requires DistinctKeys(fewer) && DistinctKeys(more) && Inside(fewer, more)
    ensures BundleMemberships(fewer) <= BundleMemberships(more)
    ensures multiset(BundleItems(fewer)) <= multiset(BundleItems(more))
  {
    MembershipsGrow(fewer, more);
    assert BundleItems(fewer) <= BundleItems(more);
  }

  // ---------------------------------------------------------------- positions

  // Where a bundle holds a membership: an entry of a list, or one of the media favorites.
  datatype Position = Entry(scope: nat, list: nat, index: nat) | Favorite(scope: nat, index: nat)

  predicate Within(bundle: Bundle, place: Position) {
    && place.scope < |bundle|
    && match place
       case Entry(i, l, k) => l < |bundle[i].lists| && k < |bundle[i].lists[l].entries|
       case Favorite(i, k) => k < |bundle[i].media|
  }

  function At(bundle: Bundle, place: Position): Membership
    requires Within(bundle, place)
  {
    match place
    case Entry(i, l, k) =>
      var row := bundle[i].lists[l];
      Membership(Channels, row.name, Item(bundle[i].key, IdentityOf(Channels, row.name, k, row.entries[k])))
    case Favorite(i, k) =>
      var favorites := bundle[i].media;
      Membership(Media, "favorites", Item(bundle[i].key, IdentityOf(Media, "favorites", k, favorites[k])))
  }

  /** All the positions at which a bundle gives this membership. */
  ghost function Places(bundle: Bundle, m: Membership): set<Position> {
    set i, place | 0 <= i < |bundle| && place in ScopePlaces(i, bundle[i]) && At(bundle, place) == m :: place
  }

  /** The positions of one scope. */
  ghost function ScopePlaces(i: nat, scope: Scope): set<Position> {
    (set l, k | 0 <= l < |scope.lists| && 0 <= k < |scope.lists[l].entries| :: Entry(i, l, k))
    + (set k | 0 <= k < |scope.media| :: Favorite(i, k))
  }

  ghost function RowPlaces(key: Key, domain: Domain, name: string, rows: seq<Reference>, m: Membership): set<nat> {
    set k | 0 <= k < |rows| && Membership(domain, name, Item(key, IdentityOf(domain, name, k, rows[k]))) == m
  }

  lemma {:induction false} RowCount(key: Key, domain: Domain, name: string, rows: seq<Reference>, m: Membership)
    ensures RowMemberships(key, domain, name, rows)[m] == |RowPlaces(key, domain, name, rows, m)|
  {
    if rows != [] {
      var last := |rows| - 1;
      RowCount(key, domain, name, rows[..last], m);
      RowPlacesSplit(key, domain, name, rows, m);
    }
  }

  lemma RowPlacesSplit(key: Key, domain: Domain, name: string, rows: seq<Reference>, m: Membership)
    requires rows != []
    ensures
      var last := |rows| - 1;
      var before := RowPlaces(key, domain, name, rows[..last], m);
      var given := Membership(domain, name, Item(key, IdentityOf(domain, name, last, rows[last])));
      last !in before && RowPlaces(key, domain, name, rows, m) == before + if given == m then {last} else {}
  {
    var last := |rows| - 1;
    assert forall k :: 0 <= k < last ==> rows[..last][k] == rows[k];
  }

  ghost function Entries(i: nat, l: nat, places: set<nat>): set<Position> { set k | k in places :: Entry(i, l, k) }

  ghost function Favorites(i: nat, places: set<nat>): set<Position> { set k | k in places :: Favorite(i, k) }

  lemma {:induction false} EntriesCount(i: nat, l: nat, places: set<nat>)
    ensures |Entries(i, l, places)| == |places|
  {
    if places != {} {
      var k :| k in places;
      EntriesCount(i, l, places - {k});
      assert Entries(i, l, places) == Entries(i, l, places - {k}) + {Entry(i, l, k)};
    }
  }

  lemma {:induction false} FavoritesCount(i: nat, places: set<nat>)
    ensures |Favorites(i, places)| == |places|
  {
    if places != {} {
      var k :| k in places;
      FavoritesCount(i, places - {k});
      assert Favorites(i, places) == Favorites(i, places - {k}) + {Favorite(i, k)};
    }
  }

  ghost function ListPlaces(i: nat, key: Key, lists: seq<ListRow>, m: Membership): set<Position> {
    set l, place | 0 <= l < |lists|
      && place in Entries(i, l, RowPlaces(key, Channels, lists[l].name, lists[l].entries, m)) :: place
  }

  lemma {:induction false} ListCount(i: nat, key: Key, lists: seq<ListRow>, m: Membership)
    ensures ListMemberships(key, lists)[m] == |ListPlaces(i, key, lists, m)|
  {
    if lists != [] {
      var last := |lists| - 1;
      var front := lists[..last];
      ListCount(i, key, front, m);
      var rows := RowPlaces(key, Channels, lists[last].name, lists[last].entries, m);
      RowCount(key, Channels, lists[last].name, lists[last].entries, m);
      EntriesCount(i, last, rows);
      ListPlacesSplit(i, key, lists, m);
    }
  }

  lemma ListPlacesSplit(i: nat, key: Key, lists: seq<ListRow>, m: Membership)
    requires lists != []
    ensures
      var last := |lists| - 1;
      var before := ListPlaces(i, key, lists[..last], m);
      var now := Entries(i, last, RowPlaces(key, Channels, lists[last].name, lists[last].entries, m));
      ListPlaces(i, key, lists, m) == before + now && before !! now
  {
    var last := |lists| - 1;
    var before := ListPlaces(i, key, lists[..last], m);
    forall place ensures place in ListPlaces(i, key, lists, m) <==>
      place in before || place in Entries(i, last, RowPlaces(key, Channels, lists[last].name, lists[last].entries, m))
    {
      if place in before {
        var l :| 0 <= l < last
          && place in Entries(i, l, RowPlaces(key, Channels, lists[..last][l].name, lists[..last][l].entries, m));
        assert place in Entries(i, l, RowPlaces(key, Channels, lists[l].name, lists[l].entries, m));
      }
      if place in ListPlaces(i, key, lists, m) {
        var l :| 0 <= l < |lists|
          && place in Entries(i, l, RowPlaces(key, Channels, lists[l].name, lists[l].entries, m));
        if l < last {
          assert place in Entries(i, l, RowPlaces(key, Channels, lists[..last][l].name, lists[..last][l].entries, m));
        }
      }
    }
  }

  ghost function Here(i: nat, scope: Scope, m: Membership): set<Position> {
    ListPlaces(i, scope.key, scope.lists, m) + Favorites(i, RowPlaces(scope.key, Media, "favorites", scope.media, m))
  }

  lemma ScopeCount(i: nat, scope: Scope, m: Membership)
    ensures MembershipsOf(scope)[m] == |Here(i, scope, m)|
  {
    ListCount(i, scope.key, scope.lists, m);
    RowCount(scope.key, Media, "favorites", scope.media, m);
    FavoritesCount(i, RowPlaces(scope.key, Media, "favorites", scope.media, m));
    assert ListPlaces(i, scope.key, scope.lists, m)
        !! Favorites(i, RowPlaces(scope.key, Media, "favorites", scope.media, m));
  }

  lemma HereIs(bundle: Bundle, i: nat, m: Membership, place: Position)
    requires i < |bundle|
    ensures place in Here(i, bundle[i], m) <==> place in ScopePlaces(i, bundle[i]) && At(bundle, place) == m
  {
    var scope := bundle[i];
    if place.Entry? && place.scope == i && place.list < |scope.lists| && place.index < |scope.lists[place.list].entries|
    {
      var row := scope.lists[place.list];
      assert place in Here(i, scope, m) <==>
        place in Entries(i, place.list, RowPlaces(scope.key, Channels, row.name, row.entries, m));
    }
  }

  lemma PlaceIs(bundle: Bundle, m: Membership, place: Position)
    ensures place in Places(bundle, m) <==> Within(bundle, place) && At(bundle, place) == m
  {
    if Within(bundle, place) {
      assert place in ScopePlaces(place.scope, bundle[place.scope]);
    }
  }

  lemma PlaceInFront(bundle: Bundle, m: Membership, place: Position)
    requires bundle != []
    ensures place in Places(bundle[..|bundle| - 1], m) <==> place.scope < |bundle| - 1 && place in Places(bundle, m)
  {
    var front := bundle[..|bundle| - 1];
    PlaceIs(bundle, m, place);
    PlaceIs(front, m, place);
    if place.scope < |front| { assert front[place.scope] == bundle[place.scope]; }
  }

  lemma PlacesSplit(bundle: Bundle, m: Membership)
    requires bundle != []
    ensures
      var last := |bundle| - 1;
      var before, now := Places(bundle[..last], m), Here(last, bundle[last], m);
      Places(bundle, m) == before + now && before !! now
  {
    var last := |bundle| - 1;
    var front := bundle[..last];
    forall place
      ensures place in Places(bundle, m) <==> place in Places(front, m) || place in Here(last, bundle[last], m)
    {
      HereIs(bundle, last, m, place);
      PlaceInFront(bundle, m, place);
    }
    forall place | place in Here(last, bundle[last], m) ensures place !in Places(front, m) {
      HereIs(bundle, last, m, place);
    }
  }

  /** A membership is counted once for each position that gives it. */
  lemma {:induction false} BundleCount(bundle: Bundle, m: Membership)
    ensures BundleMemberships(bundle)[m] == |Places(bundle, m)|
  {
    if bundle != [] {
      var last := |bundle| - 1;
      BundleCount(bundle[..last], m);
      ScopeCount(last, bundle[last], m);
      PlacesSplit(bundle, m);
    }
  }

  /** The distinct items at the positions of one scope. */
  ghost function Held(scope: Scope): set<Item> {
    set place | place in ScopePlaces(0, scope) :: At([scope], place).item
  }

  lemma OneScope(scope: Scope)
    ensures BundleItems([scope]) == ItemsOf(scope)
  {
    assert [scope][..0] == [];
    assert BundleMemberships([scope]) == multiset{} + MembershipsOf(scope);
    assert BundleMemberships([scope]) == MembershipsOf(scope);
  }

  lemma HeldSomewhere(scope: Scope, item: Item)
    ensures item in Held(scope) <==> exists place :: Within([scope], place) && At([scope], place).item == item
  {
    if place :| Within([scope], place) && At([scope], place).item == item {
      assert place.scope == 0 && place in ScopePlaces(0, scope);
    }
  }

  lemma HeldIsItems(scope: Scope)
    ensures Held(scope) == ItemsOf(scope)
  {
    OneScope(scope);
    forall item ensures item in Held(scope) <==> item in ItemsOf(scope) {
      HeldSomewhere(scope, item);
      ItemIsSomewhere([scope], item);
    }
  }

  /** An item is one that some position holds. */
  lemma ItemIsSomewhere(bundle: Bundle, item: Item)
    ensures item in BundleItems(bundle) <==> exists place :: Within(bundle, place) && At(bundle, place).item == item
  {
    if item in BundleItems(bundle) {
      var m :| m in BundleMemberships(bundle) && m.item == item;
      BundleCount(bundle, m);
      var place :| place in Places(bundle, m);
      assert Within(bundle, place) && At(bundle, place) == m;
    }
    if place :| Within(bundle, place) && At(bundle, place).item == item {
      var m := At(bundle, place);
      PlaceIs(bundle, m, place);
      BundleCount(bundle, m);
      assert m in BundleMemberships(bundle);
    }
  }

  // ---------------------------------------------------------------- the loop

  method RowInventory(key: Key, domain: Domain, name: string, rows: seq<Reference>, before: multiset<Membership>)
    returns (memberships: multiset<Membership>)
    ensures memberships == before + RowMemberships(key, domain, name, rows)
  {
    memberships := before;
    for index := 0 to |rows|
      invariant memberships == before + RowMemberships(key, domain, name, rows[..index])
    {
      PrefixOfPrefix(rows, index, index + 1);
      var item := Item(key, IdentityOf(domain, name, index, rows[index]));
      memberships := memberships + multiset{Membership(domain, name, item)};
    }
    WholePrefix(rows);
  }

  method ScopeInventory(scope: Scope, before: multiset<Membership>) returns (memberships: multiset<Membership>)
    ensures memberships == before + MembershipsOf(scope)
  {
    memberships := before;
    for i := 0 to |scope.lists|
      invariant memberships == before + ListMemberships(scope.key, scope.lists[..i])
    {
      PrefixOfPrefix(scope.lists, i, i + 1);
      memberships := RowInventory(scope.key, Channels, scope.lists[i].name, scope.lists[i].entries, memberships);
    }
    WholePrefix(scope.lists);
    memberships := RowInventory(scope.key, Media, "favorites", scope.media, memberships);
  }

  /** Distinct items and counted memberships, collection by collection. */
  method TakeInventory(bundle: Bundle) returns (items: set<Item>, memberships: multiset<Membership>)
    ensures items == BundleItems(bundle) && memberships == BundleMemberships(bundle)
    ensures forall m :: memberships[m] == |Places(bundle, m)|
    ensures forall item :: item in items <==> exists place :: Within(bundle, place) && At(bundle, place).item == item
  {
    memberships := multiset{};
    for i := 0 to |bundle|
      invariant memberships == BundleMemberships(bundle[..i])
    {
      PrefixOfPrefix(bundle, i, i + 1);
      memberships := ScopeInventory(bundle[i], memberships);
    }
    WholePrefix(bundle);
    items := ItemsIn(memberships);
    forall m ensures memberships[m] == |Places(bundle, m)| { BundleCount(bundle, m); }
    forall item ensures item in items <==> exists place :: Within(bundle, place) && At(bundle, place).item == item {
      ItemIsSomewhere(bundle, item);
    }
  }

  // ---------------------------------------------------------------- clearing

  function Emptied(lists: seq<ListRow>): (r: seq<ListRow>)
    ensures |r| == |lists|
  {
    if lists == [] then [] else Emptied(lists[..|lists| - 1]) + [lists[|lists| - 1].(entries := [])]
  }

  method EmptyLists(lists: seq<ListRow>) returns (rows: seq<ListRow>)
    ensures rows == Emptied(lists)
  {
    rows := [];
    for i := 0 to |lists|
      invariant rows == Emptied(lists[..i])
    {
      PrefixOfPrefix(lists, i, i + 1);
      rows := rows + [lists[i].(entries := [])];
    }
    WholePrefix(lists);
  }

  lemma {:induction false} EmptiedRows(lists: seq<ListRow>)
    ensures forall i :: 0 <= i < |lists| ==> Emptied(lists)[i] == lists[i].(entries := [])
  {
    if lists != [] { EmptiedRows(lists[..|lists| - 1]); }
  }

  lemma {:induction false} EmptiedHoldNothing(key: Key, lists: seq<ListRow>)
    ensures ListMemberships(key, Emptied(lists)) == multiset{}
  {
    if lists != [] {
      EmptiedHoldNothing(key, lists[..|lists| - 1]);
      var rows := Emptied(lists);
      assert rows[..|rows| - 1] == Emptied(lists[..|lists| - 1]);
    }
  }
}
