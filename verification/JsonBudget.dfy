/**
 The byte budget of a document traversal against the compact serialisation it stands
 for: what the traversal subtracts is exactly what serialising would produce.
 */
module JsonBudget {
  import opened Wrappers

  const MAX_BYTES: nat := 1024 * 1024
  const MAX_DEPTH: nat := 16
  const MAX_FIELDS: nat := 64
  const MAX_ITEMS: nat := 65536

  // Text is a sequence of code points, so that unpaired surrogates can occur.  A finite
  // number is its decimal text, which is never empty.
  datatype Json =
    | Null
    | Bool(value: bool)
    | Number(first: byte, rest: seq<byte>)
    | NonFinite
    | Text(points: seq<nat>)
    | List(items: seq<Json>)
    | Dict(entries: seq<Entry>)

  datatype Entry = Entry(key: Json, value: Json)

  // ---------------------------------------------------------------- serialisation

  predicate Surrogate(point: nat) { 0xD800 <= point <= 0xDFFF }

  function Utf8(point: nat): (bytes: seq<byte>)
    ensures 1 <= |bytes| <= 4
  {
    if point < 0x80 then [point as byte]
    else if point < 0x800 then [(0xC0 + point / 0x40) as byte, (0x80 + point % 0x40) as byte]
    else if point < 0x10000 then
      [(0xE0 + point / 0x1000) as byte, (0x80 + point / 0x40 % 0x40) as byte, (0x80 + point % 0x40) as byte]
    else
      [(0xF0 + point / 0x40000 % 8) as byte, (0x80 + point / 0x1000 % 0x40) as byte,
       (0x80 + point / 0x40 % 0x40) as byte, (0x80 + point % 0x40) as byte]
  }

  function HexDigit(v: nat): byte
    requires v < 16
  {
    (if v < 10 then 48 + v else 87 + v) as byte
  }

  /** Quotes, backslashes and control characters are escaped, everything else is UTF-8. */
  function Escaped(point: nat): (bytes: seq<byte>)
    ensures 1 <= |bytes| <= 6
  {
    if point == 0x22 then [92, 34]
    else if point == 0x5C then [92, 92]
    else if point == 0x08 then [92, 98]
    else if point == 0x09 then [92, 116]
    else if point == 0x0A then [92, 110]
    else if point == 0x0C then [92, 102]
    else if point == 0x0D then [92, 114]
    else if point < 0x20 then [92, 117, 48, 48, HexDigit(point / 16), HexDigit(point % 16)]
    else Utf8(point)
  }

  function EscapedAll(points: seq<nat>): (bytes: seq<byte>)
    ensures |bytes| >= |points|
  {
    if points == [] then [] else EscapedAll(points[..|points| - 1]) + Escaped(points[|points| - 1])
  }

  predicate PointsLess(a: seq<nat>, b: seq<nat>) {
    b != [] && (a == [] || a[0] < b[0] || (a[0] == b[0] && PointsLess(a[1..], b[1..])))
  }

  datatype Field = Field(key: seq<nat>, bytes: seq<byte>)

  function Insert(field: Field, fields: seq<Field>): seq<Field> {
    if fields == [] then [field]
    else if PointsLess(field.key, fields[0].key) then [field] + fields
    else [fields[0]] + Insert(field, fields[1..])
  }

  function Sorted(fields: seq<Field>): seq<Field> {
    if fields == [] then [] else Insert(fields[|fields| - 1], Sorted(fields[..|fields| - 1]))
  }

  function JoinFields(fields: seq<Field>): seq<byte> {
    if fields == [] then []
    else if |fields| == 1 then fields[0].bytes
    else fields[0].bytes + [44] + JoinFields(fields[1..])
  }

  /** Compact JSON with sorted keys. */
  function Serialise(item: Json): seq<byte>
    decreases item, 1
  {
    match item
    case Null => [110, 117, 108, 108]
    case Bool(value) => if value then [116, 114, 117, 101] else [102, 97, 108, 115, 101]
    case Number(first, rest) => [first] + rest
    case NonFinite => [63]
    case Text(points) => [34] + EscapedAll(points) + [34]
    case List(items) => [91] + JoinFields(ItemFields(items)) + [93]
    case Dict(entries) => [123] + JoinFields(Sorted(EntryFields(entries))) + [125]
  }

  function ItemFields(items: seq<Json>): (fields: seq<Field>)
    ensures |fields| == |items|
    decreases items, 0
  {
    if items == [] then []
    else ItemFields(items[..|items| - 1]) + [Field([], Serialise(items[|items| - 1]))]
  }

  function EntryFields(entries: seq<Entry>): (fields: seq<Field>)
    ensures |fields| == |entries|
    decreases entries, 0
  {
    if entries == [] then []
    else EntryFields(entries[..|entries| - 1]) + [EntryField(entries[|entries| - 1])]
  }

  function EntryField(entry: Entry): Field
    decreases entry, 0
  {
    Field(if entry.key.Text? then entry.key.points else [], Serialise(entry.key) + [58] + Serialise(entry.value))
  }

  function Cost(item: Json): nat { |Serialise(item)| }

  // ---------------------------------------------------------------- what a valid tree is

  ghost predicate Shaped(item: Json, depth: nat)
    decreases item
  {
    depth <= 16 &&
    match item
    case NonFinite => false
    case Text(points) =>
      |points| <= 1048576 && forall i :: 0 <= i < |points| ==> !(0xD800 <= points[i] <= 0xDFFF)
    case List(items) => |items| <= 65536 && forall i :: 0 <= i < |items| ==> Shaped(items[i], depth + 1)
    case Dict(entries) =>
      && |entries| <= 64
      && forall i :: 0 <= i < |entries| ==> EntryShaped(entries[i], depth + 1)
    case _ => true
  }

  ghost predicate EntryShaped(entry: Entry, depth: nat)
    decreases entry
  {
    entry.key.Text? && Shaped(entry.key, depth) && Shaped(entry.value, depth)
  }

  ghost predicate ShapedUpTo(entries: seq<Entry>, n: nat, depth: nat) {
    n <= |entries| && forall i :: 0 <= i < n ==> EntryShaped(entries[i], depth)
  }

  lemma ShapedOneMore(entries: seq<Entry>, n: nat, depth: nat)
    requires n < |entries| && ShapedUpTo(entries, n, depth) && EntryShaped(entries[n], depth)
    ensures ShapedUpTo(entries, n + 1, depth)
  {
  }

  ghost predicate ItemsShapedUpTo(items: seq<Json>, n: nat, depth: nat) {
    n <= |items| && forall i :: 0 <= i < n ==> Shaped(items[i], depth)
  }

  lemma ItemsShapedOneMore(items: seq<Json>, n: nat, depth: nat)
    requires n < |items| && ItemsShapedUpTo(items, n, depth) && Shaped(items[n], depth)
    ensures ItemsShapedUpTo(items, n + 1, depth)
  {
  }

  function EntryCost(entry: Entry): nat { Cost(entry.key) + 1 + Cost(entry.value) }

  // ---------------------------------------------------------------- lengths

  function Commas(n: nat): nat { if n == 0 then 0 else n - 1 }

  function Total(fields: seq<Field>): nat {
    if fields == [] then 0 else Total(fields[..|fields| - 1]) + |fields[|fields| - 1].bytes|
  }

  lemma {:induction false} TotalCons(field: Field, fields: seq<Field>)
    ensures Total([field] + fields) == |field.bytes| + Total(fields)
  {
    if fields != [] {
      TotalCons(field, fields[..|fields| - 1]);
      assert ([field] + fields)[..|fields|] == [field] + fields[..|fields| - 1];
    }
  }

  lemma TotalFirst(fields: seq<Field>)
    requires fields != []
    ensures Total(fields) == |fields[0].bytes| + Total(fields[1..])
  {
    assert fields == [fields[0]] + fields[1..];
    TotalCons(fields[0], fields[1..]);
  }

  lemma {:induction false} JoinedLength(fields: seq<Field>)
    ensures |JoinFields(fields)| == Total(fields) + Commas(|fields|)
  {
    if fields != [] {
      TotalFirst(fields);
      if |fields| > 1 { JoinedLength(fields[1..]); }
    }
  }

  lemma {:induction false} InsertTotal(field: Field, fields: seq<Field>)
    ensures |Insert(field, fields)| == |fields| + 1 && Total(Insert(field, fields)) == |field.bytes| + Total(fields)
  {
    if fields == [] || PointsLess(field.key, fields[0].key) {
      TotalCons(field, fields);
      assert [field] + [] == [field];
    } else {
      InsertTotal(field, fields[1..]);
      TotalFirst(fields);
      TotalCons(fields[0], Insert(field, fields[1..]));
    }
  }

  lemma {:induction false} SortedTotal(fields: seq<Field>)
    ensures |Sorted(fields)| == |fields| && Total(Sorted(fields)) == Total(fields)
  {
    if fields != [] {
      SortedTotal(fields[..|fields| - 1]);
      InsertTotal(fields[|fields| - 1], Sorted(fields[..|fields| - 1]));
    }
  }

  function ItemsCost(items: seq<Json>): nat {
    if items == [] then 0 else ItemsCost(items[..|items| - 1]) + Cost(items[|items| - 1])
  }

  function EntriesCost(entries: seq<Entry>): nat {
    if entries == [] then 0
    else EntriesCost(entries[..|entries| - 1]) + EntryCost(entries[|entries| - 1])
  }

  lemma {:induction false} ItemFieldsTotal(items: seq<Json>)
    ensures Total(ItemFields(items)) == ItemsCost(items)
  {
    if items != [] {
      ItemFieldsTotal(items[..|items| - 1]);
      var fields := ItemFields(items);
      assert fields[..|fields| - 1] == ItemFields(items[..|items| - 1]);
    }
  }

  lemma {:induction false} EntryFieldsTotal(entries: seq<Entry>)
    ensures Total(EntryFields(entries)) == EntriesCost(entries)
  {
    if entries != [] {
      EntryFieldsTotal(entries[..|entries| - 1]);
      var fields := EntryFields(entries);
      assert fields[..|fields| - 1] == EntryFields(entries[..|entries| - 1]);
    }
  }

  /** A list costs its brackets, its commas and its items. */
  lemma ListCost(items: seq<Json>)
    ensures Cost(List(items)) == 2 + Commas(|items|) + ItemsCost(items)
  {
    JoinedLength(ItemFields(items));
    ItemFieldsTotal(items);
  }

  /** A dictionary costs its braces, commas, colons, keys and values, in whatever order it is emitted. */
  lemma DictCost(entries: seq<Entry>)
    ensures Cost(Dict(entries)) == 2 + Commas(|entries|) + EntriesCost(entries)
  {
    var fields := EntryFields(entries);
    SortedTotal(fields);
    JoinedLength(Sorted(fields));
    EntryFieldsTotal(entries);
  }

  lemma ItemsCostNext(items: seq<Json>, k: nat)
    requires k < |items|
    ensures ItemsCost(items[..k + 1]) == ItemsCost(items[..k]) + Cost(items[k])
  {
    PrefixOfPrefix(items, k, k + 1);
  }

  lemma {:induction false} ItemsCostPrefix(items: seq<Json>, k: nat)
    requires k <= |items|
    ensures ItemsCost(items[..k]) <= ItemsCost(items)
  {
    if k < |items| {
      PrefixOfPrefix(items, k, |items| - 1);
      ItemsCostPrefix(items[..|items| - 1], k);
    } else {
      WholePrefix(items);
    }
  }

  lemma EntriesCostNext(entries: seq<Entry>, k: nat)
    requires k < |entries|
    ensures EntriesCost(entries[..k + 1]) == EntriesCost(entries[..k]) + EntryCost(entries[k])
  {
    PrefixOfPrefix(entries, k, k + 1);
  }

  /** What is still to come costs at least a colon each. */
  lemma {:induction false} EntriesCostRest(entries: seq<Entry>, k: nat)
    requires k <= |entries|
    ensures EntriesCost(entries[..k]) + (|entries| - k) <= EntriesCost(entries)
  {
    if k < |entries| {
      PrefixOfPrefix(entries, k, |entries| - 1);
      EntriesCostRest(entries[..|entries| - 1], k);
    } else {
      WholePrefix(entries);
    }
  }

  lemma {:induction false} EntriesCostHasColons(entries: seq<Entry>)
    ensures EntriesCost(entries) >= |entries|
  {
    if entries != [] { EntriesCostHasColons(entries[..|entries| - 1]); }
  }

  // ---------------------------------------------------------------- the traversal

  class Budget {
    var remaining: int
    var nodes: nat

    constructor ()
      ensures remaining == MAX_BYTES && nodes == 0
    {
      remaining, nodes := MAX_BYTES, 0;
    }

    /** Every node counted so far has cost at least one byte. */
    ghost predicate Sound()
      reads this
    {
      remaining >= 0 && nodes + remaining <= MAX_BYTES
    }

    /** Subtracts the exact serialised size, or fails only because the tree is invalid or does not fit. */
    method Visit(item: Json, depth: nat) returns (ok: bool)
      requires Sound()
      modifies this
      ensures ok ==> Sound() && Shaped(item, depth) && remaining == old(remaining) - Cost(item)
      ensures !ok ==> !Shaped(item, depth) || Cost(item) > old(remaining)
      decreases item
    {
      nodes := nodes + 1;
      if depth > MAX_DEPTH || nodes > MAX_BYTES { return false; }
      match item
      case Dict(entries) =>
        DictCost(entries);
        ok := VisitDict(item, entries, depth);
      case List(items) =>
        ListCost(items);
        ok := VisitList(item, items, depth);
      case Text(points) =>
        if |points| > MAX_BYTES || exists i :: 0 <= i < |points| && Surrogate(points[i]) { return false; }
        remaining := remaining - Cost(item);
        ok := remaining >= 0;
      case NonFinite => ok := false;
      case _ =>
        remaining := remaining - Cost(item);
        ok := remaining >= 0;
    }

    method VisitList(ghost item: Json, items: seq<Json>, depth: nat) returns (ok: bool)
      requires item == List(items) && depth <= MAX_DEPTH
      requires remaining >= 0 && nodes + remaining <= MAX_BYTES + 1
      requires Cost(item) == 2 + Commas(|items|) + ItemsCost(items)
      modifies this
      ensures ok ==> Sound() && Shaped(item, depth) && remaining == old(remaining) - Cost(item)
      ensures !ok ==> !Shaped(item, depth) || Cost(item) > old(remaining)
      decreases item, 1
    {
      if |items| > MAX_ITEMS { return false; }
      remaining := remaining - (2 + Commas(|items|));
      if remaining < 0 { return false; }
      ok := VisitItems(item, items, depth + 1);
    }

    /** Every item in turn, stopping at the first that is invalid or does not fit. */
    method VisitItems(ghost item: Json, items: seq<Json>, depth: nat) returns (ok: bool)
      requires item == List(items) && Sound()
      modifies this
      ensures ok ==> Sound() && ItemsShapedUpTo(items, |items|, depth) && remaining == old(remaining) - ItemsCost(items)
      ensures !ok ==> !ItemsShapedUpTo(items, |items|, depth) || ItemsCost(items) > old(remaining)
      decreases item, 0
    {
      for i := 0 to |items|
        invariant Sound() && remaining == old(remaining) - ItemsCost(items[..i])
        invariant ItemsShapedUpTo(items, i, depth)
      {
        ItemsCostNext(items, i);
        ItemsCostPrefix(items, i + 1);
        ok := Visit(items[i], depth);
        if !ok { return; }
        ItemsShapedOneMore(items, i, depth);
      }
      WholePrefix(items);
      ok := true;
    }

    method VisitDict(ghost item: Json, entries: seq<Entry>, depth: nat) returns (ok: bool)
      requires item == Dict(entries) && depth <= MAX_DEPTH
      requires remaining >= 0 && nodes + remaining <= MAX_BYTES + 1
      requires Cost(item) == 2 + Commas(|entries|) + EntriesCost(entries)
      modifies this
      ensures ok ==> Sound() && Shaped(item, depth) && remaining == old(remaining) - Cost(item)
      ensures !ok ==> !Shaped(item, depth) || Cost(item) > old(remaining)
      decreases item, 1
    {
      if |entries| > MAX_FIELDS { return false; }
      remaining := remaining - (2 + |entries| + Commas(|entries|));
      EntriesCostHasColons(entries);
      if remaining < 0 { return false; }
      ok := VisitEntries(item, entries, depth + 1);
    }

    /** Every key and value in turn; the colons are already accounted for. */
    method VisitEntries(ghost item: Json, entries: seq<Entry>, depth: nat) returns (ok: bool)
      requires item == Dict(entries) && Sound()
      modifies this
      ensures ok ==>
        Sound() && ShapedUpTo(entries, |entries|, depth)
        && remaining == old(remaining) - (EntriesCost(entries) - |entries|)
      ensures !ok ==> !ShapedUpTo(entries, |entries|, depth) || EntriesCost(entries) - |entries| > old(remaining)
      decreases item, 0
    {
      for i := 0 to |entries|
        invariant Sound() && remaining == old(remaining) - (EntriesCost(entries[..i]) - i)
        invariant ShapedUpTo(entries, i, depth)
      {
        EntriesCostNext(entries, i);
        EntriesCostRest(entries, i + 1);
        ok := VisitEntry(entries[i], depth);
        if !ok { return; }
        ShapedOneMore(entries, i, depth);
      }
      WholePrefix(entries);
      ok := true;
    }

    /** A key and its value; the colon is already accounted for. */
    method VisitEntry(entry: Entry, depth: nat) returns (ok: bool)
      requires Sound()
      modifies this
      ensures ok ==> Sound() && EntryShaped(entry, depth) && remaining == old(remaining) - EntryCost(entry) + 1
      ensures !ok ==> !EntryShaped(entry, depth) || EntryCost(entry) - 1 > old(remaining)
      decreases entry
    {
      if !entry.key.Text? { return false; }
      ok := Visit(entry.key, depth);
      if !ok { return; }
      ok := Visit(entry.value, depth);
    }
  }

  /**
   The bound accepts exactly the well-shaped trees whose serialisation fits.  The final
   length check and the node cap never refuse anything the traversal accepted.
   */
  method Bounded(value: Json) returns (ok: bool)
    ensures ok <==> Shaped(value, 0) && |Serialise(value)| <= 1048576
  {
    var budget := new Budget();
    ok := budget.Visit(value, 0);
    if ok {
      assert |Serialise(value)| <= MAX_BYTES;
      ok := |Serialise(value)| <= MAX_BYTES;
    }
  }
}
