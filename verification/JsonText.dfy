/**
 Reading the serialisation back: with the escapes of section 7 of RFC 8259 and the encoding of
 section 3 of RFC 3629 every text reads back, and one document is written out byte by byte.
 */
module JsonText {
  import opened Wrappers
  import opened JsonBudget

  // ---------------------------------------------------------------- one character

  /** A Unicode scalar value. */
  predicate Scalar(point: nat) { point <= 0x10FFFF && !(0xD800 <= point <= 0xDFFF) }

  function Continued(b: byte): Option<nat> {
    if 0x80 <= b < 0xC0 then Some(b as nat - 0x80) else None
  }

  function HexValue(b: byte): Option<nat> {
    if 48 <= b <= 57 then Some(b as nat - 48)
    else if 97 <= b <= 102 then Some(b as nat - 97 + 10)
    else if 65 <= b <= 70 then Some(b as nat - 65 + 10)
    else None
  }

  /** The first character of a text and the bytes after it; quotes and control characters do not stand bare. */
  function ReadPoint(bytes: seq<byte>): Option<(nat, seq<byte>)> {
    if bytes == [] || bytes[0] < 0x20 || bytes[0] == 0x22 then None
    else if bytes[0] == 0x5C then ReadEscape(bytes[1..])
    else ReadUtf8(bytes)
  }

  function ReadEscape(bytes: seq<byte>): Option<(nat, seq<byte>)> {
    if bytes == [] then None
    else if bytes[0] == 0x22 || bytes[0] == 0x5C || bytes[0] == 0x2F then Some((bytes[0] as nat, bytes[1..]))
    else if bytes[0] == 0x62 then Some((0x08, bytes[1..]))
    else if bytes[0] == 0x66 then Some((0x0C, bytes[1..]))
    else if bytes[0] == 0x6E then Some((0x0A, bytes[1..]))
    else if bytes[0] == 0x72 then Some((0x0D, bytes[1..]))
    else if bytes[0] == 0x74 then Some((0x09, bytes[1..]))
    else if bytes[0] == 0x75 && |bytes| >= 5 then
      match (HexValue(bytes[1]), HexValue(bytes[2]), HexValue(bytes[3]), HexValue(bytes[4]))
      case (Some(a), Some(b), Some(c), Some(d)) => Some((((a * 16 + b) * 16 + c) * 16 + d, bytes[5..]))
      case _ => None
    else None
  }

  function ReadUtf8(bytes: seq<byte>): Option<(nat, seq<byte>)>
    requires bytes != []
  {
    var lead := bytes[0] as nat;
    if lead < 0x80 then Some((lead, bytes[1..]))
    else if 0xC0 <= lead < 0xE0 && |bytes| >= 2 then
      match Continued(bytes[1])
      case Some(a) => Some(((lead - 0xC0) * 64 + a, bytes[2..]))
      case None => None
    else if 0xE0 <= lead < 0xF0 && |bytes| >= 3 then
      match (Continued(bytes[1]), Continued(bytes[2]))
      case (Some(a), Some(b)) => Some((((lead - 0xE0) * 64 + a) * 64 + b, bytes[3..]))
      case _ => None
    else if 0xF0 <= lead < 0xF8 && |bytes| >= 4 then
      match (Continued(bytes[1]), Continued(bytes[2]), Continued(bytes[3]))
      case (Some(a), Some(b), Some(c)) => Some(((((lead - 0xF0) * 64 + a) * 64 + b) * 64 + c, bytes[4..]))
      case _ => None
    else None
  }

  /** The groups of six bits of a number, from the highest. */
  lemma SixBits(point: nat)
    ensures point == point / 64 * 64 + point % 64
    ensures point / 64 == point / 4096 * 64 + point / 64 % 64
    ensures point / 4096 == point / 262144 * 64 + point / 4096 % 64
  {
  }

  lemma TwoBytes(point: nat, rest: seq<byte>)
    requires 0x80 <= point < 0x800
    ensures ReadUtf8(Utf8(point) + rest) == Some((point, rest)) && Utf8(point)[0] >= 0x80
  {
    SixBits(point);
    assert (Utf8(point) + rest)[2..] == rest;
  }

  lemma ThreeBytes(point: nat, rest: seq<byte>)
    requires 0x800 <= point < 0x10000
    ensures ReadUtf8(Utf8(point) + rest) == Some((point, rest)) && Utf8(point)[0] >= 0x80
  {
    SixBits(point);
    assert (Utf8(point) + rest)[3..] == rest;
  }

  lemma FourBytes(point: nat, rest: seq<byte>)
    requires 0x10000 <= point <= 0x10FFFF
    ensures ReadUtf8(Utf8(point) + rest) == Some((point, rest)) && Utf8(point)[0] >= 0x80
  {
    SixBits(point);
    assert (Utf8(point) + rest)[4..] == rest;
  }

  lemma Utf8ReadsBack(point: nat, rest: seq<byte>)
    requires 0x20 <= point <= 0x10FFFF
    ensures ReadUtf8(Utf8(point) + rest) == Some((point, rest))
    ensures (Utf8(point) + rest)[0] >= 0x20 && (point < 0x80 ==> (Utf8(point) + rest)[0] as nat == point)
    ensures point >= 0x80 ==> (Utf8(point) + rest)[0] >= 0x80
  {
    if point < 0x80 {
      assert (Utf8(point) + rest)[1..] == rest;
    } else if point < 0x800 {
      TwoBytes(point, rest);
    } else if point < 0x10000 {
      ThreeBytes(point, rest);
    } else {
      FourBytes(point, rest);
    }
  }

  lemma PointReadsBack(point: nat, rest: seq<byte>)
    requires Scalar(point)
    ensures ReadPoint(Escaped(point) + rest) == Some((point, rest))
  {
    var bytes := Escaped(point) + rest;
    if point >= 0x20 && point != 0x22 && point != 0x5C {
      Utf8ReadsBack(point, rest);
    } else {
      assert bytes[1..] == Escaped(point)[1..] + rest;
      assert (Escaped(point)[1..] + rest)[|Escaped(point)| - 1..] == rest;
    }
  }

  // ---------------------------------------------------------------- texts

  function ReadPoints(bytes: seq<byte>): Option<seq<nat>>
    decreases |bytes|
  {
    if bytes == [] then Some([])
    else
      match ReadPoint(bytes)
      case None => None
      case Some((point, rest)) =>
        if |rest| >= |bytes| then None
        else
          match ReadPoints(rest)
          case None => None
          case Some(points) => Some([point] + points)
  }

  lemma EscapedLast(points: seq<nat>, point: nat)
    ensures EscapedAll(points + [point]) == EscapedAll(points) + Escaped(point)
  {
    assert (points + [point])[..|points|] == points;
  }

  lemma Regroup<T>(a: seq<T>, b: seq<T>, c: seq<T>)
    ensures a + b + c == a + (b + c)
  {
  }

  lemma {:induction false} EscapedFirst(point: nat, points: seq<nat>)
    ensures EscapedAll([point] + points) == Escaped(point) + EscapedAll(points)
  {
    if points == [] {
      EscapedLast([], point);
      assert [] + [point] == [point] + points;
    } else {
      var front, last := points[..|points| - 1], points[|points| - 1];
      calc {
        EscapedAll([point] + points);
        { SplitLast(points); Regroup([point], front, [last]); }
        EscapedAll([point] + front + [last]);
        { EscapedLast([point] + front, last); }
        EscapedAll([point] + front) + Escaped(last);
        { EscapedFirst(point, front); }
        Escaped(point) + EscapedAll(front) + Escaped(last);
        { Regroup(Escaped(point), EscapedAll(front), Escaped(last)); }
        Escaped(point) + (EscapedAll(front) + Escaped(last));
        { SplitLast(points); EscapedLast(front, last); }
        Escaped(point) + EscapedAll(points);
      }
    }
  }

  /** Every text reads back, character for character. */
  lemma {:induction false} TextReadsBack(points: seq<nat>)
    requires forall i :: 0 <= i < |points| ==> Scalar(points[i])
    ensures ReadPoints(EscapedAll(points)) == Some(points)
    decreases |points|
  {
    if points != [] {
      assert points == [points[0]] + points[1..];
      EscapedFirst(points[0], points[1..]);
      PointReadsBack(points[0], EscapedAll(points[1..]));
      TextReadsBack(points[1..]);
    }
  }

  /** Different texts are written differently. */
  lemma TextsDiffer(one: seq<nat>, two: seq<nat>)
    requires forall i :: 0 <= i < |one| ==> Scalar(one[i])
    requires forall i :: 0 <= i < |two| ==> Scalar(two[i])
    ensures Serialise(Text(one)) == Serialise(Text(two)) ==> one == two
  {
    TextReadsBack(one);
    TextReadsBack(two);
    var a, b := Serialise(Text(one)), Serialise(Text(two));
    if a == b {
      assert a[1..|a| - 1] == EscapedAll(one) && b[1..|b| - 1] == EscapedAll(two);
    }
  }

  // ---------------------------------------------------------------- one document

  lemma OneCharacter(a: nat)
    ensures EscapedAll([a]) == Escaped(a)
  {
    EscapedLast([], a);
    assert [] + [a] == [a];
  }

  lemma TwoCharacters(a: nat, b: nat)
    ensures EscapedAll([a, b]) == Escaped(a) + Escaped(b)
  {
    OneCharacter(a);
    EscapedLast([a], b);
    assert [a] + [b] == [a, b];
  }

  lemma TwoItems(a: Json, b: Json)
    ensures Serialise(List([a, b])) == [91] + (Serialise(a) + [44] + Serialise(b)) + [93]
  {
    assert [a, b][..1] == [a] && [a][..0] == [];
    var x, y := Field([], Serialise(a)), Field([], Serialise(b));
    assert ItemFields([a]) == [x];
    assert ItemFields([a, b]) == [x, y];
    JoinTwo(x, y);
  }

  lemma JoinTwo(x: Field, y: Field)
    ensures JoinFields([x, y]) == x.bytes + [44] + y.bytes
  {
    assert [x, y][1..] == [y];
  }

  /** Of two entries the one with the lesser key comes first, whichever was inserted first. */
  lemma TwoEntries(first: Entry, second: Entry)
    requires first.key.Text? && second.key.Text? && PointsLess(second.key.points, first.key.points)
    requires !PointsLess(first.key.points, second.key.points)
    ensures Serialise(Dict([first, second])) == Serialise(Dict([second, first]))
    ensures Serialise(Dict([first, second]))
         == [123] + (Serialise(second.key) + [58] + Serialise(second.value) + [44]
                     + (Serialise(first.key) + [58] + Serialise(first.value))) + [125]
  {
    var x, y := EntryField(first), EntryField(second);
    assert [first, second][..1] == [first] && [first][..0] == [];
    assert [second, first][..1] == [second] && [second][..0] == [];
    assert EntryFields([first]) == [x] && EntryFields([second]) == [y];
    assert EntryFields([first, second]) == [x, y] && EntryFields([second, first]) == [y, x];
    assert [x, y][..1] == [x] && [x][..0] == [] && [y, x][..1] == [y] && [y][..0] == [] && [y][1..] == [];
    assert Sorted([x]) == [x] && Sorted([y]) == [y];
    assert Sorted([x, y]) == [y, x] && Sorted([y, x]) == [y, x];
    JoinTwo(y, x);
  }

  /** A quotation mark is escaped, a character above 127 is written in UTF-8. */
  lemma KnownQuote()
    ensures Serialise(Text([34, 233])) == [34, 92, 34, 195, 169, 34]
  {
    TwoCharacters(34, 233);
  }

  /** Control characters have a short escape or a numbered one. */
  lemma KnownControls()
    ensures Serialise(Text([7, 10])) == [34, 92, 117, 48, 48, 48, 55, 92, 110, 34]
  {
    TwoCharacters(7, 10);
  }

  lemma KnownLetters()
    ensures Serialise(Text([97])) == [34, 97, 34] && Serialise(Text([98])) == [34, 98, 34]
  {
    OneCharacter(97);
    OneCharacter(98);
  }

  lemma SpelledOut()
    ensures
      [123] + ([34, 97, 34] + [58] + [102, 97, 108, 115, 101] + [44]
               + ([34, 98, 34] + [58] + [91, 116, 114, 117, 101, 44, 110, 117, 108, 108, 93])) + [125]
      == [123, 34, 97, 34, 58, 102, 97, 108, 115, 101, 44,
          34, 98, 34, 58, 91, 116, 114, 117, 101, 44, 110, 117, 108, 108, 93, 125]
  {
  }

  /** The document {"b":[true,null],"a":false} as it is written: keys sorted, nothing between the tokens. */
  lemma KnownDocument()
    ensures
      Serialise(Dict([Entry(Text([98]), List([Bool(true), Null])), Entry(Text([97]), Bool(false))]))
      == [123] + ([34, 97, 34] + [58] + [102, 97, 108, 115, 101] + [44]
                  + ([34, 98, 34] + [58] + [91, 116, 114, 117, 101, 44, 110, 117, 108, 108, 93])) + [125]
  {
    var b, a := Entry(Text([98]), List([Bool(true), Null])), Entry(Text([97]), Bool(false));
    KnownLetters();
    KnownList();
    BeforeB();
    TwoEntries(b, a);
  }

  lemma KnownList()
    ensures Serialise(List([Bool(true), Null])) == [91, 116, 114, 117, 101, 44, 110, 117, 108, 108, 93]
  {
    TwoItems(Bool(true), Null);
  }

  lemma BeforeB()
    ensures PointsLess([97], [98]) && !PointsLess([98], [97])
  {
  }

  // ---------------------------------------------------------------- the order of keys

  /** Texts agree up to some place, and there the first has ended or has the lesser character. */
  ghost predicate LessAt(a: seq<nat>, b: seq<nat>, n: nat) {
    n <= |a| && n < |b| && a[..n] == b[..n] && (n == |a| || a[n] < b[n])
  }

  lemma PointsLessMeans(a: seq<nat>, b: seq<nat>)
    ensures PointsLess(a, b) <==> exists n: nat :: LessAt(a, b, n)
  {
    if PointsLess(a, b) { var _ := FirstDifference(a, b); }
    if exists n: nat :: LessAt(a, b, n) {
      var n: nat :| LessAt(a, b, n);
      DifferenceDecides(a, b, n);
    }
  }

  lemma {:induction false} FirstDifference(a: seq<nat>, b: seq<nat>) returns (n: nat)
    requires PointsLess(a, b)
    ensures LessAt(a, b, n)
  {
    n := 0;
    if a != [] && a[0] == b[0] {
      var m := FirstDifference(a[1..], b[1..]);
      assert a[..m + 1] == [a[0]] + a[1..][..m] && b[..m + 1] == [b[0]] + b[1..][..m];
      n := m + 1;
    }
  }

  lemma {:induction false} DifferenceDecides(a: seq<nat>, b: seq<nat>, n: nat)
    requires LessAt(a, b, n)
    ensures PointsLess(a, b)
  {
    if n > 0 {
      assert a[0] == a[..n][0] == b[..n][0] == b[0];
      assert a[1..][..n - 1] == a[..n][1..] && b[1..][..n - 1] == b[..n][1..];
      DifferenceDecides(a[1..], b[1..], n - 1);
    }
  }

  lemma {:induction false} NotLessTransitive(a: seq<nat>, b: seq<nat>, c: seq<nat>)
    requires !PointsLess(b, a) && !PointsLess(c, b)
    ensures !PointsLess(c, a)
  {
    if a != [] && b != [] && c != [] && a[0] == b[0] == c[0] {
      NotLessTransitive(a[1..], b[1..], c[1..]);
    }
  }

  lemma {:induction false} LessIsStrict(a: seq<nat>, b: seq<nat>)
    requires PointsLess(a, b)
    ensures !PointsLess(b, a)
  {
    if a != [] && a[0] == b[0] { LessIsStrict(a[1..], b[1..]); }
  }

  ghost predicate Rising(fields: seq<Field>) {
    forall i, j :: 0 <= i < j < |fields| ==> !PointsLess(fields[j].key, fields[i].key)
  }

  lemma {:induction false} InsertRises(field: Field, fields: seq<Field>)
    requires Rising(fields)
    ensures Rising(Insert(field, fields))
    decreases |fields|
  {
    if fields != [] {
      if PointsLess(field.key, fields[0].key) {
        LeastFirst(field, fields);
      } else {
        InsertRises(field, fields[1..]);
        InsertKeeps(field, fields[1..]);
        var rest := Insert(field, fields[1..]);
        forall x | x in rest ensures !PointsLess(x.key, fields[0].key) {
          assert x in multiset(rest);
        }
      }
    }
  }

  /** Nothing is lost or added by an insertion. */
  lemma {:induction false} InsertKeeps(field: Field, fields: seq<Field>)
    ensures multiset(Insert(field, fields)) == multiset(fields) + multiset{field}
    decreases |fields|
  {
    if fields != [] {
      assert fields == [fields[0]] + fields[1..];
      InsertKeeps(field, fields[1..]);
    }
  }

  lemma LeastFirst(field: Field, fields: seq<Field>)
    requires fields != [] && Rising(fields) && PointsLess(field.key, fields[0].key)
    ensures Rising([field] + fields)
  {
    LessIsStrict(field.key, fields[0].key);
    forall j | 0 <= j < |fields| ensures !PointsLess(fields[j].key, field.key) {
      if j > 0 { NotLessTransitive(field.key, fields[0].key, fields[j].key); }
    }
  }

  /** The fields of a dictionary are written in the order of their keys, each as often as it occurs. */
  lemma {:induction false} SortedRises(fields: seq<Field>)
    ensures Rising(Sorted(fields)) && multiset(Sorted(fields)) == multiset(fields)
    decreases |fields|
  {
    if fields != [] {
      SplitLast(fields);
      SortedRises(fields[..|fields| - 1]);
      InsertRises(fields[|fields| - 1], Sorted(fields[..|fields| - 1]));
      InsertKeeps(fields[|fields| - 1], Sorted(fields[..|fields| - 1]));
    }
  }
}
