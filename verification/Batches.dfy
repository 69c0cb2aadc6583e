/** Greedy batching of a guide catalogue, and why it needs the fewest requests. */
module Batches {
  import opened Wrappers

  const MAX_BATCH_ROWS: nat := 256
  const MAX_BATCH_BYTES: nat := 480 * 1024
  const ENVELOPE_BYTES: nat := 2048

  // `size` is the length of the row's compact JSON.
  datatype Channel = Channel(id: string, number: nat, archiveHours: nat, size: nat)

  ghost function Concat<T>(parts: seq<seq<T>>): seq<T> {
    if parts == [] then [] else Concat(parts[..|parts| - 1]) + parts[|parts| - 1]
  }

  ghost function Weight(batch: seq<Channel>): nat {
    if batch == [] then 0 else Weight(batch[..|batch| - 1]) + batch[|batch| - 1].size + 1
  }

  /** A batch the service accepts; one oversized row still travels, alone. */
  ghost predicate Acceptable(batch: seq<Channel>) {
    && 1 <= |batch| <= 256
    && (|batch| == 1 || 2048 + Weight(batch) <= 491520)
  }

  ghost predicate Partition(parts: seq<seq<Channel>>, wire: seq<Channel>) {
    Concat(parts) == wire && forall i :: 0 <= i < |parts| ==> Acceptable(parts[i])
  }

  /** No batch could have taken the first row of the next one. */
  ghost predicate Greedy(parts: seq<seq<Channel>>) {
    forall i :: 0 <= i < |parts| - 1 ==> NoRoomForNext(parts, i)
  }

  ghost predicate NoRoomForNext(parts: seq<seq<Channel>>, i: nat)
    requires i + 1 < |parts|
  {
    parts[i + 1] != [] && !Acceptable(parts[i] + [parts[i + 1][0]])
  }

  lemma {:induction false} WeightOfConcat(a: seq<Channel>, b: seq<Channel>)
    ensures Weight(a + b) == Weight(a) + Weight(b)
  {
    if b == [] {
      assert a + b == a;
    } else {
      assert (a + b)[..|a + b| - 1] == a + b[..|b| - 1];
      WeightOfConcat(a, b[..|b| - 1]);
    }
  }

  lemma ConcatAppend<T>(parts: seq<seq<T>>, part: seq<T>)
    ensures Concat(parts + [part]) == Concat(parts) + part
  {
    assert (parts + [part])[..|parts|] == parts;
  }

  ghost function End<T>(parts: seq<seq<T>>, k: nat): nat
    requires k <= |parts|
  {
    |Concat(parts[..k])|
  }

  /** The k-th part is the stretch between two consecutive ends. */
  lemma {:induction false} PartIsSegment<T>(parts: seq<seq<T>>, k: nat)
    requires k < |parts|
    ensures End(parts, k) <= End(parts, k + 1) <= |Concat(parts)|
    ensures End(parts, k + 1) == End(parts, k) + |parts[k]|
    ensures parts[k] == Concat(parts)[End(parts, k)..End(parts, k + 1)]
  {
    PrefixOfPrefix(parts, k, k + 1);
    ConcatPrefix(parts, k + 1);
  }

  lemma {:induction false} ConcatPrefix<T>(parts: seq<seq<T>>, k: nat)
    requires k <= |parts|
    ensures Concat(parts[..k]) <= Concat(parts)
  {
    if k == |parts| {
      assert parts[..k] == parts;
    } else {
      var rest := parts[..|parts| - 1];
      PrefixOfPrefix(parts, k, |parts| - 1);
      ConcatPrefix(rest, k);
    }
  }

  /** Any stretch of an acceptable batch is acceptable. */
  lemma SegmentAcceptable(wire: seq<Channel>, lo: nat, hi: nat, from: nat, to: nat)
    requires lo <= from < to <= hi <= |wire| && Acceptable(wire[lo..hi])
    ensures Acceptable(wire[from..to])
  {
    assert wire[lo..hi] == wire[lo..from] + wire[from..to] + wire[to..hi];
    WeightOfConcat(wire[lo..from] + wire[from..to], wire[to..hi]);
    WeightOfConcat(wire[lo..from], wire[from..to]);
  }

  /** Greedy stays ahead of every other partition. */
  lemma {:induction false} GreedyStaysAhead(parts: seq<seq<Channel>>, other: seq<seq<Channel>>, wire: seq<Channel>,
                                            k: nat)
    requires Partition(parts, wire) && Greedy(parts) && Partition(other, wire)
    requires k <= |parts| && k <= |other|
    ensures End(other, k) <= End(parts, k)
  {
    if k > 0 {
      GreedyStaysAhead(parts, other, wire, k - 1);
      PartIsSegment(other, k - 1);
      if k == |parts| {
        assert parts[..k] == parts;
      } else {
        assert NoRoomForNext(parts, k - 1);
        OneBatchAhead(parts, other, k - 1);
      }
    }
  }

  lemma OneBatchAhead(parts: seq<seq<Channel>>, other: seq<seq<Channel>>, k: nat)
    requires Concat(parts) == Concat(other) && k + 1 < |parts| && k < |other|
    requires NoRoomForNext(parts, k) && Acceptable(other[k])
    requires End(other, k) <= End(parts, k)
    ensures End(other, k + 1) <= End(parts, k + 1)
  {
    OneMoreRow(parts, k);
    PartIsSegment(other, k);
    if End(parts, k + 1) < End(other, k + 1) {
      SegmentAcceptable(Concat(parts), End(other, k), End(other, k + 1), End(parts, k), End(parts, k + 1) + 1);
    }
  }

  /** A batch together with the first row of its successor is one stretch of the catalogue. */
  lemma OneMoreRow<T>(parts: seq<seq<T>>, k: nat)
    requires k + 1 < |parts| && parts[k + 1] != []
    ensures End(parts, k) <= End(parts, k + 1) < |Concat(parts)|
    ensures Concat(parts)[End(parts, k)..End(parts, k + 1) + 1] == parts[k] + [parts[k + 1][0]]
  {
    PartIsSegment(parts, k);
    PartIsSegment(parts, k + 1);
    SliceGrow(Concat(parts), End(parts, k), End(parts, k + 1));
  }

  /** No partition of the catalogue into acceptable batches is shorter. */
  lemma GreedyIsFewest(parts: seq<seq<Channel>>, other: seq<seq<Channel>>, wire: seq<Channel>)
    requires Partition(parts, wire) && Greedy(parts) && Partition(other, wire)
    ensures |parts| <= |other|
  {
    if |other| < |parts| {
      GreedyStaysAhead(parts, other, wire, |other|);
      assert other[..|other|] == other;
      PartIsSegment(parts, |other|);
    }
  }

  /** Full batches, and the one being filled, cover what has been read so far. */
  ghost predicate Filling(full: seq<seq<Channel>>, batch: seq<Channel>, read: seq<Channel>) {
    if batch == [] then full == [] && read == []
    else Partition(full + [batch], read) && Greedy(full + [batch])
  }

  /** The next row goes into the current batch when it still fits. */
  lemma FillOne(full: seq<seq<Channel>>, batch: seq<Channel>, read: seq<Channel>, row: Channel)
    requires Filling(full, batch, read) && Acceptable(batch + [row])
    ensures Filling(full, batch + [row], read + [row])
  {
    ConcatAppend(full, batch);
    ConcatAppend(full, batch + [row]);
    if batch == [] {
      assert batch + [row] == [row];
      assert full + [[row]] == [[row]] && read + [row] == [row];
    } else {
      var was, now := full + [batch], full + [batch + [row]];
      assert forall i :: 0 <= i < |full| ==> was[i] == now[i] == full[i];
      assert batch == was[|full|] && (batch + [row])[0] == batch[0];
      assert forall i :: 0 <= i < |now| - 1 ==> NoRoomForNext(was, i) == NoRoomForNext(now, i);
    }
  }

  /** Otherwise it begins the next one. */
  lemma StartNext(full: seq<seq<Channel>>, batch: seq<Channel>, read: seq<Channel>, row: Channel)
    requires Filling(full, batch, read) && batch != [] && !Acceptable(batch + [row])
    ensures Filling(full + [batch], [row], read + [row])
  {
    ConcatAppend(full + [batch], [row]);
    var was, now := full + [batch], full + [batch] + [[row]];
    assert forall i :: 0 <= i < |was| ==> was[i] == now[i];
    assert forall i :: 0 <= i < |was| - 1 ==> NoRoomForNext(was, i) == NoRoomForNext(now, i);
  }

  /** Splits the catalogue in order; each batch is filled before the next is begun. */
  method Split(wire: seq<Channel>) returns (batches: seq<seq<Channel>>)
    ensures Partition(batches, wire)
    ensures Greedy(batches)
    ensures forall other :: Partition(other, wire) ==> |batches| <= |other|
  {
    batches := [];
    var batch: seq<Channel>, size := [], ENVELOPE_BYTES;
    for i := 0 to |wire|
      invariant Filling(batches, batch, wire[..i])
      invariant size == ENVELOPE_BYTES + Weight(batch)
    {
      var row := wire[i];
      var length := row.size + 1;
      assert wire[..i + 1] == wire[..i] + [row];
      WeightOfConcat(batch, [row]);
      if batch != [] { FillingIsAcceptable(batches, batch, wire[..i]); }
      if batch != [] && (|batch| == MAX_BATCH_ROWS || size + length > MAX_BATCH_BYTES) {
        StartNext(batches, batch, wire[..i], row);
        batches := batches + [batch];
        batch, size := [], ENVELOPE_BYTES;
        assert batch + [row] == [row];
      } else {
        FillOne(batches, batch, wire[..i], row);
      }
      batch := batch + [row];
      size := size + length;
    }
    assert wire[..|wire|] == wire;
    if batch != [] {
      batches := batches + [batch];
    }
    forall other | Partition(other, wire) ensures |batches| <= |other| {
      GreedyIsFewest(batches, other, wire);
    }
  }

  lemma FillingIsAcceptable(full: seq<seq<Channel>>, batch: seq<Channel>, read: seq<Channel>)
    requires Filling(full, batch, read) && batch != []
    ensures Acceptable(batch)
  {
    assert (full + [batch])[|full|] == batch;
  }
}
