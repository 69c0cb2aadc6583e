/** What a finished guide search means, whatever batches timed out on the way. */
module GuideLaws {
  import opened Wrappers
  import opened Batches
  import opened Answers
  import opened GuideSearch

  // ---------------------------------------------------------------- splitting does not matter

  // A guide that answers every batch channel by channel, in catalogue order.
  datatype Guide = Guide(
    current: Channel -> seq<Hit>, archiveCurrent: Channel -> seq<Hit>, chains: Channel -> seq<Chain>)

  ghost function FlatMap<T>(f: Channel -> seq<T>, batch: seq<Channel>): seq<T> {
    if batch == [] then [] else FlatMap(f, batch[..|batch| - 1]) + f(batch[|batch| - 1])
  }

  lemma {:induction false} FlatMapJoin<T>(f: Channel -> seq<T>, a: seq<Channel>, b: seq<Channel>)
    ensures FlatMap(f, a + b) == FlatMap(f, a) + FlatMap(f, b)
  {
    if b == [] {
      assert a + b == a;
    } else {
      FlatMapJoin(f, a, b[..|b| - 1]);
      assert (a + b)[..|a + b| - 1] == a + b[..|b| - 1];
    }
  }

  ghost predicate AnsweredBy(guide: Guide, log: seq<Served>) {
    forall i :: 0 <= i < |log| ==> AnswerIs(guide, log[i].batch, log[i].value)
  }

  ghost predicate AnswerIs(guide: Guide, batch: seq<Channel>, value: Value) {
    && value.current == FlatMap(guide.current, batch)
    && value.archiveCurrent == FlatMap(guide.archiveCurrent, batch)
    && value.chains == FlatMap(guide.chains, batch)
  }

  /** The merge is the guide's answer to the whole catalogue. */
  lemma {:induction false} MergeIsWholeAnswer(guide: Guide, expected: Option<string>, log: seq<Served>)
    requires AnsweredBy(guide, log)
    ensures var sum, wire := Merge(expected, log), Concat(BatchesOf(log));
      && sum.current == FlatMap(guide.current, wire)
      && sum.archiveCurrent == FlatMap(guide.archiveCurrent, wire)
      && sum.chains == FlatMap(guide.chains, wire)
  {
    if log != [] {
      var rest, last := log[..|log| - 1], log[|log| - 1];
      SplitLast(log);
      MergeIsWholeAnswer(guide, expected, rest);
      ServedOne(expected, rest, last);
      var wire := Concat(BatchesOf(rest));
      assert AnswerIs(guide, last.batch, last.value);
      FlatMapJoin(guide.current, wire, last.batch);
      FlatMapJoin(guide.archiveCurrent, wire, last.batch);
      FlatMapJoin(guide.chains, wire, last.batch);
    }
  }

  /** Any two complete searches of one catalogue agree, whichever batches each one had to split. */
  lemma SplitIndependence(guide: Guide, query: Query, wire: seq<Channel>,
                          one: Option<string>, oneLog: seq<Served>, two: Option<string>, twoLog: seq<Served>)
    requires AnsweredBy(guide, oneLog) && AnsweredBy(guide, twoLog)
    requires Vouched(query, one, oneLog) && Vouched(query, two, twoLog)
    requires Concat(BatchesOf(oneLog)) == wire && Concat(BatchesOf(twoLog)) == wire
    ensures var a, b := Merge(one, oneLog), Merge(two, twoLog);
      a.current == b.current && a.archiveCurrent == b.archiveCurrent && a.chains == b.chains && a.rows == b.rows
  {
    MergeIsWholeAnswer(guide, one, oneLog);
    MergeIsWholeAnswer(guide, two, twoLog);
    RowsAreCounted(query, one, oneLog);
    RowsAreCounted(query, two, twoLog);
  }

  // ---------------------------------------------------------------- nothing lost or doubled

  ghost function Lengths(chains: seq<Chain>): nat {
    if chains == [] then 0 else Lengths(chains[..|chains| - 1]) + |chains[|chains| - 1].rows|
  }

  lemma {:induction false} LengthsJoin(a: seq<Chain>, b: seq<Chain>)
    ensures Lengths(a + b) == Lengths(a) + Lengths(b)
  {
    if b == [] {
      assert a + b == a;
    } else {
      LengthsJoin(a, b[..|b| - 1]);
      assert (a + b)[..|a + b| - 1] == a + b[..|b| - 1];
    }
  }

  lemma {:induction false} LengthsOfAnswer(rows: seq<Named<seq<Programme>>>, batch: seq<Channel>, query: Query,
                                           asOf: int, chains: seq<Chain>)
    requires |chains| == |rows| && forall i :: 0 <= i < |rows| ==> ChainSound(rows[i], batch, query, asOf, chains[i])
    ensures Lengths(chains) == ChainRows(rows)
  {
    if rows != [] {
      var last := |rows| - 1;
      assert ChainSound(rows[last], batch, query, asOf, chains[last]);
      LengthsOfAnswer(rows[..last], batch, query, asOf, chains[..last]);
    }
  }

  /** The row total is exactly the rows that were kept. */
  lemma {:induction false} RowsAreCounted(query: Query, expected: Option<string>, log: seq<Served>)
    requires Vouched(query, expected, log)
    ensures var sum := Merge(expected, log);
      sum.rows == |sum.current| + |sum.archiveCurrent| + Lengths(sum.chains)
  {
    if log != [] {
      var rest, last := log[..|log| - 1], log[|log| - 1];
      RowsAreCounted(query, expected, rest);
      LengthsJoin(Merge(expected, rest).chains, last.value.chains);
      LengthsOfAnswer(last.answer.archives, last.batch, query, last.answer.asOf, last.value.chains);
    }
  }

  // ---------------------------------------------------------------- order across batches

  /** Every result belongs to a channel of these rows. */
  ghost predicate Within(sum: Collected, wire: seq<Channel>) {
    && (forall hit :: hit in sum.current ==> hit.channel in wire)
    && (forall hit :: hit in sum.archiveCurrent ==> hit.channel in wire)
    && (forall chain :: chain in sum.chains ==> chain.channel in wire)
  }

  ghost predicate InOrder(sum: Collected) {
    Ordered(Literal, sum.current) && Ordered(Live, sum.archiveCurrent) && ChainsOrdered(sum.chains)
  }

  /** All channels of one part come before all of the other. */
  ghost predicate Precedes(a: seq<Channel>, b: seq<Channel>) {
    forall x, y :: x in a && y in b ==> x.number < y.number
  }

  lemma NumberedParts(a: seq<Channel>, b: seq<Channel>)
    requires Numbered(a + b)
    ensures Numbered(a) && Precedes(a, b)
  {
    var all := a + b;
    assert forall i :: 0 <= i < |a| ==> all[i] == a[i];
    assert forall j :: 0 <= j < |b| ==> all[|a| + j] == b[j];
    forall x, y | x in a && y in b ensures x.number < y.number {
      var i :| 0 <= i < |a| && a[i] == x;
      var j :| 0 <= j < |b| && b[j] == y;
      assert all[i].number < all[|a| + j].number;
    }
  }

  lemma HitsJoin(kind: Kind, a: seq<Hit>, b: seq<Hit>, early: seq<Channel>, late: seq<Channel>)
    requires Ordered(kind, a) && Ordered(kind, b) && Precedes(early, late)
    requires forall hit :: hit in a ==> hit.channel in early
    requires forall hit :: hit in b ==> hit.channel in late
    ensures Ordered(kind, a + b)
  {
    forall i, j | 0 <= i < |a| && 0 <= j < |b| ensures Follows(kind, a[i], b[j]) {
      assert a[i] in a && b[j] in b;
    }
  }

  lemma ChainsJoin(a: seq<Chain>, b: seq<Chain>, early: seq<Channel>, late: seq<Channel>)
    requires ChainsOrdered(a) && ChainsOrdered(b) && Precedes(early, late)
    requires forall chain :: chain in a ==> chain.channel in early
    requires forall chain :: chain in b ==> chain.channel in late
    ensures ChainsOrdered(a + b)
  {
    forall i, j | 0 <= i < |a| && 0 <= j < |b| ensures !Before(Head(b[j]), Head(a[i])) && a[i] != b[j] {
      assert a[i] in a && b[j] in b;
    }
  }

  lemma AnswerIsWithin(served: Served, query: Query, expected: Option<string>)
    requires Validated(served.answer, served.batch, query, expected, served.now, served.value)
    ensures forall hit :: hit in served.value.current ==> hit.channel in served.batch
    ensures forall hit :: hit in served.value.archiveCurrent ==> hit.channel in served.batch
    ensures forall chain :: chain in served.value.chains ==> chain.channel in served.batch
  {
    var answer, value := served.answer, served.value;
    assert forall i :: 0 <= i < |value.current| ==>
      HitSound(answer.current[i], served.batch, query, answer.asOf, Literal, value.current[i]);
    assert forall i :: 0 <= i < |value.archiveCurrent| ==>
      HitSound(answer.archiveCurrent[i], served.batch, query, answer.asOf, Live, value.archiveCurrent[i]);
    assert forall i :: 0 <= i < |value.chains| ==>
      ChainSound(answer.archives[i], served.batch, query, answer.asOf, value.chains[i]);
  }

  /** Across all batches and splits: strictly rising hits, nondecreasing and globally distinct chains. */
  lemma {:induction false} MergedOrder(query: Query, expected: Option<string>, log: seq<Served>)
    requires Vouched(query, expected, log) && Numbered(Concat(BatchesOf(log)))
    ensures InOrder(Merge(expected, log)) && Within(Merge(expected, log), Concat(BatchesOf(log)))
  {
    if log != [] {
      var rest, last := log[..|log| - 1], log[|log| - 1];
      SplitLast(log);
      ServedOne(expected, rest, last);
      var early := Concat(BatchesOf(rest));
      NumberedParts(early, last.batch);
      MergedOrder(query, expected, rest);
      var sum := Merge(expected, rest);
      AnswerIsWithin(last, query, sum.generation);
      HitsJoin(Literal, sum.current, last.value.current, early, last.batch);
      HitsJoin(Live, sum.archiveCurrent, last.value.archiveCurrent, early, last.batch);
      ChainsJoin(sum.chains, last.value.chains, early, last.batch);
    }
  }

  /** One generation throughout, and a window inside every answer's own. */
  lemma {:induction false} OneGenerationOneWindow(query: Query, expected: Option<string>, log: seq<Served>, at: nat)
    requires Vouched(query, expected, log) && at < |log|
    ensures var sum := Merge(expected, log);
      && sum.generation == Some(log[at].answer.generation)
      && (expected.Some? ==> sum.generation == expected)
      && log[at].answer.asOf <= sum.asOf && sum.until.Some? && sum.until.value <= log[at].answer.validUntil
  {
    var last := |log| - 1;
    var rest := log[..last];
    assert last > 0 ==> Vouched(query, expected, rest) && rest != [];
    if at < last {
      OneGenerationOneWindow(query, expected, rest, at);
    } else if last > 0 {
      OneGenerationOneWindow(query, expected, rest, 0);
    }
  }

  /** The merged window is no narrower than it must be: each of its ends is that of some answer. */
  lemma {:induction false} WindowIsAttained(query: Query, expected: Option<string>, log: seq<Served>)
    returns (latest: nat, first: nat)
    requires Vouched(query, expected, log) && log != []
    ensures latest < |log| && first < |log|
    ensures Merge(expected, log).until == Some(log[first].answer.validUntil)
    ensures Merge(expected, log).asOf == log[latest].answer.asOf
  {
    var last := |log| - 1;
    latest, first := last, last;
    if last > 0 {
      var rest := log[..last];
      assert Vouched(query, expected, rest);
      var sum := Merge(expected, rest);
      latest, first := WindowIsAttained(query, expected, rest);
      if sum.asOf < log[last].value.asOf { latest := last; }
      if sum.until.value > log[last].value.until { first := last; }
    }
  }

  ghost function Sizes(log: seq<Served>): nat {
    if log == [] then 0 else Sizes(log[..|log| - 1]) + log[|log| - 1].answer.size
  }

  /** The byte total is the sum of the answers' sizes. */
  lemma {:induction false} BytesAreCounted(query: Query, expected: Option<string>, log: seq<Served>)
    requires Vouched(query, expected, log)
    ensures Merge(expected, log).bytes == Sizes(log)
  {
    if log != [] { BytesAreCounted(query, expected, log[..|log| - 1]); }
  }

  // ---------------------------------------------------------------- archive chains

  ghost function Duration(rows: seq<Programme>): int {
    if rows == [] then 0 else Duration(rows[..|rows| - 1]) + rows[|rows| - 1].end - rows[|rows| - 1].start
  }

  lemma {:induction false} AbuttingTelescopes(rows: seq<Programme>)
    requires Abutting(rows) && rows != []
    ensures Duration(rows) == rows[|rows| - 1].end - rows[0].start
  {
    if |rows| > 1 {
      AbuttingTelescopes(rows[..|rows| - 1]);
    }
  }

  /** The pieces of a chain fill one stretch of the channel's archive. */
  lemma ChainFitsArchive(row: Named<seq<Programme>>, batch: seq<Channel>, query: Query, asOf: int, chain: Chain)
    requires ChainSound(row, batch, query, asOf, chain)
    ensures Duration(chain.rows) == chain.rows[|chain.rows| - 1].end - chain.rows[0].start
    ensures 0 < Duration(chain.rows) <= chain.channel.archiveHours * 3600
  {
    AbuttingTelescopes(chain.rows);
    assert RowSound(chain.rows[0], chain.channel, query, asOf, Archived);
    assert RowSound(chain.rows[|chain.rows| - 1], chain.channel, query, asOf, Archived);
    ChainRises(chain, query, asOf, |chain.rows| - 1);
  }

  lemma {:induction false} ChainRises(chain: Chain, query: Query, asOf: int, k: nat)
    requires k < |chain.rows| && Abutting(chain.rows)
    requires forall i :: 0 <= i < |chain.rows| ==> RowSound(chain.rows[i], chain.channel, query, asOf, Archived)
    ensures chain.rows[0].start < chain.rows[k].end
  {
    if k > 0 {
      ChainRises(chain, query, asOf, k - 1);
      assert RowSound(chain.rows[k], chain.channel, query, asOf, Archived);
    }
  }
}
