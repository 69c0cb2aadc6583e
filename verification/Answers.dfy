/** One guide answer: the checks that make it usable, and what it means once they pass. */
module Answers {
  import opened Wrappers
  import opened Batches
  import Lexical

  const MAX_ROWS: nat := 10000
  const MAX_ANSWER_BYTES: nat := 2 * 1024 * 1024
  const MAX_SAFE: int := 9007199254740991
  const TEXT_PROFILE := "archive-nfkc-casefold-words-u17-v1"

  datatype Programme = Programme(start: int, end: int, title: string)

  datatype Hit = Hit(channel: Channel, row: Programme)

  datatype Chain = Chain(channel: Channel, rows: seq<Programme>)

  // A wire row names its channel by id.
  datatype Named<T> = Named(id: string, content: T)

  datatype Answer = Answer(
    version: int, source: string, generation: string, fetchedAt: int, stale: bool, complete: bool,
    asOf: int, validUntil: int, checked: int, total: int, textProfile: string, size: nat,
    current: seq<Named<Programme>>, archiveCurrent: seq<Named<Programme>>, archives: seq<Named<seq<Programme>>>)

  // The text tests of the query, decided elsewhere.
  datatype Query = Query(
    generationFits: string -> bool,
    titleFits: string -> bool,
    literal: string -> bool,
    indexed: Programme -> bool)

  datatype Value = Value(
    current: seq<Hit>, archiveCurrent: seq<Hit>, chains: seq<Chain>,
    asOf: int, until: int, generation: string, rows: nat, bytes: nat)

  predicate Whole(value: int) { 1 <= value <= MAX_SAFE }

  predicate Header(answer: Answer, batch: seq<Channel>, query: Query, expected: Option<string>, now: real) {
    && answer.version == 1 && answer.source == "epg-one"
    && query.generationFits(answer.generation) && answer.generation != []
    && (expected.Some? ==> answer.generation == expected.value)
    && Whole(answer.fetchedAt) && -60.0 <= now - answer.fetchedAt as real / 1000.0 < 7200.0
    && !answer.stale && answer.complete
    && Whole(answer.asOf) && -60.0 <= answer.asOf as real - now <= 60.0
    && Whole(answer.validUntil) && answer.asOf < answer.validUntil <= answer.asOf + 7200
    && answer.validUntil as real <= answer.fetchedAt as real / 1000.0 + 7200.0
    && answer.checked == |batch| && answer.total == |batch|
    && answer.textProfile == TEXT_PROFILE
    && answer.size <= MAX_ANSWER_BYTES
  }

  /** A header in terms of its fields: of the one source and generation, whole, complete, and fresh by both clocks. */
  ghost predicate Usable(answer: Answer, batch: seq<Channel>, query: Query, expected: Option<string>, now: real) {
    && (answer.version, answer.source) == (1, "epg-one")
    && |answer.generation| > 0 && query.generationFits(answer.generation)
    && expected in {None, Some(answer.generation)}
    && answer.complete && !answer.stale && answer.textProfile == "archive-nfkc-casefold-words-u17-v1"
    && answer.checked == |batch| == answer.total && answer.size <= 2097152
    && FreshBy(answer, now)
  }

  /** Fetched at most two hours ago, as of this minute, valid for at most two hours of either. */
  ghost predicate FreshBy(answer: Answer, now: real) {
    && 0 < answer.fetchedAt < 9007199254740992 && 0 < answer.asOf < 9007199254740992
    && 0 < answer.validUntil < 9007199254740992
    && answer.fetchedAt as real <= now * 1000.0 + 60000.0 && now * 1000.0 < answer.fetchedAt as real + 7200000.0
    && now <= answer.asOf as real + 60.0 && answer.asOf as real <= now + 60.0
    && 0 < answer.validUntil - answer.asOf <= 7200
    && (answer.validUntil as real - 7200.0) * 1000.0 <= answer.fetchedAt as real
  }

  lemma HeaderMeans(answer: Answer, batch: seq<Channel>, query: Query, expected: Option<string>, now: real)
    ensures Header(answer, batch, query, expected, now) <==> Usable(answer, batch, query, expected, now)
  {
  }

  // ---------------------------------------------------------------- rows

  datatype Kind = Literal | Live | Archived

  /** One programme under one channel; only literal rows skip the indexed match. */
  predicate RowSound(row: Programme, channel: Channel, query: Query, asOf: int, kind: Kind) {
    && Whole(row.start) && Whole(row.end) && row.start < row.end
    && query.titleFits(row.title) && row.title != []
    && (if kind == Archived
        then channel.archiveHours > 0 && row.end <= asOf && row.start >= asOf - channel.archiveHours * 3600
        else row.start <= asOf < row.end)
    && (if kind == Literal then query.literal(row.title) else query.indexed(row))
  }

  /** The same row by row kind: on the air, or wholly past and within the hours the channel keeps. */
  lemma RowMeans(row: Programme, channel: Channel, query: Query, asOf: int, kind: Kind)
    ensures RowSound(row, channel, query, asOf, kind) <==>
      && 0 < row.start < row.end < 9007199254740992 && |row.title| > 0 && query.titleFits(row.title)
      && (kind == Literal ==> query.literal(row.title)) && (kind != Literal ==> query.indexed(row))
      && (kind != Archived ==> row.start <= asOf && asOf + 1 <= row.end)
      && (kind == Archived ==>
            row.end <= asOf && 0 < channel.archiveHours && asOf - row.start <= channel.archiveHours * 3600)
  {
  }

  predicate Known(batch: seq<Channel>, id: string) {
    exists i :: 0 <= i < |batch| && batch[i].id == id
  }

  function Lookup(batch: seq<Channel>, id: string): (channel: Channel)
    requires Known(batch, id)
    ensures channel in batch && channel.id == id
  {
    if batch[0].id == id then batch[0] else Lookup(batch[1..], id)
  }

  function HitOf(row: Named<Programme>, batch: seq<Channel>): Hit
    requires Known(batch, row.id)
  {
    Hit(Lookup(batch, row.id), row.content)
  }

  function ChainOf(row: Named<seq<Programme>>, batch: seq<Channel>): Chain
    requires Known(batch, row.id)
  {
    Chain(Lookup(batch, row.id), row.content)
  }

  // ---------------------------------------------------------------- order

  /** Channel number, start, end, title. */
  predicate Before(a: Hit, b: Hit) {
    || a.channel.number < b.channel.number
    || (a.channel.number == b.channel.number
        && (|| a.row.start < b.row.start
            || (a.row.start == b.row.start
                && (a.row.end < b.row.end || (a.row.end == b.row.end && Lexical.Less(a.row.title, b.row.title))))))
  }

  /** The first difference decides: channel number, then start, then end, then title. */
  lemma BeforeMeans(a: Hit, b: Hit)
    ensures a.channel.number != b.channel.number ==> (Before(a, b) <==> a.channel.number < b.channel.number)
    ensures a.channel.number == b.channel.number && a.row.start != b.row.start ==>
      (Before(a, b) <==> a.row.start < b.row.start)
    ensures a.channel.number == b.channel.number && a.row.start == b.row.start && a.row.end != b.row.end ==>
      (Before(a, b) <==> a.row.end < b.row.end)
    ensures a.channel.number == b.channel.number && a.row.start == b.row.start && a.row.end == b.row.end ==>
      (Before(a, b) <==> Lexical.Less(a.row.title, b.row.title))
    ensures Follows(Literal, a, b) <==> a.channel.number < b.channel.number
  {
  }

  lemma BeforeTransitive(a: Hit, b: Hit, c: Hit)
    requires Before(a, b) && Before(b, c)
    ensures Before(a, c)
  {
    if Lexical.Less(a.row.title, b.row.title) && Lexical.Less(b.row.title, c.row.title) {
      Lexical.Transitive(a.row.title, b.row.title, c.row.title);
    }
  }

  lemma BeforeTotal(a: Hit, b: Hit)
    ensures !(Before(a, b) && Before(b, a))
    ensures Before(a, b) || Before(b, a) || (a.channel.number == b.channel.number && a.row == b.row)
  {
    Lexical.Total(a.row.title, b.row.title);
    if Lexical.Less(a.row.title, b.row.title) && Lexical.Less(b.row.title, a.row.title) {
      Lexical.Transitive(a.row.title, b.row.title, a.row.title);
    }
    Lexical.Irreflexive(a.row.title);
  }

  /** Not after: the order chains must follow. */
  lemma NotAfterTransitive(a: Hit, b: Hit, c: Hit)
    requires !Before(b, a) && !Before(c, b)
    ensures !Before(c, a)
  {
    BeforeTotal(a, b);
    BeforeTotal(b, c);
    if Before(c, a) {
      if Before(a, b) { BeforeTransitive(c, a, b); }
      else if Before(b, c) { BeforeTransitive(b, c, a); }
    }
  }

  predicate Follows(kind: Kind, earlier: Hit, later: Hit) {
    if kind == Literal then earlier.channel.number < later.channel.number else Before(earlier, later)
  }

  ghost predicate Ordered(kind: Kind, hits: seq<Hit>) {
    forall i, j :: 0 <= i < j < |hits| ==> Follows(kind, hits[i], hits[j])
  }

  function Head(chain: Chain): Hit
    requires chain.rows != []
  {
    Hit(chain.channel, chain.rows[0])
  }

  ghost predicate ChainsOrdered(chains: seq<Chain>) {
    && (forall i :: 0 <= i < |chains| ==> chains[i].rows != [])
    && (forall i, j :: 0 <= i < j < |chains| ==> !Before(Head(chains[j]), Head(chains[i])))
    && (forall i, j :: 0 <= i < j < |chains| ==> chains[i] != chains[j])
  }

  /** Consecutive programmes abut. */
  ghost predicate Abutting(rows: seq<Programme>) {
    forall i :: 0 < i < |rows| ==> rows[i - 1].end == rows[i].start
  }

  lemma OrderedAppend(kind: Kind, hits: seq<Hit>, hit: Hit)
    requires Ordered(kind, hits) && (hits != [] ==> Follows(kind, hits[|hits| - 1], hit))
    ensures Ordered(kind, hits + [hit])
  {
    forall i | 0 <= i < |hits| ensures Follows(kind, hits[i], hit) {
      if i < |hits| - 1 && kind != Literal { BeforeTransitive(hits[i], hits[|hits| - 1], hit); }
    }
  }

  lemma ChainsAppend(chains: seq<Chain>, chain: Chain)
    requires ChainsOrdered(chains) && chain.rows != [] && chain !in chains
    requires chains != [] ==> !Before(Head(chain), Head(chains[|chains| - 1]))
    ensures ChainsOrdered(chains + [chain])
  {
    forall i | 0 <= i < |chains| ensures !Before(Head(chain), Head(chains[i])) {
      if i < |chains| - 1 { NotAfterTransitive(Head(chains[i]), Head(chains[|chains| - 1]), Head(chain)); }
    }
  }

  // ---------------------------------------------------------------- a sound answer

  ghost predicate HitsSound(rows: seq<Named<Programme>>, batch: seq<Channel>, query: Query, asOf: int, kind: Kind,
                            hits: seq<Hit>)
  {
    && |hits| == |rows|
    && (forall i :: 0 <= i < |rows| ==> HitSound(rows[i], batch, query, asOf, kind, hits[i]))
    && Ordered(kind, hits)
  }

  ghost predicate HitSound(row: Named<Programme>, batch: seq<Channel>, query: Query, asOf: int, kind: Kind, hit: Hit) {
    Known(batch, row.id) && hit == HitOf(row, batch) && RowSound(hit.row, hit.channel, query, asOf, kind)
  }

  ghost predicate ChainsSound(rows: seq<Named<seq<Programme>>>, batch: seq<Channel>, query: Query, asOf: int,
                              chains: seq<Chain>)
  {
    && |chains| == |rows|
    && (forall i :: 0 <= i < |rows| ==> ChainSound(rows[i], batch, query, asOf, chains[i]))
    && ChainsOrdered(chains)
  }

  ghost predicate ChainSound(row: Named<seq<Programme>>, batch: seq<Channel>, query: Query, asOf: int, chain: Chain) {
    && Known(batch, row.id) && chain == ChainOf(row, batch)
    && chain.rows != [] && Abutting(chain.rows)
    && forall i :: 0 <= i < |chain.rows| ==> RowSound(chain.rows[i], chain.channel, query, asOf, Archived)
  }

  function ChainRows(rows: seq<Named<seq<Programme>>>): nat {
    if rows == [] then 0 else ChainRows(rows[..|rows| - 1]) + |rows[|rows| - 1].content|
  }

  lemma {:induction false} ChainRowsPrefix(rows: seq<Named<seq<Programme>>>, k: nat)
    requires k <= |rows|
    ensures ChainRows(rows[..k]) <= ChainRows(rows)
  {
    if k < |rows| {
      PrefixOfPrefix(rows, k, |rows| - 1);
      ChainRowsPrefix(rows[..|rows| - 1], k);
    } else {
      assert rows[..k] == rows;
    }
  }

  function RowCount(answer: Answer): nat {
    |answer.current| + |answer.archiveCurrent| + ChainRows(answer.archives)
  }

  /** Exactly what an accepted answer is and means. */
  ghost predicate Validated(answer: Answer, batch: seq<Channel>, query: Query, expected: Option<string>, now: real,
                            value: Value)
  {
    && Header(answer, batch, query, expected, now)
    && HitsSound(answer.current, batch, query, answer.asOf, Literal, value.current)
    && HitsSound(answer.archiveCurrent, batch, query, answer.asOf, Live, value.archiveCurrent)
    && ChainsSound(answer.archives, batch, query, answer.asOf, value.chains)
    && RowCount(answer) <= 10000
    && value.asOf == answer.asOf && value.until == answer.validUntil && value.generation == answer.generation
    && value.rows == RowCount(answer) && value.bytes == answer.size
  }

  // ---------------------------------------------------------------- the validator

  /** Every sound reading of the rows begins with what has been read of them. */
  ghost predicate HitsForced(rows: seq<Named<Programme>>, batch: seq<Channel>, query: Query, asOf: int, kind: Kind,
                             read: seq<Hit>)
  {
    forall other :: HitsSound(rows, batch, query, asOf, kind, other) ==> read <= other
  }

  /** How far the reading of hits has come. */
  ghost predicate HitsRead(rows: seq<Named<Programme>>, batch: seq<Channel>, query: Query, asOf: int, kind: Kind,
                           read: seq<Hit>)
  {
    && |read| <= |rows| && HitsSound(rows[..|read|], batch, query, asOf, kind, read)
    && HitsForced(rows, batch, query, asOf, kind, read)
  }

  /** Whether the next row can be read as a hit after those read before it. */
  predicate NextHit(row: Named<Programme>, batch: seq<Channel>, query: Query, asOf: int, kind: Kind, read: seq<Hit>) {
    && Known(batch, row.id) && RowSound(row.content, Lookup(batch, row.id), query, asOf, kind)
    && (read != [] ==> Follows(kind, read[|read| - 1], HitOf(row, batch)))
  }

  lemma NextHitIsForced(rows: seq<Named<Programme>>, batch: seq<Channel>, query: Query, asOf: int, kind: Kind,
                        read: seq<Hit>, other: seq<Hit>)
    requires |read| < |rows| && HitsSound(rows, batch, query, asOf, kind, other) && read <= other
    ensures NextHit(rows[|read|], batch, query, asOf, kind, read)
    ensures read + [HitOf(rows[|read|], batch)] <= other
  {
    assert HitSound(rows[|read|], batch, query, asOf, kind, other[|read|]);
    assert other[..|read| + 1] == other[..|read|] + [other[|read|]];
  }

  lemma ReadHit(rows: seq<Named<Programme>>, batch: seq<Channel>, query: Query, asOf: int, kind: Kind, read: seq<Hit>)
    requires HitsRead(rows, batch, query, asOf, kind, read) && |read| < |rows|
    requires NextHit(rows[|read|], batch, query, asOf, kind, read)
    ensures HitsRead(rows, batch, query, asOf, kind, read + [HitOf(rows[|read|], batch)])
  {
    var hit := HitOf(rows[|read|], batch);
    OrderedAppend(kind, read, hit);
    assert rows[..|read| + 1] == rows[..|read|] + [rows[|read|]];
    forall other | HitsSound(rows, batch, query, asOf, kind, other) ensures read + [hit] <= other {
      NextHitIsForced(rows, batch, query, asOf, kind, read, other);
    }
  }

  lemma NoHit(rows: seq<Named<Programme>>, batch: seq<Channel>, query: Query, asOf: int, kind: Kind, read: seq<Hit>)
    requires HitsRead(rows, batch, query, asOf, kind, read) && |read| < |rows|
    requires !NextHit(rows[|read|], batch, query, asOf, kind, read)
    ensures forall other :: !HitsSound(rows, batch, query, asOf, kind, other)
  {
    forall other | HitsSound(rows, batch, query, asOf, kind, other) ensures false {
      NextHitIsForced(rows, batch, query, asOf, kind, read, other);
    }
  }

  method ReadHits(rows: seq<Named<Programme>>, batch: seq<Channel>, query: Query, asOf: int, kind: Kind, before: nat)
    returns (hits: seq<Hit>, count: nat, ok: bool)
    ensures ok ==> HitsSound(rows, batch, query, asOf, kind, hits) && count == before + |rows|
    ensures ok ==> rows == [] || count <= MAX_ROWS
    ensures !ok ==> before + |rows| > MAX_ROWS || forall other :: !HitsSound(rows, batch, query, asOf, kind, other)
  {
    hits, count, ok := [], before, false;
    for i := 0 to |rows|
      invariant |hits| == i && HitsRead(rows, batch, query, asOf, kind, hits) && count == before + i
      invariant i > 0 ==> count <= MAX_ROWS
    {
      count := count + 1;
      if count > MAX_ROWS { return; }
      if !NextHit(rows[i], batch, query, asOf, kind, hits) {
        NoHit(rows, batch, query, asOf, kind, hits);
        return;
      }
      ReadHit(rows, batch, query, asOf, kind, hits);
      hits := hits + [HitOf(rows[i], batch)];
    }
    assert rows[..|rows|] == rows;
    ok := true;
  }

  method ReadChain(row: Named<seq<Programme>>, batch: seq<Channel>, query: Query, asOf: int, before: nat)
    returns (chain: Chain, count: nat, ok: bool)
    requires Known(batch, row.id)
    ensures chain == ChainOf(row, batch)
    ensures ok ==> ChainSound(row, batch, query, asOf, chain) && count == before + |row.content| <= MAX_ROWS
    ensures !ok ==> before + |row.content| > MAX_ROWS || !ChainSound(row, batch, query, asOf, chain)
  {
    chain, count, ok := ChainOf(row, batch), before, false;
    if chain.rows == [] { return; }
    for i := 0 to |chain.rows|
      invariant count == before + i && (i > 0 ==> count <= MAX_ROWS)
      invariant forall j :: 0 <= j < i ==> RowSound(chain.rows[j], chain.channel, query, asOf, Archived)
    {
      count := count + 1;
      if count > MAX_ROWS || !RowSound(chain.rows[i], chain.channel, query, asOf, Archived) { return; }
    }
    for i := 1 to |chain.rows|
      invariant forall j :: 0 < j < i ==> chain.rows[j - 1].end == chain.rows[j].start
    {
      if chain.rows[i - 1].end != chain.rows[i].start { return; }
    }
    ok := true;
  }

  /** Every sound reading of the rows begins with what has been read of them. */
  ghost predicate Forced(rows: seq<Named<seq<Programme>>>, batch: seq<Channel>, query: Query, asOf: int,
                         read: seq<Chain>)
  {
    forall other :: ChainsSound(rows, batch, query, asOf, other) ==> read <= other
  }

  /** Whether the next row can be read at all. */
  ghost predicate Readable(row: Named<seq<Programme>>, batch: seq<Channel>, query: Query, asOf: int, read: seq<Chain>,
                           chain: Chain)
  {
    && ChainSound(row, batch, query, asOf, chain) && chain !in read
    && (read != [] && read[|read| - 1].rows != [] ==> !Before(Head(chain), Head(read[|read| - 1])))
  }

  lemma ForcedNext(rows: seq<Named<seq<Programme>>>, batch: seq<Channel>, query: Query, asOf: int, read: seq<Chain>)
    requires |read| < |rows| && Forced(rows, batch, query, asOf, read) && Known(batch, rows[|read|].id)
    ensures Forced(rows, batch, query, asOf, read + [ChainOf(rows[|read|], batch)])
  {
    var i := |read|;
    forall other | ChainsSound(rows, batch, query, asOf, other) ensures read + [ChainOf(rows[i], batch)] <= other {
      assert ChainSound(rows[i], batch, query, asOf, other[i]);
      assert other[..i + 1] == other[..i] + [other[i]];
    }
  }

  lemma NextIsReadable(rows: seq<Named<seq<Programme>>>, batch: seq<Channel>, query: Query, asOf: int,
                       read: seq<Chain>, other: seq<Chain>)
    requires |read| < |rows| && ChainsSound(rows, batch, query, asOf, other) && read <= other
    ensures Known(batch, rows[|read|].id)
    ensures Readable(rows[|read|], batch, query, asOf, read, ChainOf(rows[|read|], batch))
  {
    assert ChainSound(rows[|read|], batch, query, asOf, other[|read|]);
    assert forall j :: 0 <= j < |read| ==> other[j] == read[j];
  }

  lemma NotReadable(rows: seq<Named<seq<Programme>>>, batch: seq<Channel>, query: Query, asOf: int, read: seq<Chain>)
    requires |read| < |rows| && Forced(rows, batch, query, asOf, read)
    requires Known(batch, rows[|read|].id) ==>
      !Readable(rows[|read|], batch, query, asOf, read, ChainOf(rows[|read|], batch))
    ensures forall other :: !ChainsSound(rows, batch, query, asOf, other)
  {
    if other :| ChainsSound(rows, batch, query, asOf, other) {
      NextIsReadable(rows, batch, query, asOf, read, other);
    }
  }

  lemma ChainsSoundAppend(rows: seq<Named<seq<Programme>>>, batch: seq<Channel>, query: Query, asOf: int,
                          read: seq<Chain>, chain: Chain)
    requires |read| < |rows| && ChainsSound(rows[..|read|], batch, query, asOf, read)
    requires ChainSound(rows[|read|], batch, query, asOf, chain) && chain !in read
    requires read != [] ==> !Before(Head(chain), Head(read[|read| - 1]))
    ensures ChainsSound(rows[..|read| + 1], batch, query, asOf, read + [chain])
    ensures ChainRows(rows[..|read| + 1]) == ChainRows(rows[..|read|]) + |rows[|read|].content|
  {
    ChainsAppend(read, chain);
    PrefixOfPrefix(rows, |read|, |read| + 1);
    var now := rows[..|read| + 1];
    assert forall j :: 0 <= j < |read| ==> now[j] == rows[..|read|][j];
  }

  ghost predicate Reading(rows: seq<Named<seq<Programme>>>, batch: seq<Channel>, query: Query, asOf: int, i: nat,
                          read: seq<Chain>)
  {
    i <= |rows| && ChainsSound(rows[..i], batch, query, asOf, read) && Forced(rows, batch, query, asOf, read)
  }

  lemma ReadOne(rows: seq<Named<seq<Programme>>>, batch: seq<Channel>, query: Query, asOf: int, read: seq<Chain>,
                chain: Chain)
    requires |read| < |rows| && Reading(rows, batch, query, asOf, |read|, read)
    requires ChainSound(rows[|read|], batch, query, asOf, chain) && chain !in read
    requires read != [] ==> !Before(Head(chain), Head(read[|read| - 1]))
    ensures Reading(rows, batch, query, asOf, |read| + 1, read + [chain])
    ensures ChainRows(rows[..|read| + 1]) == ChainRows(rows[..|read|]) + |rows[|read|].content|
  {
    ChainsSoundAppend(rows, batch, query, asOf, read, chain);
    ForcedNext(rows, batch, query, asOf, read);
  }

  method ReadChains(rows: seq<Named<seq<Programme>>>, batch: seq<Channel>, query: Query, asOf: int, before: nat)
    returns (chains: seq<Chain>, count: nat, ok: bool)
    ensures ok ==> ChainsSound(rows, batch, query, asOf, chains) && count == before + ChainRows(rows)
    ensures ok ==> rows == [] || count <= MAX_ROWS
    ensures !ok ==> before + ChainRows(rows) > MAX_ROWS || forall other :: !ChainsSound(rows, batch, query, asOf, other)
  {
    chains, count, ok := [], before, false;
    for i := 0 to |rows|
      invariant Reading(rows, batch, query, asOf, i, chains) && count == before + ChainRows(rows[..i])
      invariant i > 0 ==> count <= MAX_ROWS
    {
      ChainRowsPrefix(rows, i + 1);
      PrefixOfPrefix(rows, i, i + 1);
      if !Known(batch, rows[i].id) {
        NotReadable(rows, batch, query, asOf, chains);
        return;
      }
      var chain, next, sound := ReadChain(rows[i], batch, query, asOf, count);
      if !sound || (i > 0 && Before(Head(chain), Head(chains[i - 1]))) || chain in chains {
        if count + |rows[i].content| <= MAX_ROWS { NotReadable(rows, batch, query, asOf, chains); }
        return;
      }
      ReadOne(rows, batch, query, asOf, chains, chain);
      chains, count := chains + [chain], next;
    }
    assert rows[..|rows|] == rows;
    ok := true;
  }

  /** Accepts exactly the sound answers, and returns what they mean. */
  method Validate(answer: Answer, batch: seq<Channel>, query: Query, expected: Option<string>, now: real)
    returns (value: Option<Value>)
    ensures value.Some? ==> Validated(answer, batch, query, expected, now, value.value)
    ensures value.Some? ==> Usable(answer, batch, query, expected, now)
    ensures value.None? ==> forall other :: !Validated(answer, batch, query, expected, now, other)
  {
    HeaderMeans(answer, batch, query, expected, now);
    if !Header(answer, batch, query, expected, now) { return None; }
    var current, count, ok := ReadHits(answer.current, batch, query, answer.asOf, Literal, 0);
    if !ok { return None; }
    var archiveCurrent, count', ok' := ReadHits(answer.archiveCurrent, batch, query, answer.asOf, Live, count);
    if !ok' { return None; }
    var chains, rows, ok'' := ReadChains(answer.archives, batch, query, answer.asOf, count');
    if !ok'' { return None; }
    return Some(Value(current, archiveCurrent, chains, answer.asOf, answer.validUntil, answer.generation, rows,
        answer.size));
  }
}
