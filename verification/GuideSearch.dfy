/**
 One catalogue search: a queue of batches, bounded splitting of those that time out,
 and the merge of the validated partial answers.
 */
module GuideSearch {
  import opened Wrappers
  import opened Batches
  import opened Answers

  const MAX_SPLITS: nat := 4
  const MAX_CATALOGUE: nat := 10000
  const MAX_TOTAL_BYTES: nat := 16 * 1024 * 1024

  // ---------------------------------------------------------------- the catalogue

  // `textsFit` covers the four text limits and a nonblank id, decided elsewhere.
  datatype Entry = Entry(id: string, textsFit: bool, number: int, shift: int, archiveHours: Option<int>, size: nat)

  predicate EntrySound(entry: Entry, archive: bool) {
    && entry.textsFit && Whole(entry.number) && -86400 <= entry.shift <= 86400
    && (if entry.archiveHours.Some? then 0 <= entry.archiveHours.value <= 144 else !archive)
  }

  ghost predicate CatalogueSound(entries: seq<Entry>, archive: bool) {
    && |entries| <= MAX_CATALOGUE
    && (forall i :: 0 <= i < |entries| ==> EntrySound(entries[i], archive))
    && (forall i, j :: 0 <= i < j < |entries| ==>
      entries[i].number < entries[j].number && entries[i].id != entries[j].id)
  }

  /** The same in the fields: identified, numbered, shifted by at most a day, with at most six days of archive. */
  lemma EntryMeans(entry: Entry, archive: bool)
    ensures EntrySound(entry, archive) <==>
      && entry.textsFit && 0 < entry.number < 9007199254740992
      && -24 * 3600 <= entry.shift && entry.shift <= 24 * 3600
      && (archive ==> entry.archiveHours.Some?)
      && (entry.archiveHours.Some? ==> entry.archiveHours.value >= 0 && entry.archiveHours.value <= 6 * 24)
  {
  }

  /** Channel numbers rise and ids are distinct. */
  ghost predicate Numbered(wire: seq<Channel>) {
    forall i, j :: 0 <= i < j < |wire| ==> wire[i].number < wire[j].number && wire[i].id != wire[j].id
  }

  function WireRow(entry: Entry): Channel
    requires entry.number >= 0 && (entry.archiveHours.Some? ==> entry.archiveHours.value >= 0)
  {
    Channel(entry.id, entry.number, if entry.archiveHours.Some? then entry.archiveHours.value else 0, entry.size)
  }

  /** The wire rows of the entries read so far, in order. */
  ghost predicate Wired(entries: seq<Entry>, archive: bool, rows: seq<Channel>) {
    && CatalogueSound(entries, archive) && |rows| == |entries|
    && forall i :: 0 <= i < |rows| ==> rows[i] == WireRow(entries[i])
  }

  lemma WiredAppend(entries: seq<Entry>, archive: bool, rows: seq<Channel>, entry: Entry)
    requires Wired(entries, archive, rows) && EntrySound(entry, archive) && |entries| < MAX_CATALOGUE
    requires entries != [] ==> entries[|entries| - 1].number < entry.number
    requires forall i :: 0 <= i < |entries| ==> entries[i].id != entry.id
    ensures Wired(entries + [entry], archive, rows + [WireRow(entry)])
  {
  }

  method Catalogue(entries: seq<Entry>, archive: bool) returns (wire: Option<seq<Channel>>)
    ensures wire.Some? == CatalogueSound(entries, archive)
    ensures wire.Some? ==> Wired(entries, archive, wire.value)
    ensures wire.Some? ==> Numbered(wire.value)
    ensures wire.Some? ==> |wire.value| == |entries| <= 10000 && forall i :: 0 <= i < |entries| ==>
      && wire.value[i].id == entries[i].id && wire.value[i].number == entries[i].number
      && wire.value[i].size == entries[i].size
      && Some(wire.value[i].archiveHours as int) in {entries[i].archiveHours, Some(0)}
      && (entries[i].archiveHours.Some? ==> wire.value[i].archiveHours as int == entries[i].archiveHours.value)
  {
    if |entries| > MAX_CATALOGUE { return None; }
    var rows: seq<Channel>, number, ids: set<string> := [], 0, {};
    for i := 0 to |entries|
      invariant Wired(entries[..i], archive, rows)
      invariant number == if i == 0 then 0 else entries[i - 1].number
      invariant forall id :: id in ids <==> exists j :: 0 <= j < i && entries[j].id == id
    {
      var entry := entries[i];
      if !EntrySound(entry, archive) || entry.id in ids || entry.number <= number { return None; }
      WiredAppend(entries[..i], archive, rows, entry);
      assert entries[..i + 1] == entries[..i] + [entry];
      number, ids, rows := entry.number, ids + {entry.id}, rows + [WireRow(entry)];
    }
    assert entries[..|entries|] == entries;
    return Some(rows);
  }

  // ---------------------------------------------------------------- merging

  datatype Served = Served(batch: seq<Channel>, answer: Answer, value: Value, now: real)

  // `until` has no bound before the first answer.
  datatype Collected = Collected(
    current: seq<Hit>, archiveCurrent: seq<Hit>, chains: seq<Chain>, rows: nat, bytes: nat,
    generation: Option<string>, asOf: int, until: Option<int>)

  function Nothing(expected: Option<string>): Collected {
    Collected([], [], [], 0, 0, expected, 0, None)
  }

  function Join(sum: Collected, value: Value): Collected {
    Collected(sum.current + value.current, sum.archiveCurrent + value.archiveCurrent, sum.chains + value.chains,
              sum.rows + value.rows, sum.bytes + value.bytes, Some(value.generation),
              if sum.asOf >= value.asOf then sum.asOf else value.asOf,
              if sum.until.Some? && sum.until.value <= value.until then sum.until else Some(value.until))
  }

  ghost function Merge(expected: Option<string>, log: seq<Served>): Collected {
    if log == [] then Nothing(expected)
    else Join(Merge(expected, log[..|log| - 1]), log[|log| - 1].value)
  }

  ghost function BatchesOf(log: seq<Served>): seq<seq<Channel>> {
    if log == [] then [] else BatchesOf(log[..|log| - 1]) + [log[|log| - 1].batch]
  }

  /** Every answer was validated against its own batch and the generation fixed so far. */
  ghost predicate Vouched(query: Query, expected: Option<string>, log: seq<Served>) {
    log == [] ||
    (var rest, last := log[..|log| - 1], log[|log| - 1];
     && Vouched(query, expected, rest)
     && Validated(last.answer, last.batch, query, Merge(expected, rest).generation, last.now, last.value))
  }

  lemma {:induction false} ConcatJoin<T>(a: seq<seq<T>>, b: seq<seq<T>>)
    ensures Concat(a + b) == Concat(a) + Concat(b)
  {
    if b == [] {
      assert a + b == a;
    } else {
      var rest := b[..|b| - 1];
      ConcatJoin(a, rest);
      assert (a + b)[..|a + b| - 1] == a + rest;
    }
  }

  lemma ConcatOne<T>(part: seq<T>)
    ensures Concat([part]) == part
  {
    assert [part][..0] == [];
  }

  lemma ServedOne(expected: Option<string>, log: seq<Served>, last: Served)
    ensures Merge(expected, log + [last]) == Join(Merge(expected, log), last.value)
    ensures BatchesOf(log + [last]) == BatchesOf(log) + [last.batch]
    ensures Concat(BatchesOf(log + [last])) == Concat(BatchesOf(log)) + last.batch
  {
    assert (log + [last])[..|log|] == log;
    ConcatAppend(BatchesOf(log), last.batch);
  }

  lemma VouchedOne(query: Query, expected: Option<string>, log: seq<Served>, last: Served)
    requires Vouched(query, expected, log)
    requires Validated(last.answer, last.batch, query, Merge(expected, log).generation, last.now, last.value)
    ensures Vouched(query, expected, log + [last])
  {
    assert (log + [last])[..|log|] == log;
  }

  ghost predicate Covers(log: seq<Served>, pending: seq<seq<Channel>>, wire: seq<Channel>) {
    Concat(BatchesOf(log)) + Concat(pending) == wire
  }

  lemma HalvingKeepsCover(log: seq<Served>, pending: seq<seq<Channel>>, wire: seq<Channel>, middle: nat)
    requires Covers(log, pending, wire) && pending != [] && middle <= |pending[0]|
    ensures Covers(log, [pending[0][..middle], pending[0][middle..]] + pending[1..], wire)
  {
    var batch, rest := pending[0], pending[1..];
    assert pending == [batch] + rest;
    ConcatJoin([batch], rest);
    ConcatOne(batch);
    var halves := [batch[..middle], batch[middle..]];
    assert halves == [batch[..middle]] + [batch[middle..]];
    ConcatJoin([batch[..middle]], [batch[middle..]]);
    ConcatOne(batch[..middle]);
    ConcatOne(batch[middle..]);
    ConcatJoin(halves, rest);
    assert batch[..middle] + batch[middle..] == batch;
  }

  lemma ServingKeepsCover(log: seq<Served>, pending: seq<seq<Channel>>, wire: seq<Channel>, served: Served)
    requires Covers(log, pending, wire) && pending != [] && served.batch == pending[0]
    ensures Covers(log + [served], pending[1..], wire)
  {
    var rest := pending[1..];
    assert pending == [pending[0]] + rest;
    ConcatJoin([pending[0]], rest);
    ConcatOne(pending[0]);
    ServedOne(None, log, served);
  }

  lemma ServeOne(query: Query, expected: Option<string>, log: seq<Served>, pending: seq<seq<Channel>>,
                 wire: seq<Channel>, served: Served)
    requires Covers(log, pending, wire) && pending != [] && served.batch == pending[0]
    requires Vouched(query, expected, log)
    requires Validated(served.answer, served.batch, query, Merge(expected, log).generation, served.now, served.value)
    ensures Covers(log + [served], pending[1..], wire) && Vouched(query, expected, log + [served])
    ensures Merge(expected, log + [served]) == Join(Merge(expected, log), served.value)
    ensures |Concat(BatchesOf(log + [served]))| == |Concat(BatchesOf(log))| + |served.batch|
  {
    ServingKeepsCover(log, pending, wire, served);
    ServedOne(expected, log, served);
    VouchedOne(query, expected, log, served);
  }

  // ---------------------------------------------------------------- how far a search has come

  // The accepted answers, the batches to come, the merge so far and the rows counted as searched.
  datatype Progress = Progress(log: seq<Served>, pending: seq<seq<Channel>>, sum: Collected, checked: nat)

  /** What has been served and what is pending make up the catalogue, in order; the merge is that of the served. */
  ghost predicate Sound(query: Query, wire: seq<Channel>, expected: Option<string>, p: Progress) {
    && Vouched(query, expected, p.log) && p.sum == Merge(expected, p.log)
    && Covers(p.log, p.pending, wire) && p.checked == |Concat(BatchesOf(p.log))|
    && InLimits(p.sum) && (p.sum.generation == expected || expected.None?) && Filled(p.pending)
  }

  ghost predicate Filled(pending: seq<seq<Channel>>) { forall i :: 0 <= i < |pending| ==> pending[i] != [] }

  predicate InLimits(sum: Collected) { sum.rows <= MAX_ROWS && sum.bytes <= MAX_TOTAL_BYTES }

  lemma StartIsSound(query: Query, wire: seq<Channel>, expected: Option<string>, pending: seq<seq<Channel>>)
    requires Concat(pending) == wire && Filled(pending)
    ensures Sound(query, wire, expected, Progress([], pending, Nothing(expected), 0))
  {
  }

  /** The first batch as two. */
  function Halves(pending: seq<seq<Channel>>): seq<seq<Channel>>
    requires pending != []
  {
    var batch := pending[0];
    var middle := |batch| / 2;
    [batch[..middle], batch[middle..]] + pending[1..]
  }

  function Halved(p: Progress): Progress
    requires p.pending != []
  {
    p.(pending := Halves(p.pending))
  }

  /** The first batch was replaced by its two halves, in place; the first is the lesser one. */
  ghost predicate SplitInto(before: seq<seq<Channel>>, after: seq<seq<Channel>>)
    requires before != []
  {
    && |after| == |before| + 1 && after[2..] == before[1..]
    && after[0] + after[1] == before[0] && after[0] != [] && after[1] != []
    && |after[0]| == |before[0]| / 2
  }

  lemma HalvedIsSound(query: Query, wire: seq<Channel>, expected: Option<string>, p: Progress)
    requires p.pending != [] && |p.pending[0]| >= 2
    ensures Sound(query, wire, expected, p) ==> Sound(query, wire, expected, Halved(p))
    ensures Moved(p, Halved(p), 1) && SplitInto(p.pending, Halved(p).pending)
  {
    if Sound(query, wire, expected, p) { HalvingKeepsCover(p.log, p.pending, wire, |p.pending[0]| / 2); }
  }

  function Grown(p: Progress, served: Served): Progress
    requires p.pending != []
  {
    Progress(p.log + [served], p.pending[1..], Join(p.sum, served.value), p.checked + |p.pending[0]|)
  }

  /** An answer accepted for the first batch, with the totals still in their limits. */
  ghost predicate Serves(query: Query, p: Progress, served: Served)
    requires p.pending != []
  {
    && served.batch == p.pending[0]
    && Validated(served.answer, served.batch, query, p.sum.generation, served.now, served.value)
    && InLimits(Join(p.sum, served.value))
  }

  lemma GrownIsSound(query: Query, wire: seq<Channel>, expected: Option<string>, p: Progress, served: Served)
    requires p.pending != []
    ensures Sound(query, wire, expected, p) && Serves(query, p, served) ==>
      Sound(query, wire, expected, Grown(p, served)) && Moved(p, Grown(p, served), 0)
  {
    if Sound(query, wire, expected, p) && Serves(query, p, served) {
      ServeOne(query, expected, p.log, p.pending, wire, served);
      FilledRest(p.pending);
    }
  }

  lemma FilledRest(pending: seq<seq<Channel>>)
    requires pending != [] && Filled(pending)
    ensures Filled(pending[1..])
  {
  }

  /** The whole catalogue has been served, with the generation asked for, and this is the merge. */
  ghost predicate Complete(query: Query, wire: seq<Channel>, expected: Option<string>, log: seq<Served>,
                           sum: Collected)
  {
    && Vouched(query, expected, log) && sum == Merge(expected, log) && Concat(BatchesOf(log)) == wire && InLimits(sum)
    && (sum.generation == expected || expected.None?)
    && sum.rows <= 10000 && sum.bytes <= 16777216
  }

  /** Answers accepted for one generation are accepted when none is asked for, and merge to the same. */
  lemma {:induction false} Loosened(query: Query, generation: Option<string>, expected: Option<string>,
                                    log: seq<Served>)
    requires Vouched(query, generation, log) && (generation == expected || expected.None?)
    ensures Vouched(query, expected, log) && (log != [] ==> Merge(expected, log) == Merge(generation, log))
  {
    if log != [] {
      Loosened(query, generation, expected, log[..|log| - 1]);
    }
  }

  lemma CompleteForAny(query: Query, wire: seq<Channel>, generation: Option<string>, expected: Option<string>,
                       log: seq<Served>, sum: Collected)
    requires Complete(query, wire, generation, log, sum) && wire != []
    requires generation == expected || expected.None?
    ensures Complete(query, wire, expected, log, sum)
  {
    assert log != [];
    Loosened(query, generation, expected, log);
  }

  lemma EndIsComplete(query: Query, wire: seq<Channel>, expected: Option<string>, p: Progress)
    requires Sound(query, wire, expected, p) && p.pending == []
    ensures Complete(query, wire, expected, p.log, p.sum) && p.checked == |wire|
  {
  }

  lemma CompleteHasWindow(query: Query, wire: seq<Channel>, expected: Option<string>, log: seq<Served>, sum: Collected)
    requires Complete(query, wire, expected, log, sum) && wire != []
    ensures sum.until.Some?
  {
    assert log != [];
  }

  /** The programme window has passed. */
  predicate Closed(sum: Collected, now: real)
    requires sum.until.Some?
  {
    sum.until.value as real <= now || sum.until.value <= sum.asOf
  }

  /** One batch was served, or one was halved. */
  ghost predicate Moved(before: Progress, after: Progress, splits: int)
    requires before.pending != []
  {
    if splits == 0 then
      && after.pending == before.pending[1..] && |after.log| == |before.log| + 1
      && (before.sum.generation.Some? ==> after.sum.generation == before.sum.generation)
    else splits == 1 && after == Halved(before)
  }

  // ---------------------------------------------------------------- the search

  datatype Reply = TimedOut | Failed | Answered(answer: Answer)

  datatype Error = Expired | Upstream | Invalid | LimitExceeded | WindowChanged

  // One request as it was made, and what came back.
  datatype Question = Question(batch: seq<Channel>, generation: Option<string>, reply: Reply)

  /** Asked about a stretch of the catalogue, of the expected generation or the one fixed since. */
  ghost predicate Proper(question: Question, wire: seq<Channel>, expected: Option<string>, fixed: Option<string>) {
    Stretch(question.batch, wire) && (question.generation == expected || question.generation == fixed)
  }

  ghost predicate Stretch(batch: seq<Channel>, wire: seq<Channel>) {
    exists lo: nat :: StretchAt(batch, wire, lo)
  }

  /** The requests from this one on were all proper ones. */
  ghost predicate AllProper(asked: seq<Question>, from: nat, wire: seq<Channel>, expected: Option<string>,
                            fixed: Option<string>)
  {
    forall i :: from <= i < |asked| ==> Proper(asked[i], wire, expected, fixed)
  }

  /** At most one more request, about this batch and of this generation. */
  ghost predicate AskedOnce(before: seq<Question>, asked: seq<Question>, batch: seq<Channel>,
                            generation: Option<string>)
  {
    asked == before ||
    (&& |asked| == |before| + 1 && before <= asked
     && asked[|before|].batch == batch && asked[|before|].generation == generation)
  }

  lemma OneMoreProper(start: seq<Question>, before: seq<Question>, asked: seq<Question>, batch: seq<Channel>,
                      wire: seq<Channel>, expected: Option<string>, fixed: Option<string>)
    requires start <= before && AllProper(before, |start|, wire, expected, fixed)
    requires AskedOnce(before, asked, batch, fixed) && Stretch(batch, wire)
    ensures start <= asked && AllProper(asked, |start|, wire, expected, fixed)
    ensures |before| <= |asked| <= |before| + 1
  {
  }

  lemma StillProper(asked: seq<Question>, from: nat, wire: seq<Channel>, expected: Option<string>,
                    fixed: Option<string>, now: Option<string>)
    requires AllProper(asked, from, wire, expected, fixed) && (now == fixed || fixed == expected)
    ensures AllProper(asked, from, wire, expected, now)
  {
    forall i | from <= i < |asked| ensures Proper(asked[i], wire, expected, now) {
      assert Proper(asked[i], wire, expected, fixed);
    }
  }

  /** What is asked next: the first half after a timeout, what comes next in the catalogue after an answer. */
  ghost predicate Succeeds(first: Question, second: seq<Channel>, wire: seq<Channel>) {
    match first.reply
    case Failed => false
    case TimedOut => second == first.batch[..|first.batch| / 2]
    case Answered(_) =>
      exists lo: nat :: StretchAt(first.batch, wire, lo) && StretchAt(second, wire, lo + |first.batch|)
  }

  /** What the last request leads to is the first pending batch. */
  ghost predicate Leads(asked: seq<Question>, pending: seq<seq<Channel>>, wire: seq<Channel>) {
    asked != [] && (pending != [] ==> Succeeds(asked[|asked| - 1], pending[0], wire))
  }

  ghost predicate SucceedsAt(asked: seq<Question>, i: nat, wire: seq<Channel>)
    requires i < |asked|
  {
    asked[i].batch != [] && (i + 1 < |asked| ==> Succeeds(asked[i], asked[i + 1].batch, wire))
  }

  /** The requests from this one on were about something, and each followed from the one before. */
  ghost predicate InOrder(asked: seq<Question>, from: nat, wire: seq<Channel>) {
    forall i :: from <= i < |asked| ==> SucceedsAt(asked, i, wire)
  }

  lemma OneMoreInOrder(before: seq<Question>, asked: seq<Question>, from: nat, batch: seq<Channel>,
                       generation: Option<string>, pending: seq<seq<Channel>>, wire: seq<Channel>)
    requires from <= |before| && InOrder(before, from, wire) && AskedOnce(before, asked, batch, generation)
    requires pending != [] && pending[0] == batch && batch != []
    requires |before| > from ==> Leads(before, pending, wire)
    ensures InOrder(asked, from, wire)
  {
    forall i | from <= i < |asked| ensures SucceedsAt(asked, i, wire) {
      if i < |before| { assert SucceedsAt(before, i, wire); }
    }
  }

  /** Before and after serving a batch: what comes next begins where it ended. */
  lemma ServedLeads(query: Query, wire: seq<Channel>, expected: Option<string>, before: Progress, after: Progress,
                    asked: seq<Question>)
    requires Sound(query, wire, expected, before) && Sound(query, wire, expected, after) && before.pending != []
    requires after.pending == before.pending[1..] && after.checked == before.checked + |before.pending[0]|
    requires asked != [] && asked[|asked| - 1].batch == before.pending[0] && asked[|asked| - 1].reply.Answered?
    ensures Leads(asked, after.pending, wire)
  {
    HeadStretch(query, wire, expected, before);
    if after.pending != [] { HeadStretch(query, wire, expected, after); }
  }

  predicate StretchAt(batch: seq<Channel>, wire: seq<Channel>, lo: nat) {
    lo + |batch| <= |wire| && wire[lo..lo + |batch|] == batch
  }

  lemma PendingIsStretch(query: Query, wire: seq<Channel>, expected: Option<string>, p: Progress)
    requires Sound(query, wire, expected, p) && p.pending != []
    ensures Stretch(p.pending[0], wire)
  {
    HeadStretch(query, wire, expected, p);
  }

  lemma HeadStretch(query: Query, wire: seq<Channel>, expected: Option<string>, p: Progress)
    requires Sound(query, wire, expected, p) && p.pending != []
    ensures StretchAt(p.pending[0], wire, p.checked)
  {
    var log, pending := p.log, p.pending;
    assert pending == [pending[0]] + pending[1..];
    ConcatJoin([pending[0]], pending[1..]);
    ConcatOne(pending[0]);
    var lo := |Concat(BatchesOf(log))|;
    assert wire == Concat(BatchesOf(log)) + pending[0] + Concat(pending[1..]);
    assert lo == p.checked;
  }

  /** What an unusable answer looks like: it had no value at the moment it was checked. */
  ghost predicate Unusable(question: Question, query: Query) {
    question.reply.Answered? &&
    exists now :: NoValue(question, query, now)
  }

  ghost predicate NoValue(question: Question, query: Query, now: real)
    requires question.reply.Answered?
  {
    forall value :: !Validated(question.reply.answer, question.batch, query, question.generation, now, value)
  }

  /** A sound answer that would take the totals over their limits. */
  ghost predicate Overflows(question: Question, query: Query, sum: Collected) {
    question.reply.Answered? &&
    exists now, value ::
      && Validated(question.reply.answer, question.batch, query, question.generation, now, value)
      && (sum.rows + value.rows > 10000 || sum.bytes + value.bytes > 16777216)
  }

  /** Why a collection stopped, in terms of the last request and what had been merged before it. */
  ghost predicate Explains(query: Query, error: Error, asked: seq<Question>, late: bool, splits: nat, sum: Collected) {
    match error
    case Expired => late
    case Upstream =>
      asked != [] &&
      (var last := asked[|asked| - 1];
       last.reply.Failed? || (last.reply.TimedOut? && (|last.batch| < 2 || splits == 4)))
    case _ => asked != [] && Faulty(query, asked[|asked| - 1], sum, error)
  }

  ghost predicate Faulty(query: Query, question: Question, sum: Collected, error: Error) {
    match error
    case Invalid => Unusable(question, query)
    case LimitExceeded => Overflows(question, query, sum)
    case _ => false
  }

  lemma UnusableNow(query: Query, question: Question, now: real)
    requires question.reply.Answered? && NoValue(question, query, now)
    ensures Unusable(question, query)
  {
  }

  lemma OverflowsNow(query: Query, question: Question, sum: Collected, now: real, value: Value)
    requires question.reply.Answered? && !InLimits(Join(sum, value))
    requires Validated(question.reply.answer, question.batch, query, question.generation, now, value)
    ensures Overflows(question, query, sum)
  {
  }

  /** The least number of acceptable batches that cover the catalogue. */
  ghost predicate Fewest(wire: seq<Channel>, count: nat) {
    && (exists parts :: Partition(parts, wire) && |parts| == count)
    && (forall parts :: Partition(parts, wire) ==> count <= |parts|)
  }

  lemma FewestIsUnique(wire: seq<Channel>, one: nat, two: nat)
    requires Fewest(wire, one) && Fewest(wire, two)
    ensures one == two
  {
  }

  class Search {
    const query: Query
    var splits: nat
    var checked: nat                // catalogue rows reported as searched
    ghost var asked: seq<Question>
    ghost var late: bool            // a deadline check has failed
    ghost var planned: nat          // batches before any split, in the latest collection
    ghost var log: seq<Served>      // accepted answers, in the latest collection

    constructor (query: Query)
      ensures this.query == query && splits == 0 && asked == [] && !late
    {
      this.query, splits, checked, asked, late, planned, log := query, 0, 0, [], false, 0, [];
    }

    /** One request to the guide service, which may answer, time out or fail. */
    method Ask(batch: seq<Channel>, generation: Option<string>) returns (reply: Reply)
      modifies this`asked
      ensures asked != [] && asked[|asked| - 1] == Question(batch, generation, reply)
      ensures |asked| == |old(asked)| + 1 && AskedOnce(old(asked), asked, batch, generation)
    {
      reply := *;
      asked := asked + [Question(batch, generation, reply)];
    }

    /** The caller's own deadline. */
    method InTime() returns (ok: bool)
      modifies this`late
      ensures late == (old(late) || !ok)
    {
      ok := *;
      if !ok { late := true; }
    }

    /** Validates one answer against its batch and against the totals; only now counts. */
    method Judge(answer: Answer, ghost before: Progress, batch: seq<Channel>, sum: Collected)
      returns (r: Result<Value, Error>, ghost served: Served)
      requires before.pending != [] && batch == before.pending[0] && sum == before.sum
      ensures r.Ok? ==> served.value == r.value && Serves(query, before, served)
      ensures r.Err? ==> Faulty(query, Question(batch, sum.generation, Answered(answer)), sum, r.error)
    {
      var now: real := *;
      served := *;
      var value := Validate(answer, batch, query, sum.generation, now);
      if value.None? {
        UnusableNow(query, Question(batch, sum.generation, Answered(answer)), now);
        r := Err(Invalid);
      } else {
        served := Served(batch, answer, value.value, now);
        if InLimits(Join(sum, value.value)) {
          r := Ok(value.value);
        } else {
          OverflowsNow(query, Question(batch, sum.generation, Answered(answer)), sum, now, value.value);
          r := Err(LimitExceeded);
        }
      }
    }

    /** An answer in time is judged, merged and its rows counted. */
    method Serve(answer: Answer, pending: seq<seq<Channel>>, sum: Collected, ghost before: Progress,
                 ghost wire: seq<Channel>, ghost expected: Option<string>)
      returns (r: Result<Collected, Error>)
      requires before == Progress(log, pending, sum, checked) && pending != []
      requires Sound(query, wire, expected, before) && !late
      requires asked != [] && asked[|asked| - 1] == Question(pending[0], sum.generation, Answered(answer))
      modifies this`late, this`log, this`checked
      ensures r.Err? || Sound(query, wire, expected, Progress(log, pending[1..], r.value, checked))
      ensures r.Err? || Moved(before, Progress(log, pending[1..], r.value, checked), 0)
      ensures r.Err? || Leads(asked, pending[1..], wire)
      ensures r.Ok? || Explains(query, r.error, asked, late, splits, sum)
      ensures if r.Ok? then !late else log == old(log)
    {
      var intime := InTime();
      if !intime { return Err(Expired); }
      var value;
      ghost var served;
      value, served := Judge(answer, before, pending[0], sum);
      if value.Err? { return Err(value.error); }
      GrownIsSound(query, wire, expected, before, served);
      log, checked := log + [served], checked + |pending[0]|;
      r := Ok(Join(sum, value.value));
      ServedLeads(query, wire, expected, before, Progress(log, pending[1..], r.value, checked), asked);
    }

    /** What a reply does to the queue: its first batch is served, or halved, or ends the search. */
    method Act(reply: Reply, pending: seq<seq<Channel>>, sum: Collected, ghost before: Progress,
               ghost wire: seq<Channel>, ghost expected: Option<string>)
      returns (r: Result<(seq<seq<Channel>>, Collected), Error>)
      requires before == Progress(log, pending, sum, checked) && pending != []
      requires Sound(query, wire, expected, before)
      requires splits <= MAX_SPLITS && !late
      requires asked != [] && asked[|asked| - 1] == Question(pending[0], sum.generation, reply)
      modifies this`late, this`log, this`checked, this`splits
      ensures splits <= MAX_SPLITS
      ensures r.Err? || Sound(query, wire, expected, Progress(log, r.value.0, r.value.1, checked))
      ensures r.Err? || Moved(before, Progress(log, r.value.0, r.value.1, checked), splits - old(splits))
      ensures r.Err? || Leads(asked, r.value.0, wire)
      ensures r.Err? || if reply.TimedOut? then SplitInto(pending, r.value.0) else r.value.0 == pending[1..]
      ensures r.Ok? ==> splits == old(splits) + if reply.TimedOut? then 1 else 0
      ensures r.Ok? || Explains(query, r.error, asked, late, splits, sum)
      ensures if r.Ok? then !late else splits == old(splits) && log == old(log)
    {
      match reply
      case Failed => r := Err(Upstream);
      case TimedOut =>
        if |pending[0]| < 2 || splits >= MAX_SPLITS {
          r := Err(Upstream);
        } else {
          HalvedIsSound(query, wire, expected, before);
          splits := splits + 1;
          r := Ok((Halves(pending), sum));
        }
      case Answered(answer) =>
        var served := Serve(answer, pending, sum, before, wire, expected);
        r := if served.Err? then Err(served.error) else Ok((pending[1..], served.value));
    }

    /** One turn of the queue: one request about its first batch, in time, and what the reply does. */
    method Turn(pending: seq<seq<Channel>>, sum: Collected, ghost before: Progress,
                ghost wire: seq<Channel>, ghost expected: Option<string>)
      returns (r: Result<(seq<seq<Channel>>, Collected), Error>)
      requires before == Progress(log, pending, sum, checked) && pending != []
      requires Sound(query, wire, expected, before)
      requires splits <= MAX_SPLITS && !late
      modifies this
      ensures planned == old(planned) && splits <= MAX_SPLITS
      ensures AskedOnce(old(asked), asked, pending[0], sum.generation)
      ensures r.Ok? ==> |asked| == |old(asked)| + 1
      ensures r.Err? || Sound(query, wire, expected, Progress(log, r.value.0, r.value.1, checked))
      ensures r.Err? || Moved(before, Progress(log, r.value.0, r.value.1, checked), splits - old(splits))
      ensures r.Err? || Leads(asked, r.value.0, wire)
      // A timeout that does not end the search leaves both halves of the batch, then the rest.
      ensures r.Err? ||
        if asked[|old(asked)|].reply.TimedOut? then SplitInto(pending, r.value.0) else r.value.0 == pending[1..]
      ensures r.Ok? ==> splits == old(splits) + if asked[|old(asked)|].reply.TimedOut? then 1 else 0
      ensures r.Ok? || Explains(query, r.error, asked, late, splits, sum)
      ensures if r.Ok? then !late else splits == old(splits) && log == old(log)
    {
      var intime := InTime();
      if intime {
        var reply := Ask(pending[0], sum.generation);
        r := Act(reply, pending, sum, before, wire, expected);
      } else {
        r := Err(Expired);
      }
    }

    /** Searches the whole catalogue in order, halving batches the service times out on. */
    method Collect(wire: seq<Channel>, expected: Option<string>) returns (r: Result<Collected, Error>)
      requires splits <= MAX_SPLITS && !late
      modifies this
      ensures old(splits) <= splits <= MAX_SPLITS
      ensures r.Err? || Complete(query, wire, expected, log, r.value)
      ensures r.Ok? ==> checked == |wire| && !late
      ensures r.Ok? || Explains(query, r.error, asked, late, splits, Merge(expected, log))
      ensures Fewest(wire, planned)
      ensures old(asked) <= asked && |asked| <= |old(asked)| + planned + 2 * (splits - old(splits))
      ensures r.Ok? ==> |asked| == |old(asked)| + planned + 2 * (splits - old(splits))
      ensures r.Ok? ==> |log| == planned + splits - old(splits)
      ensures AllProper(asked, |old(asked)|, wire, expected, Merge(expected, log).generation)
      ensures InOrder(asked, |old(asked)|, wire)
    {
      var pending := Split(wire);
      ghost var fewest := |pending|;
      planned, log, checked := |pending|, [], 0;
      var sum := Nothing(expected);
      StartIsSound(query, wire, expected, pending);
      while pending != []
        invariant Sound(query, wire, expected, Progress(log, pending, sum, checked))
        invariant old(splits) <= splits <= MAX_SPLITS && !late
        invariant planned == fewest && |log| + |pending| == fewest + splits - old(splits)
        invariant old(asked) <= asked && |asked| == |old(asked)| + |log| + splits - old(splits)
        invariant AllProper(asked, |old(asked)|, wire, expected, sum.generation)
        invariant InOrder(asked, |old(asked)|, wire) && (|asked| > |old(asked)| ==> Leads(asked, pending, wire))
        decreases MAX_SPLITS - splits, |pending|
      {
        ghost var before := asked;
        ghost var progress := Progress(log, pending, sum, checked);
        PendingIsStretch(query, wire, expected, progress);
        var turn := Turn(pending, sum, progress, wire, expected);
        OneMoreInOrder(before, asked, |old(asked)|, pending[0], sum.generation, pending, wire);
        OneMoreProper(old(asked), before, asked, pending[0], wire, expected, sum.generation);
        if turn.Err? { return Err(turn.error); }
        StillProper(asked, |old(asked)|, wire, expected, sum.generation, turn.value.1.generation);
        pending, sum := turn.value.0, turn.value.1;
      }
      EndIsComplete(query, wire, expected, Progress(log, pending, sum, checked));
      r := Ok(sum);
    }

    /** Collects again once if the programme window has closed meanwhile; never answers from a closed one. */
    method FreshCollect(wire: seq<Channel>, expected: Option<string>) returns (r: Result<Collected, Error>, now: real)
      requires splits <= MAX_SPLITS && wire != [] && !late
      modifies this
      ensures old(splits) <= splits <= MAX_SPLITS
      ensures r.Err? || Complete(query, wire, expected, log, r.value)
      ensures r.Ok? ==> r.value.until.Some? && r.value.until.value > r.value.asOf && r.value.until.value as real > now
      ensures |asked| <= |old(asked)| + 2 * planned + 2 * (splits - old(splits))
      ensures r == Err(WindowChanged) ==>
        exists sum ::
          && Complete(query, wire, expected, log, sum) && sum.until.Some?
          && (sum.until.value as real <= now || sum.until.value <= sum.asOf)
      ensures r.Err? && r.error != WindowChanged ==>
        exists generation :: (generation == expected || expected.None?)
                             && Explains(query, r.error, asked, late, splits, Merge(generation, log))
    {
      r := Collect(wire, expected);
      now := *;
      if r.Err? { return; }
      CompleteHasWindow(query, wire, expected, log, r.value);
      ghost var first := planned;
      if Closed(r.value, now) {
        ghost var generation := r.value.generation;
        r := Collect(wire, r.value.generation);
        FewestIsUnique(wire, first, planned);
        if r.Err? { return; }
        CompleteForAny(query, wire, generation, expected, log, r.value);
        CompleteHasWindow(query, wire, expected, log, r.value);
      }
      now := *;
      if Closed(r.value, now) {
        r := Err(WindowChanged);
      }
    }
  }
}
