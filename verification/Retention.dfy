/**
 What the bounded evidence store promises, as functions and relations on directory
 content: which records are readable, which may be evicted and in what order, and
 which contents one call can leave behind if it is cut off at any point.
 */
module Retention {
  import opened Wrappers
  import opened PrivateDirectory

  const MAX_RECORD_BYTES: nat := 128 * 1024
  const MAX_TOTAL_BYTES: nat := 256 * 1024
  const MAX_RECORDS: nat := 32
  const MAX_TEMPORARY_FILES: nat := 8
  const MAX_REQUEST_BYTES: nat := 16384
  const MAX_METADATA_BYTES: nat := 128 * 1024

  datatype Error =
    | InvalidContext | InvalidCompletion | WrongTarget | Conflict
    | Capacity | Unavailable | RetentionUncertain | Missing

  datatype Context = Context(operationId: nat, evidence: seq<byte>)

  datatype Completion = Completion(recordedNs: nat, request: seq<byte>, response: seq<byte>)

  datatype Saved = Saved(target: seq<byte>, context: Context, completion: Option<Completion>)

  datatype Parsed = NotJson | WrongFields | Fields(saved: Saved)

  /** The parts of the store other modules supply: codec, validators, bound target. */
  datatype Rules = Rules(
    target: seq<byte>,
    encode: Saved -> seq<byte>,
    decode: seq<byte> -> Parsed,
    uuid: nat -> bool,
    contextBytes: Context -> nat,
    validContext: Context -> bool,
    receipt: (Context, Completion) -> Option<seq<byte>>)
  {
    ghost predicate Lossless() {
      forall saved :: decode(encode(saved)) == Fields(saved)
    }

    predicate Admissible(context: Context) {
      uuid(context.operationId) && contextBytes(context) <= MAX_RECORD_BYTES && validContext(context)
    }

    function Fresh(context: Context): seq<byte> {
      encode(Saved(target, context, None))
    }

    function Completed(context: Context, completion: Completion): seq<byte> {
      encode(Saved(target, context, Some(completion)))
    }

    predicate Proven(context: Context, completion: Completion) {
      completion.recordedNs < 0x8000_0000_0000_0000 && receipt(context, completion).Some?
    }

    /** Reading one record back, with every check that makes it usable evidence. */
    function Read(files: Files, name: Name): Result<Saved, Error> {
      if name !in files then Err(Missing)
      else if !files[name].private then Err(Unavailable)
      else if |files[name].bytes| > MAX_RECORD_BYTES then Err(InvalidContext)
      else
        match decode(files[name].bytes)
        case NotJson => Err(Unavailable)
        case WrongFields => Err(InvalidContext)
        case Fields(saved) =>
          if saved.target != target then Err(WrongTarget)
          else if !Admissible(saved.context) then Err(InvalidContext)
          else if name != Record(saved.context.operationId) then Err(InvalidContext)
          else if saved.completion.Some? && !Proven(saved.context, saved.completion.value) then Err(InvalidCompletion)
          else Ok(saved)
    }

    /** Only these records may ever be deleted: readable, with a proof that still validates. */
    predicate Evictable(files: Files, name: Name) {
      var read := Read(files, name);
      read.Ok? && read.value.completion.Some?
    }

    predicate Pending(files: Files, context: Context) {
      Read(files, Record(context.operationId)) == Ok(Saved(target, context, None))
    }

    predicate Loads(files: Files, context: Context) {
      var read := Read(files, Record(context.operationId));
      read.Ok? && read.value.context == context
    }

    /** The key completions are ranked by: age, then file name. */
    function Age(files: Files, name: Name): (nat, nat) {
      if Evictable(files, name)
      then (Read(files, name).value.completion.value.recordedNs, name.stem)
      else (0, 0)
    }
  }

  /** Exactly which file under which name is usable evidence, and what it says. */
  lemma ReadIs(rules: Rules, files: Files, name: Name, saved: Saved)
    ensures rules.Read(files, name) == Ok(saved) <==>
      && name in files && files[name].private && |files[name].bytes| <= 131072
      && rules.decode(files[name].bytes) == Fields(saved)
      && saved.target == rules.target && name == Record(saved.context.operationId)
      && rules.uuid(saved.context.operationId) && rules.validContext(saved.context)
      && rules.contextBytes(saved.context) <= 131072
      && (saved.completion.Some? ==>
            && saved.completion.value.recordedNs < 9223372036854775808
            && rules.receipt(saved.context, saved.completion.value).Some?)
  {
  }

  /** What a file that is no usable evidence is refused as: the first check it fails. */
  lemma ReadRefuses(rules: Rules, files: Files, name: Name)
    ensures rules.Read(files, name) == Err(Missing) <==> name !in files
    ensures rules.Read(files, name) == Err(Unavailable) <==>
      && name in files
      && (|| !files[name].private
          || (|files[name].bytes| <= 131072 && rules.decode(files[name].bytes).NotJson?))
    ensures rules.Read(files, name) == Err(WrongTarget) <==>
      && name in files && files[name].private && |files[name].bytes| <= 131072
      && rules.decode(files[name].bytes).Fields? && rules.decode(files[name].bytes).saved.target != rules.target
    ensures rules.Read(files, name) == Err(InvalidCompletion) ==>
      && name in files && rules.decode(files[name].bytes).Fields?
      && var saved := rules.decode(files[name].bytes).saved;
         && name == Record(saved.context.operationId) && saved.completion.Some?
         && (|| saved.completion.value.recordedNs >= 9223372036854775808
             || rules.receipt(saved.context, saved.completion.value).None?)
    ensures rules.Read(files, name).Err? ==>
      rules.Read(files, name).error in {Missing, Unavailable, WrongTarget, InvalidContext, InvalidCompletion}
  {
  }

  // ---------------------------------------------------------------- accounting

  /** The names this store's limits count. */
  predicate Counted(name: Name) { name.Record? || name.Staging? }

  ghost function Records(files: Files): set<Name> { set name | name in files && name.Record? }

  ghost function Stagings(files: Files): set<Name> { set name | name in files && name.Staging? }

  ghost function Bytes(files: Files, names: set<Name>): nat
    requires names <= files.Keys
  {
    if names == {} then 0
    else
      var name :| name in names;
      |files[name].bytes| + Bytes(files, names - {name})
  }

  ghost function Held(files: Files): nat {
    Bytes(files, Records(files) + Stagings(files))
  }

  ghost predicate Bounded(files: Files) {
    && |Records(files)| <= MAX_RECORDS
    && |Stagings(files)| <= MAX_TEMPORARY_FILES
    && Held(files) <= MAX_TOTAL_BYTES
  }

  lemma {:induction false} BytesPick(files: Files, names: set<Name>, name: Name)
    requires names <= files.Keys && name in names
    ensures Bytes(files, names) == |files[name].bytes| + Bytes(files, names - {name})
  {
    var first :| first in names && Bytes(files, names) == |files[first].bytes| + Bytes(files, names - {first});
    if first != name {
      BytesPick(files, names - {first}, name);
      BytesPick(files, names - {name}, first);
      assert names - {first} - {name} == names - {name} - {first};
    }
  }

  lemma {:induction false} BytesAgree(files: Files, other: Files, names: set<Name>)
    requires names <= files.Keys && names <= other.Keys
    requires forall name :: name in names ==> |files[name].bytes| <= |other[name].bytes|
    ensures Bytes(files, names) <= Bytes(other, names)
  {
    if names != {} {
      var name :| name in names;
      BytesPick(files, names, name);
      BytesPick(other, names, name);
      BytesAgree(files, other, names - {name});
    }
  }

  lemma {:induction false} BytesSubset(files: Files, fewer: set<Name>, names: set<Name>)
    requires fewer <= names <= files.Keys
    ensures Bytes(files, fewer) <= Bytes(files, names)
  {
    if fewer != names {
      assert exists name :: name in names && name !in fewer;
      var name :| name in names && name !in fewer;
      BytesPick(files, names, name);
      BytesSubset(files, fewer, names - {name});
    }
  }

  lemma MoreThan<T>(part: set<T>, all: set<T>)
    requires part <= all
    ensures |part| <= |all|
  {
    if part != all {
      var rest := all - part;
      assert part + rest == all;
      assert |part + rest| == |part| + |rest|;
    }
  }

  // ---------------------------------------------------------------- eviction

  ghost function NamesOf(victims: seq<Name>): set<Name> { set name | name in victims }

  function Freed(files: Files, victims: seq<Name>): nat
    requires forall name :: name in victims ==> name in files
  {
    if victims == [] then 0 else Freed(files, victims[..|victims| - 1]) + |files[victims[|victims| - 1]].bytes|
  }

  lemma FreedNext(files: Files, names: seq<Name>, i: nat)
    requires i < |names| && forall name :: name in names ==> name in files
    ensures forall name :: name in names[..i] ==> name in files
    ensures forall name :: name in names[..i + 1] ==> name in files
    ensures Freed(files, names[..i + 1]) == Freed(files, names[..i]) + |files[names[i]].bytes|
  {
    PrefixOfPrefix(names, i, i + 1);
  }

  predicate Earlier(rules: Rules, files: Files, a: Name, b: Name) {
    var x, y := rules.Age(files, a), rules.Age(files, b);
    x.0 < y.0 || (x.0 == y.0 && x.1 < y.1)
  }

  ghost predicate Candidate(rules: Rules, files: Files, spared: set<Name>, name: Name) {
    name !in spared && rules.Evictable(files, name)
  }

  /** Oldest completed first, and no older candidate skipped. */
  ghost predicate OldestFirst(rules: Rules, files: Files, spared: set<Name>, victims: seq<Name>) {
    && (forall name :: name in victims ==> Candidate(rules, files, spared, name))
    && (forall i, j :: 0 <= i < j < |victims| ==> Earlier(rules, files, victims[i], victims[j]))
    && (forall name, i :: 0 <= i < |victims| && name !in victims && Candidate(rules, files, spared, name)
          ==> Earlier(rules, files, victims[i], name))
  }

  /**
   Both records carry a completion the store may rely on, and the first was recorded earlier, or at
   the same time under a lesser name.
   */
  ghost predicate RecordedBefore(rules: Rules, files: Files, first: Name, second: Name) {
    var one, two := rules.Read(files, first), rules.Read(files, second);
    && first.Record? && second.Record?
    && one.Ok? && two.Ok? && one.value.completion.Some? && two.value.completion.Some?
    && (|| one.value.completion.value.recordedNs < two.value.completion.value.recordedNs
        || (one.value.completion.value.recordedNs == two.value.completion.value.recordedNs && first.stem < second.stem))
  }

  /** Each victim was completed before the next one, and before every completed record that stays and may go. */
  ghost predicate TakesOldest(rules: Rules, files: Files, spared: set<Name>, victims: seq<Name>) {
    && (forall i, j :: 0 <= i < j < |victims| ==> RecordedBefore(rules, files, victims[i], victims[j]))
    && (forall i, name ::
          && 0 <= i < |victims| && name !in victims && name !in spared
          && rules.Read(files, name).Ok? && rules.Read(files, name).value.completion.Some?
          ==> RecordedBefore(rules, files, victims[i], name))
  }

  lemma EarlierIsRecordedBefore(rules: Rules, files: Files, first: Name, second: Name)
    requires rules.Evictable(files, first) && rules.Evictable(files, second)
    ensures Earlier(rules, files, first, second) <==> RecordedBefore(rules, files, first, second)
  {
  }

  /** An eviction takes the records whose completions were recorded first. */
  lemma OldestFirstTakesOldest(rules: Rules, files: Files, spared: set<Name>, victims: seq<Name>)
    requires OldestFirst(rules, files, spared, victims)
    ensures TakesOldest(rules, files, spared, victims)
  {
    forall i, j | 0 <= i < j < |victims| ensures RecordedBefore(rules, files, victims[i], victims[j]) {
      assert Candidate(rules, files, spared, victims[i]) && Candidate(rules, files, spared, victims[j]);
      EarlierIsRecordedBefore(rules, files, victims[i], victims[j]);
    }
    forall i, name |
      && 0 <= i < |victims| && name !in victims && name !in spared
      && rules.Read(files, name).Ok? && rules.Read(files, name).value.completion.Some?
      ensures RecordedBefore(rules, files, victims[i], name)
    {
      assert Candidate(rules, files, spared, victims[i]) && Candidate(rules, files, spared, name);
      EarlierIsRecordedBefore(rules, files, victims[i], name);
    }
  }

  /** What a change asks for: extra records, extra bytes, extra staging slots. */
  datatype Demand = Demand(records: nat, bytes: nat, stagings: nat, spared: set<Name>)

  ghost predicate Fits(files: Files, demand: Demand, victims: seq<Name>)
    requires forall name :: name in victims ==> name in files
  {
    && |Records(files)| + demand.records - |victims| <= MAX_RECORDS
    && Held(files) + demand.bytes - Freed(files, victims) <= MAX_TOTAL_BYTES
  }

  /** Limits no eviction can relieve. */
  ghost predicate Admits(files: Files, demand: Demand) {
    && |Records(files)| <= MAX_RECORDS
    && |Stagings(files)| + demand.stagings <= MAX_TEMPORARY_FILES
    && Bytes(files, Stagings(files)) <= MAX_TOTAL_BYTES
  }

  /** The eviction set: the shortest oldest-first prefix that makes the demand fit. */
  ghost predicate Plan(rules: Rules, files: Files, demand: Demand, victims: seq<Name>) {
    && Admits(files, demand)
    && OldestFirst(rules, files, demand.spared, victims)
    && Fits(files, demand, victims)
    && (victims != [] ==> !Fits(files, demand, victims[..|victims| - 1]))
  }

  /** Capacity is refused for exactly this reason. */
  ghost predicate Full(rules: Rules, files: Files, demand: Demand) {
    || !Admits(files, demand)
    || exists all: seq<Name> ::
         && OldestFirst(rules, files, demand.spared, all)
         && (forall name :: Candidate(rules, files, demand.spared, name) ==> name in all)
         && !Fits(files, demand, all)
  }

  /** No set of victims can both be a plan and be impossible. */
  lemma {:induction false} FullHasNoPlan(rules: Rules, files: Files, demand: Demand, victims: seq<Name>)
    requires Full(rules, files, demand)
    ensures !Plan(rules, files, demand, victims)
  {
    if Plan(rules, files, demand, victims) {
      var all: seq<Name> :|
        && OldestFirst(rules, files, demand.spared, all)
        && (forall name :: Candidate(rules, files, demand.spared, name) ==> name in all)
        && !Fits(files, demand, all);
      PrefixOfRanking(rules, files, demand.spared, victims, all);
      FreedPrefix(files, victims, all);
    }
  }

  /** The plan is determined by the directory and the demand. */
  lemma {:induction false} PlanIsUnique(rules: Rules, files: Files, demand: Demand, one: seq<Name>, two: seq<Name>)
    requires Plan(rules, files, demand, one) && Plan(rules, files, demand, two)
    ensures one == two
  {
    if |one| <= |two| {
      PlanIsShortest(rules, files, demand, two, one);
    } else {
      PlanIsShortest(rules, files, demand, one, two);
    }
  }

  /** No oldest-first eviction that makes the demand fit is shorter, and every one extends the plan. */
  lemma {:induction false} PlanIsShortest(rules: Rules, files: Files, demand: Demand, plan: seq<Name>, other: seq<Name>)
    requires Plan(rules, files, demand, plan)
    requires OldestFirst(rules, files, demand.spared, other) && Fits(files, demand, other)
    ensures plan <= other
  {
    if |plan| <= |other| {
      PrefixOfRanking(rules, files, demand.spared, plan, other);
    } else {
      PrefixOfRanking(rules, files, demand.spared, other, plan);
      var less := plan[..|plan| - 1];
      assert other <= less;
      assert forall name :: name in less ==> name in plan;
      FreedPrefix(files, other, less);
    }
  }

  lemma {:induction false} PrefixOfRanking(rules: Rules, files: Files, spared: set<Name>, short: seq<Name>,
                                           long: seq<Name>)
    requires OldestFirst(rules, files, spared, short) && OldestFirst(rules, files, spared, long)
    requires |short| <= |long| || forall name :: name in short ==> name in long
    ensures short <= long
  {
    var k := 0;
    while k < |short| && k < |long|
      invariant k <= |short| && k <= |long| && short[..k] == long[..k]
    {
      RankingsAgreeAt(rules, files, spared, short, long, k);
      assert short[..k + 1] == short[..k] + [short[k]] && long[..k + 1] == long[..k] + [long[k]];
      k := k + 1;
    }
    if k < |short| {
      assert short[k] in short;
      var j :| 0 <= j < |long| && long[j] == short[k];
      assert false;
    }
  }

  lemma RankingsAgreeAt(rules: Rules, files: Files, spared: set<Name>, one: seq<Name>, two: seq<Name>, k: nat)
    requires OldestFirst(rules, files, spared, one) && OldestFirst(rules, files, spared, two)
    requires k < |one| && k < |two| && one[..k] == two[..k]
    ensures one[k] == two[k]
  {
    NextIsAhead(rules, files, spared, one, two, k);
    NextIsAhead(rules, files, spared, two, one, k);
  }

  lemma NextIsAhead(rules: Rules, files: Files, spared: set<Name>, one: seq<Name>, two: seq<Name>, k: nat)
    requires OldestFirst(rules, files, spared, one) && OldestFirst(rules, files, spared, two)
    requires k < |one| && k < |two| && one[..k] == two[..k]
    ensures one[k] == two[k] || Earlier(rules, files, one[k], two[k])
  {
    if one[k] != two[k] {
      assert forall i :: 0 <= i < k ==> one[i] == one[..k][i] == two[i];
      RankedAhead(rules, files, spared, one, two[k], k);
    }
  }

  /** A candidate absent from the first k + 1 ranked names comes after them. */
  lemma RankedAhead(rules: Rules, files: Files, spared: set<Name>, ranking: seq<Name>, name: Name, k: nat)
    requires OldestFirst(rules, files, spared, ranking) && k < |ranking|
    requires Candidate(rules, files, spared, name)
    requires forall i :: 0 <= i <= k ==> ranking[i] != name
    ensures Earlier(rules, files, ranking[k], name)
  {
    if name in ranking {
      var j :| 0 <= j < |ranking| && ranking[j] == name;
    }
  }

  lemma {:induction false} FreedPrefix(files: Files, short: seq<Name>, long: seq<Name>)
    requires short <= long
    requires forall name :: name in long ==> name in files
    ensures Freed(files, short) <= Freed(files, long)
  {
    if short != long {
      var less := long[..|long| - 1];
      assert short <= less;
      FreedPrefix(files, short, less);
    }
  }

  // ---------------------------------------------------------------- ranking candidates

  function Insert(rules: Rules, files: Files, name: Name, ranking: seq<Name>): (r: seq<Name>)
    ensures |r| == |ranking| + 1
    ensures forall x :: x in r <==> x == name || x in ranking
  {
    if ranking == [] then [name]
    else if Earlier(rules, files, name, ranking[0]) then [name] + ranking
    else [ranking[0]] + Insert(rules, files, name, ranking[1..])
  }

  function Ranked(rules: Rules, files: Files, names: seq<Name>): (r: seq<Name>)
    ensures |r| == |names|
    ensures forall x :: x in r <==> x in names
  {
    if names == [] then [] else Insert(rules, files, names[|names| - 1], Ranked(rules, files, names[..|names| - 1]))
  }

  ghost predicate Ranking(rules: Rules, files: Files, names: seq<Name>) {
    && (forall name :: name in names ==> rules.Evictable(files, name))
    && forall i, j :: 0 <= i < j < |names| ==> Earlier(rules, files, names[i], names[j])
  }

  lemma {:induction false} InsertRanks(rules: Rules, files: Files, name: Name, ranking: seq<Name>)
    requires Ranking(rules, files, ranking) && rules.Evictable(files, name) && name !in ranking
    ensures Ranking(rules, files, Insert(rules, files, name, ranking))
  {
    if ranking != [] && !Earlier(rules, files, name, ranking[0]) {
      assert ranking[0] != name;
      assert Earlier(rules, files, ranking[0], name);
      InsertRanks(rules, files, name, ranking[1..]);
      var rest := Insert(rules, files, name, ranking[1..]);
      assert forall x :: x in rest ==> Earlier(rules, files, ranking[0], x);
    }
  }

  lemma {:induction false} RankedRanks(rules: Rules, files: Files, names: seq<Name>)
    requires forall name :: name in names ==> rules.Evictable(files, name)
    requires Distinct(names)
    ensures Ranking(rules, files, Ranked(rules, files, names))
  {
    if names != [] {
      var rest := names[..|names| - 1];
      RankedRanks(rules, files, rest);
      InsertRanks(rules, files, names[|names| - 1], Ranked(rules, files, rest));
    }
  }

  /** Any prefix of the full ranking of all candidates takes the oldest first. */
  lemma RankingPrefix(rules: Rules, files: Files, spared: set<Name>, all: seq<Name>, k: nat)
    requires Ranking(rules, files, all) && k <= |all|
    requires forall name :: name in all <==> Candidate(rules, files, spared, name)
    ensures OldestFirst(rules, files, spared, all[..k])
  {
    var taken := all[..k];
    assert forall j :: 0 <= j < k ==> all[j] == taken[j];
    forall name, i | 0 <= i < |taken| && name !in taken && Candidate(rules, files, spared, name)
      ensures Earlier(rules, files, taken[i], name)
    {
      var j :| 0 <= j < |all| && all[j] == name;
    }
  }

  lemma BytesUnion(files: Files, a: set<Name>, b: set<Name>)
    requires a <= files.Keys && b <= files.Keys && a !! b
    ensures Bytes(files, a + b) == Bytes(files, a) + Bytes(files, b)
  {
    if a == {} {
      assert a + b == b;
    } else {
      var name :| name in a;
      BytesPick(files, a, name);
      BytesPick(files, a + b, name);
      BytesUnion(files, a - {name}, b);
      assert a + b - {name} == a - {name} + b;
    }
  }

  // ---------------------------------------------------------------- plans in numbers

  lemma {:induction false} FreedIsBytes(files: Files, victims: seq<Name>)
    requires Distinct(victims) && forall name :: name in victims ==> name in files
    ensures NamesOf(victims) <= files.Keys && Freed(files, victims) == Bytes(files, NamesOf(victims))
    ensures |NamesOf(victims)| == |victims|
  {
    if victims == [] {
      assert NamesOf(victims) == {};
    } else {
      var last, front := victims[|victims| - 1], victims[..|victims| - 1];
      FrontIsDistinct(files, victims);
      FreedIsBytes(files, front);
      LastIsNew(victims);
      BytesPick(files, NamesOf(victims), last);
    }
  }

  lemma LastIsNew(victims: seq<Name>)
    requires victims != [] && Distinct(victims)
    ensures
      var last, front := victims[|victims| - 1], victims[..|victims| - 1];
      last !in front && NamesOf(victims) == NamesOf(front) + {last} && NamesOf(victims) - {last} == NamesOf(front)
  {
    var last, front := victims[|victims| - 1], victims[..|victims| - 1];
    SplitLast(victims);
    assert forall i :: 0 <= i < |front| ==> front[i] == victims[i] && front[i] != last;
  }

  /** The records that may go, and the limits with these gone and the demand met. */
  ghost function Reclaimable(rules: Rules, files: Files, spared: set<Name>): set<Name> {
    set name | name in files && name !in spared && rules.Read(files, name).Ok?
               && rules.Read(files, name).value.completion.Some?
  }

  ghost predicate RoomWithout(files: Files, demand: Demand, gone: set<Name>)
    requires gone <= files.Keys
  {
    && |Records(files)| + demand.records - |gone| <= 32
    && Held(files) + demand.bytes - Bytes(files, gone) <= 262144
  }

  /** A plan in numbers: with its victims gone everything fits, with all but the last of them it does not. */
  lemma PlanMeans(rules: Rules, files: Files, demand: Demand, victims: seq<Name>)
    requires Plan(rules, files, demand, victims)
    ensures NamesOf(victims) <= Reclaimable(rules, files, demand.spared)
    ensures |Records(files)| <= 32 && |Stagings(files)| + demand.stagings <= 8
    ensures Bytes(files, Stagings(files)) <= 262144
    ensures TakesOldest(rules, files, demand.spared, victims)
    ensures RoomWithout(files, demand, NamesOf(victims))
    ensures victims != [] ==> !RoomWithout(files, demand, NamesOf(victims[..|victims| - 1]))
  {
    RankedIsDistinct(rules, files, demand.spared, victims);
    FitsMeans(files, demand, victims);
    OldestFirstTakesOldest(rules, files, demand.spared, victims);
    if victims != [] {
      FrontIsDistinct(files, victims);
      FitsMeans(files, demand, victims[..|victims| - 1]);
    }
  }

  lemma FitsMeans(files: Files, demand: Demand, victims: seq<Name>)
    requires Distinct(victims) && forall name :: name in victims ==> name in files
    ensures NamesOf(victims) <= files.Keys
    ensures Fits(files, demand, victims) <==> RoomWithout(files, demand, NamesOf(victims))
  {
    FreedIsBytes(files, victims);
  }

  lemma FrontIsDistinct(files: Files, victims: seq<Name>)
    requires victims != [] && Distinct(victims) && forall name :: name in victims ==> name in files
    ensures
      var front := victims[..|victims| - 1];
      Distinct(front) && forall name :: name in front ==> name in files
  {
    var front := victims[..|victims| - 1];
    assert forall i :: 0 <= i < |front| ==> front[i] == victims[i];
  }

  lemma RankedIsDistinct(rules: Rules, files: Files, spared: set<Name>, victims: seq<Name>)
    requires OldestFirst(rules, files, spared, victims)
    ensures Distinct(victims) && NamesOf(victims) <= Reclaimable(rules, files, spared)
  {
    forall i, j | 0 <= i < j < |victims| ensures victims[i] != victims[j] {
      assert Earlier(rules, files, victims[i], victims[j]);
    }
    forall name | name in victims ensures name in Reclaimable(rules, files, spared) {
      assert Candidate(rules, files, spared, name);
    }
  }

  /** Capacity is refused exactly when a hard limit is reached or not even evicting every such record helps. */
  lemma FullMeans(rules: Rules, files: Files, demand: Demand)
    ensures Full(rules, files, demand) <==>
      || |Records(files)| > 32 || |Stagings(files)| + demand.stagings > 8
      || Bytes(files, Stagings(files)) > 262144
      || !RoomWithout(files, demand, Reclaimable(rules, files, demand.spared))
  {
    var gone := Reclaimable(rules, files, demand.spared);
    if Full(rules, files, demand) && Admits(files, demand) {
      var all: seq<Name> :|
        && OldestFirst(rules, files, demand.spared, all)
        && (forall name :: Candidate(rules, files, demand.spared, name) ==> name in all)
        && !Fits(files, demand, all);
      AllReclaimable(rules, files, demand.spared, all);
    }
    if Admits(files, demand) && !RoomWithout(files, demand, gone) {
      var names := Listing(gone);
      assert forall name :: name in names <==> Candidate(rules, files, demand.spared, name);
      var all := Ranked(rules, files, names);
      RankedRanks(rules, files, names);
      RankingPrefix(rules, files, demand.spared, all, |all|);
      assert all[..|all|] == all;
      AllReclaimable(rules, files, demand.spared, all);
    }
  }

  lemma AllReclaimable(rules: Rules, files: Files, spared: set<Name>, all: seq<Name>)
    requires OldestFirst(rules, files, spared, all)
    requires forall name :: Candidate(rules, files, spared, name) ==> name in all
    ensures NamesOf(all) == Reclaimable(rules, files, spared) && |NamesOf(all)| == |all|
    ensures Freed(files, all) == Bytes(files, Reclaimable(rules, files, spared))
  {
    RankedIsDistinct(rules, files, spared, all);
    FreedIsBytes(files, all);
    forall name | name in Reclaimable(rules, files, spared) ensures name in NamesOf(all) {
      assert Candidate(rules, files, spared, name);
    }
  }

  lemma {:induction false} Listing(names: set<Name>) returns (listed: seq<Name>)
    ensures Distinct(listed) && forall name :: name in listed <==> name in names
  {
    listed := [];
    if names != {} {
      var name :| name in names;
      var rest := Listing(names - {name});
      DistinctAppend(rest, name);
      listed := rest + [name];
    }
  }

  // ---------------------------------------------------------------- one call

  datatype Call = Save(context: Context) | Complete(operationId: nat, completion: Completion)

  /** Part of the planned eviction has happened. */
  ghost predicate Evicted(before: Files, victims: seq<Name>, after: Files) {
    exists k :: 0 <= k <= |victims| && after == before - NamesOf(victims[..k])
  }

  /** Saving evicts along the plan, then writes the one new record. */
  ghost predicate SaveLeaves(rules: Rules, before: Files, context: Context, victims: seq<Name>, after: Files) {
    var name, raw := Record(context.operationId), rules.Fresh(context);
    && rules.Admissible(context) && |raw| <= MAX_RECORD_BYTES && name !in before
    && Plan(rules, before, Demand(1, |raw|, 0, {}), victims)
    && (Evicted(before, victims, after) || Written(before - NamesOf(victims), name, raw, after))
  }

  /** Completing evicts along the plan, stages the proven record, then swaps it in. */
  ghost predicate CompleteLeaves(rules: Rules, before: Files, context: Context, completion: Completion,
                                 victims: seq<Name>, staging: Name, after: Files)
  {
    var name, raw := Record(context.operationId), rules.Completed(context, completion);
    && rules.Pending(before, context) && rules.Proven(context, completion) && |raw| <= MAX_RECORD_BYTES
    && staging.Staging? && staging !in before
    && Plan(rules, before, Demand(0, |raw|, 1, {name}), victims)
    && (|| Evicted(before, victims, after)
        || Written(before - NamesOf(victims), staging, raw, after)
        || after == (before - NamesOf(victims))[name := File(raw, true)])
  }

  /** Content a call may leave, whether it returned, failed or was cut off. */
  ghost predicate Leaves(rules: Rules, before: Files, call: Call, after: Files) {
    after == before ||
    match call
    case Save(context) => exists victims :: SaveLeaves(rules, before, context, victims, after)
    case Complete(id, completion) =>
      exists context: Context, victims, staging ::
        context.operationId == id && CompleteLeaves(rules, before, context, completion, victims, staging, after)
  }

  // ---------------------------------------------------------------- what eviction keeps

  lemma SameBytes(files: Files, other: Files, names: set<Name>)
    requires names <= files.Keys && names <= other.Keys
    requires forall name :: name in names ==> files[name] == other[name]
    ensures Bytes(files, names) == Bytes(other, names)
  {
    BytesAgree(files, other, names);
    BytesAgree(other, files, names);
  }

  lemma AfterDeleting(files: Files, name: Name)
    requires name in files && Counted(name)
    ensures var after := files - {name};
      && Records(after) == Records(files) - {name}
      && Stagings(after) == Stagings(files) - {name}
      && Held(after) == Held(files) - |files[name].bytes|
  {
    var after := files - {name};
    assert Records(after) == Records(files) - {name};
    assert Stagings(after) == Stagings(files) - {name};
    var all := Records(files) + Stagings(files);
    assert all - {name} == Records(after) + Stagings(after);
    BytesPick(files, all, name);
    SameBytes(files, after, all - {name});
  }

  lemma {:induction false} AfterEviction(files: Files, victims: seq<Name>)
    requires forall name :: name in victims ==> name in files && name.Record?
    requires Distinct(victims)
    ensures |Records(files - NamesOf(victims))| == |Records(files)| - |victims|
    ensures Stagings(files - NamesOf(victims)) == Stagings(files)
    ensures Held(files - NamesOf(victims)) == Held(files) - Freed(files, victims)
  {
    if victims == [] {
      assert files - NamesOf(victims) == files;
    } else {
      var last, rest := victims[|victims| - 1], victims[..|victims| - 1];
      SplitLast(victims);
      AfterEviction(files, rest);
      EvictOneMore(files, rest, last);
    }
  }

  lemma EvictOneMore(files: Files, rest: seq<Name>, last: Name)
    requires last in files && last.Record? && last !in rest
    ensures |Records(files - NamesOf(rest + [last]))| == |Records(files - NamesOf(rest))| - 1
    ensures Stagings(files - NamesOf(rest + [last])) == Stagings(files - NamesOf(rest))
    ensures Held(files - NamesOf(rest + [last])) == Held(files - NamesOf(rest)) - |files[last].bytes|
  {
    var middle := files - NamesOf(rest);
    assert NamesOf(rest + [last]) == NamesOf(rest) + {last};
    assert files - NamesOf(rest + [last]) == middle - {last};
    AfterDeleting(middle, last);
    WithoutOne(Records(middle), last);
    WithoutAbsent(Stagings(middle), last);
  }

  lemma WithoutOne<T>(all: set<T>, x: T)
    requires x in all
    ensures |all - {x}| == |all| - 1
  {
  }

  lemma WithoutAbsent<T>(all: set<T>, x: T)
    requires x !in all
    ensures all - {x} == all
  {
  }

  /** Adding and deleting the same new name cancel out. */
  lemma WriteThenDelete(files: Files, name: Name, file: File)
    requires name !in files
    ensures files[name := file] - {name} == files
  {
  }

  lemma AfterWriting(files: Files, name: Name, file: File)
    requires name !in files && Counted(name)
    ensures var after := files[name := file];
      && |Records(after)| == |Records(files)| + (if name.Record? then 1 else 0)
      && |Stagings(after)| == |Stagings(files)| + (if name.Staging? then 1 else 0)
      && Held(after) == Held(files) + |file.bytes|
  {
    var after := files[name := file];
    AfterDeleting(after, name);
    WriteThenDelete(files, name, file);
    if name.Record? {
      WithoutOne(Records(after), name);
      WithoutAbsent(Stagings(after), name);
    } else {
      WithoutOne(Stagings(after), name);
      WithoutAbsent(Records(after), name);
    }
  }

  ghost predicate Distinct(names: seq<Name>) {
    forall i, j :: 0 <= i < j < |names| ==> names[i] != names[j]
  }

  lemma DistinctAppend(names: seq<Name>, name: Name)
    requires Distinct(names) && name !in names
    ensures Distinct(names + [name])
  {
  }

  /** Eviction plans name distinct readable records. */
  lemma PlanNames(rules: Rules, files: Files, demand: Demand, victims: seq<Name>)
    requires Plan(rules, files, demand, victims)
    ensures forall name :: name in victims ==> name in files && name.Record? && name !in demand.spared
    ensures Distinct(victims)
  {
  }

  lemma EvictedIsBounded(rules: Rules, before: Files, demand: Demand, victims: seq<Name>, after: Files)
    requires Bounded(before) && Plan(rules, before, demand, victims) && Evicted(before, victims, after)
    ensures Bounded(after)
  {
    PlanNames(rules, before, demand, victims);
    var k :| 0 <= k <= |victims| && after == before - NamesOf(victims[..k]);
    AfterEviction(before, victims[..k]);
  }

  lemma WrittenIsBounded(before: Files, name: Name, raw: seq<byte>, after: Files)
    requires Written(before, name, raw, after) && name !in before && Counted(name)
    requires Bounded(before)
    requires |Records(before)| + (if name.Record? then 1 else 0) <= MAX_RECORDS
    requires |Stagings(before)| + (if name.Staging? then 1 else 0) <= MAX_TEMPORARY_FILES
    requires Held(before) + |raw| <= MAX_TOTAL_BYTES
    ensures Bounded(after)
  {
    if after != before {
      AfterWriting(before, name, after[name]);
      assert |after[name].bytes| <= |raw|;
    }
  }

  /** Swapping the staged copy in ends below the staging peak. */
  lemma SwappedIsBounded(before: Files, name: Name, raw: seq<byte>)
    requires name in before && name.Record? && Bounded(before)
    requires Held(before) + |raw| <= MAX_TOTAL_BYTES
    ensures Bounded(before[name := File(raw, true)])
  {
    var after := before[name := File(raw, true)];
    assert Records(after) == Records(before) && Stagings(after) == Stagings(before);
    var all := Records(before) + Stagings(before);
    BytesPick(before, all, name);
    BytesPick(after, all, name);
    SameBytes(before, after, all - {name});
  }

  /** Every content any call can leave is within all three limits. */
  lemma StepKeepsBounds(rules: Rules, before: Files, call: Call, after: Files)
    requires Bounded(before) && Leaves(rules, before, call, after)
    ensures Bounded(after)
  {
    if after != before {
      match call
      case Save(context) =>
        var victims :| SaveLeaves(rules, before, context, victims, after);
        var name, raw := Record(context.operationId), rules.Fresh(context);
        if Evicted(before, victims, after) {
          EvictedIsBounded(rules, before, Demand(1, |raw|, 0, {}), victims, after);
        } else {
          PlanNames(rules, before, Demand(1, |raw|, 0, {}), victims);
          AfterEviction(before, victims);
          WrittenIsBounded(before - NamesOf(victims), name, raw, after);
        }
      case Complete(id, completion) =>
        var context: Context, victims, staging :|
          context.operationId == id && CompleteLeaves(rules, before, context, completion, victims, staging, after);
        var name, raw := Record(id), rules.Completed(context, completion);
        if Evicted(before, victims, after) {
          EvictedIsBounded(rules, before, Demand(0, |raw|, 1, {name}), victims, after);
        } else {
          PlanNames(rules, before, Demand(0, |raw|, 1, {name}), victims);
          AfterEviction(before, victims);
          var middle := before - NamesOf(victims);
          if Written(middle, staging, raw, after) {
            WrittenIsBounded(middle, staging, raw, after);
          } else {
            SwappedIsBounded(middle, name, raw);
          }
        }
    }
  }

  /**
   What one call may do to an existing file: nothing; delete it, if it is a readable
   record with a proof that validates; or complete it, if it is the pending record of
   the very operation being completed.
   */
  ghost predicate Kept(rules: Rules, before: Files, call: Call, name: Name, after: Files)
    requires name in before
  {
    || (name in after && after[name] == before[name])
    || (name !in after && rules.Evictable(before, name))
    || (&& call.Complete? && name == Record(call.operationId) && name in after
        && exists context: Context ::
             && rules.Pending(before, context) && context.operationId == call.operationId
             && rules.Proven(context, call.completion)
             && after[name] == File(rules.Completed(context, call.completion), true))
  }

  lemma StepKeepsFiles(rules: Rules, before: Files, call: Call, after: Files, name: Name)
    requires Leaves(rules, before, call, after) && name in before
    ensures Kept(rules, before, call, name, after)
  {
    if after != before {
      match call
      case Save(context) =>
        var victims :| SaveLeaves(rules, before, context, victims, after);
        SaveKeepsFiles(rules, before, context, victims, after, name);
      case Complete(id, completion) =>
        var context: Context, victims, staging :|
          context.operationId == id && CompleteLeaves(rules, before, context, completion, victims, staging, after);
        CompleteKeepsFiles(rules, before, context, completion, victims, staging, after, name);
    }
  }

  lemma SaveKeepsFiles(rules: Rules, before: Files, context: Context, victims: seq<Name>, after: Files, name: Name)
    requires SaveLeaves(rules, before, context, victims, after) && name in before
    ensures (name in after && after[name] == before[name]) || (name !in after && name in victims)
  {
    if Evicted(before, victims, after) {
      EvictedKeepsFiles(before, victims, after, name);
    } else {
      WrittenKeepsFiles(before, victims, Record(context.operationId), rules.Fresh(context), after, name);
    }
  }

  lemma CompleteKeepsFiles(rules: Rules, before: Files, context: Context, completion: Completion,
                           victims: seq<Name>, staging: Name, after: Files, name: Name)
    requires CompleteLeaves(rules, before, context, completion, victims, staging, after) && name in before
    ensures
      || (name in after && after[name] == before[name])
      || (name !in after && name in victims)
      || (name == Record(context.operationId) && name in after
          && after[name] == File(rules.Completed(context, completion), true))
  {
    if Evicted(before, victims, after) {
      EvictedKeepsFiles(before, victims, after, name);
    } else if Written(before - NamesOf(victims), staging, rules.Completed(context, completion), after) {
      WrittenKeepsFiles(before, victims, staging, rules.Completed(context, completion), after, name);
    }
  }

  lemma EvictedKeepsFiles(before: Files, victims: seq<Name>, after: Files, name: Name)
    requires Evicted(before, victims, after) && name in before
    ensures (name in after && after[name] == before[name]) || (name !in after && name in victims)
  {
    var k :| 0 <= k <= |victims| && after == before - NamesOf(victims[..k]);
  }

  lemma WrittenKeepsFiles(before: Files, victims: seq<Name>, added: Name, raw: seq<byte>, after: Files, name: Name)
    requires Written(before - NamesOf(victims), added, raw, after) && name in before && name != added
    ensures (name in after && after[name] == before[name]) || (name !in after && name in victims)
  {
  }

  /** A completed record reads back as its own context with the proof attached. */
  lemma CompletedReads(rules: Rules, before: Files, context: Context, completion: Completion, after: Files)
    requires rules.Lossless() && rules.Pending(before, context) && rules.Proven(context, completion)
    requires |rules.Completed(context, completion)| <= MAX_RECORD_BYTES
    requires Record(context.operationId) in after
    requires after[Record(context.operationId)] == File(rules.Completed(context, completion), true)
    ensures rules.Read(after, Record(context.operationId)) == Ok(Saved(rules.target, context, Some(completion)))
  {
  }

  // ---------------------------------------------------------------- whole runs

  /** A run of calls, each of which may have stopped anywhere. */
  ghost predicate Run(rules: Rules, contents: seq<Files>, calls: seq<Call>) {
    && |contents| == |calls| + 1
    && forall i :: 0 <= i < |calls| ==> CallAt(rules, contents, calls, i)
  }

  ghost predicate CallAt(rules: Rules, contents: seq<Files>, calls: seq<Call>, i: nat)
    requires i < |calls| && |contents| == |calls| + 1
  {
    Leaves(rules, contents[i], calls[i], contents[i + 1])
  }

  lemma {:induction false} RunStaysBounded(rules: Rules, contents: seq<Files>, calls: seq<Call>, at: nat)
    requires Run(rules, contents, calls) && Bounded(contents[0]) && at < |contents|
    ensures Bounded(contents[at])
  {
    if at > 0 {
      var i := at - 1;
      RunStaysBounded(rules, contents, calls, i);
      assert CallAt(rules, contents, calls, i);
      StepKeepsBounds(rules, contents[i], calls[i], contents[i + 1]);
    }
  }

  /** From an empty directory: 32 records, 8 staging files and 256 KiB, at every moment. */
  lemma RunFromEmptyIsBounded(rules: Rules, contents: seq<Files>, calls: seq<Call>, at: nat)
    requires Run(rules, contents, calls) && contents[0] == map[] && at < |contents|
    ensures |Records(contents[at])| <= 32 && |Stagings(contents[at])| <= 8 && Held(contents[at]) <= 262144
  {
    assert Records(contents[0]) == {} && Stagings(contents[0]) == {};
    RunStaysBounded(rules, contents, calls, at);
  }

  /**
   A pending operation stays loadable, with exactly the context that was saved, until
   the run has recorded a validated completion of that very operation.
   */
  lemma {:induction false} PendingSurvives(rules: Rules, contents: seq<Files>, calls: seq<Call>, context: Context,
                                           at: nat)
    requires rules.Lossless() && Run(rules, contents, calls) && at < |contents|
    requires rules.Pending(contents[0], context)
    ensures
      || rules.Pending(contents[at], context)
      || exists i, completion ::
           && 0 < i <= at && calls[i - 1] == Complete(context.operationId, completion)
           && rules.Pending(contents[i - 1], context)
           && rules.Read(contents[i], Record(context.operationId)) == Ok(Saved(rules.target, context, Some(completion)))
  {
    if at > 0 {
      PendingSurvives(rules, contents, calls, context, at - 1);
      if rules.Pending(contents[at - 1], context) {
        assert CallAt(rules, contents, calls, at - 1);
        PendingStep(rules, contents[at - 1], calls[at - 1], contents[at], context);
      }
    }
  }

  lemma PendingStep(rules: Rules, before: Files, call: Call, after: Files, context: Context)
    requires rules.Lossless() && Leaves(rules, before, call, after) && rules.Pending(before, context)
    ensures
      || rules.Pending(after, context)
      || (&& call.Complete? && call.operationId == context.operationId
          && rules.Read(after, Record(context.operationId)) == Ok(Saved(rules.target, context, Some(call.completion))))
  {
    var name := Record(context.operationId);
    StepKeepsFiles(rules, before, call, after, name);
    if after[name] != before[name] {
      match call
      case Complete(id, completion) =>
        var saved: Context, victims, staging :|
          saved.operationId == id && CompleteLeaves(rules, before, saved, completion, victims, staging, after);
        CompletedReads(rules, before, context, completion, after);
    }
  }

  /** Evidence once recorded is never rewritten: the same bytes, or reclaimed. */
  lemma {:induction false} CompletionIsFinal(rules: Rules, contents: seq<Files>, calls: seq<Call>, name: Name, at: nat)
    requires Run(rules, contents, calls) && at < |contents| && rules.Evictable(contents[0], name)
    ensures
      || (name in contents[at] && contents[at][name] == contents[0][name])
      || exists i :: 0 < i <= at && name !in contents[i]
  {
    if at > 0 {
      var i := at - 1;
      CompletionIsFinal(rules, contents, calls, name, i);
      if name in contents[i] && contents[i][name] == contents[0][name] {
        assert CallAt(rules, contents, calls, i);
        StepKeepsFiles(rules, contents[i], calls[i], contents[i + 1], name);
      }
    }
  }

  /** Foreign, damaged, unproven and non-record files are never touched at all. */
  lemma {:induction false} UnprovenIsUntouched(rules: Rules, contents: seq<Files>, calls: seq<Call>, name: Name,
                                               at: nat)
    requires Run(rules, contents, calls) && at < |contents| && name in contents[0]
    requires !rules.Read(contents[0], name).Ok?
    ensures name in contents[at] && contents[at][name] == contents[0][name]
  {
    if at > 0 {
      var i := at - 1;
      UnprovenIsUntouched(rules, contents, calls, name, i);
      assert CallAt(rules, contents, calls, i);
      SameRead(rules, contents[0], contents[i], name);
      UnprovenStep(rules, contents[i], calls[i], contents[i + 1], name);
    }
  }

  lemma SameRead(rules: Rules, files: Files, other: Files, name: Name)
    requires name in files && name in other && other[name] == files[name]
    ensures rules.Read(other, name) == rules.Read(files, name)
  {
  }

  lemma UnprovenStep(rules: Rules, before: Files, call: Call, after: Files, name: Name)
    requires Leaves(rules, before, call, after) && name in before && !rules.Read(before, name).Ok?
    ensures name in after && after[name] == before[name]
  {
    StepKeepsFiles(rules, before, call, after, name);
    assert !rules.Evictable(before, name);
  }
}
