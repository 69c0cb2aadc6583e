/**
 The bounded store of operation evidence, step by step over the private directory.
 Every durable content a method passes through is one that `Retention.Leaves` allows,
 so the run lemmas there speak about this code, including runs cut off anywhere.
 */
module EvidenceStore {
  import opened Wrappers
  import opened PrivateDirectory
  import opened Retention

  /** Every counted file is a private regular file. */
  ghost predicate AllPrivate(files: Files) {
    forall name :: name in files && Counted(name) ==> files[name].private
  }

  /** The record now carries a validated completion with this receipt, and kept any it had. */
  ghost predicate Retains(rules: Rules, before: Files, after: Files, id: nat, completion: Completion, raw: seq<byte>) {
    var was, now := rules.Read(before, Record(id)), rules.Read(after, Record(id));
    && was.Ok? && now.Ok? && after[Record(id)].bytes == raw
    && now.value.context == was.value.context
    && now.value.completion.Some?
    && rules.receipt(now.value.context, now.value.completion.value) == rules.receipt(was.value.context, completion)
    && (was.value.completion.Some? ==> after == before)
  }

  /** What saving must answer when no primitive fails. */
  ghost predicate SaveVerdict(rules: Rules, files: Files, context: Context, r: Result<seq<byte>, Error>) {
    var name, raw := Record(context.operationId), rules.Fresh(context);
    if !rules.Admissible(context) then r == Err(InvalidContext)
    else if |raw| > MAX_RECORD_BYTES then r == Err(Capacity)
    else if name in files then
      var read := rules.Read(files, name);
      if read.Err? then r == Err(read.error)
      else if read.value.context != context then r == Err(Conflict)
      else r == Ok(files[name].bytes)
    else r == Ok(raw) || (r == Err(Capacity) && Full(rules, files, Demand(1, |raw|, 0, {})))
  }

  /** The record a completion may be attached to or already carries, or why not. */
  function Reviewed(rules: Rules, files: Files, id: nat, completion: Completion): Result<Saved, Error> {
    var read := rules.Read(files, Record(id));
    if !rules.uuid(id) then Err(InvalidContext)
    else if |completion.request| > MAX_REQUEST_BYTES || |completion.response| > MAX_METADATA_BYTES then
      Err(InvalidCompletion)
    else if read.Err? then read
    else
      var context := read.value.context;
      if !rules.Proven(context, completion) then Err(InvalidCompletion)
      else if read.value.completion.Some? then
        if rules.receipt(context, read.value.completion.value) != rules.receipt(context, completion) then Err(Conflict)
        else read
      else if |rules.Completed(context, completion)| > MAX_RECORD_BYTES then Err(Capacity)
      else read
  }

  /** What recording a completion must answer when no primitive fails. */
  ghost predicate CompleteVerdict(rules: Rules, files: Files, id: nat, completion: Completion,
                                  r: Result<seq<byte>, Error>)
  {
    var reviewed := Reviewed(rules, files, id, completion);
    if reviewed.Err? then r == Err(reviewed.error)
    else if reviewed.value.completion.Some? then r == Ok(files[Record(id)].bytes)
    else
      var raw := rules.Completed(reviewed.value.context, completion);
      r == Ok(raw) || (r == Err(Capacity) && Full(rules, files, Demand(0, |raw|, 1, {Record(id)})))
  }

  /** What attaching a completion answers, and when nothing may have changed. */
  ghost predicate AttachedAs(rules: Rules, before: Files, after: Files, context: Context, completion: Completion,
                             faultless: bool, r: Result<seq<byte>, Error>)
  {
    var name, raw := Record(context.operationId), rules.Completed(context, completion);
    match r
    case Ok(written) => faultless && written == raw && Holds(after, name, raw)
    case Err(error) =>
      && (error != RetentionUncertain ==> Untouched(before, after))
      && (faultless && AllPrivate(before) ==> error == Capacity && Full(rules, before, Demand(0, |raw|, 1, {name})))
  }

  /** Every content reached since then is one the call may leave. */
  ghost predicate AllLeave(rules: Rules, before: Files, call: Call, visited: seq<Files>, from: nat) {
    forall i :: from <= i < |visited| ==> Leaves(rules, before, call, visited[i])
  }

  /** Every content reached since then is a stage of this eviction. */
  ghost predicate AllEvicted(before: Files, victims: seq<Name>, visited: seq<Files>, from: nat) {
    forall i :: from <= i < |visited| ==> Evicted(before, victims, visited[i])
  }

  class ContextStore {
    const dir: Directory
    const rules: Rules

    constructor (dir: Directory, rules: Rules)
      ensures this.dir == dir && this.rules == rules
    {
      this.dir, this.rules := dir, rules;
    }

    method Read(name: Name) returns (r: Result<Saved, Error>)
      requires dir.Valid()
      modifies dir`faults
      ensures dir.faults >= old(dir.faults)
      ensures dir.faults == old(dir.faults) ==> r == rules.Read(dir.files, name)
      ensures dir.faults != old(dir.faults) ==> r == Err(Unavailable)
    {
      var ok := dir.Touch();
      r := if ok then rules.Read(dir.files, name) else Err(Unavailable);
    }

    method Load(operationId: nat) returns (r: Result<Context, Error>)
      requires dir.Valid()
      modifies dir`faults
      ensures r.Ok? ==> rules.Loads(dir.files, r.value) && r.value.operationId == operationId
      ensures dir.faults == old(dir.faults) ==>
        r.Ok? == (rules.uuid(operationId) && rules.Read(dir.files, Record(operationId)).Ok?)
      ensures !rules.uuid(operationId) ==> r == Err(InvalidContext)
      ensures dir.faults == old(dir.faults) && r.Err? && rules.uuid(operationId) ==>
        r.error == rules.Read(dir.files, Record(operationId)).error
      ensures dir.faults == old(dir.faults) && rules.uuid(operationId) && Record(operationId) !in dir.files ==>
        r == Err(Missing)
      ensures r.Ok? ==> dir.faults == old(dir.faults)
    {
      if !rules.uuid(operationId) { return Err(InvalidContext); }
      var saved := Read(Record(operationId));
      var current := dir.Touch();
      if saved.Err? { return Err(saved.error); }
      if !current { return Err(Unavailable); }
      return Ok(saved.value.context);
    }

    /** Counts staging files and lists record names; the limits eviction cannot relieve. */
    static method Scan(files: Files, demand: Demand) returns (tally: Tally, error: Option<Error>)
      ensures error.None? ==> Tallied(files, files.Keys, tally) && !Exceeds(tally, demand)
      ensures error == Some(Capacity) ==> !Admits(files, demand)
      ensures error == Some(Unavailable) ==> !AllPrivate(files)
      ensures error.Some? ==> error.value in {Capacity, Unavailable}
    {
      tally := Tally([], 0, 0);
      if Exceeds(tally, demand) { return tally, Some(Capacity); }
      var entries := files.Keys;
      ghost var seen: set<Name> := {};
      TallyNone(files);
      while entries != {}
        invariant Parted(files.Keys, seen, entries)
        invariant Tallied(files, seen, tally) && !Exceeds(tally, demand)
        decreases |entries|
      {
        var name :| name in entries;
        PartedNext(files.Keys, seen, entries, name);
        TallyOne(files, seen, tally, name);
        entries, seen := entries - {name}, seen + {name};
        tally := Count(files, tally, name);
        TallyIsPart(files, seen, tally, demand);
        if name.Staging? && !files[name].private && !Exceeds(tally.(stagingBytes := 0), demand) {
          return tally, Some(Unavailable);
        }
        if Exceeds(tally, demand) { return tally, Some(Capacity); }
      }
      PartedDone(files.Keys, seen);
      error := None;
    }

    /** Adds up the records and collects the candidates, in listing order. */
    method Weigh(names: seq<Name>, stagingBytes: nat, spared: set<Name>)
      returns (total: nat, candidates: seq<Name>, error: Option<Error>)
      requires dir.Valid()
      requires NamesOf(names) == Records(dir.files)
      requires Distinct(names)
      requires stagingBytes == Bytes(dir.files, Stagings(dir.files))
      modifies dir`faults
      ensures dir.faults >= old(dir.faults)
      ensures error.None? ==>
        && total == Held(dir.files)
        && (forall name :: name in candidates <==> Candidate(rules, dir.files, spared, name))
        && Distinct(candidates)
      ensures error.Some? ==> error.value == Unavailable
      ensures dir.faults == old(dir.faults) && AllPrivate(dir.files) ==> error.None?
      ensures error.None? ==> dir.faults == old(dir.faults)
    {
      var files := dir.files;
      total, candidates := stagingBytes, [];
      for i := 0 to |names|
        invariant dir.files == files && dir.faults == old(dir.faults)
        invariant NamesOf(names[..i]) <= files.Keys
        invariant total == stagingBytes + Bytes(files, NamesOf(names[..i]))
        invariant forall name :: name in candidates <==> name in names[..i] && Candidate(rules, files, spared, name)
        invariant Distinct(candidates)
      {
        var name := names[i];
        assert name in Records(files);
        assert names[..i + 1] == names[..i] + [name];
        assert NamesOf(names[..i + 1]) - {name} == NamesOf(names[..i]);
        var ok := dir.Touch();
        if !ok || !files[name].private { return total, candidates, Some(Unavailable); }
        BytesPick(files, NamesOf(names[..i + 1]), name);
        total := total + |files[name].bytes|;
        if name !in spared {
          var present := dir.Touch();
          if !present { return total, candidates, Some(Unavailable); }
          var read := rules.Read(files, name);
          // Foreign or damaged evidence occupies space but never becomes a candidate.
          if read.Ok? && read.value.completion.Some? {
            DistinctAppend(candidates, name);
            candidates := candidates + [name];
          }
        }
      }
      assert names[..|names|] == names;
      assert NamesOf(names) == Records(files);
      assert forall name :: Candidate(rules, files, spared, name) ==> name in Records(files);
      BytesUnion(files, Records(files), Stagings(files));
      error := None;
    }

    /** Takes the oldest candidates until the demand fits. */
    method Choose(ranking: seq<Name>, records: nat, held: nat, demand: Demand) returns (r: Result<seq<Name>, Error>)
      requires Ranking(rules, dir.files, ranking) && Admits(dir.files, demand)
      requires forall name :: name in ranking <==> Candidate(rules, dir.files, demand.spared, name)
      requires records == |Records(dir.files)| && held == Held(dir.files)
      ensures r.Ok? ==> Plan(rules, dir.files, demand, r.value)
      ensures r.Err? ==> r.error == Capacity && Full(rules, dir.files, demand)
    {
      var files := dir.files;
      var count, total, i := records + demand.records, held + demand.bytes, 0;
      while i < |ranking| && !(count <= MAX_RECORDS && total <= MAX_TOTAL_BYTES)
        invariant i <= |ranking|
        invariant Balance(files, demand, ranking, i, count, total)
        invariant i > 0 ==> TooMuch(files, demand, ranking, i - 1)
      {
        FreedNext(files, ranking, i);
        count, total := count - 1, total - |files[ranking[i]].bytes|;
        i := i + 1;
      }
      if count > MAX_RECORDS || total > MAX_TOTAL_BYTES {
        RankingIsFull(rules, files, demand, ranking);
        return Err(Capacity);
      }
      RankingIsPlan(rules, files, demand, ranking, i);
      return Ok(ranking[..i]);
    }

    /** Plans the shortest oldest-first eviction, without writing. */
    method Inventory(demand: Demand) returns (r: Result<seq<Name>, Error>)
      requires dir.Valid()
      modifies dir`faults
      ensures dir.faults >= old(dir.faults)
      ensures r.Ok? ==> Plan(rules, dir.files, demand, r.value)
      ensures r.Ok? ==> TakesOldest(rules, dir.files, demand.spared, r.value)
      ensures r == Err(Capacity) ==> Full(rules, dir.files, demand)
      ensures r.Err? ==> r.error in {Capacity, Unavailable}
      ensures dir.faults == old(dir.faults) && AllPrivate(dir.files) ==> r != Err(Unavailable)
      ensures r.Ok? ==> dir.faults == old(dir.faults)
    {
      var listed := dir.Touch();
      if !listed && demand.stagings <= MAX_TEMPORARY_FILES { return Err(Unavailable); }
      var tally, scanned := Scan(dir.files, demand);
      if scanned.Some? { return Err(scanned.value); }
      TalliedAll(dir.files, tally);
      var held, candidates, weighed := Weigh(tally.names, tally.stagingBytes, demand.spared);
      if weighed.Some? { return Err(weighed.value); }
      RankedRanks(rules, dir.files, candidates);
      r := Choose(Ranked(rules, dir.files, candidates), |tally.names|, held, demand);
      if r.Ok? { OldestFirstTakesOldest(rules, dir.files, demand.spared, r.value); }
    }

    /** Deletes the planned victims, oldest first, re-reading each one just before. */
    method Reclaim(victims: seq<Name>) returns (error: Option<Error>)
      requires dir.Valid()
      requires forall name :: name in victims ==> rules.Evictable(dir.files, name)
      requires Distinct(victims)
      modifies dir
      ensures dir.Valid() && old(dir.visited) <= dir.visited && dir.faults >= old(dir.faults)
      ensures AllEvicted(old(dir.files), victims, dir.visited, |old(dir.visited)|)
      ensures error.None? ==> dir.files == old(dir.files) - NamesOf(victims)
      ensures error.Some? ==> dir.faults > old(dir.faults)
      ensures error.Some? && error.value != RetentionUncertain ==>
        error.value == Unavailable && dir.files == old(dir.files)
      ensures error.None? ==> dir.faults == old(dir.faults)
    {
      ghost var before, mark := dir.files, |dir.visited|;
      assert before - NamesOf(victims[..0]) == before;
      for i := 0 to |victims|
        invariant dir.Valid() && old(dir.visited) <= dir.visited && dir.faults == old(dir.faults)
        invariant dir.files == before - NamesOf(victims[..i])
        invariant AllEvicted(before, victims, dir.visited, mark)
      {
        NextVictim(rules, before, victims, i);
        ghost var visited := dir.visited;
        error := EvictOne(victims[i], i > 0);
        EvictedMore(before, victims, i, visited, dir.visited, mark, dir.files);
        if error.Some? { return; }
      }
      assert victims[..|victims|] == victims;
      if victims != [] {
        var synced := dir.Touch();
        var current := dir.Touch();
        if !synced || !current { return Some(RetentionUncertain); }
      }
      error := None;
    }

    /** Re-reads and deletes one victim; `changed` when another one has already gone. */
    method EvictOne(name: Name, changed: bool) returns (error: Option<Error>)
      requires dir.Valid() && rules.Read(dir.files, name).Ok?
      modifies dir
      ensures dir.Valid() && old(dir.visited) <= dir.visited && dir.faults >= old(dir.faults)
      ensures forall i :: |old(dir.visited)| <= i < |dir.visited| ==> dir.visited[i] == dir.files
      ensures dir.files == old(dir.files) || dir.files == old(dir.files) - {name}
      ensures error.None? ==> dir.files == old(dir.files) - {name}
      ensures error.Some? ==> dir.faults > old(dir.faults)
      ensures error.Some? && error.value != RetentionUncertain ==>
        error.value == Unavailable && !changed && dir.files == old(dir.files)
      ensures error.None? ==> dir.faults == old(dir.faults)
    {
      var current := dir.Touch();
      if !current { return Some(if changed then RetentionUncertain else Unavailable); }
      var again := Read(name);
      if again.Err? { return Some(if changed then RetentionUncertain else Unavailable); }
      var ok := dir.Unlink(name);
      error := if ok then None else Some(RetentionUncertain);
    }

    /** Plans and carries out the eviction a demand needs. */
    method MakeRoom(demand: Demand) returns (victims: seq<Name>, error: Option<Error>)
      requires dir.Valid()
      modifies dir
      ensures dir.Valid() && old(dir.visited) <= dir.visited && dir.faults >= old(dir.faults)
      ensures forall i :: |old(dir.visited)| <= i < |dir.visited| ==>
        Plan(rules, old(dir.files), demand, victims) && Evicted(old(dir.files), victims, dir.visited[i])
      ensures error.None? ==> Plan(rules, old(dir.files), demand, victims)
      ensures error.None? ==> dir.files == old(dir.files) - NamesOf(victims)
      ensures error.None? && victims == [] ==> dir.files == old(dir.files)
      ensures error.Some? && error.value != RetentionUncertain ==> dir.files == old(dir.files)
      ensures dir.faults == old(dir.faults) && AllPrivate(old(dir.files)) ==>
        error.None? || (error.value == Capacity && Full(rules, old(dir.files), demand))
      ensures error.None? ==> dir.faults == old(dir.faults)
    {
      victims := [];
      var planned := Inventory(demand);
      if planned.Err? { return victims, Some(planned.error); }
      victims := planned.value;
      PlanNames(rules, dir.files, demand, victims);
      error := Reclaim(victims);
      if victims == [] { assert old(dir.files) - NamesOf(victims) == old(dir.files); }
    }

    /** Makes room along the plan, then creates the record. */
    method Admit(context: Context) returns (reclaimed: bool, error: Option<Error>)
      requires dir.Valid() && rules.Lossless() && rules.Admissible(context)
      requires |rules.Fresh(context)| <= MAX_RECORD_BYTES && Record(context.operationId) !in dir.files
      modifies dir
      ensures dir.Valid() && old(dir.visited) <= dir.visited && dir.faults >= old(dir.faults)
      ensures AllLeave(rules, old(dir.files), Call.Save(context), dir.visited, |old(dir.visited)|)
      ensures error.None? ==> Holds(dir.files, Record(context.operationId), rules.Fresh(context))
      ensures !reclaimed && (error.Some? ==> error.value != RetentionUncertain) ==> Untouched(old(dir.files), dir.files)
      ensures dir.faults == old(dir.faults) && AllPrivate(old(dir.files)) ==>
        var demand := Demand(1, |rules.Fresh(context)|, 0, {});
        error.None? || (error.value == Capacity && !reclaimed && Full(rules, old(dir.files), demand))
      ensures error.None? ==> dir.faults == old(dir.faults)
    {
      var name, raw := Record(context.operationId), rules.Fresh(context);
      ghost var before, mark := dir.files, |dir.visited|;
      reclaimed := false;
      var victims;
      victims, error := MakeRoom(Demand(1, |raw|, 0, {}));
      assert forall i :: mark <= i < |dir.visited| ==> SaveLeaves(rules, before, context, victims, dir.visited[i]);
      if error.Some? { return; }
      mark := |dir.visited|;
      reclaimed := victims != [];
      error := Create(name, raw);
      assert forall i :: mark <= i < |dir.visited| ==> SaveLeaves(rules, before, context, victims, dir.visited[i]);
    }

    method Create(name: Name, raw: seq<byte>) returns (error: Option<Error>)
      requires dir.Valid() && name !in dir.files
      modifies dir
      ensures dir.Valid() && old(dir.visited) <= dir.visited && dir.faults >= old(dir.faults)
      ensures forall i :: |old(dir.visited)| <= i < |dir.visited| ==> Written(old(dir.files), name, raw, dir.visited[i])
      ensures Untouched(old(dir.files), dir.files)
      ensures error.None? ==> Holds(dir.files, name, raw)
      ensures error.Some? ==> error.value == Unavailable && dir.faults > old(dir.faults)
      ensures error.None? ==> dir.faults == old(dir.faults)
    {
      var current := dir.Touch();
      if !current { return Some(Unavailable); }
      var written := dir.WriteNew(name, raw);
      error := if written then None else Some(Unavailable);
    }

    /** Syncs the directory and reads the record back. */
    method Confirm(name: Name) returns (error: Option<Error>)
      requires dir.Valid() && rules.Read(dir.files, name).Ok?
      modifies dir`faults
      ensures dir.faults >= old(dir.faults)
      ensures error.Some? ==> error.value == Unavailable && dir.faults > old(dir.faults)
      ensures error.None? ==> dir.faults == old(dir.faults)
    {
      var synced := dir.Touch();
      if !synced { return Some(Unavailable); }
      var confirmed := Read(name);
      if confirmed.Err? { return Some(confirmed.error); }
      var current := dir.Touch();
      error := if current then None else Some(Unavailable);
    }

    /** Writes the intent once and reads it back before a commit may be sent. */
    method Save(context: Context) returns (r: Result<seq<byte>, Error>)
      requires dir.Valid() && rules.Lossless()
      modifies dir
      ensures dir.Valid() && old(dir.visited) <= dir.visited
      ensures AllLeave(rules, old(dir.files), Call.Save(context), dir.visited, |old(dir.visited)|)
      ensures r.Ok? ==> rules.Loads(dir.files, context) && dir.files[Record(context.operationId)].bytes == r.value
      ensures r.Ok? && Record(context.operationId) in old(dir.files) ==> dir.files == old(dir.files)
      ensures r.Err? && r.error != RetentionUncertain ==> Untouched(old(dir.files), dir.files)
      ensures dir.faults == old(dir.faults) && AllPrivate(old(dir.files)) ==>
        SaveVerdict(rules, old(dir.files), context, r)
      ensures r.Ok? ==> dir.faults == old(dir.faults)
    {
      if !rules.Admissible(context) { return Err(InvalidContext); }
      var name, raw := Record(context.operationId), rules.Fresh(context);
      if |raw| > MAX_RECORD_BYTES { return Err(Capacity); }
      var reclaimed := false;
      var current := dir.Touch();
      if !current { return Err(Unavailable); }
      var stored := Read(name);
      if stored.Ok? {
        if stored.value.context != context { return Err(Conflict); }
        raw := dir.files[name].bytes;  // an identical save keeps completion evidence
      } else if stored.error != Missing {
        return Err(stored.error);
      } else {
        var error;
        reclaimed, error := Admit(context);
        if error.Some? { return Err(if reclaimed then RetentionUncertain else error.value); }
      }
      var unconfirmed := Confirm(name);
      if unconfirmed.Some? { return Err(if reclaimed then RetentionUncertain else unconfirmed.value); }
      return Ok(raw);
    }

    /** Staging cleanup: best effort, its outcome ignored. */
    method Discard(staging: Name)
      requires dir.Valid()
      modifies dir
      ensures dir.Valid() && old(dir.visited) <= dir.visited && dir.faults >= old(dir.faults)
      ensures dir.files == old(dir.files) || dir.files == old(dir.files) - {staging}
      ensures forall i :: |old(dir.visited)| <= i < |dir.visited| ==> dir.visited[i] == dir.files
    {
      var entered := dir.Touch();
      if entered { var _ := dir.Unlink(staging); }
    }

    /** Makes room, stages the proven record, re-reads the intent, then swaps it in. */
    method Attach(context: Context, completion: Completion) returns (uncertain: bool, error: Option<Error>)
      requires dir.Valid() && rules.Lossless()
      requires rules.Pending(dir.files, context) && rules.Proven(context, completion)
      requires |rules.Completed(context, completion)| <= MAX_RECORD_BYTES
      modifies dir
      ensures dir.Valid() && dir.faults >= old(dir.faults)
      ensures |old(dir.visited)| <= |dir.visited| && dir.visited[..|old(dir.visited)|] == old(dir.visited)
      ensures
        var call := Complete(context.operationId, completion);
        AllLeave(rules, old(dir.files), call, dir.visited, |old(dir.visited)|)
      ensures error.None? ==>
        uncertain && Holds(dir.files, Record(context.operationId), rules.Completed(context, completion))
      ensures !uncertain && (error.Some? ==> error.value != RetentionUncertain) ==> Untouched(old(dir.files), dir.files)
      ensures dir.faults == old(dir.faults) && AllPrivate(old(dir.files)) ==>
        var demand := Demand(0, |rules.Completed(context, completion)|, 1, {Record(context.operationId)});
        error.None? || (error.value == Capacity && !uncertain && Full(rules, old(dir.files), demand))
      ensures error.None? ==> dir.faults == old(dir.faults)
    {
      var name, raw := Record(context.operationId), rules.Completed(context, completion);
      ghost var before, mark := dir.files, |dir.visited|;
      uncertain := false;
      FreshStaging(before);
      var staging: Name :| staging.Staging? && staging !in dir.files;  // a random token, taken to be fresh
      var victims;
      victims, error := MakeRoom(Demand(0, |raw|, 1, {name}));
      ghost var middle := |dir.visited|;
      if error.None? {
        uncertain, error := Swap(name, staging, raw, victims != []);
        if victims == [] { StagingTouchesNothing(before, staging, raw, dir.files); }
      }
      forall i | mark <= i < |dir.visited|
        ensures Leaves(rules, before, Complete(context.operationId, completion), dir.visited[i])
      {
        var after := dir.visited[i];
        assert i >= middle || Evicted(before, victims, after);
        assert CompleteLeaves(rules, before, context, completion, victims, staging, after);
      }
    }

    /** Staging write, re-read, atomic replacement; a failure removes the staging file if it can. */
    method Swap(name: Name, staging: Name, raw: seq<byte>, reclaimed: bool)
      returns (uncertain: bool, error: Option<Error>)
      requires dir.Valid() && name.Record? && staging.Staging? && staging !in dir.files
      requires rules.Read(dir.files, name).Ok?
      modifies dir
      ensures dir.Valid() && old(dir.visited) <= dir.visited && dir.faults >= old(dir.faults)
      ensures forall i :: |old(dir.visited)| <= i < |dir.visited| ==>
        || Written(old(dir.files), staging, raw, dir.visited[i])
        || dir.visited[i] == old(dir.files)[name := File(raw, true)]
      ensures error.None? ==> uncertain && dir.files == old(dir.files)[name := File(raw, true)]
      ensures !uncertain ==> error.Some? && !reclaimed && Written(old(dir.files), staging, raw, dir.files)
      ensures error.Some? ==> error.value == Unavailable && dir.faults > old(dir.faults)
      ensures error.None? ==> dir.faults == old(dir.faults)
    {
      uncertain := reclaimed;
      ghost var middle := dir.files;
      var written := dir.WriteNew(staging, raw);
      var ready := written;
      if written {
        var again := Read(name);
        var current := dir.Touch();
        ready := again.Ok? && current;
      }
      if !ready {
        assert dir.files - {staging} == middle;
        Discard(staging);
        return uncertain, Some(Unavailable);
      }
      uncertain := true;
      ghost var staged := dir.files;
      assert staged[name := File(raw, true)] - {staging} == middle[name := File(raw, true)];
      var swapped := dir.Replace(staging, name);
      if !swapped {
        assert dir.files - {staging} == if dir.files == staged then middle else middle[name := File(raw, true)];
        Discard(staging);
        return uncertain, Some(Unavailable);
      }
      error := None;
    }

    /** The checks that precede any change: the record, the proof and any earlier proof. */
    method Examine(operationId: nat, completion: Completion) returns (r: Result<Saved, Error>)
      requires dir.Valid()
      modifies dir`faults
      ensures dir.faults >= old(dir.faults)
      ensures r.Ok? ==>
        Reviewed(rules, dir.files, operationId, completion) == r && r.value.context.operationId == operationId
      ensures r.Err? && dir.faults == old(dir.faults) ==> Reviewed(rules, dir.files, operationId, completion) == r
      ensures r.Err? && dir.faults != old(dir.faults) ==> r.error == Unavailable
      ensures r.Ok? ==> dir.faults == old(dir.faults)
    {
      if !rules.uuid(operationId) { return Err(InvalidContext); }
      if |completion.request| > MAX_REQUEST_BYTES || |completion.response| > MAX_METADATA_BYTES {
        return Err(InvalidCompletion);
      }
      var current := dir.Touch();
      if !current { return Err(Unavailable); }
      r := Read(Record(operationId));
      if r.Err? { return; }
      var context := r.value.context;
      if !rules.Proven(context, completion) { return Err(InvalidCompletion); }
      if r.value.completion.Some? {
        if rules.receipt(context, r.value.completion.value) != rules.receipt(context, completion) {
          return Err(Conflict);
        }
      } else if |rules.Completed(context, completion)| > MAX_RECORD_BYTES {
        return Err(Capacity);
      }
    }

    /** A first completion: attached, then confirmed on disk. */
    method AttachConfirmed(context: Context, completion: Completion) returns (r: Result<seq<byte>, Error>)
      requires dir.Valid() && rules.Lossless()
      requires rules.Pending(dir.files, context) && rules.Proven(context, completion)
      requires |rules.Completed(context, completion)| <= MAX_RECORD_BYTES
      modifies dir
      ensures dir.Valid() && dir.faults >= old(dir.faults)
      ensures |old(dir.visited)| <= |dir.visited| && dir.visited[..|old(dir.visited)|] == old(dir.visited)
      ensures
        var call := Complete(context.operationId, completion);
        AllLeave(rules, old(dir.files), call, dir.visited, |old(dir.visited)|)
      ensures AttachedAs(rules, old(dir.files), dir.files, context, completion, dir.faults == old(dir.faults), r)
    {
      var uncertain, error := Attach(context, completion);
      if error.Some? { return Err(if uncertain then RetentionUncertain else error.value); }
      var unconfirmed := Confirm(Record(context.operationId));
      // The record has been swapped in: a failure now leaves the caller uncertain.
      r := if unconfirmed.Some? then Err(RetentionUncertain) else Ok(rules.Completed(context, completion));
    }

    /** Retains verified evidence for a saved operation; it never authorises a replay. */
    method MarkCompleted(operationId: nat, completion: Completion) returns (r: Result<seq<byte>, Error>)
      requires dir.Valid() && rules.Lossless()
      modifies dir
      ensures dir.Valid() && old(dir.visited) <= dir.visited
      ensures AllLeave(rules, old(dir.files), Complete(operationId, completion), dir.visited, |old(dir.visited)|)
      ensures r.Ok? ==> Retains(rules, old(dir.files), dir.files, operationId, completion, r.value)
      ensures r.Err? && r.error != RetentionUncertain ==> Untouched(old(dir.files), dir.files)
      ensures dir.faults == old(dir.faults) && AllPrivate(old(dir.files)) ==>
        CompleteVerdict(rules, old(dir.files), operationId, completion, r)
      ensures r.Ok? ==> dir.faults == old(dir.faults)
    {
      var saved := Examine(operationId, completion);
      if saved.Err? { return Err(saved.error); }
      if saved.value.completion.None? {
        r := AttachConfirmed(saved.value.context, completion);
      } else {
        var error := Confirm(Record(operationId));
        r := if error.None? then Ok(dir.files[Record(operationId)].bytes) else Err(error.value);
      }
    }
  }

  lemma EvictedMore(before: Files, victims: seq<Name>, k: nat, visited: seq<Files>, more: seq<Files>, from: nat,
                    now: Files)
    requires k < |victims| && visited <= more && AllEvicted(before, victims, visited, from)
    requires now == before - NamesOf(victims[..k]) || now == before - NamesOf(victims[..k + 1])
    requires forall i :: |visited| <= i < |more| ==> more[i] == now
    ensures AllEvicted(before, victims, more, from)
  {
    assert Evicted(before, victims, now);
    forall i | from <= i < |more| ensures Evicted(before, victims, more[i]) {
      if i < |visited| { assert more[i] == visited[i]; }
    }
  }

  lemma StagingTouchesNothing(before: Files, staging: Name, raw: seq<byte>, after: Files)
    requires staging !in before
    ensures Written(before, staging, raw, after) ==> Untouched(before, after)
  {
  }

  /** The next victim is still there, still evictable, and its removal is one more step of the plan. */
  lemma NextVictim(rules: Rules, before: Files, victims: seq<Name>, i: nat)
    requires i < |victims| && Distinct(victims) && forall name :: name in victims ==> rules.Evictable(before, name)
    ensures victims[i] in before - NamesOf(victims[..i])
    ensures before - NamesOf(victims[..i + 1]) == before - NamesOf(victims[..i]) - {victims[i]}
    ensures rules.Read(before - NamesOf(victims[..i]), victims[i]) == rules.Read(before, victims[i])
    ensures rules.Read(before, victims[i]).Ok?
  {
    var name := victims[i];
    assert name in victims && rules.Evictable(before, name);
    assert victims[..i + 1] == victims[..i] + [name];
    assert name !in NamesOf(victims[..i]);
    assert before - NamesOf(victims[..i + 1]) == before - NamesOf(victims[..i]) - {name};
  }

  // ---------------------------------------------------------------- choosing victims

  /** What is left to hold once the first i of the ranking are gone. */
  ghost predicate Balance(files: Files, demand: Demand, ranking: seq<Name>, i: nat, count: int, total: int) {
    && i <= |ranking| && (forall name :: name in ranking[..i] ==> name in files)
    && count == |Records(files)| + demand.records - i
    && total == Held(files) + demand.bytes - Freed(files, ranking[..i])
  }

  ghost predicate TooMuch(files: Files, demand: Demand, ranking: seq<Name>, i: nat) {
    exists count, total ::
      Balance(files, demand, ranking, i, count, total) && (count > MAX_RECORDS || total > MAX_TOTAL_BYTES)
  }

  lemma RankingIsPlan(rules: Rules, files: Files, demand: Demand, ranking: seq<Name>, i: nat)
    requires Ranking(rules, files, ranking) && Admits(files, demand) && i <= |ranking|
    requires forall name :: name in ranking <==> Candidate(rules, files, demand.spared, name)
    requires i > 0 ==> TooMuch(files, demand, ranking, i - 1)
    requires exists count, total ::
      Balance(files, demand, ranking, i, count, total) && count <= MAX_RECORDS && total <= MAX_TOTAL_BYTES
    ensures Plan(rules, files, demand, ranking[..i])
  {
    RankingPrefix(rules, files, demand.spared, ranking, i);
    if i > 0 { PrefixOfPrefix(ranking, i - 1, i); }
  }

  lemma RankingIsFull(rules: Rules, files: Files, demand: Demand, ranking: seq<Name>)
    requires Ranking(rules, files, ranking)
    requires forall name :: name in ranking <==> Candidate(rules, files, demand.spared, name)
    requires TooMuch(files, demand, ranking, |ranking|)
    ensures Full(rules, files, demand)
  {
    RankingPrefix(rules, files, demand.spared, ranking, |ranking|);
    assert ranking[..|ranking|] == ranking;
  }

  // ---------------------------------------------------------------- scanning

  datatype Tally = Tally(names: seq<Name>, stagings: nat, stagingBytes: nat)

  function Count(files: Files, tally: Tally, name: Name): Tally
    requires name in files
  {
    match name
    case Record(_) => tally.(names := tally.names + [name])
    case Staging(_) => tally.(stagings := tally.stagings + 1, stagingBytes := tally.stagingBytes + |files[name].bytes|)
    case _ => tally
  }

  predicate Exceeds(tally: Tally, demand: Demand) {
    || |tally.names| > MAX_RECORDS
    || tally.stagings + demand.stagings > MAX_TEMPORARY_FILES
    || tally.stagingBytes > MAX_TOTAL_BYTES
  }

  /** What a scan has counted once it has seen these names. */
  ghost predicate Tallied(files: Files, seen: set<Name>, tally: Tally) {
    && NamesOf(tally.names) == Records(files) * seen
    && Distinct(tally.names)
    && |tally.names| == |Records(files) * seen|
    && tally.stagings == |Stagings(files) * seen|
    && tally.stagingBytes == Bytes(files, Stagings(files) * seen)
  }

  lemma TallyNone(files: Files)
    ensures Tallied(files, {}, Tally([], 0, 0))
  {
    assert Records(files) * {} == {} && Stagings(files) * {} == {};
  }

  lemma TallyOne(files: Files, seen: set<Name>, tally: Tally, name: Name)
    requires Tallied(files, seen, tally) && name in files && name !in seen
    ensures Tallied(files, seen + {name}, Count(files, tally, name))
  {
    if name.Record? {
      TallyRecord(files, seen, tally, name);
    } else if name.Staging? {
      TallyStaging(files, seen, tally, name);
    } else {
      SeenOther(Records(files), seen, name);
      SeenOther(Stagings(files), seen, name);
    }
  }

  lemma TallyRecord(files: Files, seen: set<Name>, tally: Tally, name: Name)
    requires Tallied(files, seen, tally) && name in files && name !in seen && name.Record?
    ensures Tallied(files, seen + {name}, Count(files, tally, name))
  {
    SeenOne(Records(files), seen, name);
    SeenOther(Stagings(files), seen, name);
    NamesGrow(tally.names, name);
  }

  lemma TallyStaging(files: Files, seen: set<Name>, tally: Tally, name: Name)
    requires Tallied(files, seen, tally) && name in files && name !in seen && name.Staging?
    ensures Tallied(files, seen + {name}, Count(files, tally, name))
  {
    SeenOther(Records(files), seen, name);
    SeenOne(Stagings(files), seen, name);
    StagingBytesGrow(files, seen, name);
  }

  lemma StagingBytesGrow(files: Files, seen: set<Name>, name: Name)
    requires name in files && name.Staging? && name !in seen
    ensures
      Bytes(files, Stagings(files) * (seen + {name}))
      == Bytes(files, Stagings(files) * seen) + |files[name].bytes|
  {
    SeenOne(Stagings(files), seen, name);
    BytesPick(files, Stagings(files) * (seen + {name}), name);
  }

  lemma NamesGrow(names: seq<Name>, name: Name)
    requires Distinct(names) && name !in NamesOf(names)
    ensures Distinct(names + [name]) && NamesOf(names + [name]) == NamesOf(names) + {name}
  {
    DistinctAppend(names, name);
  }

  lemma SeenOne<T>(all: set<T>, seen: set<T>, x: T)
    requires x in all && x !in seen
    ensures all * (seen + {x}) == all * seen + {x} && x !in all * seen
    ensures |all * (seen + {x})| == |all * seen| + 1
    ensures all * (seen + {x}) - {x} == all * seen
  {
    assert all * (seen + {x}) == all * seen + {x};
    assert all * (seen + {x}) - {x} == all * seen;
  }

  lemma SeenOther<T>(all: set<T>, seen: set<T>, x: T)
    requires x !in all
    ensures all * (seen + {x}) == all * seen
  {
  }

  lemma TalliedAll(files: Files, tally: Tally)
    requires Tallied(files, files.Keys, tally)
    ensures NamesOf(tally.names) == Records(files)
    ensures Distinct(tally.names) && |tally.names| == |Records(files)| && tally.stagings == |Stagings(files)|
    ensures tally.stagingBytes == Bytes(files, Stagings(files))
  {
    assert Records(files) * files.Keys == Records(files) && Stagings(files) * files.Keys == Stagings(files);
  }

  /** A partial tally never exceeds the whole directory's. */
  lemma TallyIsPart(files: Files, seen: set<Name>, tally: Tally, demand: Demand)
    requires Tallied(files, seen, tally)
    ensures Exceeds(tally, demand) ==> !Admits(files, demand)
  {
    MoreThan(Records(files) * seen, Records(files));
    MoreThan(Stagings(files) * seen, Stagings(files));
    BytesSubset(files, Stagings(files) * seen, Stagings(files));
  }

  lemma FreshStaging(files: Files)
    ensures exists name: Name :: name.Staging? && name !in files
  {
    var token := AboveTokens(files, files.Keys);
    assert Staging(token) !in files.Keys;
  }

  lemma {:induction false} AboveTokens(files: Files, names: set<Name>) returns (token: nat)
    ensures forall name :: name in names && name.Staging? ==> name.token < token
  {
    token := 0;
    if names != {} {
      var name :| name in names;
      token := AboveTokens(files, names - {name});
      if name.Staging? && name.token >= token { token := name.token + 1; }
    }
  }
}
