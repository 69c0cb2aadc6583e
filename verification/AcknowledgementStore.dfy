/** The acknowledgement store's writes, step by step over the private directory. */
module AcknowledgementStores {
  import opened Wrappers
  import opened PrivateDirectory
  import opened Acknowledgements
  import Retention

  /** What one write must answer when no primitive fails and no stray file is present. */
  ghost predicate WriteVerdict(decode: Decoder, files: Files, name: Name, raw: seq<byte>, r: Result<bool, Error>)
    requires AckFile(name)
  {
    if |raw| > MAX_FILE_BYTES then r == Err(Capacity)
    else if name in files then
      if Same(decode, name, files[name].bytes, raw) then r == Ok(false)
      else if decode(files[name].bytes).None? || decode(raw).None? then r == Err(RetentionUncertain)
      else r == Err(Conflict)
    else r == if Room(files, name, |raw|) then Ok(true) else Err(Capacity)
  }

  /** A retained file that stands for this value: readable, and the same bytes or the same decoded value. */
  ghost predicate StandsFor(decode: Decoder, files: Files, name: Name, raw: seq<byte>) {
    && name in files && files[name].private && |files[name].bytes| <= 8192
    && (|| files[name].bytes == raw
        || (&& decode(files[name].bytes).Some? && decode(raw).Some?
            && decode(files[name].bytes).value.body == decode(raw).value.body
            && (name.Proof? ==> decode(files[name].bytes).value.requestId == decode(raw).value.requestId)))
  }

  /** The intent on file is readable and, decoded, has the body of the one given. */
  ghost predicate IntentOnFile(decode: Decoder, files: Files, digest: nat, intent: seq<byte>) {
    && Intent(digest) in files && files[Intent(digest)].private && |files[Intent(digest)].bytes| <= 8192
    && decode(files[Intent(digest)].bytes).Some? && decode(intent).Some?
    && decode(files[Intent(digest)].bytes).value.body == decode(intent).value.body
  }

  datatype Survey = Survey(count: nat, size: nat, intents: set<nat>, proofs: set<nat>)

  ghost predicate Surveyed(files: Files, survey: Survey) {
    && survey.count == |AckNames(files)| && survey.size == Size(files)
    && survey.intents == Intents(files) && survey.proofs == Proofs(files)
  }

  function Note(survey: Survey, name: Name, size: nat): Survey {
    match name
    case Intent(d) => Survey(survey.count + 1, survey.size + size, survey.intents + {d}, survey.proofs)
    case Proof(d) => Survey(survey.count + 1, survey.size + size, survey.intents, survey.proofs + {d})
    case _ => survey
  }

  lemma NoteOne(part: Files, survey: Survey, name: Name, file: File)
    requires Surveyed(part, survey) && name !in part
    ensures Surveyed(part[name := file], Note(survey, name, |file.bytes|))
  {
    if AckFile(name) {
      AfterAdding(part, name, file);
      assert name !in AckNames(part);
    } else {
      AfterAddingOther(part, name, file);
    }
  }

  lemma AfterAddingOther(part: Files, name: Name, file: File)
    requires !AckFile(name) && name !in part
    ensures AckNames(part[name := file]) == AckNames(part)
    ensures Intents(part[name := file]) == Intents(part)
    ensures Proofs(part[name := file]) == Proofs(part)
    ensures Size(part[name := file]) == Size(part)
  {
    var after := part[name := file];
    assert AckNames(after) == AckNames(part);
    Retention.SameBytes(part, after, AckNames(part));
    assert forall other :: AckFile(other) ==> (other in after <==> other in part);
  }

  ghost predicate SoundPart(files: Files, part: Files) {
    part.Keys <= files.Keys && forall name :: name in part ==> part[name] == files[name] && Sound(name, files[name])
  }

  lemma GrowPart(files: Files, part: Files, name: Name)
    requires SoundPart(files, part) && name in files && Sound(name, files[name])
    ensures SoundPart(files, part[name := files[name]])
    ensures part[name := files[name]].Keys == part.Keys + {name}
  {
  }

  /** Lists the whole directory; a stray or unreadable acknowledgement file stops it. */
  method Inspect(files: Files) returns (survey: Survey, clean: bool)
    ensures clean ==> Surveyed(files, survey)
    ensures clean == Clean(files)
  {
    survey := Survey(0, 0, {}, {});
    var entries := files.Keys;
    ghost var part: Files := map[];
    NoteNone();
    while entries != {}
      invariant Parted(files.Keys, part.Keys, entries)
      invariant SoundPart(files, part)
      invariant Surveyed(part, survey)
      decreases |entries|
    {
      var name :| name in entries;
      PartedNext(files.Keys, part.Keys, entries, name);
      if !Sound(name, files[name]) { return survey, false; }
      NoteOne(part, survey, name, files[name]);
      survey := Note(survey, name, |files[name].bytes|);
      GrowPart(files, part, name);
      part, entries := part[name := files[name]], entries - {name};
    }
    PartedDone(files.Keys, part.Keys);
    assert part == files;
    clean := true;
  }

  lemma NoteNone()
    ensures Surveyed(map[], Survey(0, 0, {}, {}))
  {
    var none: Files := map[];
    assert AckNames(none) == {} && Intents(none) == {} && Proofs(none) == {};
  }

  class AcknowledgementStore {
    const dir: Directory
    const decode: Decoder

    constructor (dir: Directory, decode: Decoder)
      ensures this.dir == dir && this.decode == decode
    {
      this.dir, this.decode := dir, decode;
    }

    /** The retained intent is readable and logically the one given. */
    predicate Matches(files: Files, digest: nat, intent: seq<byte>) {
      Intent(digest) in files && files[Intent(digest)].private && |files[Intent(digest)].bytes| <= MAX_FILE_BYTES &&
      (var a, b := decode(files[Intent(digest)].bytes), decode(intent);
       a.Some? && b.Some? && a.value.body == b.value.body)
    }

    /** Completes a possible earlier crash between the write and its sync. */
    method Resync(name: Name) returns (ok: bool)
      requires dir.Valid() && name in dir.files
      modifies dir`faults
      ensures dir.faults >= old(dir.faults)
      ensures ok == (dir.faults == old(dir.faults))
    {
      ok := dir.Touch();
      if !ok { return; }
      ok := dir.Touch();
    }

    /** A second write of the same name: accepted only as the same logical value. */
    method Revisit(name: Name, raw: seq<byte>) returns (r: Result<bool, Error>)
      requires dir.Valid() && AckFile(name) && name in dir.files && |raw| <= MAX_FILE_BYTES
      modifies dir`faults
      ensures dir.faults >= old(dir.faults)
      ensures r.Ok? ==> !r.value && Same(decode, name, dir.files[name].bytes, raw)
      ensures r.Ok? ==> StandsFor(decode, dir.files, name, raw)
      ensures dir.faults == old(dir.faults) && Clean(dir.files) ==> WriteVerdict(decode, dir.files, name, raw, r)
      ensures r.Ok? ==> dir.faults == old(dir.faults)
    {
      var existing := dir.files[name];
      if !existing.private || |existing.bytes| > MAX_FILE_BYTES { return Err(Unavailable); }
      if existing.bytes != raw {
        var previous, current := decode(existing.bytes), decode(raw);
        if previous.None? || current.None? { return Err(RetentionUncertain); }
        // A new read of the same plan has a new outer request id: the first intent stands.
        var same := if name.Intent? then previous.value.body == current.value.body else previous == current;
        if !same { return Err(Conflict); }
      }
      var synced := Resync(name);
      return if synced then Ok(false) else Err(RetentionUncertain);
    }

    /** Admission of a new file against the counts, the byte limit and the reservation. */
    method Admit(name: Name, raw: seq<byte>) returns (refused: Option<Error>)
      requires dir.Valid() && AckFile(name) && name !in dir.files && |raw| <= MAX_FILE_BYTES
      modifies dir`faults
      ensures dir.faults >= old(dir.faults)
      ensures refused.None? ==> Admitted(dir.files, name, raw)
      ensures refused == Some(Capacity) ==> !Room(dir.files, name, |raw|)
      ensures refused.Some? && refused.value != Capacity ==> dir.faults > old(dir.faults) || !Clean(dir.files)
      ensures refused.None? ==> dir.faults == old(dir.faults)
    {
      var listed := dir.Touch();
      if !listed { return Some(RetentionUncertain); }
      var survey, clean := Inspect(dir.files);
      if !clean { return Some(Unavailable); }
      var intents := survey.intents + if name.Intent? then {name.digest} else {};
      var proofs := survey.proofs + if name.Proof? then {name.digest} else {};
      // One bounded evidence file is reserved for every pending intent.
      if survey.count + 1 > MAX_FILES || |intents| > MAX_INTENTS || !(proofs <= intents)
         || survey.size + |raw| + MAX_FILE_BYTES * |intents - proofs| > MAX_TOTAL_BYTES {
        return Some(Capacity);
      }
      refused := None;
    }

    method Write(name: Name, raw: seq<byte>) returns (r: Result<bool, Error>)
      requires dir.Valid() && AckFile(name)
      modifies dir
      ensures dir.Valid() && old(dir.visited) <= dir.visited && dir.faults >= old(dir.faults)
      ensures forall i :: |old(dir.visited)| <= i < |dir.visited| ==> Leaves(old(dir.files), name, raw, dir.visited[i])
      ensures Untouched(old(dir.files), dir.files)
      ensures r.Ok? && r.value ==> name !in old(dir.files) && dir.files == old(dir.files)[name := File(raw, true)]
      ensures r.Ok? && !r.value ==>
        dir.files == old(dir.files) && name in dir.files && Same(decode, name, dir.files[name].bytes, raw)
      ensures r.Ok? ==> StandsFor(decode, dir.files, name, raw)
      ensures dir.faults == old(dir.faults) && Clean(old(dir.files)) && name in old(dir.files) && |raw| <= 8192 ==>
        (r.Ok? <==> StandsFor(decode, old(dir.files), name, raw))
      ensures dir.faults == old(dir.faults) && Clean(old(dir.files)) ==>
        WriteVerdict(decode, old(dir.files), name, raw, r)
      ensures r.Ok? ==> dir.faults == old(dir.faults)
    {
      var entered := dir.Touch();
      if |raw| > MAX_FILE_BYTES {
        r := Err(Capacity);
      } else if !entered {
        r := Err(RetentionUncertain);
      } else if name in dir.files {
        r := Revisit(name, raw);
      } else {
        r := Append(name, raw);
      }
    }

    method Append(name: Name, raw: seq<byte>) returns (r: Result<bool, Error>)
      requires dir.Valid() && AckFile(name) && name !in dir.files && |raw| <= MAX_FILE_BYTES
      modifies dir
      ensures dir.Valid() && old(dir.visited) <= dir.visited && dir.faults >= old(dir.faults)
      ensures forall i :: |old(dir.visited)| <= i < |dir.visited| ==> Leaves(old(dir.files), name, raw, dir.visited[i])
      ensures Untouched(old(dir.files), dir.files)
      ensures r.Ok? ==> r.value && dir.files == old(dir.files)[name := File(raw, true)]
      ensures dir.faults == old(dir.faults) && Clean(old(dir.files)) ==>
        WriteVerdict(decode, old(dir.files), name, raw, r)
      ensures r.Ok? ==> dir.faults == old(dir.faults)
    {
      var refused := Admit(name, raw);
      if refused.Some? { return Err(refused.value); }
      var written := dir.WriteNew(name, raw);
      var synced := dir.Touch();
      r := if written && synced then Ok(true) else Err(RetentionUncertain);
    }

    /** Retains an intent; `intent` is what this inspection and request make, if they make one. */
    method SaveIntent(digest: nat, intent: Option<seq<byte>>) returns (r: Result<bool, Error>)
      requires dir.Valid()
      modifies dir
      ensures dir.Valid() && old(dir.visited) <= dir.visited
      ensures intent.None? ==> r == Err(InvalidContext) && dir.visited == old(dir.visited)
      ensures intent.Some? ==> forall i :: |old(dir.visited)| <= i < |dir.visited| ==>
        Leaves(old(dir.files), Intent(digest), intent.value, dir.visited[i])
      ensures Untouched(old(dir.files), dir.files)
      ensures r.Ok? ==> intent.Some? && Intent(digest) in dir.files
      ensures r.Ok? ==> Same(decode, Intent(digest), dir.files[Intent(digest)].bytes, intent.value)
      ensures intent.Some? && dir.faults == old(dir.faults) && Clean(old(dir.files)) ==>
        WriteVerdict(decode, old(dir.files), Intent(digest), intent.value, r)
      ensures r.Ok? ==> dir.faults == old(dir.faults)
    {
      if intent.None? { return Err(InvalidContext); }
      r := Write(Intent(digest), intent.value);
    }

    /**
     Files evidence for a retained intent.  `intent` is what this inspection and request make,
     if they make one, and `confirmed` the outcome of validating the player's recovery result
     against the inspection.  Without an intent the context is invalid; every later failure,
     including those of the write itself, is an invalid completion.
     */
    method SaveEvidence(digest: nat, intent: Option<seq<byte>>, evidence: seq<byte>, confirmed: bool)
      returns (r: Result<bool, Error>)
      requires dir.Valid()
      modifies dir
      ensures dir.Valid() && old(dir.visited) <= dir.visited
      ensures forall i :: |old(dir.visited)| <= i < |dir.visited| ==>
        Leaves(old(dir.files), Proof(digest), evidence, dir.visited[i])
      ensures r.Err? ==> r.error == if intent.None? then InvalidContext else InvalidCompletion
      ensures r.Ok? ==> intent.Some? && confirmed && IntentOnFile(decode, old(dir.files), digest, intent.value)
      ensures r.Ok? ==> StandsFor(decode, dir.files, Proof(digest), evidence)
      ensures r.Ok? ==>
        Proof(digest) in dir.files && Same(decode, Proof(digest), dir.files[Proof(digest)].bytes, evidence)
      ensures Untouched(old(dir.files), dir.files)
      // The reservation guarantee, seen by the caller: nothing but a fault can refuse it.
      ensures intent.Some? && confirmed && Reserved(old(dir.files)) && |evidence| <= MAX_FILE_BYTES
              && Outstanding(old(dir.files), digest) && IntentOnFile(decode, old(dir.files), digest, intent.value)
              && dir.faults == old(dir.faults)
              ==> r == Ok(true)
      ensures r.Ok? ==> dir.faults == old(dir.faults)
    {
      if intent.None? { return Err(InvalidContext); }
      if !confirmed { return Err(InvalidCompletion); }
      var entered := dir.Touch();
      if !entered || !Matches(dir.files, digest, intent.value) { return Err(InvalidCompletion); }
      ghost var pending := Outstanding(dir.files, digest) && Reserved(dir.files) && |evidence| <= MAX_FILE_BYTES;
      if pending {
        OutstandingDigest(dir.files, digest);
        PendingEvidenceFits(dir.files, digest, |evidence|);
      }
      r := Write(Proof(digest), evidence);
      if r.Err? { r := Err(InvalidCompletion); }
    }
  }
}
