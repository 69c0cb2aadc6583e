/**
 Both evidence stores on the one directory they share. Each holds its own lock only, so the
 single steps of a call on one store may fall between those of a call on the other; still
 neither can break what the other promises.
 */
module SharedDirectory {
  import opened Wrappers
  import opened PrivateDirectory
  import Retention
  import Acknowledgements
  import opened StoreViews

  lemma EvidenceSparesAcknowledgements(rules: Retention.Rules, before: Files, call: Retention.Call, after: Files,
                                       name: Name)
    requires Retention.Leaves(rules, before, call, after) && !Retention.Counted(name)
    ensures AgreeOn(before, after, name)
  {
    if name in before {
      Retention.StepKeepsFiles(rules, before, call, after, name);
      assert !rules.Evictable(before, name);
    } else if after != before {
      match call
      case Save(context) => SaveAddsRecord(rules, before, context, after, name);
      case Complete(id, completion) => CompleteAddsStaging(rules, before, id, completion, after, name);
    }
  }

  lemma SaveAddsRecord(rules: Retention.Rules, before: Files, context: Retention.Context, after: Files, name: Name)
    requires Retention.Leaves(rules, before, Retention.Save(context), after) && after != before
    requires name !in before && !name.Record?
    ensures name !in after
  {
    var victims :| Retention.SaveLeaves(rules, before, context, victims, after);
  }

  lemma CompleteAddsStaging(rules: Retention.Rules, before: Files, id: nat, completion: Retention.Completion,
                            after: Files, name: Name)
    requires Retention.Leaves(rules, before, Retention.Complete(id, completion), after) && after != before
    requires name !in before && !name.Staging? && !name.Record?
    ensures name !in after
  {
    var context: Retention.Context, victims, staging :|
      && context.operationId == id
      && Retention.CompleteLeaves(rules, before, context, completion, victims, staging, after);
  }

  /** Saving and completing keep the acknowledgement store's reservation, to the byte. */
  lemma EvidenceKeepsReservation(rules: Retention.Rules, before: Files, call: Retention.Call, after: Files)
    requires Retention.Leaves(rules, before, call, after) && Acknowledgements.Reserved(before)
    ensures Acknowledgements.Reserved(after)
    ensures Acknowledgements.Intents(after) == Acknowledgements.Intents(before)
    ensures Acknowledgements.Proofs(after) == Acknowledgements.Proofs(before)
  {
    forall name | !Retention.Counted(name) ensures AgreeOn(before, after, name) {
      EvidenceSparesAcknowledgements(rules, before, call, after, name);
    }
    SameAcknowledgements(before, after);
  }

  lemma AcknowledgementSparesEvidence(before: Files, name: Name, raw: seq<byte>, after: Files, other: Name)
    requires Acknowledgements.AckFile(name) && Acknowledgements.Leaves(before, name, raw, after)
    requires Retention.Counted(other)
    ensures AgreeOn(before, after, other)
  {
  }

  /** Writing an acknowledgement keeps the evidence store's limits and every record as it reads. */
  lemma AcknowledgementKeepsBounds(before: Files, name: Name, raw: seq<byte>, after: Files)
    requires Acknowledgements.AckFile(name) && Acknowledgements.Leaves(before, name, raw, after)
    requires Retention.Bounded(before)
    ensures Retention.Bounded(after)
  {
    forall other | Retention.Counted(other) ensures AgreeOn(before, after, other) {
      AcknowledgementSparesEvidence(before, name, raw, after, other);
    }
    SameCounted(before, after);
  }

  // ---------------------------------------------------------------- interleaved calls

  /**
   The directory, and for each store the call it is in the middle of: what the directory held when
   that call took its lock, what the call has read of it, and whether it has changed anything yet.
   A call that has returned, failed or been cut off stays here until the next one of its store.
   */
  datatype State = State(
    files: Files,
    saving: Retention.Call, savingFrom: Files, savingSaw: Files, saved: bool,
    noting: Acknowledgements.Write, notingFrom: Files, notingSaw: Files, noted: bool)

  // One step of either store: its lock is taken for a new call, the call reads the directory, or
  // it changes the directory once more.
  datatype Step =
    | EvidenceBegins(call: Retention.Call) | EvidenceReads | EvidenceMoves
    | AcknowledgementBegins(write: Acknowledgements.Write) | AcknowledgementReads | AcknowledgementMoves

  /**
   A call decides from what it has read, and changes names of its own store only. Its reading is
   taken before its first change, while the other store may be at work: what it took for the other
   store's names may be anything.
   */
  ghost predicate Next(rules: Retention.Rules, before: State, step: Step, after: State) {
    match step
    case EvidenceBegins(call) =>
      after == before.(saving := call, savingFrom := before.files, savingSaw := before.files, saved := false)
    case EvidenceReads =>
      !before.saved && SameCountedNames(before.files, after.savingSaw) && after == before.(savingSaw := after.savingSaw)
    case EvidenceMoves =>
      && after == before.(files := after.files, saved := true) && SameOtherNames(before.files, after.files)
      && exists alone ::
           Retention.Leaves(rules, before.savingSaw, before.saving, alone) && SameCountedNames(alone, after.files)
    case AcknowledgementBegins(write) =>
      && Acknowledgements.AckFile(write.name)
      && after == before.(noting := write, notingFrom := before.files, notingSaw := before.files, noted := false)
    case AcknowledgementReads =>
      !before.noted && SameOtherNames(before.files, after.notingSaw) && after == before.(notingSaw := after.notingSaw)
    case AcknowledgementMoves =>
      && after == before.(files := after.files, noted := true) && SameCountedNames(before.files, after.files)
      && Acknowledgements.AckFile(before.noting.name)
      && exists alone ::
           && Acknowledgements.Leaves(before.notingSaw, before.noting.name, before.noting.raw, alone)
           && SameOtherNames(alone, after.files)
  }

  /** Any call alone, cut off anywhere, is such a pair of steps. */
  lemma AloneIsInterleaved(rules: Retention.Rules, before: State, call: Retention.Call, after: Files)
    requires Retention.Leaves(rules, before.files, call, after)
    ensures
      var begun := before.(saving := call, savingFrom := before.files, savingSaw := before.files, saved := false);
      && Next(rules, before, EvidenceBegins(call), begun)
      && Next(rules, begun, EvidenceMoves, begun.(files := after, saved := true))
  {
    forall name | !Retention.Counted(name) ensures AgreeOn(before.files, after, name) {
      EvidenceSparesAcknowledgements(rules, before.files, call, after, name);
    }
    assert SameCountedNames(after, after);
  }

  lemma WriteAloneIsInterleaved(rules: Retention.Rules, before: State, write: Acknowledgements.Write, after: Files)
    requires Acknowledgements.AckFile(write.name) && Acknowledgements.Leaves(before.files, write.name, write.raw, after)
    ensures
      var begun := before.(noting := write, notingFrom := before.files, notingSaw := before.files, noted := false);
      && Next(rules, before, AcknowledgementBegins(write), begun)
      && Next(rules, begun, AcknowledgementMoves, begun.(files := after, noted := true))
  {
    forall name | Retention.Counted(name) ensures AgreeOn(before.files, after, name) {
      AcknowledgementSparesEvidence(before.files, write.name, write.raw, after, name);
    }
    assert SameOtherNames(after, after);
  }

  ghost predicate Run(rules: Retention.Rules, states: seq<State>, steps: seq<Step>) {
    && |states| == |steps| + 1 && Sound(rules, states[0])
    && forall i :: 0 <= i < |steps| ==> StepAt(rules, states, steps, i)
  }

  ghost predicate StepAt(rules: Retention.Rules, states: seq<State>, steps: seq<Step>, i: nat)
    requires |states| == |steps| + 1 && i < |steps|
  {
    Next(rules, states[i], steps[i], states[i + 1])
  }

  /**
   What the evidence store sees is a content its current call, had it been alone since it took its
   lock, may leave; and its reading still agrees with what was there then.
   */
  ghost predicate EvidencePart(rules: Retention.Rules, state: State) {
    && SameCountedNames(state.savingFrom, state.savingSaw)
    && (!state.saved ==> SameCountedNames(state.savingFrom, state.files))
    && exists alone ::
         Retention.Leaves(rules, state.savingFrom, state.saving, alone) && SameCountedNames(alone, state.files)
  }

  ghost predicate AcknowledgementPart(state: State) {
    && SameOtherNames(state.notingFrom, state.notingSaw)
    && (!state.noted ==> SameOtherNames(state.notingFrom, state.files))
    && Acknowledgements.AckFile(state.noting.name)
    && exists alone ::
         && Acknowledgements.Leaves(state.notingFrom, state.noting.name, state.noting.raw, alone)
         && SameOtherNames(alone, state.files)
  }

  /** Both stores are where their current calls alone may be: neither disturbs the other. */
  ghost predicate Sound(rules: Retention.Rules, state: State) {
    EvidencePart(rules, state) && AcknowledgementPart(state)
  }

  lemma EvidenceMoveIsSound(rules: Retention.Rules, before: State, after: State)
    requires Next(rules, before, EvidenceMoves, after) && Sound(rules, before)
    ensures EvidencePart(rules, after)
  {
    var alone :|
      Retention.Leaves(rules, before.savingSaw, before.saving, alone) && SameCountedNames(alone, after.files);
    CountedChain(before.savingFrom, before.savingSaw, before.savingSaw);
    var other := EvidenceSeesCounted(rules, before.savingSaw, before.savingFrom, before.saving, alone);
    CountedChain(alone, other, other);
    CountedChain(other, alone, after.files);
  }

  lemma AcknowledgementMoveIsSound(rules: Retention.Rules, before: State, after: State)
    requires Next(rules, before, AcknowledgementMoves, after) && Sound(rules, before)
    ensures AcknowledgementPart(after)
  {
    var name, raw := before.noting.name, before.noting.raw;
    var alone :| Acknowledgements.Leaves(before.notingSaw, name, raw, alone) && SameOtherNames(alone, after.files);
    OthersBack(before.notingFrom, before.notingSaw);
    var other := AcknowledgementSeesOthers(before.notingSaw, before.notingFrom, name, raw, alone);
    OthersBack(alone, other);
    OthersChain(other, alone, after.files);
  }

  /** The other store's steps leave what this one sees. */
  lemma EvidenceUndisturbed(rules: Retention.Rules, before: State, after: State)
    requires EvidencePart(rules, before) && SameCountedNames(before.files, after.files)
    requires after.saving == before.saving && after.savingFrom == before.savingFrom
    requires after.savingSaw == before.savingSaw && after.saved == before.saved
    ensures EvidencePart(rules, after)
  {
    var alone :|
      Retention.Leaves(rules, before.savingFrom, before.saving, alone) && SameCountedNames(alone, before.files);
    CountedChain(alone, before.files, after.files);
    if !before.saved { CountedChain(before.savingFrom, before.files, after.files); }
  }

  lemma AcknowledgementUndisturbed(before: State, after: State)
    requires AcknowledgementPart(before) && SameOtherNames(before.files, after.files)
    requires after.noting == before.noting && after.notingFrom == before.notingFrom
    requires after.notingSaw == before.notingSaw && after.noted == before.noted
    ensures AcknowledgementPart(after)
  {
    var alone :|
      && Acknowledgements.Leaves(before.notingFrom, before.noting.name, before.noting.raw, alone)
      && SameOtherNames(alone, before.files);
    OthersChain(alone, before.files, after.files);
    if !before.noted { OthersChain(before.notingFrom, before.files, after.files); }
  }

  lemma EvidenceReadIsSound(rules: Retention.Rules, before: State, after: State)
    requires Next(rules, before, EvidenceReads, after) && EvidencePart(rules, before)
    ensures EvidencePart(rules, after)
  {
    CountedChain(before.savingFrom, before.files, after.savingSaw);
  }

  lemma AcknowledgementReadIsSound(rules: Retention.Rules, before: State, after: State)
    requires Next(rules, before, AcknowledgementReads, after) && AcknowledgementPart(before)
    ensures AcknowledgementPart(after)
  {
    OthersChain(before.notingFrom, before.files, after.notingSaw);
  }

  lemma EvidenceBeginIsSound(rules: Retention.Rules, state: State)
    requires state.savingFrom == state.files && state.savingSaw == state.files
    ensures EvidencePart(rules, state)
  {
    assert Retention.Leaves(rules, state.savingFrom, state.saving, state.files);
    assert SameCountedNames(state.files, state.files);
  }

  lemma AcknowledgementBeginIsSound(state: State)
    requires state.notingFrom == state.files && state.notingSaw == state.files
    requires Acknowledgements.AckFile(state.noting.name)
    ensures AcknowledgementPart(state)
  {
    assert Acknowledgements.Leaves(state.notingFrom, state.noting.name, state.noting.raw, state.files);
    assert SameOtherNames(state.files, state.files);
  }

  /** No step of either store takes a call of the other where it could not have got alone. */
  lemma NextIsSound(rules: Retention.Rules, before: State, step: Step, after: State)
    requires Next(rules, before, step, after) && Sound(rules, before)
    ensures Sound(rules, after)
  {
    match step
    case EvidenceBegins(call) => EvidenceBeginIsSound(rules, after);
    case EvidenceReads => EvidenceReadIsSound(rules, before, after);
    case EvidenceMoves =>
      EvidenceMoveIsSound(rules, before, after);
      AcknowledgementUndisturbed(before, after);
    case AcknowledgementBegins(write) => AcknowledgementBeginIsSound(after);
    case AcknowledgementReads => AcknowledgementReadIsSound(rules, before, after);
    case AcknowledgementMoves =>
      AcknowledgementMoveIsSound(rules, before, after);
      EvidenceUndisturbed(rules, before, after);
  }

  // ---------------------------------------------------------------- what interleaved runs keep

  /** The evidence store's limits, at the start of its current call. */
  ghost predicate EvidenceKept(rules: Retention.Rules, state: State) {
    Sound(rules, state) && Retention.Bounded(state.savingFrom)
  }

  ghost predicate AcknowledgementsKept(rules: Retention.Rules, state: State) {
    Sound(rules, state) && Acknowledgements.Reserved(state.notingFrom)
  }

  /** Nothing yet in the directory, and either store about to make its first call. */
  ghost predicate Started(state: State) {
    && state.files == map[] && state.savingFrom == map[] && state.savingSaw == map[]
    && state.notingFrom == map[] && state.notingSaw == map[] && Acknowledgements.AckFile(state.noting.name)
  }

  lemma StartIsKept(rules: Retention.Rules, state: State)
    requires Started(state)
    ensures EvidenceKept(rules, state) && AcknowledgementsKept(rules, state)
  {
    EvidenceBeginIsSound(rules, state);
    AcknowledgementBeginIsSound(state);
    assert Retention.Records(state.files) == {} && Retention.Stagings(state.files) == {};
    assert Acknowledgements.AckNames(state.files) == {} && Acknowledgements.Intents(state.files) == {};
  }

  lemma NowBounded(rules: Retention.Rules, state: State)
    requires EvidenceKept(rules, state)
    ensures Retention.Bounded(state.files)
  {
    var alone :| Retention.Leaves(rules, state.savingFrom, state.saving, alone) && SameCountedNames(alone, state.files);
    Retention.StepKeepsBounds(rules, state.savingFrom, state.saving, alone);
    SameCounted(alone, state.files);
  }

  lemma NowReserved(rules: Retention.Rules, state: State)
    requires AcknowledgementsKept(rules, state)
    ensures Acknowledgements.Reserved(state.files)
  {
    var alone :|
      && Acknowledgements.Leaves(state.notingFrom, state.noting.name, state.noting.raw, alone)
      && SameOtherNames(alone, state.files);
    Acknowledgements.WriteKeepsReservation(state.notingFrom, state.noting.name, state.noting.raw, alone);
    SameAcknowledgements(alone, state.files);
  }

  lemma NextKeepsEvidence(rules: Retention.Rules, before: State, step: Step, after: State)
    requires Next(rules, before, step, after) && EvidenceKept(rules, before)
    ensures EvidenceKept(rules, after)
  {
    NextIsSound(rules, before, step, after);
    NowBounded(rules, before);
  }

  lemma NextKeepsAcknowledgements(rules: Retention.Rules, before: State, step: Step, after: State)
    requires Next(rules, before, step, after) && AcknowledgementsKept(rules, before)
    ensures AcknowledgementsKept(rules, after)
  {
    NextIsSound(rules, before, step, after);
    NowReserved(rules, before);
  }

  lemma {:induction false} EvidenceIsKept(rules: Retention.Rules, states: seq<State>, steps: seq<Step>, at: nat)
    requires Run(rules, states, steps) && at < |states| && EvidenceKept(rules, states[0])
    ensures EvidenceKept(rules, states[at])
  {
    if at > 0 {
      var i := at - 1;
      EvidenceIsKept(rules, states, steps, i);
      assert StepAt(rules, states, steps, i);
      NextKeepsEvidence(rules, states[i], steps[i], states[i + 1]);
    }
  }

  lemma {:induction false} AcknowledgementsAreKept(rules: Retention.Rules, states: seq<State>, steps: seq<Step>,
                                                   at: nat)
    requires Run(rules, states, steps) && at < |states| && AcknowledgementsKept(rules, states[0])
    ensures AcknowledgementsKept(rules, states[at])
  {
    if at > 0 {
      var i := at - 1;
      AcknowledgementsAreKept(rules, states, steps, i);
      assert StepAt(rules, states, steps, i);
      NextKeepsAcknowledgements(rules, states[i], steps[i], states[i + 1]);
    }
  }

  /** The evidence store's limits hold at every moment of every interleaved run. */
  lemma SharedRunStaysBounded(rules: Retention.Rules, states: seq<State>, steps: seq<Step>, at: nat)
    requires Run(rules, states, steps) && at < |states| && Retention.Bounded(states[0].savingFrom)
    ensures Retention.Bounded(states[at].files)
  {
    EvidenceIsKept(rules, states, steps, at);
    NowBounded(rules, states[at]);
  }

  /** And the evidence of every pending intent always fits, whatever is being saved meanwhile. */
  lemma SharedPendingFits(rules: Retention.Rules, states: seq<State>, steps: seq<Step>, at: nat, digest: nat, size: nat)
    requires Run(rules, states, steps) && at < |states| && Acknowledgements.Reserved(states[0].notingFrom)
    requires digest in Acknowledgements.Intents(states[at].files) - Acknowledgements.Proofs(states[at].files)
    requires size <= Acknowledgements.MAX_FILE_BYTES
    ensures Acknowledgements.Room(states[at].files, Proof(digest), size)
  {
    AcknowledgementsAreKept(rules, states, steps, at);
    NowReserved(rules, states[at]);
    Acknowledgements.PendingEvidenceFits(states[at].files, digest, size);
  }

  ghost predicate RunFromEmpty(rules: Retention.Rules, states: seq<State>, steps: seq<Step>) {
    && |states| == |steps| + 1 && Started(states[0])
    && forall i :: 0 <= i < |steps| ==> StepAt(rules, states, steps, i)
  }

  /** From an empty directory both guarantees hold at every moment, with nothing assumed of the start. */
  lemma SharedFromEmpty(rules: Retention.Rules, states: seq<State>, steps: seq<Step>, at: nat, digest: nat, size: nat)
    requires RunFromEmpty(rules, states, steps) && at < |states|
    ensures Retention.Bounded(states[at].files) && Acknowledgements.Reserved(states[at].files)
    ensures
      digest in Acknowledgements.Intents(states[at].files) - Acknowledgements.Proofs(states[at].files)
      && size <= Acknowledgements.MAX_FILE_BYTES
      ==> Acknowledgements.Room(states[at].files, Proof(digest), size)
  {
    StartIsKept(rules, states[0]);
    SharedRunStaysBounded(rules, states, steps, at);
    AcknowledgementsAreKept(rules, states, steps, at);
    NowReserved(rules, states[at]);
    if digest in Acknowledgements.Intents(states[at].files) - Acknowledgements.Proofs(states[at].files)
       && size <= Acknowledgements.MAX_FILE_BYTES {
      Acknowledgements.PendingEvidenceFits(states[at].files, digest, size);
    }
  }

  // ---------------------------------------------------------------- pending operations

  /** The current completion of this operation has been recorded. */
  ghost predicate Recorded(rules: Retention.Rules, state: State, context: Retention.Context) {
    && state.saving.Complete? && state.saving.operationId == context.operationId
    && rules.Read(state.files, Record(context.operationId))
       == Ok(Retention.Saved(rules.target, context, Some(state.saving.completion)))
  }

  lemma PendingNow(rules: Retention.Rules, state: State, context: Retention.Context)
    requires rules.Lossless() && Sound(rules, state) && rules.Pending(state.savingFrom, context)
    ensures rules.Pending(state.files, context) || Recorded(rules, state, context)
  {
    var alone :| Retention.Leaves(rules, state.savingFrom, state.saving, alone) && SameCountedNames(alone, state.files);
    Retention.PendingStep(rules, state.savingFrom, state.saving, alone, context);
    assert AgreeOn(alone, state.files, Record(context.operationId));
  }

  ghost predicate StillPending(rules: Retention.Rules, state: State, context: Retention.Context) {
    rules.Pending(state.files, context) && rules.Pending(state.savingFrom, context)
  }

  lemma PendingNext(rules: Retention.Rules, before: State, step: Step, after: State, context: Retention.Context)
    requires rules.Lossless() && Sound(rules, before) && Next(rules, before, step, after)
    requires StillPending(rules, before, context)
    ensures StillPending(rules, after, context) || Recorded(rules, after, context)
  {
    NextIsSound(rules, before, step, after);
    assert after.savingFrom == before.savingFrom || after.savingFrom == before.files;
    PendingNow(rules, after, context);
  }

  /** A saved operation stays pending in an interleaved run until its own completion is recorded. */
  lemma {:induction false} SharedPendingSurvives(rules: Retention.Rules, states: seq<State>, steps: seq<Step>,
                                                 context: Retention.Context, at: nat)
    requires rules.Lossless() && Run(rules, states, steps) && at < |states|
    requires rules.Pending(states[0].savingFrom, context)
    ensures (exists i :: 0 <= i <= at && Recorded(rules, states[i], context))
      || StillPending(rules, states[at], context)
  {
    if at > 0 {
      var i := at - 1;
      SharedPendingSurvives(rules, states, steps, context, i);
      if StillPending(rules, states[i], context) {
        assert StepAt(rules, states, steps, i);
        SoundAlong(rules, states, steps, i);
        PendingNext(rules, states[i], steps[i], states[i + 1], context);
      }
    } else {
      PendingNow(rules, states[0], context);
    }
  }

  lemma {:induction false} SoundAlong(rules: Retention.Rules, states: seq<State>, steps: seq<Step>, at: nat)
    requires Run(rules, states, steps) && at < |states|
    ensures Sound(rules, states[at])
  {
    if at > 0 {
      var i := at - 1;
      SoundAlong(rules, states, steps, i);
      assert StepAt(rules, states, steps, i);
      NextIsSound(rules, states[i], steps[i], states[i + 1]);
    }
  }
}
