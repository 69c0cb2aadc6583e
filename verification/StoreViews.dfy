/**
 What each of the two stores can see of the directory they share: the evidence store its records
 and staging files, the acknowledgement store all other names. What a call on either store may
 leave is determined by the names its store sees.
 */
module StoreViews {
  import opened Wrappers
  import opened PrivateDirectory
  import Retention
  import Acknowledgements

  /** Both contents have the same file, or none, under this name. */
  predicate AgreeOn(before: Files, after: Files, name: Name) {
    (name in before <==> name in after) && (name in before ==> after[name] == before[name])
  }

  ghost predicate SameCountedNames(before: Files, after: Files) {
    forall name :: Retention.Counted(name) ==> AgreeOn(before, after, name)
  }

  ghost predicate SameOtherNames(before: Files, after: Files) {
    forall name :: !Retention.Counted(name) ==> AgreeOn(before, after, name)
  }

  // ---------------------------------------------------------------- the evidence store

  lemma SameCounted(before: Files, after: Files)
    requires SameCountedNames(before, after)
    ensures Retention.Records(before) == Retention.Records(after)
    ensures Retention.Stagings(before) == Retention.Stagings(after)
    ensures Retention.Held(before) == Retention.Held(after)
  {
    forall name ensures name in Retention.Records(before) <==> name in Retention.Records(after) {
      assert name.Record? ==> AgreeOn(before, after, name);
    }
    forall name ensures name in Retention.Stagings(before) <==> name in Retention.Stagings(after) {
      assert name.Staging? ==> AgreeOn(before, after, name);
    }
    var counted := Retention.Records(before) + Retention.Stagings(before);
    forall name | name in counted ensures after[name] == before[name] {
      assert AgreeOn(before, after, name);
    }
    Retention.SameBytes(before, after, counted);
  }

  lemma SameReading(rules: Retention.Rules, one: Files, two: Files, name: Name)
    requires SameCountedNames(one, two)
    ensures rules.Evictable(one, name) == rules.Evictable(two, name)
    ensures name.Record? ==> rules.Read(one, name) == rules.Read(two, name)
    ensures rules.Age(one, name) == rules.Age(two, name)
  {
    assert name.Record? ==> AgreeOn(one, two, name);
  }

  lemma SameRanking(rules: Retention.Rules, one: Files, two: Files, spared: set<Name>, victims: seq<Name>)
    requires SameCountedNames(one, two) && Retention.OldestFirst(rules, one, spared, victims)
    ensures Retention.OldestFirst(rules, two, spared, victims)
  {
    forall name ensures Retention.Candidate(rules, one, spared, name) <==> Retention.Candidate(rules, two, spared, name)
    {
      SameReading(rules, one, two, name);
    }
    forall a, b ensures Retention.Earlier(rules, one, a, b) <==> Retention.Earlier(rules, two, a, b) {
      SameReading(rules, one, two, a);
      SameReading(rules, one, two, b);
    }
  }

  lemma {:induction false} SameFreed(one: Files, two: Files, victims: seq<Name>)
    requires forall name :: name in victims ==> name in one && name in two && one[name] == two[name]
    ensures Retention.Freed(one, victims) == Retention.Freed(two, victims)
  {
    if victims != [] {
      assert forall name :: name in victims[..|victims| - 1] ==> name in victims;
      SameFreed(one, two, victims[..|victims| - 1]);
    }
  }

  lemma SameFit(one: Files, two: Files, demand: Retention.Demand, victims: seq<Name>)
    requires SameCountedNames(one, two) && forall name :: name in victims ==> name in one && name.Record?
    ensures forall name :: name in victims ==> name in two
    ensures Retention.Fits(one, demand, victims) <==> Retention.Fits(two, demand, victims)
  {
    forall name | name in victims ensures name in two && two[name] == one[name] {
      assert AgreeOn(one, two, name);
    }
    SameCounted(one, two);
    SameFreed(one, two, victims);
  }

  lemma SameAdmission(one: Files, two: Files, demand: Retention.Demand)
    requires SameCountedNames(one, two)
    ensures Retention.Admits(one, demand) <==> Retention.Admits(two, demand)
  {
    SameCounted(one, two);
    forall name | name in Retention.Stagings(one) ensures two[name] == one[name] {
      assert AgreeOn(one, two, name);
    }
    Retention.SameBytes(one, two, Retention.Stagings(one));
  }

  lemma CandidateIsRecord(rules: Retention.Rules, files: Files, spared: set<Name>, name: Name)
    requires Retention.Candidate(rules, files, spared, name)
    ensures name in files && name.Record?
  {
  }

  /** The eviction plan depends on records and staging files alone. */
  lemma SamePlan(rules: Retention.Rules, one: Files, two: Files, demand: Retention.Demand, victims: seq<Name>)
    requires SameCountedNames(one, two) && Retention.Plan(rules, one, demand, victims)
    ensures Retention.Plan(rules, two, demand, victims)
  {
    forall name | name in victims ensures name in one && name.Record? {
      CandidateIsRecord(rules, one, demand.spared, name);
    }
    SameRanking(rules, one, two, demand.spared, victims);
    SameAdmission(one, two, demand);
    SameFit(one, two, demand, victims);
    if victims != [] {
      assert forall name :: name in victims[..|victims| - 1] ==> name in victims;
      SameFit(one, two, demand, victims[..|victims| - 1]);
    }
  }

  /** Deleting and writing counted names does to both contents the same. */
  lemma SameDeletion(one: Files, two: Files, gone: set<Name>)
    requires SameCountedNames(one, two) && forall name :: name in gone ==> Retention.Counted(name)
    ensures SameCountedNames(one - gone, two - gone) && SameOtherNames(two, two - gone)
  {
    forall name | Retention.Counted(name) ensures AgreeOn(one - gone, two - gone, name) {
      assert AgreeOn(one, two, name);
    }
  }

  lemma SameWriting(one: Files, two: Files, name: Name, raw: seq<byte>, after: Files) returns (other: Files)
    requires SameCountedNames(one, two) && Retention.Counted(name) && Written(one, name, raw, after)
    ensures Written(two, name, raw, other) && SameCountedNames(after, other) && SameOtherNames(two, other)
  {
    other := if after == one then two else two[name := after[name]];
    forall n | Retention.Counted(n) ensures AgreeOn(after, other, n) {
      assert AgreeOn(one, two, n);
    }
  }

  lemma SameEviction(one: Files, two: Files, victims: seq<Name>, after: Files) returns (other: Files)
    requires SameCountedNames(one, two) && Retention.Evicted(one, victims, after)
    requires forall name :: name in victims ==> name.Record?
    ensures Retention.Evicted(two, victims, other) && SameCountedNames(after, other) && SameOtherNames(two, other)
  {
    var k :| 0 <= k <= |victims| && after == one - Retention.NamesOf(victims[..k]);
    other := two - Retention.NamesOf(victims[..k]);
    assert forall name :: name in victims[..k] ==> name in victims;
    SameDeletion(one, two, Retention.NamesOf(victims[..k]));
  }

  lemma PlanEvictsRecords(rules: Retention.Rules, files: Files, demand: Retention.Demand, victims: seq<Name>)
    requires Retention.Plan(rules, files, demand, victims)
    ensures forall name :: name in victims ==> name.Record?
  {
    forall name | name in victims ensures name.Record? {
      CandidateIsRecord(rules, files, demand.spared, name);
    }
  }

  lemma SaveSeesCounted(rules: Retention.Rules, one: Files, two: Files, context: Retention.Context,
                        victims: seq<Name>, after: Files)
    returns (other: Files)
    requires SameCountedNames(one, two) && Retention.SaveLeaves(rules, one, context, victims, after)
    ensures Retention.SaveLeaves(rules, two, context, victims, other)
    ensures SameCountedNames(after, other) && SameOtherNames(two, other)
  {
    var name, raw := Record(context.operationId), rules.Fresh(context);
    assert AgreeOn(one, two, name);
    SamePlan(rules, one, two, Retention.Demand(1, |raw|, 0, {}), victims);
    PlanEvictsRecords(rules, one, Retention.Demand(1, |raw|, 0, {}), victims);
    if Retention.Evicted(one, victims, after) {
      other := SameEviction(one, two, victims, after);
    } else {
      var gone := Retention.NamesOf(victims);
      SameDeletion(one, two, gone);
      other := SameWriting(one - gone, two - gone, name, raw, after);
      OthersChain(two, two - gone, other);
    }
  }

  lemma OthersChain(one: Files, two: Files, three: Files)
    requires SameOtherNames(one, two) && SameOtherNames(two, three)
    ensures SameOtherNames(one, three)
  {
    forall name | !Retention.Counted(name) ensures AgreeOn(one, three, name) {
      assert AgreeOn(one, two, name) && AgreeOn(two, three, name);
    }
  }

  lemma OthersBack(one: Files, two: Files)
    requires SameOtherNames(one, two)
    ensures SameOtherNames(two, one)
  {
    forall name | !Retention.Counted(name) ensures AgreeOn(two, one, name) {
      assert AgreeOn(one, two, name);
    }
  }

  lemma CountedChain(one: Files, two: Files, three: Files)
    requires SameCountedNames(one, two) && SameCountedNames(two, three)
    ensures SameCountedNames(one, three) && SameCountedNames(three, one)
  {
    forall name | Retention.Counted(name) ensures AgreeOn(one, three, name) && AgreeOn(three, one, name) {
      assert AgreeOn(one, two, name) && AgreeOn(two, three, name);
    }
  }

  lemma SameReplacement(one: Files, two: Files, name: Name, file: File)
    requires SameCountedNames(one, two) && Retention.Counted(name)
    ensures SameCountedNames(one[name := file], two[name := file]) && SameOtherNames(two, two[name := file])
  {
    forall n | Retention.Counted(n) ensures AgreeOn(one[name := file], two[name := file], n) {
      assert AgreeOn(one, two, n);
    }
  }

  lemma CompleteSeesCounted(rules: Retention.Rules, one: Files, two: Files, context: Retention.Context,
                            completion: Retention.Completion, victims: seq<Name>, staging: Name, after: Files)
    returns (other: Files)
    requires SameCountedNames(one, two)
    requires Retention.CompleteLeaves(rules, one, context, completion, victims, staging, after)
    ensures Retention.CompleteLeaves(rules, two, context, completion, victims, staging, other)
    ensures SameCountedNames(after, other) && SameOtherNames(two, other)
  {
    var name, raw := Record(context.operationId), rules.Completed(context, completion);
    assert AgreeOn(one, two, staging);
    SameReading(rules, one, two, name);
    SamePlan(rules, one, two, Retention.Demand(0, |raw|, 1, {name}), victims);
    PlanEvictsRecords(rules, one, Retention.Demand(0, |raw|, 1, {name}), victims);
    var gone := Retention.NamesOf(victims);
    SameDeletion(one, two, gone);
    if Retention.Evicted(one, victims, after) {
      other := SameEviction(one, two, victims, after);
    } else if Written(one - gone, staging, raw, after) {
      other := SameWriting(one - gone, two - gone, staging, raw, after);
      OthersChain(two, two - gone, other);
    } else {
      other := (two - gone)[name := File(raw, true)];
      SameReplacement(one - gone, two - gone, name, File(raw, true));
      OthersChain(two, two - gone, other);
    }
  }

  /** What a save or completion may leave of the counted names depends on the counted names alone. */
  lemma EvidenceSeesCounted(rules: Retention.Rules, one: Files, two: Files, call: Retention.Call, after: Files)
    returns (other: Files)
    requires SameCountedNames(one, two) && Retention.Leaves(rules, one, call, after)
    ensures Retention.Leaves(rules, two, call, other)
    ensures SameCountedNames(after, other) && SameOtherNames(two, other)
  {
    other := two;
    if after != one {
      match call {
        case Save(context) =>
          var victims :| Retention.SaveLeaves(rules, one, context, victims, after);
          other := SaveSeesCounted(rules, one, two, context, victims, after);
        case Complete(id, completion) =>
          var context: Retention.Context, victims, staging :|
            && context.operationId == id
            && Retention.CompleteLeaves(rules, one, context, completion, victims, staging, after);
          other := CompleteSeesCounted(rules, one, two, context, completion, victims, staging, after);
      }
    }
  }

  // ---------------------------------------------------------------- the acknowledgement store

  lemma SameAcknowledgements(before: Files, after: Files)
    requires Acknowledgements.Reserved(before)
    requires SameOtherNames(before, after)
    ensures Acknowledgements.Reserved(after)
    ensures Acknowledgements.Intents(after) == Acknowledgements.Intents(before)
    ensures Acknowledgements.Proofs(after) == Acknowledgements.Proofs(before)
  {
    forall name | name in after ensures Acknowledgements.Sound(name, after[name]) {
      if !Retention.Counted(name) {
        assert AgreeOn(before, after, name);
        assert Acknowledgements.Sound(name, before[name]);
      }
    }
    SameSize(before, after);
    SameDigests(before, after);
  }

  lemma SameSize(before: Files, after: Files)
    requires SameOtherNames(before, after)
    ensures Acknowledgements.AckNames(before) == Acknowledgements.AckNames(after)
    ensures Acknowledgements.Size(before) == Acknowledgements.Size(after)
  {
    forall name ensures name in Acknowledgements.AckNames(before) <==> name in Acknowledgements.AckNames(after) {
      assert Acknowledgements.AckFile(name) ==> AgreeOn(before, after, name);
    }
    forall name | name in Acknowledgements.AckNames(before) ensures after[name] == before[name] {
      assert AgreeOn(before, after, name);
    }
    assert Acknowledgements.AckNames(before) == Acknowledgements.AckNames(after);
    Retention.SameBytes(before, after, Acknowledgements.AckNames(before));
  }

  lemma SameDigests(before: Files, after: Files)
    requires SameOtherNames(before, after)
    ensures Acknowledgements.Intents(after) == Acknowledgements.Intents(before)
    ensures Acknowledgements.Proofs(after) == Acknowledgements.Proofs(before)
  {
    forall d ensures d in Acknowledgements.Intents(after) <==> d in Acknowledgements.Intents(before) {
      assert AgreeOn(before, after, Intent(d));
      assert d in Acknowledgements.Intents(after) <==> Intent(d) in after;
      assert d in Acknowledgements.Intents(before) <==> Intent(d) in before;
    }
    forall d ensures d in Acknowledgements.Proofs(after) <==> d in Acknowledgements.Proofs(before) {
      assert AgreeOn(before, after, Proof(d));
      assert d in Acknowledgements.Proofs(after) <==> Proof(d) in after;
      assert d in Acknowledgements.Proofs(before) <==> Proof(d) in before;
    }
  }

  lemma SameRoom(one: Files, two: Files, name: Name, raw: seq<byte>)
    requires SameOtherNames(one, two) && Acknowledgements.AckFile(name)
    requires Acknowledgements.Admitted(one, name, raw)
    ensures Acknowledgements.Admitted(two, name, raw)
  {
    assert AgreeOn(one, two, name);
    SameDigests(one, two);
    SameSize(one, two);
    forall n | n in two ensures Acknowledgements.Sound(n, two[n]) {
      if !Retention.Counted(n) {
        assert AgreeOn(one, two, n);
        assert Acknowledgements.Sound(n, one[n]);
      }
    }
  }

  lemma SameNote(one: Files, two: Files, name: Name, raw: seq<byte>, after: Files) returns (other: Files)
    requires SameOtherNames(one, two) && !Retention.Counted(name) && Written(one, name, raw, after)
    ensures Written(two, name, raw, other) && SameOtherNames(after, other) && SameCountedNames(two, other)
  {
    other := if after == one then two else two[name := after[name]];
    forall n | !Retention.Counted(n) ensures AgreeOn(after, other, n) {
      assert AgreeOn(one, two, n);
    }
  }

  /** What a write may leave of the other names depends on the other names alone. */
  lemma AcknowledgementSeesOthers(one: Files, two: Files, name: Name, raw: seq<byte>, after: Files)
    returns (other: Files)
    requires SameOtherNames(one, two) && Acknowledgements.AckFile(name)
    requires Acknowledgements.Leaves(one, name, raw, after)
    ensures Acknowledgements.Leaves(two, name, raw, other)
    ensures SameOtherNames(after, other) && SameCountedNames(two, other)
  {
    other := two;
    if after != one {
      SameRoom(one, two, name, raw);
      other := SameNote(one, two, name, raw, after);
    }
  }
}
