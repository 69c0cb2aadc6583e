/**
 The administrative acknowledgement store: immutable intents, later evidence, and a
 reservation that keeps room for the evidence of every pending intent.
 */
module Acknowledgements {
  import opened Wrappers
  import opened PrivateDirectory
  import Retention

  const MAX_FILE_BYTES: nat := 8192
  const MAX_FILES: nat := 64
  const MAX_INTENTS: nat := 32
  const MAX_TOTAL_BYTES: nat := 256 * 1024

  datatype Error = InvalidContext | InvalidCompletion | Conflict | Capacity | Unavailable | RetentionUncertain

  // A stored value with the outer request id its comparison leaves out.
  datatype Value = Value(requestId: nat, body: seq<byte>)

  type Decoder = seq<byte> -> Option<Value>

  predicate AckFile(name: Name) { name.Intent? || name.Proof? }

  ghost function AckNames(files: Files): set<Name> { set name | name in files && AckFile(name) }

  ghost function Intents(files: Files): set<nat> { set name | name in files && name.Intent? :: name.digest }

  ghost function Proofs(files: Files): set<nat> { set name | name in files && name.Proof? :: name.digest }

  ghost function Size(files: Files): nat { Retention.Bytes(files, AckNames(files)) }

  ghost predicate Clean(files: Files) {
    forall name :: name in files ==> Sound(name, files[name])
  }

  /** No stray name under the prefix, and every acknowledgement file readable. */
  predicate Sound(name: Name, file: File) {
    !name.StrayAck? && (AckFile(name) ==> file.private && |file.bytes| <= MAX_FILE_BYTES)
  }

  /** What every run keeps: bounded intents, proofs only for intents, reserved bytes. */
  ghost predicate Reserved(files: Files) {
    && Clean(files)
    && |Intents(files)| <= MAX_INTENTS
    && Proofs(files) <= Intents(files)
    && Size(files) + MAX_FILE_BYTES * |Intents(files) - Proofs(files)| <= MAX_TOTAL_BYTES
  }

  /** Admission of one new file of `size` bytes. */
  ghost predicate Room(files: Files, name: Name, size: nat)
    requires AckFile(name)
  {
    var intents := Intents(files) + if name.Intent? then {name.digest} else {};
    var proofs := Proofs(files) + if name.Proof? then {name.digest} else {};
    && |AckNames(files)| + 1 <= MAX_FILES
    && |intents| <= MAX_INTENTS && proofs <= intents
    && Size(files) + size + MAX_FILE_BYTES * |intents - proofs| <= MAX_TOTAL_BYTES
  }

  /** Two retained values count as the same: intents may differ in the outer request id. */
  predicate Same(decode: Decoder, name: Name, existing: seq<byte>, raw: seq<byte>) {
    existing == raw ||
    (var a, b := decode(existing), decode(raw);
     a.Some? && b.Some? && (if name.Intent? then a.value.body == b.value.body else a == b))
  }

  /** Content one write may leave, wherever it stops. */
  ghost predicate Leaves(before: Files, name: Name, raw: seq<byte>, after: Files)
    requires AckFile(name)
  {
    after == before || (Admitted(before, name, raw) && Written(before, name, raw, after))
  }

  ghost predicate Admitted(files: Files, name: Name, raw: seq<byte>)
    requires AckFile(name)
  {
    name !in files && |raw| <= MAX_FILE_BYTES && Clean(files) && Room(files, name, |raw|)
  }

  /** An intent is retained and its evidence is not. */
  ghost predicate Outstanding(files: Files, digest: nat) {
    Intent(digest) in files && Proof(digest) !in files
  }

  lemma OutstandingDigest(files: Files, digest: nat)
    ensures Outstanding(files, digest) <==> digest in Intents(files) - Proofs(files)
  {
    assert digest in Intents(files) <==> Intent(digest) in files;
    assert digest in Proofs(files) <==> Proof(digest) in files;
  }

  // ---------------------------------------------------------------- the reservation

  lemma AfterAdding(files: Files, name: Name, file: File)
    requires AckFile(name) && name !in files
    ensures var after := files[name := file];
      && AckNames(after) == AckNames(files) + {name}
      && Intents(after) == Intents(files) + (if name.Intent? then {name.digest} else {})
      && Proofs(after) == Proofs(files) + (if name.Proof? then {name.digest} else {})
      && Size(after) == Size(files) + |file.bytes|
  {
    var after := files[name := file];
    var kept := AckNames(files);
    assert AckNames(after) == kept + {name};
    Retention.BytesPick(after, kept + {name}, name);
    assert kept + {name} - {name} == kept;
    Retention.SameBytes(files, after, kept);
    forall d ensures d in Intents(after) <==> d in Intents(files) + if name.Intent? then {name.digest} else {} {
      assert Intent(d) in after <==> Intent(d) in files || name == Intent(d);
      assert d in Intents(after) <==> Intent(d) in after;
      assert d in Intents(files) <==> Intent(d) in files;
    }
    forall d ensures d in Proofs(after) <==> d in Proofs(files) + if name.Proof? then {name.digest} else {} {
      assert Proof(d) in after <==> Proof(d) in files || name == Proof(d);
      assert d in Proofs(after) <==> Proof(d) in after;
      assert d in Proofs(files) <==> Proof(d) in files;
    }
  }

  /** A write cut off anywhere keeps the reservation. */
  lemma WriteKeepsReservation(before: Files, name: Name, raw: seq<byte>, after: Files)
    requires AckFile(name) && Reserved(before) && Leaves(before, name, raw, after)
    ensures Reserved(after)
  {
    if after != before {
      AfterAdding(before, name, after[name]);
      assert |after[name].bytes| <= |raw|;
      CleanGrows(before, name, after[name]);
    }
  }

  lemma CleanGrows(files: Files, name: Name, file: File)
    requires Clean(files) && Sound(name, file)
    ensures Clean(files[name := file])
  {
  }

  lemma {:induction false} FileCount(files: Files)
    ensures |AckNames(files)| == |Intents(files)| + |Proofs(files)|
    decreases |files|
  {
    if AckNames(files) == {} {
      assert Intents(files) == {} && Proofs(files) == {};
    } else {
      var name :| name in AckNames(files);
      var fewer := files - {name};
      AfterAdding(fewer, name, files[name]);
      assert fewer[name := files[name]] == files;
      assert |files| == |fewer| + 1 by { assert files.Keys == fewer.Keys + {name}; }
      FileCount(fewer);
      assert name !in AckNames(fewer);
      if name.Intent? {
        assert name.digest !in Intents(fewer);
      } else {
        assert name.digest !in Proofs(fewer);
      }
    }
  }

  /** The evidence of any pending intent is admitted: neither bytes, counts nor the file cap stop it. */
  lemma PendingEvidenceFits(files: Files, digest: nat, size: nat)
    requires Reserved(files) && digest in Intents(files) - Proofs(files) && size <= MAX_FILE_BYTES
    ensures Room(files, Proof(digest), size)
  {
    var intents, proofs := Intents(files), Proofs(files);
    var pending := intents - proofs;
    assert intents - (proofs + {digest}) == pending - {digest};
    assert |pending| == |pending - {digest}| + 1;
    FileCount(files);
    assert proofs <= intents - {digest};
    Retention.MoreThan(proofs, intents - {digest});
  }

  /** The limits in numbers, with 8192 bytes kept for the evidence of every intent that has none. */
  ghost predicate WithinLimits(files: Files) {
    && |Intents(files)| <= 32 && Proofs(files) <= Intents(files)
    && Size(files) + 8192 * |Intents(files) - Proofs(files)| <= 262144
  }

  /** Admission is exact: a file is refused only if its content would break a limit; the file cap never decides. */
  lemma AdmitsExactly(files: Files, name: Name, raw: seq<byte>)
    requires AckFile(name) && Reserved(files) && name !in files && |raw| <= 8192
    ensures WithinLimits(files) && |AckNames(files)| <= 64
    ensures Room(files, name, |raw|) <==> WithinLimits(files[name := File(raw, true)])
  {
    var after := files[name := File(raw, true)];
    AfterAdding(files, name, File(raw, true));
    LimitsBoundFiles(files);
    if WithinLimits(after) { LimitsBoundFiles(after); }
    assert name !in AckNames(files);
  }

  /** At most 64 files come of at most 32 intents and no stray proof. */
  lemma LimitsBoundFiles(files: Files)
    requires WithinLimits(files)
    ensures |AckNames(files)| <= 64
  {
    FileCount(files);
    Retention.MoreThan(Proofs(files), Intents(files));
  }

  /** When a second value under a name counts as the first: byte for byte, or, decoded, up to what may differ. */
  lemma SameMeans(decode: Decoder, name: Name, existing: seq<byte>, raw: seq<byte>)
    requires AckFile(name)
    ensures Same(decode, name, existing, raw) <==>
      || existing == raw
      || (&& decode(existing).Some? && decode(raw).Some?
          && decode(existing).value.body == decode(raw).value.body
          && (name.Proof? ==> decode(existing).value.requestId == decode(raw).value.requestId))
  {
  }

  /** A run of writes, each stopped anywhere. */
  datatype Write = Write(name: Name, raw: seq<byte>)

  ghost predicate WriteAt(contents: seq<Files>, writes: seq<Write>, i: nat)
    requires |contents| == |writes| + 1 && i < |writes|
  {
    AckFile(writes[i].name) && Leaves(contents[i], writes[i].name, writes[i].raw, contents[i + 1])
  }

  ghost predicate Run(contents: seq<Files>, writes: seq<Write>) {
    && |contents| == |writes| + 1
    && forall i :: 0 <= i < |writes| ==> WriteAt(contents, writes, i)
  }

  lemma {:induction false} RunKeepsReservation(contents: seq<Files>, writes: seq<Write>, at: nat)
    requires Run(contents, writes) && Reserved(contents[0]) && at < |contents|
    ensures Reserved(contents[at])
  {
    if at > 0 {
      RunKeepsReservation(contents, writes, at - 1);
      assert WriteAt(contents, writes, at - 1);
      WriteKeepsReservation(contents[at - 1], writes[at - 1].name, writes[at - 1].raw, contents[at]);
    }
  }

  /** Intents and evidence are write-once: no later write changes or removes them. */
  lemma {:induction false} RunIsAppendOnly(contents: seq<Files>, writes: seq<Write>, name: Name, at: nat)
    requires Run(contents, writes) && at < |contents| && name in contents[0]
    ensures name in contents[at] && contents[at][name] == contents[0][name]
  {
    if at > 0 {
      RunIsAppendOnly(contents, writes, name, at - 1);
      assert WriteAt(contents, writes, at - 1);
    }
  }

  /** From any state a run can reach, the evidence of every pending intent fits. */
  lemma ReachablePendingFits(contents: seq<Files>, writes: seq<Write>, at: nat, digest: nat, size: nat)
    requires Run(contents, writes) && contents[0] == map[] && at < |contents|
    requires digest in Intents(contents[at]) - Proofs(contents[at]) && size <= MAX_FILE_BYTES
    ensures Room(contents[at], Proof(digest), size)
  {
    assert AckNames(contents[0]) == {} && Intents(contents[0]) == {};
    RunKeepsReservation(contents, writes, at);
    PendingEvidenceFits(contents[at], digest, size);
  }

  lemma FileOne(files: Files, digest: nat, raw: seq<byte>)
    requires Reserved(files) && digest in Intents(files) - Proofs(files) && |raw| <= MAX_FILE_BYTES
    ensures Room(files, Proof(digest), |raw|)
    ensures Reserved(files[Proof(digest) := File(raw, true)])
    ensures Intents(files[Proof(digest) := File(raw, true)]) == Intents(files)
    ensures Proofs(files[Proof(digest) := File(raw, true)]) == Proofs(files) + {digest}
  {
    PendingEvidenceFits(files, digest, |raw|);
    var name := Proof(digest);
    assert name !in files by { assert digest !in Proofs(files); }
    AfterAdding(files, name, File(raw, true));
    var after := files[name := File(raw, true)];
    assert Written(files, name, raw, after);
    WriteKeepsReservation(files, name, raw, after);
  }

  datatype Evidence = Evidence(digest: nat, raw: seq<byte>)

  function Filed(files: Files, evidence: seq<Evidence>): Files {
    if evidence == [] then files
    else
      var last := evidence[|evidence| - 1];
      Filed(files, evidence[..|evidence| - 1])[Proof(last.digest) := File(last.raw, true)]
  }

  ghost function DigestsOf(evidence: seq<Evidence>): set<nat> {
    if evidence == [] then {}
    else DigestsOf(evidence[..|evidence| - 1]) + {evidence[|evidence| - 1].digest}
  }

  /** One bounded piece of evidence for each of some pending intents. */
  ghost predicate ForPending(files: Files, evidence: seq<Evidence>) {
    evidence == [] ||
    (var rest, last := evidence[..|evidence| - 1], evidence[|evidence| - 1];
     && ForPending(files, rest)
     && last.digest in Intents(files) - Proofs(files) - DigestsOf(rest)
     && |last.raw| <= MAX_FILE_BYTES)
  }

  /** The reservation still holds and exactly these digests have gained their evidence. */
  ghost predicate Extends(files: Files, digests: set<nat>, after: Files) {
    Reserved(after) && Intents(after) == Intents(files) && Proofs(after) == Proofs(files) + digests
  }

  lemma ExtendOne(files: Files, digests: set<nat>, before: Files, last: Evidence)
    requires Extends(files, digests, before)
    requires last.digest in Intents(files) - Proofs(files) - digests && |last.raw| <= MAX_FILE_BYTES
    ensures Extends(files, digests + {last.digest}, before[Proof(last.digest) := File(last.raw, true)])
  {
    Regroup(Proofs(files), digests, {last.digest});
    FileOne(before, last.digest, last.raw);
  }

  lemma Regroup(a: set<nat>, b: set<nat>, c: set<nat>)
    ensures a + b + c == a + (b + c)
  {
  }

  lemma {:induction false} FilingKeepsReservation(files: Files, evidence: seq<Evidence>)
    requires Reserved(files) && ForPending(files, evidence)
    ensures Extends(files, DigestsOf(evidence), Filed(files, evidence))
  {
    if evidence != [] {
      var rest := evidence[..|evidence| - 1];
      FilingKeepsReservation(files, rest);
      ExtendOne(files, DigestsOf(rest), Filed(files, rest), evidence[|evidence| - 1]);
    }
  }

  /** Filing evidence for all pending intents, in any order, is never refused for capacity. */
  lemma {:induction false} AllPendingEvidenceFits(files: Files, evidence: seq<Evidence>, at: nat)
    requires Reserved(files) && ForPending(files, evidence) && at < |evidence|
    ensures Room(Filed(files, evidence[..at]), Proof(evidence[at].digest), |evidence[at].raw|)
    decreases |evidence|
  {
    var last := |evidence| - 1;
    if at == last {
      FilingKeepsReservation(files, evidence[..at]);
      PendingEvidenceFits(Filed(files, evidence[..at]), evidence[at].digest, |evidence[at].raw|);
    } else {
      PrefixOfPrefix(evidence, at, last);
      AllPendingEvidenceFits(files, evidence[..last], at);
    }
  }
}
