/**
 The two halves together: the store may reclaim a record only on the strength of a stored
 reply, and that reply must be a verified receipt under the record's own evidence.
 */
module Reclamation {
  import opened Wrappers
  import opened PrivateDirectory
  import Retention
  import Receipts

  // A stored completion, parsed back into the exchange it records.
  datatype Exchange = Exchange(request: Receipts.Request, data: Receipts.Data, status: Receipts.Status)

  // How the private store reads contexts and completions, and prints a receipt.
  datatype Codec = Codec(
    restore: Retention.Context -> Option<Receipts.Context>,
    exchange: Retention.Completion -> Option<Exchange>,
    operation: nat -> string,
    show: Receipts.Receipt -> seq<byte>)
  {
    /** Revalidation of a stored completion, under the context restored from the same record. */
    function Proof(context: Retention.Context, completion: Retention.Completion): Option<seq<byte>> {
      match (restore(context), exchange(completion))
      case (Some(retained), Some(stored)) =>
        if Receipts.Validate(stored.request, stored.data, stored.status, Some(retained)) == Ok(true)
           && (stored.request.Commit? || stored.request.Query?)
           && stored.request.operationId == operation(context.operationId)
           && Receipts.ReceiptOf(stored.data.body).Some?
        then Some(show(Receipts.ReceiptOf(stored.data.body).value))
        else None
      case _ => None
    }
  }

  /** The store revalidates with this codec, and restoring never grants a later runtime. */
  ghost predicate Uses(rules: Retention.Rules, codec: Codec) {
    && (forall context, completion :: rules.receipt(context, completion) == codec.Proof(context, completion))
    && (forall context :: codec.restore(context).Some? ==> Own(codec.restore(context).value))
  }

  predicate Own(context: Receipts.Context) { Receipts.Retained(context) && context.statusRuntime.None? }

  /** The record of this name holds a reply that its own begin and preview fully attest. */
  ghost predicate Attested(rules: Retention.Rules, codec: Codec, files: Files, name: Name) {
    var read := rules.Read(files, name);
    && read.Ok? && read.value.completion.Some?
    && var restored, stored := codec.restore(read.value.context), codec.exchange(read.value.completion.value);
    && restored.Some? && stored.Some? && Own(restored.value)
    && Receipts.Authorised(restored.value, stored.value.request)
    && stored.value.request.operationId == codec.operation(read.value.context.operationId)
    && stored.value.request.runtime == restored.value.begin.runtime
    && exists newRevision, rows ::
         && Receipts.Covers(rows, restored.value.preview.body.stores)
         && stored.value.data == Receipts.Attestation(restored.value, stored.value.request, newRevision, rows)
  }

  /** A stored completion that its own begin and preview attest, with this receipt. */
  ghost predicate Proves(codec: Codec, context: Retention.Context, completion: Retention.Completion, text: seq<byte>) {
    var restored, stored := codec.restore(context), codec.exchange(completion);
    && restored.Some? && stored.Some? && Own(restored.value) && stored.value.status == Receipts.Accepted
    && Receipts.Authorised(restored.value, stored.value.request)
    && stored.value.request.operationId == codec.operation(context.operationId)
    && exists newRevision, rows ::
         && Receipts.Covers(rows, restored.value.preview.body.stores)
         && stored.value.data == Receipts.Attestation(restored.value, stored.value.request, newRevision, rows)
         && text == codec.show(Receipts.Expected(restored.value, newRevision))
  }

  /** Revalidation accepts exactly the attested completions of this operation, and gives their receipt. */
  lemma ProofExactly(codec: Codec, context: Retention.Context, completion: Retention.Completion, text: seq<byte>)
    requires codec.restore(context).Some? ==> Own(codec.restore(context).value)
    ensures codec.Proof(context, completion) == Some(text) <==> Proves(codec, context, completion, text)
  {
    var restored, stored := codec.restore(context), codec.exchange(completion);
    if restored.Some? && stored.Some? {
      var own, request, data, status := restored.value, stored.value.request, stored.value.data, stored.value.status;
      Receipts.VerifiedIsExactly(own, request, data, status);
      if Receipts.Validate(request, data, status, Some(own)) == Ok(true) {
        Receipts.VerifiedReceipt(own, request, data);
        if status == Receipts.Accepted && Receipts.Authorised(own, request) {
          forall newRevision, rows |
            Receipts.Covers(rows, own.preview.body.stores)
            && data == Receipts.Attestation(own, request, newRevision, rows)
            ensures Receipts.ReceiptOf(data.body) == Some(Receipts.Expected(own, newRevision))
          {
            AttestedReceipt(own, request, newRevision, rows);
          }
        }
      }
    }
  }

  lemma AttestedReceipt(context: Receipts.Context, request: Receipts.Request, newRevision: string,
                        rows: seq<Receipts.Row>)
    requires Receipts.Retained(context) && Receipts.Authorised(context, request)
    ensures
      Receipts.ReceiptOf(Receipts.Attestation(context, request, newRevision, rows).body)
      == Some(Receipts.Expected(context, newRevision))
  {
  }

  /** Only attested records may ever be deleted. */
  lemma EvictableIsAttested(rules: Retention.Rules, codec: Codec, files: Files, name: Name)
    requires Uses(rules, codec) && rules.Evictable(files, name)
    ensures Attested(rules, codec, files, name)
  {
    var saved := rules.Read(files, name).value;
    var context, completion := saved.context, saved.completion.value;
    assert rules.Proven(context, completion);
    assert codec.Proof(context, completion).Some?;
    var restored, stored := codec.restore(context).value, codec.exchange(completion).value;
    Receipts.VerifiedIsExactly(restored, stored.request, stored.data, stored.status);
  }

  /** Over any run, a record that has disappeared had been attested before it did. */
  lemma {:induction false} DisappearedWasAttested(rules: Retention.Rules, codec: Codec, contents: seq<Files>,
                                                  calls: seq<Retention.Call>, name: Name, at: nat)
    requires Uses(rules, codec) && Retention.Run(rules, contents, calls) && at < |contents|
    requires name in contents[0] && name !in contents[at]
    ensures exists i :: 0 <= i < at && Attested(rules, codec, contents[i], name)
  {
    if name in contents[at - 1] {
      assert Retention.CallAt(rules, contents, calls, at - 1);
      Retention.StepKeepsFiles(rules, contents[at - 1], calls[at - 1], contents[at], name);
      EvictableIsAttested(rules, codec, contents[at - 1], name);
    } else {
      DisappearedWasAttested(rules, codec, contents, calls, name, at - 1);
    }
  }

  /** The completion was answered by another runtime than the one the operation began on. */
  predicate Foreign(codec: Codec, context: Retention.Context, completion: Retention.Completion) {
    match (codec.restore(context), codec.exchange(completion))
    case (Some(restored), Some(stored)) => stored.request.runtime != restored.begin.runtime
    case _ => true
  }

  /** The overall outcome a stored reply reports is something other than verified. */
  predicate Inconclusive(codec: Codec, completion: Retention.Completion) {
    match codec.exchange(completion)
    case Some(stored) => Receipts.ReceiptOf(stored.data.body).None?
    case None => true
  }

  lemma WeakIsUnproven(rules: Retention.Rules, codec: Codec, context: Retention.Context,
                       completion: Retention.Completion)
    requires Uses(rules, codec)
    requires Foreign(codec, context, completion) || Inconclusive(codec, completion)
    ensures !rules.Proven(context, completion)
  {
    if codec.Proof(context, completion).Some? {
      var restored, stored := codec.restore(context).value, codec.exchange(completion).value;
      assert Own(restored);
      Receipts.VerifiedIsExactly(restored, stored.request, stored.data, stored.status);
    }
  }

  /**
   Partial, unknown or refused outcomes, and even verified answers from a restarted player,
   never let an operation go: its record stays pending, with the exact context, for the whole run.
   */
  lemma {:induction false} WeakEvidenceKeepsPending(rules: Retention.Rules, codec: Codec, contents: seq<Files>,
                                                    calls: seq<Retention.Call>, context: Retention.Context, at: nat)
    requires Uses(rules, codec) && rules.Lossless() && Retention.Run(rules, contents, calls) && at < |contents|
    requires rules.Pending(contents[0], context)
    requires forall completion :: Retention.Complete(context.operationId, completion) in calls ==>
      Foreign(codec, context, completion) || Inconclusive(codec, completion)
    ensures rules.Pending(contents[at], context)
  {
    Retention.PendingSurvives(rules, contents, calls, context, at);
    if !rules.Pending(contents[at], context) {
      var i, completion :|
        && 0 < i <= at && calls[i - 1] == Retention.Complete(context.operationId, completion)
        && rules.Pending(contents[i - 1], context)
        && rules.Read(contents[i], Record(context.operationId))
           == Ok(Retention.Saved(rules.target, context, Some(completion)));
      assert calls[i - 1] in calls;
      WeakIsUnproven(rules, codec, context, completion);
      assert false;
    }
  }
}
