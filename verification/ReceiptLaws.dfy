/**
 Which replies are accepted, written out in their fields: first without, then against the evidence
 retained for an operation. The verified ones are the subject of `Receipts.VerifiedIsExactly`.
 */
module ReceiptLaws {
  import opened Wrappers
  import opened Receipts
  import Transfer

  // ---------------------------------------------------------------- without a context

  /** A refusal names one of the codes the protocol has and is not sent as accepted. */
  ghost predicate Refuses(data: Data, status: Status) {
    && data.body.Refusal? && (status == Rejected || status == Unsupported)
    && data.body.code in {
         "invalid_request", "envelope_too_large", "runtime_changed", "busy", "expired", "operation_conflict",
         "transaction_not_found", "out_of_order", "chunk_conflict", "incomplete", "hash_mismatch",
         "revision_conflict", "binding_changed", "policy_denied", "unsupported_persistence", "codec_error",
         "not_ready", "reconciliation_required", "storage_unavailable", "limits_exceeded"}
  }

  ghost predicate Correlated(request: Request, data: Data) {
    && data.version == 1 && data.runtime == request.runtime
    && (request.Snapshot? <==> data.op == SnapshotOp) && (request.Begin? <==> data.op == BeginOp)
    && (request.Append? <==> data.op == AppendOp) && (request.Preview? <==> data.op == PreviewOp)
    && (request.Commit? <==> data.op == CommitOp) && (request.Query? <==> data.op == StatusOp)
    && (request.Abort? <==> data.op == AbortOp)
  }

  /** A request the protocol has: sizes that fill their chunks, within a megabyte and 256 chunks of 8 KiB. */
  ghost predicate Askable(request: Request) {
    && (request.Begin? ==>
          && request.persistent && request.size <= 1048576 && 1 <= request.chunkCount <= 256
          && request.chunkCount <= request.size <= request.chunkCount * 8192)
    && (request.Append? ==>
          && request.chunk.seqNo <= 255 && 1 <= request.chunk.payload.size <= 8192
          && request.chunk.offset + request.chunk.payload.size <= 1048576)
  }

  /** Progress within these ends, filling its chunks, and with clocks in order. */
  ghost predicate Advanced(progress: Progress, chunks: nat, bytes: nat) {
    && progress.nextSeq <= chunks && progress.receivedBytes <= bytes
    && progress.nextSeq <= progress.receivedBytes && progress.receivedBytes <= 8192 * progress.nextSeq
    && progress.idleExpires <= progress.absoluteExpires
  }

  ghost predicate Counted(counts: Counts) {
    && counts.lists <= 1000000 && counts.memberships <= 1000000 && counts.media <= 1000000
    && counts.unresolved <= 1000000 && counts.unresolved <= counts.memberships + counts.media
  }

  /** Outcomes store by store: none named twice, at most 64, and none that contradicts the total. */
  ghost predicate PerStore(rows: seq<Row>, outcome: Outcome) {
    && |rows| <= 64
    && (forall i, j :: 0 <= i < j < |rows| ==> rows[i].id != rows[j].id)
    && (outcome == Verified ==> rows != [] && forall i :: 0 <= i < |rows| ==> rows[i].outcome == Verified)
    && (outcome == NotApplied ==> forall i :: 0 <= i < |rows| ==> rows[i].outcome == NotApplied)
    && (outcome == Partial ==>
          && (forall i :: 0 <= i < |rows| ==> rows[i].outcome != Unknown)
          && exists i, j :: 0 <= i < |rows| && 0 <= j < |rows| && MixedAt(rows, i, j))
  }

  /** A partial row, or a verified one beside one not applied. */
  ghost predicate MixedAt(rows: seq<Row>, i: nat, j: nat)
    requires i < |rows| && j < |rows|
  {
    rows[i].outcome == Partial || (rows[i].outcome == Verified && rows[j].outcome == NotApplied)
  }

  lemma RowsMean(rows: seq<Row>, outcome: Outcome)
    ensures ValidRows(rows, outcome) <==> PerStore(rows, outcome)
  {
    assert Distinct(Ids(rows)) <==> forall i, j :: 0 <= i < j < |rows| ==> rows[i].id != rows[j].id by {
      assert forall i :: 0 <= i < |rows| ==> Ids(rows)[i] == rows[i].id;
    }
    if outcome == Partial { PartialMeans(rows); }
    AllMean(rows, outcome);
  }

  lemma AllMean(rows: seq<Row>, outcome: Outcome)
    ensures (forall row :: row in rows ==> row.outcome == outcome) <==>
      forall i :: 0 <= i < |rows| ==> rows[i].outcome == outcome
  {
  }

  lemma PartialMeans(rows: seq<Row>)
    ensures Agrees(rows, Partial) <==>
      && (forall i :: 0 <= i < |rows| ==> rows[i].outcome != Unknown)
      && exists i, j :: 0 <= i < |rows| && 0 <= j < |rows| && MixedAt(rows, i, j)
  {
    if row :| row in rows && row.outcome == Partial {
      var i :| 0 <= i < |rows| && rows[i] == row;
      assert MixedAt(rows, i, i);
    }
    if one, two :| one in rows && two in rows && one.outcome == Verified && two.outcome == NotApplied {
      var i :| 0 <= i < |rows| && rows[i] == one;
      var j :| 0 <= j < |rows| && rows[j] == two;
      assert MixedAt(rows, i, j);
    }
    if i, j :| 0 <= i < |rows| && 0 <= j < |rows| && MixedAt(rows, i, j) {
      assert rows[i] in rows && rows[j] in rows;
    }
  }

  lemma SnapshotAccepted(request: Request, data: Data, status: Status)
    requires request.Snapshot?
    ensures Valid(Checked(request, data, status)) <==>
      && Correlated(request, data)
      && (Refuses(data, status) ||
          (&& status == Accepted && data.body.SnapshotOf? && data.body.scope == request.scope && data.body.sound))
  {
  }

  lemma BeginAccepted(request: Request, data: Data, status: Status)
    requires request.Begin?
    ensures Valid(Checked(request, data, status)) <==>
      && Askable(request) && Correlated(request, data)
      && (Refuses(data, status) ||
          (&& status == Accepted && data.body.Begun? && data.body.operationId == request.operationId
           && Advanced(data.body.progress, request.chunkCount, request.size)))
  {
  }

  lemma AppendAccepted(request: Request, data: Data, status: Status)
    requires request.Append?
    ensures Valid(Checked(request, data, status)) <==>
      && Askable(request) && Correlated(request, data)
      && (Refuses(data, status) ||
          (&& status == Accepted && data.body.Appended? && data.body.transactionId == request.transactionId
           && data.body.reply.nextSeq == request.chunk.seqNo + 1
           && data.body.reply.receivedBytes == request.chunk.offset + request.chunk.payload.size))
  {
  }

  lemma PreviewAccepted(request: Request, data: Data, status: Status)
    requires request.Preview?
    ensures Valid(Checked(request, data, status)) <==>
      && Correlated(request, data)
      && (Refuses(data, status) ||
          (&& status == Accepted && data.body.Previewed? && data.body.transactionId == request.transactionId
           && data.body.persistent && Counted(data.body.counts)
           && data.body.diagnostics <= 128 && data.body.diagnostics <= data.body.counts.unresolved
           && 1 <= |data.body.stores| <= 64
           && forall i, j :: 0 <= i < j < |data.body.stores| ==> data.body.stores[i].id != data.body.stores[j].id))
  {
    if data.body.Previewed? {
      assert forall i :: 0 <= i < |data.body.stores| ==> PlannedIds(data.body.stores)[i] == data.body.stores[i].id;
    }
  }

  lemma AbortAccepted(request: Request, data: Data, status: Status)
    requires request.Abort?
    ensures Valid(Checked(request, data, status)) <==>
      && Correlated(request, data)
      && (Refuses(data, status) ||
          (&& status == Accepted && data.body.Aborted? && data.body.transactionId == request.transactionId
           && data.body.outcome == NotApplied && data.body.persistent && data.body.perStore == []))
  {
  }

  /** The receipt of a verified reply: persistent, verified, and counted within the protocol. */
  ghost predicate Attests(receipt: Receipt) {
    receipt.persistent && receipt.outcome == Verified && Counted(receipt.counts)
  }

  lemma StatusAccepted(request: Request, data: Data, status: Status)
    requires request.Query?
    ensures Valid(Checked(request, data, status)) <==>
      && Correlated(request, data)
      && (Refuses(data, status) || (status == Accepted && (
          || (&& data.body.Staged? && data.body.operationId == request.operationId && data.body.persistent
              && Advanced(data.body.progress, 256, 1048576)
              && (data.body.readiness.Some? ==> data.body.progress.nextSeq >= 1))
          || (&& data.body.Ended? && data.body.operationId == request.operationId && data.body.persistent
              && data.body.outcome == NotApplied && data.body.perStore == [])
          || (&& data.body.Committed? && data.body.operationId == request.operationId && data.body.persistent
              && PerStore(data.body.perStore, data.body.outcome)
              && (data.body.outcome == Verified ==>
                    && data.body.receipt.Some? && Attests(data.body.receipt.value)
                    && data.body.receipt.value.operationId == request.operationId)
              && (data.body.outcome != Verified ==> data.body.receipt.None?)))))
  {
    if data.body.Committed? { RowsMean(data.body.perStore, data.body.outcome); }
  }

  lemma CommitAccepted(request: Request, data: Data, status: Status)
    requires request.Commit?
    ensures Valid(Checked(request, data, status)) <==>
      && Correlated(request, data)
      && (Refuses(data, status) ||
          (&& status == Accepted && data.body.CommitReply? && data.body.transactionId == request.transactionId
           && data.body.operationId == request.operationId && data.body.persistent
           && PerStore(data.body.perStore, data.body.outcome)
           && (data.body.outcome == Verified ==>
                 data.body.receipt.Some? && data.body.claims.Some? && Spells(request, data.body))
           && (data.body.outcome != Verified ==> data.body.receipt.None? && data.body.claims.None?)))
  {
    if data.body.CommitReply? { RowsMean(data.body.perStore, data.body.outcome); }
  }

  /** The inner receipt repeats, field by field, what the reply says outside it, for the plan of the request. */
  ghost predicate Spells(request: Request, body: Body)
    requires request.Commit? && body.CommitReply? && body.receipt.Some? && body.claims.Some?
  {
    var receipt, claims := body.receipt.value, body.claims.value;
    && Attests(receipt) && receipt.planDigest == request.planDigest
    && receipt.operationId == body.operationId && receipt.scope == body.scope
    && receipt.newRevision == claims.newRevision && receipt.documentSha == claims.documentSha
    && receipt.planDigest == claims.planDigest && receipt.counts == claims.counts
  }

  // ---------------------------------------------------------------- against retained evidence

  /** Every store a row names was planned. */
  ghost predicate OfPlan(rows: seq<Row>, stores: seq<Planned>) {
    forall i :: 0 <= i < |rows| ==> exists j :: 0 <= j < |stores| && stores[j].id == rows[i].id
  }

  lemma OfPlanMeans(rows: seq<Row>, stores: seq<Planned>)
    ensures BoundStores(rows, stores) <==> OfPlan(rows, stores)
  {
    if BoundStores(rows, stores) {
      forall i | 0 <= i < |rows| ensures exists j :: 0 <= j < |stores| && stores[j].id == rows[i].id {
        assert Ids(rows)[i] in IdSet(Ids(rows));
        var j :| 0 <= j < |stores| && PlannedIds(stores)[j] == rows[i].id;
        assert stores[j].id == rows[i].id;
      }
    }
    if OfPlan(rows, stores) {
      forall id | id in IdSet(Ids(rows)) ensures id in IdSet(PlannedIds(stores)) {
        var i :| 0 <= i < |rows| && Ids(rows)[i] == id;
        var j :| 0 <= j < |stores| && stores[j].id == rows[i].id;
        assert PlannedIds(stores)[j] == id;
      }
    }
  }

  /** The operation the evidence is for, asked about on the runtime it may be asked on. */
  ghost predicate AskedOf(context: Context, request: Request)
    requires request.Commit? || request.Query?
    requires context.begin.Begin?
  {
    && request.operationId == context.begin.operationId
    && request.runtime == (if context.statusRuntime.None? then context.begin.runtime else context.statusRuntime.value)
  }

  /** A staged status stands only on the original runtime, within the begun transfer, and ready only when whole. */
  lemma StagedExactly(context: Context, request: Request, data: Data)
    requires Retained(context) && request.Query? && data.body.Staged?
    requires Valid(Checked(request, data, Accepted))
    ensures Validate(request, data, Accepted, Some(context)) != Ok(true)
    ensures Validate(request, data, Accepted, Some(context)) == Ok(false) <==>
      && AskedOf(context, request) && request.runtime == context.begin.runtime
      && data.body.transactionId == context.begun.body.transactionId
      && data.body.progress.nextSeq <= context.begin.chunkCount
      && data.body.progress.receivedBytes <= context.begin.size
      && (data.body.readiness.Some? ==>
            && data.body.progress.nextSeq == context.begin.chunkCount
            && data.body.progress.receivedBytes == context.begin.size
            && data.body.readiness.value.planDigest == context.preview.body.planDigest
            && data.body.readiness.value.baseRevision == context.begin.expectedRevision
            && data.body.readiness.value.bindingRevision == context.begin.bindingRevision)
  {
  }

  /** So does an aborted or expired one, for the transaction and scope that were begun. */
  lemma EndedExactly(context: Context, request: Request, data: Data)
    requires Retained(context) && request.Query? && data.body.Ended?
    requires Valid(Checked(request, data, Accepted))
    ensures Validate(request, data, Accepted, Some(context)) != Ok(true)
    ensures Validate(request, data, Accepted, Some(context)) == Ok(false) <==>
      && AskedOf(context, request) && request.runtime == context.begin.runtime
      && data.body.transactionId == context.begun.body.transactionId && data.body.scope == context.begin.scope
  {
  }

  /** A committed status that is not verified stands on any runtime, for stores that were planned. */
  lemma UnverifiedStatusExactly(context: Context, request: Request, data: Data)
    requires Retained(context) && request.Query? && data.body.Committed? && data.body.outcome != Verified
    requires Valid(Checked(request, data, Accepted))
    ensures Validate(request, data, Accepted, Some(context)) != Ok(true)
    ensures Validate(request, data, Accepted, Some(context)) == Ok(false) <==>
      AskedOf(context, request) && OfPlan(data.body.perStore, context.preview.body.stores)
  {
    OfPlanMeans(data.body.perStore, context.preview.body.stores);
  }

  /** A commit reply that is not verified stands before any restart only, for the commit that was previewed. */
  lemma UnverifiedCommitExactly(context: Context, request: Request, data: Data)
    requires Retained(context) && request.Commit? && data.body.CommitReply? && data.body.outcome != Verified
    requires Valid(Checked(request, data, Accepted))
    ensures Validate(request, data, Accepted, Some(context)) != Ok(true)
    ensures Validate(request, data, Accepted, Some(context)) == Ok(false) <==>
      && AskedOf(context, request) && context.statusRuntime.None?
      && request.transactionId == context.begun.body.transactionId
      && request.expectedRevision == context.begin.expectedRevision
      && request.planDigest == context.preview.body.planDigest
      && data.body.scope == context.begin.scope
      && OfPlan(data.body.perStore, context.preview.body.stores)
  {
    OfPlanMeans(data.body.perStore, context.preview.body.stores);
  }
}
