/**
 When a reply about a staged transfer counts as verified: its receipt must be the one the
 retained begin and preview determine, also after the player has been restarted.
 */
module Receipts {
  import opened Wrappers
  import Transfer

  const MAX_COUNT: nat := 1000000
  const MAX_STORES: nat := 64
  const MAX_DIAGNOSTICS: nat := 128

  datatype Error = InvalidProtocol | ContextMismatch

  datatype Outcome = Verified | NotApplied | Partial | Unknown

  datatype Status = Accepted | Rejected | Unsupported

  datatype Scope = Scope(profile: string, source: string, provider: string)

  datatype Counts = Counts(lists: nat, memberships: nat, media: nat, unresolved: nat)

  datatype Receipt = Receipt(
    operationId: string, scope: Scope, newRevision: string, documentSha: string, planDigest: string,
    counts: Counts, outcome: Outcome, persistent: bool)

  datatype Row = Row(id: string, outcome: Outcome)

  datatype Planned = Planned(id: string, expectedRevision: string)

  datatype Request =
    | Snapshot(runtime: string, scope: Scope)
    | Begin(runtime: string, operationId: string, scope: Scope, expectedRevision: string, bindingRevision: string,
            documentSha: string, size: nat, chunkCount: nat, persistent: bool)
    | Append(runtime: string, transactionId: string, chunk: Transfer.Chunk)
    | Preview(runtime: string, transactionId: string)
    | Commit(runtime: string, transactionId: string, operationId: string, expectedRevision: string, planDigest: string)
    | Query(runtime: string, operationId: string)
    | Abort(runtime: string, transactionId: string)

  datatype Progress = Progress(nextSeq: nat, receivedBytes: nat, idleExpires: int, absoluteExpires: int)

  datatype Readiness = Readiness(planDigest: string, baseRevision: string, bindingRevision: string)

  // The fields a verified commit repeats at its top level.
  datatype Claims = Claims(newRevision: string, documentSha: string, planDigest: string, counts: Counts)

  // One variant for each shape of reply; a reply of any other shape is Malformed.
  datatype Body =
    | Refusal(code: string)
    | SnapshotOf(scope: Scope, bindingRevision: string, sound: bool)
    | Begun(operationId: string, transactionId: string, progress: Progress)
    | Appended(transactionId: string, reply: Transfer.AppendReply)
    | Previewed(transactionId: string, planDigest: string, baseRevision: string, bindingRevision: string,
                counts: Counts, diagnostics: nat, ready: bool, persistent: bool, stores: seq<Planned>)
    | Staged(operationId: string, transactionId: string, persistent: bool, progress: Progress,
        readiness: Option<Readiness>)
    | Ended(operationId: string, transactionId: string, persistent: bool, scope: Scope, outcome: Outcome,
        perStore: seq<Row>)
    | CommitReply(transactionId: string, operationId: string, scope: Scope, outcome: Outcome, persistent: bool,
                  perStore: seq<Row>, claims: Option<Claims>, receipt: Option<Receipt>)
    | Committed(operationId: string, outcome: Outcome, persistent: bool, perStore: seq<Row>, receipt: Option<Receipt>)
    | Aborted(transactionId: string, outcome: Outcome, persistent: bool, perStore: seq<Row>)
    | Malformed

  datatype Op = SnapshotOp | BeginOp | AppendOp | PreviewOp | CommitOp | StatusOp | AbortOp

  datatype Data = Data(version: int, runtime: string, op: Op, body: Body)

  function OpOf(request: Request): Op {
    match request
    case Snapshot(_, _) => SnapshotOp
    case Begin(_, _, _, _, _, _, _, _, _) => BeginOp
    case Append(_, _, _) => AppendOp
    case Preview(_, _) => PreviewOp
    case Commit(_, _, _, _, _) => CommitOp
    case Query(_, _) => StatusOp
    case Abort(_, _) => AbortOp
  }

  const REFUSALS: set<string> := {
    "invalid_request", "envelope_too_large", "runtime_changed", "busy", "expired",
    "operation_conflict", "transaction_not_found", "out_of_order", "chunk_conflict",
    "incomplete", "hash_mismatch", "revision_conflict", "binding_changed", "policy_denied",
    "unsupported_persistence", "codec_error", "not_ready", "reconciliation_required",
    "storage_unavailable", "limits_exceeded"}

  // ---------------------------------------------------------------- checks that need no context

  predicate ValidRequest(request: Request) {
    match request
    case Begin(_, _, _, _, _, _, size, chunkCount, persistent) =>
      persistent && size <= Transfer.MAX_DOCUMENT_BYTES && Transfer.BeginAllowed(size, chunkCount)
    case Append(_, _, chunk) =>
      && chunk.seqNo < Transfer.MAX_CHUNKS && 1 <= chunk.payload.size <= Transfer.MAX_CHUNK_BYTES
      && chunk.offset + chunk.payload.size <= Transfer.MAX_DOCUMENT_BYTES
    case _ => true
  }

  predicate ValidCounts(counts: Counts) {
    && counts.lists <= MAX_COUNT && counts.memberships <= MAX_COUNT
    && counts.media <= MAX_COUNT && counts.unresolved <= MAX_COUNT
    && counts.unresolved <= counts.memberships + counts.media
  }

  predicate ValidProgress(progress: Progress, maxSeq: nat, maxBytes: nat, ready: bool) {
    && (if ready then 1 else 0) <= progress.nextSeq <= maxSeq
    && (if ready then 1 else 0) <= progress.receivedBytes <= maxBytes
    && progress.nextSeq <= progress.receivedBytes <= progress.nextSeq * Transfer.MAX_CHUNK_BYTES
    && progress.idleExpires <= progress.absoluteExpires
  }

  predicate ValidReceipt(receipt: Receipt) {
    ValidCounts(receipt.counts) && receipt.outcome == Verified && receipt.persistent
  }

  predicate Distinct(ids: seq<string>) {
    forall i, j :: 0 <= i < j < |ids| ==> ids[i] != ids[j]
  }

  function Ids(rows: seq<Row>): (ids: seq<string>)
    ensures |ids| == |rows| && forall i :: 0 <= i < |rows| ==> ids[i] == rows[i].id
  {
    if rows == [] then [] else Ids(rows[..|rows| - 1]) + [rows[|rows| - 1].id]
  }

  function PlannedIds(stores: seq<Planned>): (ids: seq<string>)
    ensures |ids| == |stores| && forall i :: 0 <= i < |stores| ==> ids[i] == stores[i].id
  {
    if stores == [] then [] else PlannedIds(stores[..|stores| - 1]) + [stores[|stores| - 1].id]
  }

  /** The per-store outcomes that agree with an overall outcome. */
  predicate Agrees(rows: seq<Row>, outcome: Outcome) {
    match outcome
    case Verified => rows != [] && forall row :: row in rows ==> row.outcome == Verified
    case NotApplied => forall row :: row in rows ==> row.outcome == NotApplied
    case Partial =>
      && (forall row :: row in rows ==> row.outcome != Unknown)
      && ((exists row :: row in rows && row.outcome == Partial)
          || ((exists row :: row in rows && row.outcome == Verified)
              && (exists row :: row in rows && row.outcome == NotApplied)))
    case Unknown => true
  }

  predicate ValidRows(rows: seq<Row>, outcome: Outcome) {
    |rows| <= MAX_STORES && Distinct(Ids(rows)) && Agrees(rows, outcome)
  }

  predicate ValidPlan(body: Body) {
    && body.Previewed? && body.persistent && ValidCounts(body.counts)
    && body.diagnostics <= MAX_DIAGNOSTICS && body.diagnostics <= body.counts.unresolved
    && 1 <= |body.stores| <= MAX_STORES && Distinct(PlannedIds(body.stores))
  }

  /** The receipt a commit reply's own top-level fields spell. */
  function Projected(body: Body): Receipt
    requires body.CommitReply? && body.claims.Some?
  {
    var claims := body.claims.value;
    Receipt(body.operationId, body.scope, claims.newRevision, claims.documentSha, claims.planDigest, claims.counts,
            body.outcome, body.persistent)
  }

  predicate Answers(request: Request, body: Body) {
    match (request, body)
    case (Snapshot(_, scope), SnapshotOf(replied, _, sound)) => replied == scope && sound
    case (Begin(_, operationId, _, _, _, _, size, chunkCount, _), Begun(replied, _, progress)) =>
      replied == operationId && ValidProgress(progress, chunkCount, size, false)
    case (Append(_, transactionId, chunk), Appended(replied, reply)) =>
      && replied == transactionId && Transfer.AppendAccepted(chunk, reply)
      && reply.nextSeq <= Transfer.MAX_CHUNKS && reply.receivedBytes <= Transfer.MAX_DOCUMENT_BYTES
    case (Preview(_, transactionId), Previewed(replied, _, _, _, _, _, _, _, _)) =>
      replied == transactionId && ValidPlan(body)
    case (Query(_, operationId), Staged(replied, _, persistent, progress, readiness)) =>
      && replied == operationId && persistent
      && ValidProgress(progress, Transfer.MAX_CHUNKS, Transfer.MAX_DOCUMENT_BYTES, readiness.Some?)
    case (Query(_, operationId), Ended(replied, _, persistent, _, outcome, perStore)) =>
      replied == operationId && persistent && outcome == NotApplied && perStore == []
    case (Query(_, operationId), Committed(replied, outcome, persistent, perStore, receipt)) =>
      && replied == operationId && persistent && ValidRows(perStore, outcome)
      && (receipt.Some? <==> outcome == Verified)
      && (receipt.Some? ==> ValidReceipt(receipt.value) && receipt.value.operationId == operationId)
    case (Commit(_, transactionId, operationId, _, planDigest),
          CommitReply(ofTransaction, ofOperation, _, outcome, persistent, perStore, claims, receipt)) =>
      && ofTransaction == transactionId && ofOperation == operationId && persistent && ValidRows(perStore, outcome)
      && (claims.Some? <==> outcome == Verified) && (receipt.Some? <==> outcome == Verified)
      && (outcome == Verified ==> ValidReceipt(receipt.value) && receipt.value == Projected(body))
      && (outcome == Verified ==> receipt.value.planDigest == planDigest)
    case (Abort(_, transactionId), Aborted(replied, outcome, persistent, perStore)) =>
      replied == transactionId && outcome == NotApplied && persistent && perStore == []
    case _ => false
  }

  /** Everything about a reply that can be judged without a retained context. */
  predicate Shaped(request: Request, data: Data, status: Status) {
    && data.version == 1 && data.runtime == request.runtime && data.op == OpOf(request)
    && if data.body.Refusal? then status != Accepted && data.body.code in REFUSALS
       else status == Accepted && Answers(request, data.body)
  }

  /** The loop that judges a list of per-store rows. */
  method CheckRows(rows: seq<Row>, outcome: Outcome) returns (ok: bool)
    ensures ok <==> ValidRows(rows, outcome)
  {
    if |rows| > MAX_STORES { return false; }
    var seen: set<string>, outcomes: set<Outcome> := {}, {};
    var i := 0;
    while i < |rows|
      invariant 0 <= i <= |rows|
      invariant forall id :: id in seen <==> exists j :: 0 <= j < i && rows[j].id == id
      invariant forall o :: o in outcomes <==> exists j :: 0 <= j < i && rows[j].outcome == o
      invariant forall j, k :: 0 <= j < k < i ==> Ids(rows)[j] != Ids(rows)[k]
    {
      if rows[i].id in seen {
        var j :| 0 <= j < i && rows[j].id == rows[i].id;
        assert Ids(rows)[j] == Ids(rows)[i];
        return false;
      }
      seen, outcomes := seen + {rows[i].id}, outcomes + {rows[i].outcome};
      i := i + 1;
    }
    OutcomesShown(rows, outcomes);
    match outcome
    case Verified => ok := rows != [] && outcomes <= {Verified};
    case NotApplied => ok := outcomes <= {NotApplied};
    case Partial =>
      ok := Unknown !in outcomes && (Partial in outcomes || (Verified in outcomes && NotApplied in outcomes));
    case Unknown => ok := true;
  }

  /** The outcomes met along the rows decide whether the rows agree with a total. */
  lemma OutcomesShown(rows: seq<Row>, outcomes: set<Outcome>)
    requires forall o :: o in outcomes <==> exists j :: 0 <= j < |rows| && rows[j].outcome == o
    ensures forall o :: o in outcomes <==> exists row :: row in rows && row.outcome == o
    ensures forall o :: (forall row :: row in rows ==> row.outcome == o) <==> outcomes <= {o}
  {
    forall o | o in outcomes ensures exists row :: row in rows && row.outcome == o {
      var j :| 0 <= j < |rows| && rows[j].outcome == o;
      assert rows[j] in rows;
    }
    forall row | row in rows ensures row.outcome in outcomes {
      var j :| 0 <= j < |rows| && rows[j] == row;
      assert rows[j].outcome == row.outcome;
    }
    forall o ensures (forall row :: row in rows ==> row.outcome == o) <==> outcomes <= {o} {
      if outcomes <= {o} {
        forall row | row in rows ensures row.outcome == o { assert row.outcome in outcomes; }
      }
    }
  }

  // ---------------------------------------------------------------- retained evidence

  // A response that passed validation: its request, reply and, for a snapshot, the document.
  datatype Checked = Checked(request: Request, data: Data, status: Status)

  // The begin request, its reply, a ready preview, and the runtime status may be asked of instead.
  datatype Context = Context(begin: Request, begun: Data, preview: Data, statusRuntime: Option<string>)

  predicate Retained(context: Context) {
    && context.begin.Begin? && ValidRequest(context.begin)
    && context.begun.body.Begun? && Shaped(context.begin, context.begun, Accepted)
    && context.preview.body.Previewed?
    && Shaped(Preview(context.begin.runtime, context.begun.body.transactionId), context.preview, Accepted)
    && context.preview.body.ready
    && context.preview.body.baseRevision == context.begin.expectedRevision
    && context.preview.body.bindingRevision == context.begin.bindingRevision
  }

  function Retain(begin: Checked, preview: Checked): Result<Context, Error> {
    var context := Context(begin.request, begin.data, preview.data, None);
    if begin.status == Accepted && preview.status == Accepted && begin.request.Begin? && preview.request.Preview?
       && preview.request.runtime == begin.request.runtime
       && begin.data.body.Begun? && preview.request.transactionId == begin.data.body.transactionId
       && Retained(context)
    then Ok(context) else Err(ContextMismatch)
  }

  /** Status-only authority after a restart, from a current snapshot of the same scope and binding. */
  function Derive(context: Context, current: Checked): Result<Context, Error> {
    if Retained(context) && current.status == Accepted && current.request.Snapshot? && current.data.body.SnapshotOf?
       && current.request.scope == context.begin.scope && current.data.body.scope == context.begin.scope
       && current.data.body.bindingRevision == context.begin.bindingRevision
    then Ok(context.(statusRuntime := Some(current.request.runtime)))
    else Err(ContextMismatch)
  }

  function ReceiptOf(body: Body): Option<Receipt> {
    if body.Committed? then body.receipt
    else if body.CommitReply? && body.claims.Some? then Some(Projected(body))
    else None
  }

  function Runtime(context: Context): string
  {
    match context.statusRuntime case Some(runtime) => runtime case None => context.begin.runtime
  }

  function IdSet(ids: seq<string>): set<string> { set id | id in ids }

  predicate BoundBody(body: Body, context: Context)
    requires Retained(context)
  {
    var begin, transaction, preview := context.begin, context.begun.body.transactionId, context.preview.body;
    match body
    case CommitReply(ofTransaction, _, scope, _, _, perStore, _, _) =>
      ofTransaction == transaction && scope == begin.scope && BoundStores(perStore, preview.stores)
    case Committed(_, _, _, perStore, _) => BoundStores(perStore, preview.stores)
    case Ended(_, ofTransaction, _, scope, _, perStore) =>
      ofTransaction == transaction && scope == begin.scope && BoundStores(perStore, preview.stores)
    case Staged(_, ofTransaction, _, progress, readiness) =>
      && ofTransaction == transaction
      && progress.nextSeq <= begin.chunkCount && progress.receivedBytes <= begin.size
      && (readiness.Some? ==>
            && progress.nextSeq == begin.chunkCount && progress.receivedBytes == begin.size
            && readiness.value == Readiness(preview.planDigest, begin.expectedRevision, begin.bindingRevision))
    case _ => true
  }

  predicate BoundReceipt(receipt: Receipt, rows: seq<Row>, context: Context)
    requires Retained(context)
  {
    && receipt.operationId == context.begin.operationId && receipt.scope == context.begin.scope
    && receipt.documentSha == context.begin.documentSha && receipt.planDigest == context.preview.body.planDigest
    && receipt.counts == context.preview.body.counts
    && IdSet(Ids(rows)) == IdSet(PlannedIds(context.preview.body.stores))
  }

  /** What ties a commit or status reply to the retained evidence. */
  predicate Bound(request: Request, body: Body, context: Context)
    requires request.Commit? || request.Query?
  {
    && Retained(context)
    && var begin, transaction, preview := context.begin, context.begun.body.transactionId, context.preview.body;
    && (context.statusRuntime.Some? ==> request.Query?)
    && (context.statusRuntime.Some? && context.statusRuntime.value != begin.runtime ==> body.Committed?)
    && request.runtime == Runtime(context) && request.operationId == begin.operationId
    && (request.Commit? ==>
          && request.transactionId == transaction && request.expectedRevision == begin.expectedRevision
          && request.planDigest == preview.planDigest)
    && BoundBody(body, context)
    && (ReceiptOf(body).Some? ==> BoundReceipt(ReceiptOf(body).value, RowsOf(body), context))
  }

  predicate BoundStores(rows: seq<Row>, stores: seq<Planned>) {
    IdSet(Ids(rows)) <= IdSet(PlannedIds(stores))
  }

  function RowsOf(body: Body): seq<Row> {
    match body
    case CommitReply(_, _, _, _, _, perStore, _, _) => perStore
    case Committed(_, _, _, perStore, _) => perStore
    case _ => []
  }

  /** Whether a reply is acceptable at all, and then whether it is a verified commit receipt. */
  function Validate(request: Request, data: Data, status: Status, context: Option<Context>): Result<bool, Error> {
    if !ValidRequest(request) || !Shaped(request, data, status) then Err(InvalidProtocol)
    else if context.None? || data.body.Refusal? || !(request.Commit? || request.Query?) then Ok(false)
    else if !Bound(request, data.body, context.value) then Err(ContextMismatch)
    else Ok(ReceiptOf(data.body).Some?)
  }

  // ---------------------------------------------------------------- what may be retained

  predicate Valid(result: Checked) { Validate(result.request, result.data, result.status, None).Ok? }

  /** Validated responses are retained exactly when they are one begin and its own ready preview. */
  lemma RetainedExactly(begin: Checked, preview: Checked)
    requires Valid(begin) && Valid(preview)
    ensures Retain(begin, preview).Ok?
       <==> && begin.request.Begin? && begin.data.body.Begun?
            && preview.request == Preview(begin.request.runtime, begin.data.body.transactionId)
            && preview.data.body.Previewed? && preview.data.body.ready
            && preview.data.body.baseRevision == begin.request.expectedRevision
            && preview.data.body.bindingRevision == begin.request.bindingRevision
  {
  }

  /** And every context without derived authority is what retaining its own evidence gives. */
  lemma RetainGivesAll(context: Context)
    requires context.statusRuntime.None?
    ensures Retained(context) <==>
      && context.begin.Begin? && context.begun.body.Begun?
      && var begin := Checked(context.begin, context.begun, Accepted);
         var request := Preview(context.begin.runtime, context.begun.body.transactionId);
         var preview := Checked(request, context.preview, Accepted);
         Valid(begin) && Valid(preview) && Retain(begin, preview) == Ok(context)
  {
  }

  // ---------------------------------------------------------------- what "verified" is worth

  /** The one commit a retained context stands for. */
  function CommitOf(context: Context): Request
    requires Retained(context)
  {
    Commit(context.begin.runtime, context.begun.body.transactionId, context.begin.operationId,
           context.begin.expectedRevision, context.preview.body.planDigest)
  }

  /** The receipt the retained evidence determines, up to the revision the player chose. */
  function Expected(context: Context, newRevision: string): Receipt
    requires Retained(context)
  {
    Receipt(context.begin.operationId, context.begin.scope, newRevision, context.begin.documentSha,
            context.preview.body.planDigest, context.preview.body.counts, Verified, true)
  }

  /** Each planned store exactly once, each of them verified. */
  predicate Covers(rows: seq<Row>, stores: seq<Planned>) {
    && |rows| == |stores| && Distinct(Ids(rows)) && IdSet(Ids(rows)) == IdSet(PlannedIds(stores))
    && forall row :: row in rows ==> row.outcome == Verified
  }

  predicate Authorised(context: Context, request: Request)
    requires Retained(context)
  {
    request == Query(Runtime(context), context.begin.operationId)
    || (context.statusRuntime.None? && request == CommitOf(context))
  }

  /** The reply that attests a commit, written out in full. */
  function Attestation(context: Context, request: Request, newRevision: string, rows: seq<Row>): Data
    requires Retained(context) && Authorised(context, request)
  {
    var receipt := Expected(context, newRevision);
    Data(1, request.runtime, OpOf(request),
         if request.Query? then Committed(receipt.operationId, Verified, true, rows, Some(receipt))
         else CommitReply(request.transactionId, receipt.operationId, receipt.scope, Verified, true, rows,
                          Some(Claims(newRevision, receipt.documentSha, receipt.planDigest, receipt.counts)),
                          Some(receipt)))
  }

  lemma {:induction false} DistinctCount(ids: seq<string>)
    requires Distinct(ids)
    ensures |IdSet(ids)| == |ids|
  {
    if ids != [] {
      var last := |ids| - 1;
      assert Distinct(ids[..last]);
      DistinctCount(ids[..last]);
      SplitLast(ids);
      assert IdSet(ids) == IdSet(ids[..last]) + {ids[last]};
      assert ids[last] !in IdSet(ids[..last]);
    }
  }

  /** Naming exactly the planned stores is naming each of them once. */
  lemma CoversExactly(rows: seq<Row>, stores: seq<Planned>)
    requires 1 <= |stores| <= MAX_STORES && Distinct(PlannedIds(stores))
    ensures Covers(rows, stores) <==> ValidRows(rows, Verified) && IdSet(Ids(rows)) == IdSet(PlannedIds(stores))
  {
    DistinctCount(PlannedIds(stores));
    if Distinct(Ids(rows)) { DistinctCount(Ids(rows)); }
  }

  lemma VerifiedQuery(context: Context, request: Request, data: Data, status: Status)
    requires Retained(context) && Validate(request, data, status, Some(context)) == Ok(true) && request.Query?
    ensures status == Accepted && Authorised(context, request)
    ensures Covers(data.body.perStore, context.preview.body.stores)
    ensures data == Attestation(context, request, data.body.receipt.value.newRevision, data.body.perStore)
  {
    CoversExactly(data.body.perStore, context.preview.body.stores);
  }

  lemma VerifiedCommit(context: Context, request: Request, data: Data, status: Status)
    requires Retained(context) && Validate(request, data, status, Some(context)) == Ok(true) && request.Commit?
    ensures status == Accepted && Authorised(context, request)
    ensures Covers(data.body.perStore, context.preview.body.stores)
    ensures data == Attestation(context, request, data.body.claims.value.newRevision, data.body.perStore)
  {
    CoversExactly(data.body.perStore, context.preview.body.stores);
  }

  lemma AttestationVerifies(context: Context, request: Request, newRevision: string, rows: seq<Row>)
    requires Retained(context) && Authorised(context, request) && Covers(rows, context.preview.body.stores)
    ensures Validate(request, Attestation(context, request, newRevision, rows), Accepted, Some(context)) == Ok(true)
  {
    CoversExactly(rows, context.preview.body.stores);
  }

  /** The receipt of a verified reply is the expected one, and its rows cover the plan. */
  lemma VerifiedReceipt(context: Context, request: Request, data: Data)
    requires Retained(context) && Validate(request, data, Accepted, Some(context)) == Ok(true)
    ensures ReceiptOf(data.body).Some?
    ensures ReceiptOf(data.body).value == Expected(context, ReceiptOf(data.body).value.newRevision)
    ensures Covers(RowsOf(data.body), context.preview.body.stores)
  {
    if request.Query? {
      VerifiedQuery(context, request, data, Accepted);
    } else {
      VerifiedCommit(context, request, data, Accepted);
    }
  }

  lemma SameExpected(one: Context, two: Context, newRevision: string, other: string)
    requires Retained(one) && Retained(two) && SameEvidence(one, two)
    ensures Expected(two, other) == Expected(one, newRevision).(newRevision := other)
  {
  }

  /** The verified replies are exactly the attestations: nothing is free but the new revision and the row order. */
  lemma VerifiedIsExactly(context: Context, request: Request, data: Data, status: Status)
    requires Retained(context)
    ensures Validate(request, data, status, Some(context)) == Ok(true)
       <==> && status == Accepted && Authorised(context, request)
            && exists newRevision, rows ::
                 Covers(rows, context.preview.body.stores) && data == Attestation(context, request, newRevision, rows)
  {
    if Validate(request, data, status, Some(context)) == Ok(true) {
      if request.Query? {
        VerifiedQuery(context, request, data, status);
      } else {
        VerifiedCommit(context, request, data, status);
      }
    }
    if status == Accepted && Authorised(context, request) {
      forall newRevision, rows | Covers(rows, context.preview.body.stores)
          && data == Attestation(context, request, newRevision, rows)
        ensures Validate(request, data, status, Some(context)) == Ok(true)
      {
        AttestationVerifies(context, request, newRevision, rows);
      }
    }
  }

  predicate SameEvidence(one: Context, two: Context) {
    one.begin == two.begin && one.begun == two.begun && one.preview == two.preview
  }

  /**
   Two verified replies over the same evidence agree on everything but the new revision, whatever
   runtime answered.
   */
  lemma VerifiedReceiptsAgree(one: Context, two: Context, request: Request, again: Request, data: Data, later: Data)
    requires Retained(one) && SameEvidence(one, two)
    requires Validate(request, data, Accepted, Some(one)) == Ok(true)
    requires Validate(again, later, Accepted, Some(two)) == Ok(true)
    ensures ReceiptOf(data.body).Some? && ReceiptOf(later.body).Some?
    ensures
      var receipt := ReceiptOf(later.body).value;
      receipt == ReceiptOf(data.body).value.(newRevision := receipt.newRevision)
    ensures multiset(RowsOf(data.body)) == multiset(RowsOf(later.body))
  {
    SameRetained(one, two);
    VerifiedReceipt(one, request, data);
    VerifiedReceipt(two, again, later);
    SameExpected(one, two, ReceiptOf(data.body).value.newRevision, ReceiptOf(later.body).value.newRevision);
    SameRows(RowsOf(data.body), RowsOf(later.body), one.preview.body.stores);
  }

  lemma SameRetained(one: Context, two: Context)
    requires Retained(one) && SameEvidence(one, two)
    ensures Retained(two)
  {
  }

  lemma SameRows(one: seq<Row>, two: seq<Row>, stores: seq<Planned>)
    requires Covers(one, stores) && Covers(two, stores)
    ensures multiset(one) == multiset(two)
  {
    OnceEach(one);
    OnceEach(two);
    forall row ensures row in one <==> row in two {
      if row in one { var i :| 0 <= i < |one| && one[i] == row; assert Ids(one)[i] in IdSet(Ids(two)); }
      if row in two { var i :| 0 <= i < |two| && two[i] == row; assert Ids(two)[i] in IdSet(Ids(one)); }
    }
    forall row ensures multiset(one)[row] == multiset(two)[row] {
      assert row in one <==> row in multiset(one);
      assert row in two <==> row in multiset(two);
    }
  }

  lemma {:induction false} OnceEach(rows: seq<Row>)
    requires Distinct(Ids(rows))
    ensures forall row :: multiset(rows)[row] <= 1
  {
    if rows != [] {
      var last := |rows| - 1;
      assert Ids(rows[..last]) == Ids(rows)[..last];
      OnceEach(rows[..last]);
      SplitLast(rows);
      assert forall i :: 0 <= i < last ==> Ids(rows)[i] != Ids(rows)[last];
    }
  }

  // ---------------------------------------------------------------- restarts

  /** Any number of restarts, each proved by a snapshot. */
  function DeriveAll(context: Context, snapshots: seq<Checked>): Option<Context> {
    if snapshots == [] then Some(context)
    else
      match DeriveAll(context, snapshots[..|snapshots| - 1])
      case None => None
      case Some(derived) =>
        match Derive(derived, snapshots[|snapshots| - 1])
        case Ok(next) => Some(next)
        case Err(_) => None
  }

  /** However long the chain, the evidence is the original and only the last runtime counts. */
  lemma {:induction false} ChainKeepsEvidence(context: Context, snapshots: seq<Checked>)
    requires Retained(context) && DeriveAll(context, snapshots).Some?
    ensures Retained(DeriveAll(context, snapshots).value)
    ensures DeriveAll(context, snapshots).value ==
      if snapshots == [] then context
      else context.(statusRuntime := Some(snapshots[|snapshots| - 1].request.runtime))
  {
    if snapshots != [] { ChainKeepsEvidence(context, snapshots[..|snapshots| - 1]); }
  }

  /** An accepted snapshot reply: asked for the scope the transfer began in, replied for it, under its binding. */
  ghost predicate Proves(current: Checked, begin: Request)
    requires begin.Begin?
  {
    && current.status == Accepted
    && current.request.Snapshot? && current.request.scope == begin.scope
    && current.data.body.SnapshotOf? && current.data.body.scope == begin.scope
    && current.data.body.bindingRevision == begin.bindingRevision
  }

  /** A chain is possible exactly when each of its snapshots is of the original scope and binding. */
  lemma {:induction false} ChainWhen(context: Context, snapshots: seq<Checked>)
    requires Retained(context)
    ensures
      DeriveAll(context, snapshots).Some? <==> forall i :: 0 <= i < |snapshots| ==> Derive(context, snapshots[i]).Ok?
    ensures
      DeriveAll(context, snapshots).Some?
      <==> forall i :: 0 <= i < |snapshots| ==> Proves(snapshots[i], context.begin)
  {
    if snapshots != [] {
      var front := snapshots[..|snapshots| - 1];
      ChainWhen(context, front);
      if DeriveAll(context, front).Some? { ChainKeepsEvidence(context, front); }
      assert forall i :: 0 <= i < |front| ==> front[i] == snapshots[i];
    }
  }

  /** After any restart no commit reply is accepted, and on another runtime only a committed status is. */
  lemma RestartedAuthority(context: Context, snapshots: seq<Checked>, request: Request, data: Data)
    requires Retained(context) && snapshots != [] && DeriveAll(context, snapshots).Some?
    requires Validate(request, data, Accepted, DeriveAll(context, snapshots)).Ok?
    ensures !request.Commit?
    ensures request.Query? ==>
      && request == Query(snapshots[|snapshots| - 1].request.runtime, context.begin.operationId)
      && (snapshots[|snapshots| - 1].request.runtime != context.begin.runtime ==> data.body.Committed?)
  {
    ChainKeepsEvidence(context, snapshots);
  }

  /** A status verifies under one context exactly when the same body does under another with the same evidence. */
  lemma SameVerdict(one: Context, two: Context, body: Body)
    requires Retained(one) && SameEvidence(one, two)
    ensures Verifies(one, body) ==> Verifies(two, body)
  {
    SameRetained(one, two);
    if Verifies(one, body) {
      var request := Query(Runtime(one), one.begin.operationId);
      VerifiedQuery(one, request, StatusReply(one, body), Accepted);
      AttestationVerifies(two, Query(Runtime(two), two.begin.operationId), body.receipt.value.newRevision,
          body.perStore);
    }
  }

  /** The status reply with this body, from the runtime a context may ask, verifies. */
  ghost predicate Verifies(context: Context, body: Body)
    requires context.begin.Begin?
  {
    var request := Query(Runtime(context), context.begin.operationId);
    Validate(request, StatusReply(context, body), Accepted, Some(context)) == Ok(true)
  }

  ghost function StatusReply(context: Context, body: Body): Data { Data(1, Runtime(context), StatusOp, body) }

  /** A restart neither adds nor loses authority: a status verifies exactly when it would have before. */
  lemma RestartKeepsVerdicts(context: Context, snapshots: seq<Checked>, body: Body)
    requires Retained(context) && DeriveAll(context, snapshots).Some?
    ensures Verifies(DeriveAll(context, snapshots).value, body) <==> Verifies(context, body)
  {
    ChainKeepsEvidence(context, snapshots);
    SameVerdict(context, DeriveAll(context, snapshots).value, body);
    SameVerdict(DeriveAll(context, snapshots).value, context, body);
  }

  // ---------------------------------------------------------------- the transfer and its status

  lemma ReadyIsComplete(context: Context, data: Data)
    requires Retained(context) && data.body.Staged? && data.body.readiness.Some?
    requires Validate(Query(context.begin.runtime, context.begin.operationId), data, Accepted, Some(context)).Ok?
    ensures data.body.progress.nextSeq == context.begin.chunkCount
    ensures data.body.progress.receivedBytes == context.begin.size
  {
  }

  /** A ready status can only report what the last validated append of the plan reported. */
  lemma ReadyMatchesAppends(context: Context, raw: seq<byte>, tools: Transfer.Tools, limits: Transfer.Limits,
                            plan: Transfer.Plan, appends: seq<Request>, replies: seq<Data>, data: Data)
    requires Retained(context) && Transfer.Planned(raw, tools, limits, plan)
    requires context.begin.size == plan.size && context.begin.chunkCount == |plan.chunks|
    requires |appends| == |plan.chunks| == |replies|
    requires forall i :: 0 <= i < |appends| ==>
      && appends[i].Append? && appends[i].chunk == plan.chunks[i].chunk && replies[i].body.Appended?
      && Validate(appends[i], replies[i], Accepted, None).Ok?
    requires data.body.Staged? && data.body.readiness.Some?
    requires Validate(Query(context.begin.runtime, context.begin.operationId), data, Accepted, Some(context)).Ok?
    ensures replies != []
    ensures
      var progress := data.body.progress;
      replies[|replies| - 1].body.reply == Transfer.AppendReply(progress.nextSeq, progress.receivedBytes)
  {
    ReadyIsComplete(context, data);
    var answers := seq(|replies|, i requires 0 <= i < |replies| => replies[i].body.reply);
    forall i | 0 <= i < |answers| ensures Transfer.AppendAccepted(plan.chunks[i].chunk, answers[i]) {
      assert Validate(appends[i], replies[i], Accepted, None).Ok?;
    }
    Transfer.AppendsReachReady(raw, tools, limits, plan, answers, |answers| - 1);
  }
}
